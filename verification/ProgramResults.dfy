/** What the sequential programs and the processes of module Session say about each other. */
module ProgramResults {
  import opened Bytes
  import opened Wrappers
  import opened Streams
  import opened StreamProofs
  import opened Framing
  import opened Session
  import opened SessionSafety
  import opened Programs
  import opened PartyMoves
  import opened ClientProgram
  import opened ServerProgram

  // A whole path

  lemma SideStays(cfg: Config, p: Proc, e: Event, issued: set<Mic>)
    requires After(cfg, p, e, issued).Some?
    ensures ClientSide(p) <==> ClientSide(After(cfg, p, e, issued).value)
    ensures ClientSide(p) ==> MicTaken(cfg, p, e) == {}
    ensures !Handshaking(p) ==> !Handshaking(After(cfg, p, e, issued).value)
  {
  }

  /** Only a client asks for the MICs that have been issued. */
  lemma ServerIgnoresIssued(cfg: Config, p: Proc, e: Event, issued: set<Mic>, issued': set<Mic>)
    requires !ClientSide(p)
    ensures After(cfg, p, e, issued) == After(cfg, p, e, issued')
  {
  }

  /** Tokens have been recorded as long as the handshake went on. */
  predicate RecordedBy(cfg: Config, p: Proc, events: seq<Event>, issued: set<Mic>, log: seq<Recorded>,
                       log': seq<Recorded>) {
    (events == [] || (Path(cfg, p, events[..|events| - 1], issued).Some? &&
                      Handshaking(Path(cfg, p, events[..|events| - 1], issued).value)))
    ==> log' == log + Recording(events)
  }

  lemma ShortInit(events: seq<Event>, e: Event)
    requires Short(TokensReceived(events + [e]))
    ensures Short(TokensReceived(events)) && (e.Received? ==> |e.token| < LIMIT)
  {
    EventAdded(events, e);
    var tokens := TokensReceived(events + [e]);
    assert forall t :: t in TokensReceived(events) ==> t in tokens;
    assert e.Received? ==> e.token in tokens;
  }

  lemma FramesMoved(events: seq<Event>, e: Event, input: seq<Byte>, output: seq<Byte>)
    ensures Frames(TokensReceived(events)) + (Taken(e) + input) == Frames(TokensReceived(events + [e])) + input
    ensures output + Frames(TokensSent(events)) + Written(e) == output + Frames(TokensSent(events + [e]))
  {
    hide Frame, Frames;
    EventAdded(events, e);
    if e.Received? {
      FramesSnoc(TokensReceived(events), e.token);
    } else {
      assert TokensReceived(events) + [] == TokensReceived(events);
    }
    if e.Sent? {
      FramesSnoc(TokensSent(events), e.token);
    } else {
      assert TokensSent(events) + [] == TokensSent(events);
    }
  }

  lemma LogMoved(cfg: Config, p: Party, events: seq<Event>, e: Event, issued: set<Mic>, q: Party, q': Party)
    requires Path(cfg, p.proc, events, issued) == Some(q.proc)
    requires RecordedBy(cfg, p.proc, events, issued, p.log, q.log) && q'.log == q.log + Kept(q.proc, e)
    ensures RecordedBy(cfg, p.proc, events + [e], issued, p.log, q'.log)
  {
    EventAdded(events, e);
    hide Recording;
    assert (events + [e])[..|events|] == events;
    if Handshaking(q.proc) && events != [] {
      var init := events[..|events| - 1];
      SideStays(cfg, Path(cfg, p.proc, init, issued).value, events[|events| - 1], issued);
    }
  }

  /**
    * Every path of a process is realised by moves of its party in module Session: they read the
    * frames of the tokens received, write those of the tokens sent, issue the MICs taken, and record
    * the handshake as the program does.
    */
  lemma {:induction false} PathIsRealised(cfg: Config, p: Party, events: seq<Event>, input: seq<Byte>,
                                          output: seq<Byte>, issued: set<Mic>)
    returns (e': Effect)
    requires p.phase.Idle? && Path(cfg, p.proc, events, issued).Some? && Short(TokensReceived(events))
    ensures Reaches(cfg, Effect(p, Frames(TokensReceived(events)) + input, output, issued), e')
    ensures Path(cfg, p.proc, events, issued) == Some(e'.party.proc) && e'.party.phase.Idle?
    ensures e'.input == input && e'.output == output + Frames(TokensSent(events))
    ensures e'.issued == issued + MicsTaken(cfg, p.proc, events, issued)
    ensures ClientSide(p.proc) <==> ClientSide(e'.party.proc)
    ensures ClientSide(p.proc) ==> e'.issued == issued
    ensures RecordedBy(cfg, p.proc, events, issued, p.log, e'.party.log)
    decreases |events|
  {
    hide Frame, Reaches, After, ClientSide;
    if events == [] {
      assert [] + input == input && output + [] == output && issued + {} == issued && p.log + [] == p.log;
      e' := Effect(p, input, output, issued);
      Stays(cfg, e');
    } else {
      var init, last := events[..|events| - 1], events[|events| - 1];
      assert init + [last] == events;
      ShortInit(init, last);
      e' := PathIsRealised(cfg, p, init, Taken(last) + input, output, issued);
      var before := e';
      var q := before.party.proc;
      SideStays(cfg, q, last, issued);
      if !ClientSide(q) {
        ServerIgnoresIssued(cfg, q, last, issued, before.issued);
      }
      e' := EventIsRealised(cfg, before.party, last, input, before.output, before.issued);
      FramesMoved(init, last, input, output);
      GoesOn(cfg, Effect(p, Frames(TokensReceived(events)) + input, output, issued), before, e');
      MicsStep(cfg, p.proc, init, last, issued);
      assert before.issued + MicTaken(cfg, q, last)
        == issued + (MicsTaken(cfg, p.proc, init, issued) + MicTaken(cfg, q, last));
      LogMoved(cfg, p, init, last, issued, before.party, e'.party);
    }
  }

  /**
    * ... and with the very octets: what a program's calls wrote and read on its path, with either
    * offset, in whatever chunks, its party can write and read in a session, in the same chunks.
    */
  lemma {:induction false} ReplayIsRealised(cfg: Config, p: Party, events: seq<Event>, from: Traffic, to: Traffic,
                                            issued: set<Mic>)
    returns (p': Party, issued': set<Mic>)
    requires p.phase.Idle? && Path(cfg, p.proc, events, issued).Some? && Replayed(cfg, events, from, to)
    ensures Reaches(cfg, Effect(p, from.input, from.wire, issued), Effect(p', to.input, to.wire, issued'))
    ensures Path(cfg, p.proc, events, issued) == Some(p'.proc) && p'.phase.Idle?
    ensures issued' == issued + MicsTaken(cfg, p.proc, events, issued)
    ensures ClientSide(p.proc) <==> ClientSide(p'.proc)
    ensures ClientSide(p.proc) ==> issued' == issued
    ensures RecordedBy(cfg, p.proc, events, issued, p.log, p'.log)
    decreases |events|
  {
    hide Reaches, After, ClientSide, Carries;
    if events == [] {
      assert issued + {} == issued && p.log + [] == p.log;
      p', issued' := p, issued;
      Stays(cfg, Effect(p, from.input, from.wire, issued));
    } else {
      var init, last := events[..|events| - 1], events[|events| - 1];
      assert init + [last] == events;
      var mid :| Via(cfg, events, from, mid, to);
      p', issued' := ReplayIsRealised(cfg, p, init, from, mid, issued);
      var before, had := p', issued';
      SideStays(cfg, before.proc, last, issued);
      if !ClientSide(before.proc) {
        ServerIgnoresIssued(cfg, before.proc, last, issued, had);
      }
      p', issued' := EventReplayed(cfg, before, last, mid, to, had);
      GoesOn(cfg, Effect(p, from.input, from.wire, issued), Effect(before, mid.input, mid.wire, had),
             Effect(p', to.input, to.wire, issued'));
      MicsStep(cfg, p.proc, init, last, issued);
      assert had + MicTaken(cfg, before.proc, last)
        == issued + (MicsTaken(cfg, p.proc, init, issued) + MicTaken(cfg, before.proc, last));
      LogMoved(cfg, p, init, last, issued, before, p');
    }
  }

  // Frames on the streams

  predicate NoBrokenSend(events: seq<Event>) {
    forall e :: e in events ==> !e.SendBroken?
  }

  lemma FramesCarried(e: Event, a: Traffic, b: Traffic)
    requires Carries(RunningTotal, e, a, b)
    ensures a.input == Taken(e) + b.input && (!e.SendBroken? ==> b.wire == a.wire + Written(e))
  {
    hide Frame, SendResult, RecvResult;
    match e
    case Sent(t) => SendFrame(t, a.wire, a.answers); assert [] + b.input == b.input;
    case Received(t) =>
      var stack, heap :| Takes(RunningTotal, t, stack, heap, a, b);
      RecvIsFrame(stack, heap, a.input, a.answers);
      assert a.wire + [] == a.wire;
    case _ => assert [] + b.input == b.input && a.wire + [] == a.wire;
  }

  /**
    * With accumulating offsets the octets read are the frames of the tokens received, and without
    * failed sends the octets written are the frames of the tokens sent.
    */
  lemma {:induction false} ReplayedFrames(cfg: Config, events: seq<Event>, from: Traffic, to: Traffic)
    requires cfg.mode.RunningTotal? && Replayed(cfg, events, from, to)
    ensures from.input == Frames(TokensReceived(events)) + to.input
    ensures NoBrokenSend(events) ==> to.wire == from.wire + Frames(TokensSent(events))
    decreases |events|
  {
    if events == [] {
      assert [] + to.input == to.input && from.wire + [] == from.wire;
    } else {
      var init, last := events[..|events| - 1], events[|events| - 1];
      assert init + [last] == events;
      var mid :| Via(cfg, events, from, mid, to);
      ReplayedFrames(cfg, init, from, mid);
      hide Replayed, Frames, Frame, TokensSent, TokensReceived;
      FramesCarried(last, mid, to);
      FramesMoved(init, last, to.input, from.wire);
      assert last in events && forall e :: e in init ==> e in events;
    }
  }

  /** If the two calls of the event end well, neither has taken more than two chunks. */
  predicate EventInTwo(e: Event, a: Traffic) {
    match e
    case Sent(t) =>
      && |Counts(4, 4, a.answers)| <= 2
      && |Counts(|t|, |t|, WriteLoop(LastChunk, Big32(|t|), 0, 4, a.wire, a.answers).answers)| <= 2
    case Received(t) =>
      |a.input| >= 4 ==>
        && |Counts(4, |a.input|, a.answers)| <= 2
        && |Counts(|t|, |a.input| - 4, Left(4, a.input, a.answers))| <= 2
    case _ => true
  }

  lemma SentInTwo(t: Token, a: Traffic, b: Traffic)
    requires Carries(LastChunk, Sent(t), a, b) && EventInTwo(Sent(t), a)
    ensures Carries(RunningTotal, Sent(t), a, b)
  {
    hide WriteLoop, Counts, Sum, Big32;
    var header := WriteLoop(LastChunk, Big32(|t|), 0, 4, a.wire, a.answers);
    WriteDone(LastChunk, Big32(|t|), 0, 4, a.wire, a.answers);
    TwoChunksWritten(Big32(|t|), a.wire, a.answers);
    WriteDone(LastChunk, t, 0, |t|, header.wire, header.answers);
    TwoChunksWritten(t, header.wire, header.answers);
  }

  lemma ReceivedInTwo(t: Token, stack: Memory, heap: Memory, a: Traffic, b: Traffic)
    requires Takes(LastChunk, t, stack, heap, a, b) && EventInTwo(Received(t), a)
    ensures Takes(RunningTotal, t, stack, heap, a, b)
  {
    hide ReadLoop, Counts, Sum, Fresh, FromBig32, Left;
    var header := ReadLoop(LastChunk, Fresh(stack, 4), 0, 4, a.input, a.answers);
    DoneWhenCounted(LastChunk, Fresh(stack, 4), 0, 4, a.input, a.answers);
    ReadConsumes(LastChunk, Fresh(stack, 4), 0, 4, a.input, a.answers);
    TwoChunksRead(Fresh(stack, 4), 4, a.input, a.answers);
    LeftIs(LastChunk, Fresh(stack, 4), a.input, a.answers);
    var n := FromBig32(header.buf);
    DoneWhenCounted(LastChunk, Fresh(heap, n), 0, n, header.input, header.answers);
    TwoChunksRead(Fresh(heap, n), n, header.input, header.answers);
  }

  lemma CarriedInTwo(mode: Offsets, e: Event, a: Traffic, b: Traffic)
    requires Carries(mode, e, a, b) && EventInTwo(e, a) && !e.SendBroken?
    ensures Carries(RunningTotal, e, a, b)
  {
    if mode.LastChunk? {
      hide SendResult, RecvResult, EventInTwo;
      match e {
        case Sent(t) => SentInTwo(t, a, b);
        case Received(t) =>
          var stack, heap :| Takes(LastChunk, t, stack, heap, a, b);
          ReceivedInTwo(t, stack, heap, a, b);
        case _ =>
      }
    }
  }

  /** No call on the path takes more than two chunks. */
  ghost predicate PathInTwo(cfg: Config, events: seq<Event>, from: Traffic) {
    events == [] ||
    (&& PathInTwo(cfg, events[..|events| - 1], from)
     && NextInTwo(cfg, events[..|events| - 1], events[|events| - 1], from))
  }

  ghost predicate NextInTwo(cfg: Config, events: seq<Event>, e: Event, from: Traffic) {
    forall mid :: Replayed(cfg, events, from, mid) ==> EventInTwo(e, mid)
  }

  /** As written, a path none of whose calls takes more than two chunks is one of the accumulating program. */
  lemma {:induction false} ReplayedInTwo(cfg: Config, events: seq<Event>, from: Traffic, to: Traffic)
    requires Replayed(cfg, events, from, to) && PathInTwo(cfg, events, from) && NoBrokenSend(events)
    ensures Replayed(cfg.(mode := RunningTotal), events, from, to)
    decreases |events|
  {
    hide Carries, EventInTwo;
    if events != [] {
      var init, last := events[..|events| - 1], events[|events| - 1];
      assert init + [last] == events;
      assert last in events && forall e :: e in init ==> e in events;
      var mid :| Via(cfg, events, from, mid, to);
      ReplayedInTwo(cfg, init, from, mid);
      CarriedInTwo(cfg.mode, last, mid, to);
      hide Replayed;
      ReplayedStep(cfg.(mode := RunningTotal), init, last, from, mid, to);
    }
  }

  /** So then the octets on its streams are the frames of the tokens, too. */
  lemma AsWrittenFrames(cfg: Config, events: seq<Event>, from: Traffic, to: Traffic)
    requires Replayed(cfg, events, from, to) && PathInTwo(cfg, events, from) && NoBrokenSend(events)
    ensures from.input == Frames(TokensReceived(events)) + to.input
    ensures to.wire == from.wire + Frames(TokensSent(events))
  {
    ReplayedInTwo(cfg, events, from, to);
    ReplayedFrames(cfg.(mode := RunningTotal), events, from, to);
  }

  // Delivery

  /**
    * The two programs, whatever happens to either on the way: a client that returns 0, given the MICs
    * that the server has taken, has completed a context (after m events) whose key is that of the
    * context completed by the server (after k), and the token the server received next under that
    * key unwrapped to exactly the client's message with its NUL. The one MIC taken is over it.
    */
  lemma ProgramsConfirmDelivery(cfg: Config, client: seq<Event>, server: seq<Event>)
    returns (m: nat, k: nat, key: nat)
    requires MicSound(cfg.mech) && InitiatorContract(cfg.mech)
    requires Path(cfg, Listening([]), server, {}).Some?
    requires var issued := MicsTaken(cfg, Listening([]), server, {});
             Path(cfg, Initiating([[]]), client, issued) == Some(ClientReturned(0))
    ensures var issued := MicsTaken(cfg, Listening([]), server, {});
            && m < |client| && Verified(cfg, client, issued, m, key)
            && issued == {Mic(key, cfg.message + [0], cfg.mech.getMic(key, cfg.message + [0]))}
    ensures k < |server| && Unwrapped(cfg, server, k, key, cfg.message + [0])
    ensures cfg.mech.accept(Held(cfg, server[..k])).Complete? && key == cfg.mech.acceptorKey(Held(cfg, server[..k]))
  {
    var issued := MicsTaken(cfg, Listening([]), server, {});
    m, key := ReturnsVerified(cfg, client, issued);
    var mic := Mic(key, cfg.Text(), client[m].token);
    assert mic in issued;
    k := MicOrigin(cfg, server, mic);
    ServerAccepts(cfg, server[..k]);
  }
}
