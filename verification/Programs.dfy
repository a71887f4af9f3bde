/**
  * client.c and server.c as the sequential programs they are, over a socket and, on the client, over
  * a ledger of what GSS-API and the system have handed out. Both are proved to be the processes of
  * module Session; the client is proved to give everything back.
  */
module Programs {
  import opened Bytes
  import opened Wrappers
  import opened Streams
  import opened StreamProofs
  import opened Framing
  import opened Session

  // What may go wrong from outside

  /** Calls that may fail for reasons of their own; in the handshake told apart by the tokens recorded before. */
  datatype Call =
    | Connect | ImportName | InitSecContext(tokens: nat) | InquireContext | WrapSizeLimit(confidential: bool)
    | DisplaySource | DisplayTarget | Wrap | DeleteSecContext
    | AcceptSecContext(tokens: nat) | DisplayClient | GetMic

  type Faults = Call -> bool

  /** Neither a call nor a read or write fails. */
  ghost predicate Healthy(faults: Faults, answers: seq<Answer>) {
    AllChunks(answers) && forall c :: !faults(c)
  }

  lemma HealthyMeans(faults: Faults, answers: seq<Answer>, c: Call)
    requires Healthy(faults, answers)
    ensures AllChunks(answers) && !faults(c)
  {
  }

  // Paths of a process, one token or one quiet step at a time

  datatype Event = Quiet | Sent(token: Token) | SendBroken(token: Token) | Received(token: Token) | Broke

  function After(cfg: Config, p: Proc, e: Event, issued: set<Mic>): Option<Proc> {
    match e
    case Broke => Some(Broken(p))
    case Quiet => if Act(cfg, p).Compute? then Some(Act(cfg, p).next) else None
    case Sent(t) => if Act(cfg, p).Send? && Act(cfg, p).token == t then Some(Act(cfg, p).next) else None
    case SendBroken(t) =>
      if Act(cfg, p).Send? && Act(cfg, p).token == t then Some(SendFailed(Act(cfg, p).next)) else None
    case Received(t) => if Act(cfg, p).Receive? then Some(OnReceive(cfg, p, t, issued)) else None
  }

  /** Where the events lead, if the process can take them. */
  function Path(cfg: Config, p: Proc, events: seq<Event>, issued: set<Mic>): Option<Proc> {
    if events == [] then Some(p)
    else
      match Path(cfg, p, events[..|events| - 1], issued)
      case None => None
      case Some(q) => After(cfg, q, events[|events| - 1], issued)
  }

  lemma PathStep(cfg: Config, p: Proc, events: seq<Event>, e: Event, issued: set<Mic>)
    ensures Path(cfg, p, events + [e], issued)
         == match Path(cfg, p, events, issued) { case None => None case Some(q) => After(cfg, q, e, issued) }
  {
    assert (events + [e])[..|events|] == events;
  }

  /** Nothing failed on the way. */
  predicate Clean(events: seq<Event>) {
    forall e :: e in events ==> !e.Broke? && !e.SendBroken?
  }

  function TokensSent(events: seq<Event>): seq<Token> {
    if events == [] then []
    else TokensSent(events[..|events| - 1]) + (if events[|events| - 1].Sent? then [events[|events| - 1].token] else [])
  }

  function TokensReceived(events: seq<Event>): seq<Token> {
    if events == [] then []
    else
      TokensReceived(events[..|events| - 1]) +
      (if events[|events| - 1].Received? then [events[|events| - 1].token] else [])
  }

  /** The MIC that a step takes: gss_get_mic comes before the send. */
  function MicTaken(cfg: Config, p: Proc, e: Event): set<Mic> {
    match p
    case Signing(Some((key, text))) =>
      if e.Sent? || e.SendBroken? then {Mic(key, text, cfg.mech.getMic(key, text))} else {}
    case _ => {}
  }

  function MicsTaken(cfg: Config, p: Proc, events: seq<Event>, issued: set<Mic>): set<Mic> {
    if events == [] then {}
    else
      var init := events[..|events| - 1];
      MicsTaken(cfg, p, init, issued) +
      (match Path(cfg, p, init, issued) case None => {} case Some(q) => MicTaken(cfg, q, events[|events| - 1]))
  }

  lemma MicsStep(cfg: Config, p: Proc, events: seq<Event>, e: Event, issued: set<Mic>)
    requires Path(cfg, p, events, issued).Some?
    ensures MicsTaken(cfg, p, events + [e], issued)
         == MicsTaken(cfg, p, events, issued) + MicTaken(cfg, Path(cfg, p, events, issued).value, e)
  {
    assert (events + [e])[..|events|] == events;
  }

  /** How many tokens have been sent or received. */
  function Moved(events: seq<Event>): nat {
    |TokensSent(events)| + |TokensReceived(events)|
  }

  /** Tokens are recorded before they are sent and after they are received. */
  function Recording(events: seq<Event>): seq<Recorded> {
    if events == [] then []
    else
      Recording(events[..|events| - 1]) +
      (match events[|events| - 1]
       case Sent(t) => [Recorded(true, t)]
       case SendBroken(t) => [Recorded(true, t)]
       case Received(t) => [Recorded(false, t)]
       case _ => [])
  }

  lemma EventAdded(events: seq<Event>, e: Event)
    ensures TokensSent(events + [e]) == TokensSent(events) + (if e.Sent? then [e.token] else [])
    ensures TokensReceived(events + [e]) == TokensReceived(events) + (if e.Received? then [e.token] else [])
    ensures Recording(events + [e]) == Recording(events) +
              (match e
               case Sent(t) => [Recorded(true, t)]
               case SendBroken(t) => [Recorded(true, t)]
               case Received(t) => [Recorded(false, t)]
               case _ => [])
  {
    assert (events + [e])[..|events|] == events;
  }

  // Sending and receiving, as frames

  lemma {:induction false} ReadShrinks(mode: Offsets, buf: seq<Byte>, off: nat, len: nat, input: seq<Byte>,
                                       answers: seq<Answer>)
    requires off + len <= |buf|
    ensures var r := ReadLoop(mode, buf, off, len, input, answers);
            && |r.answers| <= |answers| && (r.status.Done? && len > 0 ==> |r.answers| < |answers|)
            && (r.status.Running? ==> r.answers == [])
            && (AllChunks(answers) ==> !r.status.Failed? && AllChunks(r.answers))
    decreases |answers|
  {
    if len > 0 && answers != [] && answers[0].Chunk? {
      var n := ReadCount(answers[0].limit, len, |input|);
      ReadShrinks(mode, Store(buf, off, input[..n]), Advance(mode, off, n), len - n, input[n..], answers[1..]);
    }
  }

  lemma {:induction false} WriteShrinks(mode: Offsets, buf: seq<Byte>, off: nat, len: nat, wire: seq<Byte>,
                                        answers: seq<Answer>)
    requires off + len <= |buf|
    ensures var w := WriteLoop(mode, buf, off, len, wire, answers);
            && |w.answers| <= |answers| && (w.status.Done? && len > 0 ==> |w.answers| < |answers|)
            && (w.status.Running? ==> w.answers == [])
            && (AllChunks(answers) ==> !w.status.Failed? && AllChunks(w.answers))
    decreases |answers|
  {
    if len > 0 && answers != [] && answers[0].Chunk? {
      var n := Min(answers[0].limit, len);
      WriteShrinks(mode, buf, Advance(mode, off, n), len - n, wire + buf[off..off + n], answers[1..]);
    }
  }

  lemma Big32Unique(s: seq<Byte>)
    requires |s| == 4
    ensures Big32(FromBig32(s)) == s
  {
    var n := FromBig32(s);
    var b := s[0] as int * 0x100 + s[1];
    var c := b * 0x100 + s[2];
    assert n == c * 0x100 + s[3];
    Quotients(n);
    assert n / 0x100 == c && n % 0x100 == s[3];
    assert c / 0x100 == b && c % 0x100 == s[2];
    assert b / 0x100 == s[0] && b % 0x100 == s[1];
  }

  /** What an accumulating recv_token takes from the stream is the frame of what it returns. */
  lemma RecvIsFrame(stack: Memory, heap: Memory, input: seq<Byte>, answers: seq<Answer>)
    ensures var r := RecvResult(RunningTotal, stack, heap, input, answers);
            r.status.Done? ==> input == Frame(r.buf) + r.input
  {
    hide ReadLoop, Fresh, Big32, FromBig32;
    var header := ReadLoop(RunningTotal, Fresh(stack, 4), 0, 4, input, answers);
    ReadWhole(Fresh(stack, 4), input, answers);
    if header.status.Done? {
      Big32Unique(header.buf);
      ReadWhole(Fresh(heap, FromBig32(header.buf)), header.input, header.answers);
      var r := RecvResult(RunningTotal, stack, heap, input, answers);
      if r.status.Done? {
        assert input == input[..4] + input[4..] && header.input == r.buf + r.input;
      }
    }
  }

  /** recv_token with either offset; the ghost results are what memory held before. */
  method GetToken(mode: Offsets, fd: Socket)
    returns (status: Status, token: Token, ghost stack: Memory, ghost heap: Memory)
    modifies fd`incoming, fd`answers
    ensures var r := RecvResult(mode, stack, heap, old(fd.incoming), old(fd.answers));
            && status == r.status && fd.incoming == r.input && fd.answers == r.answers
            && (status.Done? ==> token == r.buf)
    ensures |fd.answers| <= |old(fd.answers)| && (status.Done? ==> |fd.answers| < |old(fd.answers)|)
    ensures status.Running? ==> fd.answers == []
    ensures AllChunks(old(fd.answers)) ==> !status.Failed? && AllChunks(fd.answers)
  {
    ghost var input, answers := fd.incoming, fd.answers;
    status, token, stack, heap := RecvToken(mode, fd);
    hide ReadLoop, Fresh, FromBig32;
    ghost var header := ReadLoop(mode, Fresh(stack, 4), 0, 4, input, answers);
    ReadShrinks(mode, Fresh(stack, 4), 0, 4, input, answers);
    if header.status.Done? {
      ghost var len := FromBig32(header.buf);
      ReadShrinks(mode, Fresh(heap, len), 0, len, header.input, header.answers);
    }
  }

  /** send_token with either offset. */
  method PutToken(mode: Offsets, fd: Socket, token: Token) returns (status: Status)
    modifies fd`outgoing, fd`answers
    ensures Writing(status, fd.outgoing, fd.answers) == SendResult(mode, token, old(fd.outgoing), old(fd.answers))
    ensures |fd.answers| <= |old(fd.answers)| && (status.Done? ==> |fd.answers| < |old(fd.answers)|)
    ensures status.Running? ==> fd.answers == []
    ensures AllChunks(old(fd.answers)) ==> !status.Failed? && AllChunks(fd.answers)
  {
    ghost var wire, answers := fd.outgoing, fd.answers;
    status := SendToken(mode, fd, token);
    hide WriteLoop, Big32;
    ghost var header := WriteLoop(mode, Big32(|token|), 0, 4, wire, answers);
    WriteShrinks(mode, Big32(|token|), 0, 4, wire, answers);
    WriteShrinks(mode, token, 0, |token|, header.wire, header.answers);
  }

  // What the events of a path do to the streams

  /** The octets written, the octets still to be read, and the answers still to be given. */
  datatype Traffic = Traffic(wire: seq<Byte>, input: seq<Byte>, answers: seq<Answer>)

  function Now(fd: Socket): Traffic
    reads fd
  {
    Traffic(fd.outgoing, fd.incoming, fd.answers)
  }

  /** The calls of one event, with either offset: what send_token writes and recv_token reads, to the octet. */
  ghost predicate Carries(mode: Offsets, e: Event, a: Traffic, b: Traffic) {
    match e
    case Sent(t) =>
      var w := SendResult(mode, t, a.wire, a.answers);
      w.status.Done? && b == Traffic(w.wire, a.input, w.answers)
    case SendBroken(t) =>
      var w := SendResult(mode, t, a.wire, a.answers);
      w.status.Failed? && b == Traffic(w.wire, a.input, w.answers)
    case Received(t) => exists stack, heap :: Takes(mode, t, stack, heap, a, b)
    case _ => b == a
  }

  predicate Takes(mode: Offsets, token: Token, stack: Memory, heap: Memory, a: Traffic, b: Traffic) {
    var r := RecvResult(mode, stack, heap, a.input, a.answers);
    r.status.Done? && r.buf == token && b == Traffic(a.wire, r.input, r.answers)
  }

  /** The events one after the other lead the streams from one state to the other. */
  ghost predicate Replayed(cfg: Config, events: seq<Event>, from: Traffic, to: Traffic)
    decreases |events|, 1
  {
    if events == [] then to == from else exists mid :: Via(cfg, events, from, mid, to)
  }

  ghost predicate Via(cfg: Config, events: seq<Event>, from: Traffic, mid: Traffic, to: Traffic)
    requires events != []
    decreases |events|, 0
  {
    Replayed(cfg, events[..|events| - 1], from, mid) && Carries(cfg.mode, events[|events| - 1], mid, to)
  }

  lemma ReplayedStep(cfg: Config, events: seq<Event>, e: Event, from: Traffic, mid: Traffic, to: Traffic)
    requires Replayed(cfg, events, from, mid) && Carries(cfg.mode, e, mid, to)
    ensures Replayed(cfg, events + [e], from, to)
  {
    hide Carries;
    assert (events + [e])[..|events|] == events;
    assert Via(cfg, events + [e], from, mid, to);
  }

  // The ledger

  /**
    * Handles count up. Each is live until it is released; releases of handles that are not live any
    * more are kept apart.
    */
  class Ledger {
    var acquired: nat
    var live: set<nat>
    var released: seq<nat>
    var again: seq<nat>

    predicate Valid()
      reads this
    {
      && (forall h :: h in live ==> h < acquired)
      && (forall k :: 0 <= k < |released| ==> released[k] < acquired && released[k] !in live)
      && (forall k, l :: 0 <= k < l < |released| ==> released[k] != released[l])
      && (forall h :: 0 <= h < acquired && h !in live ==> h in released)
    }

    constructor ()
      ensures Valid() && acquired == 0 && live == {} && released == [] && again == []
    {
      acquired, live, released, again := 0, {}, [], [];
    }

    lemma Bounded()
      requires Valid()
      ensures forall h :: h in live ==> h < acquired
    {
    }

    /** What has been acquired since and is not live has been released. */
    lemma NothingKept(since: nat)
      requires Valid() && forall h :: h in live ==> h < since
      ensures forall h :: since <= h < acquired ==> h in released
    {
    }

    method Acquire() returns (h: nat)
      requires Valid()
      modifies this
      ensures Valid() && h == old(acquired) && h !in old(live)
      ensures acquired == old(acquired) + 1 && live == old(live) + {h}
      ensures released == old(released) && again == old(again)
    {
      h := acquired;
      acquired, live := acquired + 1, live + {h};
    }

    /** Using a handle demands that it is live. */
    method Use(h: nat)
      requires Valid() && h in live
    {
    }

    method Release(h: nat)
      requires Valid() && h in live
      modifies this
      ensures Valid() && live == old(live) - {h} && acquired == old(acquired) && released == old(released) + [h]
      ensures again == old(again)
    {
      live, released := live - {h}, released + [h];
    }

    /** A release by code that does not know whether the handle is live. */
    method Discard(h: nat)
      requires Valid()
      modifies this
      ensures Valid() && live == old(live) - {h} && acquired == old(acquired)
      ensures again == if h in old(live) then old(again) else old(again) + [h]
    {
      if h in live {
        Release(h);
      } else {
        again := again + [h];
      }
    }
  }

  function Handles(h: Option<nat>): set<nat> {
    if h.Some? then {h.value} else {}
  }

  function Count(h: Option<nat>): nat {
    if h.Some? then 1 else 0
  }

  /** Nothing has happened yet. */
  lemma EmptyPath(cfg: Config, p: Proc, issued: set<Mic>, from: Traffic)
    ensures Path(cfg, p, [], issued) == Some(p)
    ensures Replayed(cfg, [], from, from) && Recording([]) == [] && Moved([]) == 0 && Clean([])
  {
  }

  /** Sending as the next step of a process: the path, the streams and the recording go along. */
  method SendOn(cfg: Config, fd: Socket, token: Token, log: seq<Recorded>, ghost start: Proc, ghost issued: set<Mic>,
                ghost events: seq<Event>, ghost from: Traffic)
    returns (status: Status, log': seq<Recorded>, ghost events': seq<Event>)
    requires Path(cfg, start, events, issued).Some?
    requires Act(cfg, Path(cfg, start, events, issued).value).Send?
              && Act(cfg, Path(cfg, start, events, issued).value).token == token
    requires Replayed(cfg, events, from, Now(fd)) && log == Recording(events)
    modifies fd`outgoing, fd`answers
    ensures |fd.answers| <= |old(fd.answers)| && (status.Done? ==> |fd.answers| < |old(fd.answers)|)
    ensures status.Running? ==> fd.answers == []
    ensures AllChunks(old(fd.answers)) ==>
              !status.Failed? && AllChunks(fd.answers) && (Clean(events) ==> Clean(events'))
    ensures var next := Act(cfg, Path(cfg, start, events, issued).value).next;
            && (status.Done? ==> Path(cfg, start, events', issued) == Some(next))
            && (status.Failed? ==> Path(cfg, start, events', issued) == Some(SendFailed(next)))
    ensures !status.Running? ==>
              Replayed(cfg, events', from, Now(fd)) && log' == Recording(events')
    ensures events'
         == events + match status { case Done => [Sent(token)] case Failed => [SendBroken(token)] case Running => [] }
    ensures status.Done? ==> Moved(events') == Moved(events) + 1 && (Clean(events) ==> Clean(events'))
  {
    hide Replayed, Act, Path, Recording, TokensSent, TokensReceived, SendFailed, Frame, Big32;
    log' := log + [Recorded(true, token)];
    ghost var before := Now(fd);
    status := PutToken(cfg.mode, fd, token);
    ghost var e := if status.Done? then Sent(token) else SendBroken(token);
    events' := if status.Running? then events else events + [e];
    PathStep(cfg, start, events, e, issued);
    EventAdded(events, e);
    if !status.Running? {
      ReplayedStep(cfg, events, e, from, before, Now(fd));
    }
    assert status.Running? ==> events + [] == events;
  }

  method ReceiveOn(cfg: Config, fd: Socket, log: seq<Recorded>, ghost start: Proc, ghost issued: set<Mic>,
                   ghost events: seq<Event>, ghost from: Traffic)
    returns (status: Status, token: Token, log': seq<Recorded>, ghost events': seq<Event>)
    requires Path(cfg, start, events, issued).Some? && Act(cfg, Path(cfg, start, events, issued).value).Receive?
    requires Replayed(cfg, events, from, Now(fd)) && log == Recording(events)
    modifies fd`incoming, fd`answers
    ensures |fd.answers| <= |old(fd.answers)| && (status.Done? ==> |fd.answers| < |old(fd.answers)|)
    ensures status.Running? ==> fd.answers == []
    ensures AllChunks(old(fd.answers)) ==>
              !status.Failed? && AllChunks(fd.answers) && (Clean(events) ==> Clean(events'))
    ensures events'
         == events + match status { case Done => [Received(token)] case Failed => [Broke] case Running => [] }
    ensures status.Failed? ==>
              Path(cfg, start, events', issued) == Some(Broken(Path(cfg, start, events, issued).value))
                && log' == Recording(events')
    ensures status.Done? ==> Moved(events') == Moved(events) + 1 && (Clean(events) ==> Clean(events'))
    ensures status.Done? ==>
              && Path(cfg, start, events', issued)
                == Some(OnReceive(cfg, Path(cfg, start, events, issued).value, token, issued))
              && Replayed(cfg, events', from, Now(fd)) && log' == Recording(events')
  {
    hide Replayed, Act, OnReceive, Path, Recording, TokensSent, TokensReceived, Frame, Big32, Broken;
    log', events' := log, events;
    ghost var before := Now(fd);
    ghost var stack, heap;
    status, token, stack, heap := GetToken(cfg.mode, fd);
    if status.Done? {
      log' := log + [Recorded(false, token)];
      events' := events + [Received(token)];
      PathStep(cfg, start, events, Received(token), issued);
      EventAdded(events, Received(token));
      assert Takes(cfg.mode, token, stack, heap, before, Now(fd));
      ReplayedStep(cfg, events, Received(token), from, before, Now(fd));
    } else if status.Failed? {
      events' := events + [Broke];
      PathStep(cfg, start, events, Broke, issued);
      EventAdded(events, Broke);
    } else {
      assert events + [] == events;
    }
  }

  /** A step without a token. */
  lemma QuietOn(cfg: Config, start: Proc, issued: set<Mic>, events: seq<Event>, from: Traffic, to: Traffic)
    requires Path(cfg, start, events, issued).Some? && Act(cfg, Path(cfg, start, events, issued).value).Compute?
    requires Replayed(cfg, events, from, to)
    ensures Path(cfg, start, events + [Quiet], issued) == Some(Act(cfg, Path(cfg, start, events, issued).value).next)
    ensures Replayed(cfg, events + [Quiet], from, to)
              && Recording(events + [Quiet]) == Recording(events)
    ensures Moved(events + [Quiet]) == Moved(events) && (Clean(events) ==> Clean(events + [Quiet]))
  {
    hide Act, Path, Recording, TokensSent, TokensReceived, Replayed;
    PathStep(cfg, start, events, Quiet, issued);
    EventAdded(events, Quiet);
    ReplayedStep(cfg, events, Quiet, from, to, to);
  }

  /** A failed GSS call. */
  lemma BrokenOn(cfg: Config, start: Proc, issued: set<Mic>, events: seq<Event>, from: Traffic, to: Traffic)
    requires Path(cfg, start, events, issued).Some? && Replayed(cfg, events, from, to)
    ensures Path(cfg, start, events + [Broke], issued) == Some(Broken(Path(cfg, start, events, issued).value))
    ensures Replayed(cfg, events + [Broke], from, to)
              && Recording(events + [Broke]) == Recording(events)
  {
    hide Act, Path, Recording, TokensSent, TokensReceived, Replayed;
    PathStep(cfg, start, events, Broke, issued);
    EventAdded(events, Broke);
    ReplayedStep(cfg, events, Broke, from, to, to);
  }

  // The processes of the interleaved session take the same steps

  /** The call in progress is the one the process has asked for. */
  predicate PhaseMatches(cfg: Config, p: Party) {
    match p.phase
    case Idle => true
    case Sending(_, _, t, next) => Act(cfg, p.proc) == Action.Send(t, next)
    case Receiving(_, _) => Act(cfg, p.proc).Receive?
  }

  /** Every move of a party in module Session is an event of its path, or no event yet. */
  lemma MovesAreEvents(cfg: Config, p: Party, input: seq<Byte>, output: seq<Byte>, issued: set<Mic>, move: Move)
    returns (e: Option<Event>)
    requires PhaseMatches(cfg, p) && StepParty(cfg, p, input, output, issued, move).Some?
    ensures var p' := StepParty(cfg, p, input, output, issued, move).value.party;
            && PhaseMatches(cfg, p')
            && (if e.None? then p'.proc == p.proc else After(cfg, p.proc, e.value, issued) == Some(p'.proc))
  {
    hide Act, OnReceive, Broken, SendFailed;
    match move
    case Fault => e := Some(if p.phase.Sending? then SendBroken(p.phase.token) else Broke);
    case Local(_) =>
      match p.phase {
        case Idle => e := if Act(cfg, p.proc).Compute? then Some(Quiet) else None;
        case Sending(header, _, t, _) => e := if header then None else Some(Sent(t));
        case Receiving(header, io) => e := if header && |io.buf| == 4 then None else Some(Received(io.buf));
      }
    case _ => e := None;
  }
}
