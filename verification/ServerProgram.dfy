/** server.c: establish_context, sign_message and the part of talk_to_client behind accept. */
module ServerProgram {
  import opened Wrappers
  import opened Streams
  import opened StreamProofs
  import opened Session
  import opened SessionSafety
  import opened Programs

  /** gss_accept_sec_context failed, by itself or because the mechanism says so. */
  lemma Refused(cfg: Config, fault: bool, inputs: seq<Token>, events: seq<Event>,
                from: Traffic, to: Traffic) returns (events': seq<Event>)
    requires Path(cfg, Listening([]), events, {}) == Some(Accepting(inputs))
    requires Replayed(cfg, events, from, to) && (fault || cfg.mech.accept(inputs).Failure?)
    ensures Path(cfg, Listening([]), events', {}) == Some(ServerReturned(-1)) && Recording(events') == Recording(events)
    ensures Clean(events) && !fault ==> Clean(events')
  {
    hide Replayed, Path, Recording, Clean;
    if fault {
      BrokenOn(cfg, Listening([]), {}, events, from, to);
      events' := events + [Broke];
    } else {
      QuietOn(cfg, Listening([]), {}, events, from, to);
      events' := events + [Quiet];
    }
  }

  /** Where the acceptor goes when it has an answer. */
  function Answering(cfg: Config, inputs: seq<Token>): Proc {
    if cfg.mech.accept(inputs).Complete? then AwaitingMessage(Some(cfg.mech.acceptorKey(inputs))) else Listening(inputs)
  }

  /** The call gave no token to send. */
  lemma Silent(cfg: Config, inputs: seq<Token>, events: seq<Event>,
               from: Traffic, to: Traffic)
    requires Path(cfg, Listening([]), events, {}) == Some(Accepting(inputs))
    requires Replayed(cfg, events, from, to)
    requires !cfg.mech.accept(inputs).Failure? && cfg.mech.accept(inputs).token == []
    ensures Path(cfg, Listening([]), events + [Quiet], {}) == Some(Answering(cfg, inputs))
    ensures Replayed(cfg, events + [Quiet], from, to)
              && Recording(events + [Quiet]) == Recording(events)
    ensures Clean(events) ==> Clean(events + [Quiet])
  {
    hide Replayed, Path, Recording, Clean;
    QuietOn(cfg, Listening([]), {}, events, from, to);
  }

  lemma Answers(cfg: Config, inputs: seq<Token>)
    requires !cfg.mech.accept(inputs).Failure? && cfg.mech.accept(inputs).token != []
    ensures Act(cfg, Accepting(inputs)) == Action.Send(cfg.mech.accept(inputs).token, Answering(cfg, inputs))
  {
  }

  lemma Listens(cfg: Config, inputs: seq<Token>, token: Token)
    ensures Act(cfg, Listening(inputs)).Receive?
    ensures OnReceive(cfg, Listening(inputs), token, {})
         == Accepting(if cfg.keepsContext then inputs + [token] else [token])
  {
  }

  // Handles

  /** The contexts that the server has and those it has lost sight of. */
  predicate Contexts(live: set<nat>, base: set<nat>, handle: Option<nat>, lost: set<nat>) {
    live == base + lost + Handles(handle) && lost !! base && Handles(handle) !! base + lost
  }

  lemma NoContext(base: set<nat>)
    ensures Contexts(base, base, None, {})
  {
  }

  lemma ContextLost(live: set<nat>, base: set<nat>, handle: Option<nat>, lost: set<nat>)
    requires Contexts(live, base, handle, lost)
    ensures Contexts(live, base, None, lost + Handles(handle)) && |lost + Handles(handle)| == |lost| + Count(handle)
  {
    var more := lost + Handles(handle);
    assert base + lost + Handles(handle) == base + more + {};
    assert more !! base;
    if handle.None? {
      assert more == lost;
    }
  }

  lemma ContextMade(live: set<nat>, base: set<nat>, lost: set<nat>, h: nat)
    requires Contexts(live, base, None, lost) && h !in live
    ensures Contexts(live + {h}, base, Some(h), lost)
  {
  }

  lemma ContextDeleted(live: set<nat>, base: set<nat>, handle: Option<nat>, lost: set<nat>)
    requires Contexts(live, base, handle, lost)
    ensures Contexts(live - Handles(handle), base, None, lost) && Handles(handle) <= live && base <= live
  {
  }

  method ReleaseBuffer(gss: Ledger, buffer: Option<nat>)
    requires gss.Valid() && Handles(buffer) <= gss.live
    modifies gss
    ensures gss.Valid() && gss.live == old(gss.live) - Handles(buffer) && gss.again == old(gss.again)
  {
    if buffer.Some? {
      gss.Release(buffer.value);
    }
  }

  lemma BufferBack(live: set<nat>, h: nat)
    requires h !in live
    ensures live + {h} - {h} == live
  {
  }

  /** There is a context: the last answer was not followed by a failed send. */
  predicate Standing(events: seq<Event>) {
    events != [] && (events[|events| - 1].Sent? || events[|events| - 1].Quiet?)
  }

  /** How many tokens came in while there was a context already. */
  function Overwritten(events: seq<Event>): nat {
    if events == [] then 0
    else
      var init := events[..|events| - 1];
      Overwritten(init) + if events[|events| - 1].Received? && Standing(init) then 1 else 0
  }

  lemma OverwrittenOn(events: seq<Event>, e: Event)
    ensures Overwritten(events + [e]) == Overwritten(events) + if e.Received? && Standing(events) then 1 else 0
    ensures Standing(events + [e]) <==> e.Sent? || e.Quiet?
  {
    assert (events + [e])[..|events|] == events;
  }

  /**
    * server.c, establish_context: the context is set to "none", gss_accept_sec_context takes the
    * token received, whose buffer is released, and makes a context if there is none.
    */
  method AcceptToken(cfg: Config, fault: bool, gss: Ledger, handle: Option<nat>, recvTok: nat, inputs: seq<Token>,
                     ghost base: set<nat>, ghost lost: set<nat>)
    returns (reply: Reply, handle': Option<nat>, ghost lost': set<nat>)
    requires gss.Valid() && Contexts(gss.live - {recvTok}, base, handle, lost) && recvTok in gss.live
    modifies gss
    ensures gss.Valid() && gss.again == old(gss.again)
    ensures reply == if fault then Failure else cfg.mech.accept(inputs)
    ensures Contexts(gss.live, base, handle', lost') && (!reply.Failure? ==> handle'.Some?)
    ensures lost' == if cfg.keepsContext then lost else lost + Handles(handle)
    ensures |lost'| == |lost| + if cfg.keepsContext then 0 else Count(handle)
  {
    hide Ledger.Valid, Contexts;
    handle', lost' := handle, lost;
    ContextLost(gss.live - {recvTok}, base, handle, lost);
    if !cfg.keepsContext {
      handle', lost' := None, lost + Handles(handle);
    }
    reply := if fault then Failure else cfg.mech.accept(inputs);
    gss.Use(recvTok);
    gss.Release(recvTok);
    if handle'.None? && !reply.Failure? {
      ghost var live := gss.live;
      var h := gss.Acquire();
      handle' := Some(h);
      ContextMade(live, base, lost', h);
    }
  }

  /**
    * server.c, establish_context: the output token, if there is one, is sent; if that fails the
    * context is deleted, and the loop goes on.
    */
  method Answer(cfg: Config, fd: Socket, gss: Ledger, cfd: nat, handle: Option<nat>, inputs: seq<Token>,
                log: seq<Recorded>, ghost base: set<nat>, ghost lost: set<nat>, ghost events: seq<Event>,
                ghost from: Traffic)
    returns (status: Status, handle': Option<nat>, log': seq<Recorded>, ghost events': seq<Event>)
    requires gss.Valid() && Contexts(gss.live, base, handle, lost) && cfd in base
    requires !cfg.mech.accept(inputs).Failure?
    requires Path(cfg, Listening([]), events, {}) == Some(Accepting(inputs))
    requires Replayed(cfg, events, from, Now(fd)) && log == Recording(events)
    modifies fd, gss
    ensures gss.Valid() && gss.again == old(gss.again)
    ensures status.Running? ==> fd.answers == []
    ensures |fd.answers| <= |old(fd.answers)|
    ensures AllChunks(old(fd.answers)) ==> AllChunks(fd.answers) && (Clean(events) ==> Clean(events'))
    ensures !status.Running? ==>
              && handle' == (if status.Done? then handle else None)
              && Contexts(gss.live, base, handle', lost)
              && Path(cfg, Listening([]), events', {})
                 == Some(if status.Done? then Answering(cfg, inputs) else SendFailed(Answering(cfg, inputs)))
              && Replayed(cfg, events', from, Now(fd)) && log' == Recording(events')
              && Overwritten(events') == Overwritten(events) && (Standing(events') <==> status.Done?)
  {
    hide Replayed, Path, Recording, Clean, AllChunks, Act, Overwritten, Standing, Ledger.Valid, Contexts, SendFailed;
    handle' := handle;
    var token := cfg.mech.accept(inputs).token;
    if token == [] {
      Silent(cfg, inputs, events, from, Now(fd));
      OverwrittenOn(events, Quiet);
      return Done, handle, log, events + [Quiet];
    }
    ContextDeleted(gss.live, base, handle, lost);
    Answers(cfg, inputs);
    ghost var live := gss.live;
    var sendTok := gss.Acquire();
    BufferBack(live, sendTok);
    gss.Use(cfd);
    gss.Use(sendTok);
    status, log', events' := SendOn(cfg, fd, token, log, Listening([]), {}, events, from);
    if status.Running? {
      return;
    }
    OverwrittenOn(events, if status.Done? then Sent(token) else SendBroken(token));
    gss.Release(sendTok);
    if status.Failed? {
      if handle.Some? {
        gss.Release(handle.value);
      }
      handle' := None;
    }
  }

  /** server.c, establish_context: the next token comes in and gss_accept_sec_context takes it. */
  method TakeToken(cfg: Config, faults: Faults, fd: Socket, gss: Ledger, cfd: nat, handle: Option<nat>,
                   inputs: seq<Token>, log: seq<Recorded>, ghost base: set<nat>, ghost lost: set<nat>,
                   ghost events: seq<Event>, ghost from: Traffic)
    returns (status: Status, reply: Reply, inputs': seq<Token>, handle': Option<nat>, log': seq<Recorded>,
             ghost lost': set<nat>, ghost events': seq<Event>)
    requires gss.Valid() && Contexts(gss.live, base, handle, lost) && cfd in base
    requires handle.Some? <==> Standing(events)
    requires Path(cfg, Listening([]), events, {}) == Some(Listening(inputs))
    requires Replayed(cfg, events, from, Now(fd)) && log == Recording(events)
    modifies fd, gss
    ensures gss.Valid() && gss.again == old(gss.again)
    ensures |fd.answers| <= |old(fd.answers)| && (status.Done? ==> |fd.answers| < |old(fd.answers)|)
    ensures status.Running? ==> fd.answers == []
    ensures AllChunks(old(fd.answers)) ==>
              !status.Failed? && AllChunks(fd.answers) && (Clean(events) ==> Clean(events'))
    ensures !status.Running? ==>
              && Path(cfg, Listening([]), events', {})
                 == Some(if status.Done? then Accepting(inputs') else ServerReturned(-1))
              && log' == Recording(events')
    ensures status.Done? ==>
              && Replayed(cfg, events', from, Now(fd))
              && reply == (if faults(AcceptSecContext(|log'|)) then Failure else cfg.mech.accept(inputs'))
              && Contexts(gss.live, base, handle', lost') && (!reply.Failure? ==> handle'.Some?)
              && |lost'| == |lost| + if cfg.keepsContext then 0 else Overwritten(events') - Overwritten(events)
  {
    hide Replayed, Path, Recording, Clean, AllChunks, Act, OnReceive, Overwritten, Standing, Ledger.Valid, Contexts;
    reply, inputs', handle', lost' := Failure, inputs, handle, lost;
    var token;
    ContextDeleted(gss.live, base, handle, lost);
    Listens(cfg, inputs, []);
    gss.Use(cfd);
    status, token, log', events' := ReceiveOn(cfg, fd, log, Listening([]), {}, events, from);
    if !status.Done? {
      return;
    }
    OverwrittenOn(events, Received(token));
    Listens(cfg, inputs, token);
    if cfg.keepsContext {
      inputs' := inputs + [token];
    } else {
      inputs' := [token];
    }
    ghost var live := gss.live;
    var recvTok := gss.Acquire();
    BufferBack(live, recvTok);
    reply, handle', lost' := AcceptToken(cfg, faults(AcceptSecContext(|log'|)), gss, handle, recvTok, inputs', base,
                                         lost);
  }

  lemma NoneOverwritten()
    ensures Overwritten([]) == 0 && !Standing([])
  {
  }

  lemma AnsweringIs(cfg: Config, inputs: seq<Token>)
    requires !cfg.mech.accept(inputs).Failure?
    ensures Answering(cfg, inputs)
         == if cfg.mech.accept(inputs).Complete? then AwaitingMessage(Some(cfg.mech.acceptorKey(inputs)))
           else Listening(inputs)
    ensures SendFailed(Answering(cfg, inputs))
         == if cfg.mech.accept(inputs).Complete? then AwaitingMessage(None) else Listening([])
  {
  }

  lemma NameAndCredentials(live: set<nat>, base: set<nat>, handle: Option<nat>, lost: set<nat>, creds: nat, h: nat,
                           g: nat)
    requires Contexts(live, base, handle, lost) && creds in base && h !in live && g !in live + {h}
    ensures Contexts(live + {h} - {h} - {creds}, base - {creds}, handle, lost) && creds in live
    ensures Contexts(live + {h} + {g} - {h} - {creds} - {g}, base - {creds}, handle, lost)
    ensures lost + Handles(handle) !! base
  {
    assert live + {h} - {h} - {creds} == base - {creds} + lost + Handles(handle);
    assert live + {h} + {g} - {h} - {creds} - {g} == base - {creds} + lost + Handles(handle);
  }

  /** server.c, establish_context after the loop: the client's name becomes text; name and credentials are released. */
  method ShowClient(faults: Faults, gss: Ledger, creds: nat, ghost base: set<nat>, ghost handle: Option<nat>,
                    ghost lost: set<nat>)
    returns (clientName: Option<nat>)
    requires gss.Valid() && Contexts(gss.live, base, handle, lost) && creds in base
    modifies gss
    ensures gss.Valid() && gss.again == old(gss.again)
    ensures Contexts(gss.live - Handles(clientName), base - {creds}, handle, lost)
    ensures Handles(clientName) <= gss.live && lost + Handles(handle) !! base
  {
    gss.Bounded();
    hide Ledger.Valid, Contexts;
    NameAndCredentials(gss.live, base, handle, lost, creds, gss.acquired, gss.acquired + 1);
    clientName := None;
    var name := gss.Acquire();
    gss.Use(name);
    if !faults(DisplayClient) {
      var h := gss.Acquire();
      clientName := Some(h);
    }
    gss.Release(name);
    gss.Release(creds);
  }

  /**
    * server.c, establish_context. The loop ends with a complete context, or with none if the last
    * send failed and it was deleted; a failed send does not end the loop. The credentials and the
    * client's name are released. As written, a context that was there when a token came in is lost.
    */
  method EstablishContext(cfg: Config, faults: Faults, fd: Socket, gss: Ledger, creds: nat, cfd: nat)
    returns (res: Option<int>, context: Option<nat>, handle: Option<nat>, clientName: Option<nat>, log: seq<Recorded>,
             ghost events: seq<Event>, ghost lost: set<nat>)
    requires gss.Valid() && {creds, cfd} <= gss.live && creds != cfd
    modifies fd, gss
    ensures gss.Valid() && gss.again == old(gss.again)
    ensures res == Some(0) ==>
              && (handle.Some? <==> context.Some?)
              && Contexts(gss.live - Handles(clientName), old(gss.live) - {creds}, handle, lost)
              && Handles(clientName) <= gss.live && lost + Handles(handle) !! old(gss.live)
              && |lost| == (if cfg.keepsContext then 0 else Overwritten(events))
              && (Standing(events) <==> context.Some?)
    ensures res.Some? ==> res == Some(0) || res == Some(-1)
    ensures res.Some? ==>
              Path(cfg, Listening([]), events, {})
                == Some(if res == Some(0) then AwaitingMessage(context) else ServerReturned(-1))
    ensures res == Some(0) ==> Replayed(cfg, events, old(Now(fd)), Now(fd))
    ensures res.Some? ==> log == Recording(events)
    ensures res.None? ==> fd.answers == []
    ensures Healthy(faults, old(fd.answers)) ==> Clean(events) && Healthy(faults, fd.answers)
  {
    hide Replayed, Path, Recording, Clean, AllChunks, Act, OnReceive, Overwritten, Standing, Ledger.Valid, Contexts,
         SendFailed, Answering;
    context, handle, clientName, log, events, lost := None, None, None, [], [], {};
    var inputs: seq<Token> := [];
    var more := true;
    EmptyPath(cfg, Listening([]), {}, Now(fd));
    NoContext(gss.live);
    NoneOverwritten();
    while more
      invariant gss.Valid() && gss.again == old(gss.again) && Contexts(gss.live, old(gss.live), handle, lost)
      invariant |lost| == if cfg.keepsContext then 0 else Overwritten(events)
      invariant handle.Some? <==> Standing(events)
      invariant more || (handle.Some? <==> context.Some?)
      invariant Path(cfg, Listening([]), events, {})
           == Some(if more then Listening(inputs) else AwaitingMessage(context))
      invariant Replayed(cfg, events, old(Now(fd)), Now(fd))
      invariant log == Recording(events)
      invariant Healthy(faults, old(fd.answers)) ==> Clean(events) && Healthy(faults, fd.answers)
      decreases |fd.answers|, more
    {
      var status, reply;
      status, reply, inputs, handle, log, lost, events :=
        TakeToken(cfg, faults, fd, gss, cfd, handle, inputs, log, old(gss.live), lost, events, old(Now(fd)));
      if !status.Done? {
        return if status.Running? then None else Some(-1), context, handle, clientName, log, events, lost;
      }
      if reply.Failure? {
        events := Refused(cfg, faults(AcceptSecContext(|log|)), inputs, events, old(Now(fd)), Now(fd));
        return Some(-1), context, handle, clientName, log, events, lost;
      }
      more := !reply.Complete?;
      AnsweringIs(cfg, inputs);
      status, handle, log, events := Answer(cfg, fd, gss, cfd, handle, inputs, log, old(gss.live), lost, events,
                                            old(Now(fd)));
      if status.Running? {
        return None, context, handle, clientName, log, events, lost;
      }
      if reply.Complete? {
        context := if handle.Some? then Some(cfg.mech.acceptorKey(inputs)) else None;
      }
      if handle.None? {
        inputs := []; // the context is deleted
      }
    }
    clientName := ShowClient(faults, gss, creds, old(gss.live), handle, lost);
    res := Some(0);
  }

  // MICs

  function MicOf(cfg: Config, signed: Option<(nat, Token)>): set<Mic> {
    match signed
    case None => {}
    case Some((key, text)) => {Mic(key, text, cfg.mech.getMic(key, text))}
  }

  lemma ServerStays(cfg: Config, p: Proc, e: Event)
    requires !ClientSide(p) && After(cfg, p, e, {}).Some?
    ensures !ClientSide(After(cfg, p, e, {}).value)
    ensures After(cfg, p, e, {}) != Some(ServerReturned(0)) ==> p != ServerReturned(0) && MicTaken(cfg, p, e) == {}
  {
  }

  /** No MIC is taken by a server that has not returned 0. */
  lemma {:induction false} NoMicYet(cfg: Config, events: seq<Event>)
    requires Path(cfg, Listening([]), events, {}).Some?
    ensures var q := Path(cfg, Listening([]), events, {}).value;
            !ClientSide(q) && (q != ServerReturned(0) ==> MicsTaken(cfg, Listening([]), events, {}) == {})
    decreases |events|
  {
    hide After, MicTaken;
    if events != [] {
      var init, last := events[..|events| - 1], events[|events| - 1];
      NoMicYet(cfg, init);
      ServerStays(cfg, Path(cfg, Listening([]), init, {}).value, last);
    }
  }

  /** What sign_message signs: the message unwrapped under the context, if there is one and GetMIC does not fail. */
  function Signed(cfg: Config, context: Option<nat>, sealed: Token, fault: bool): Option<(nat, Token)> {
    if context.None? || fault then None
    else
      match cfg.mech.unwrap(context.value, sealed)
      case None => None
      case Some(text) => Some((context.value, text))
  }

  lemma ContextGone(live: set<nat>, local: Option<nat>, h: nat)
    requires h !in live && Handles(local) <= live
    ensures live + {h} - {h} == live && Handles(local) <= live + {h}
    ensures live + {h} - {h} - Handles(local) == live - Handles(local)
    ensures local.Some? ==> live - Handles(local) + {h} - {h} == live - Handles(local)
  {
  }

  /**
    * server.c, sign_message from gss_get_mic on: the MIC, or the empty token of a failed call, is
    * sent. If GetMIC or the send fails, the context in the caller's hands is deleted; local' is what
    * is left of it.
    */
  method SendMic(cfg: Config, faults: Faults, fd: Socket, gss: Ledger, cfd: nat, local: Option<nat>,
                 pending: Option<(nat, Token)>, log: seq<Recorded>,
                 ghost before: seq<Event>, ghost from: Traffic)
    returns (status: Status, signed: Option<(nat, Token)>, local': Option<nat>, ghost tail: seq<Event>)
    requires gss.Valid() && Handles(local) <= gss.live && cfd in gss.live && cfd !in Handles(local)
    requires pending.Some? <==> local.Some?
    requires Path(cfg, Listening([]), before, {}) == Some(Signing(pending))
    requires Replayed(cfg, before, from, Now(fd)) && log == Recording(before)
    modifies fd, gss
    ensures gss.Valid() && gss.again == old(gss.again)
    ensures !status.Running? ==>
              && local' == (if signed.Some? && status.Done? then local else None)
              && gss.live == if local'.Some? then old(gss.live) else old(gss.live) - Handles(local)
    ensures signed == if faults(GetMic) then None else pending
    ensures !status.Running? ==>
              && Path(cfg, Listening([]), before + tail, {}) == Some(ServerReturned(0))
              && Replayed(cfg, before + tail, from, Now(fd))
              && MicsTaken(cfg, Listening([]), before + tail, {}) == MicOf(cfg, signed)
              && tail != [] && (tail[|tail| - 1].Sent? <==> status.Done?)
              && forall e :: e in tail ==> !e.Received?
    ensures status.Running? ==> fd.answers == []
    ensures Healthy(faults, old(fd.answers)) && Clean(before) ==> Clean(before + tail)
  {
    hide Replayed, Path, Recording, Clean, AllChunks, MicsTaken, ClientSide, Ledger.Valid;
    tail, local' := [], local;
    assert before + tail == before;
    signed := pending;
    if faults(GetMic) {
      signed := None;
      BrokenOn(cfg, Listening([]), {}, before, from, Now(fd));
      tail := [Broke];
      if local'.Some? {
        gss.Release(local'.value);
        local' := None;
      }
    }
    var mic := if signed.Some? then cfg.mech.getMic(signed.value.0, signed.value.1) else [];
    ghost var middle := before + tail;
    NoMicYet(cfg, middle);
    ghost var events;
    status, events := SendBuffer(cfg, fd, gss, cfd, signed.Some?, mic, log, middle, from);
    if !status.Running? {
      ghost var last := if status.Done? then Sent(mic) else SendBroken(mic);
      MicsStep(cfg, Listening([]), middle, last, {});
      assert before + (tail + [last]) == middle + [last];
      tail := tail + [last];
      if status.Failed? && local'.Some? {
        gss.Release(local'.value);
        local' := None;
      }
    }
  }

  /** A buffer, if there is one, is sent and released. */
  method SendBuffer(cfg: Config, fd: Socket, gss: Ledger, cfd: nat, filled: bool, token: Token, log: seq<Recorded>,
                    ghost events: seq<Event>, ghost from: Traffic)
    returns (status: Status, ghost events': seq<Event>)
    requires gss.Valid() && cfd in gss.live
    requires Path(cfg, Listening([]), events, {}).Some?
    requires Act(cfg, Path(cfg, Listening([]), events, {}).value).Send?
    requires Act(cfg, Path(cfg, Listening([]), events, {}).value).token == token
    requires Replayed(cfg, events, from, Now(fd)) && log == Recording(events)
    modifies fd, gss
    ensures gss.Valid() && gss.again == old(gss.again) && (!status.Running? ==> gss.live == old(gss.live))
    ensures var next := Act(cfg, Path(cfg, Listening([]), events, {}).value).next;
            && (status.Done? ==> Path(cfg, Listening([]), events', {}) == Some(next))
            && (status.Failed? ==> Path(cfg, Listening([]), events', {}) == Some(SendFailed(next)))
    ensures !status.Running? ==> Replayed(cfg, events', from, Now(fd))
    ensures events'
         == events + match status { case Done => [Sent(token)] case Failed => [SendBroken(token)] case Running => [] }
    ensures status.Running? ==> fd.answers == []
    ensures AllChunks(old(fd.answers)) && Clean(events) ==> Clean(events')
  {
    hide Replayed, Act, Path, Recording, Clean, AllChunks, SendFailed, Ledger.Valid;
    gss.Use(cfd);
    ghost var live := gss.live;
    var buffer: Option<nat> := None;
    if filled {
      var h := gss.Acquire();
      buffer := Some(h);
      BufferBack(live, h);
    }
    var log';
    status, log', events' := SendOn(cfg, fd, token, log, Listening([]), {}, events, from);
    if !status.Running? && buffer.Some? {
      gss.Release(buffer.value);
    }
  }

  /** gss_unwrap: a message, or none when there is no context or the token is refused. */
  function Pending(cfg: Config, context: Option<nat>, sealed: Token): Option<(nat, Token)> {
    Signed(cfg, context, sealed, false)
  }

  lemma Unsealed(cfg: Config, context: Option<nat>, sealed: Token)
    ensures OnReceive(cfg, AwaitingMessage(context), sealed, {}) == Signing(Pending(cfg, context, sealed))
    ensures Act(cfg, AwaitingMessage(context)).Receive? && Broken(AwaitingMessage(context)) == ServerReturned(-1)
    ensures context.None? ==> Pending(cfg, context, sealed).None?
    ensures forall fault :: Signed(cfg, context, sealed, fault) == if fault then None else Pending(cfg, context, sealed)
  {
  }

  /**
    * server.c, sign_message. It returns 0 after a failed unwrap and a failed send too. A MIC is taken
    * exactly over what this call received and unwrapped under the context's key. `handle` is the
    * caller's context by value: after a failure it has been deleted, and the caller does not know.
    */
  method SignMessage(cfg: Config, faults: Faults, fd: Socket, gss: Ledger, cfd: nat, context: Option<nat>,
                     handle: Option<nat>, log: seq<Recorded>,
                     ghost before: seq<Event>, ghost from: Traffic)
    returns (res: Option<int>, signed: Option<(nat, Token)>, ghost events: seq<Event>, ghost sealed: Token,
             ghost tail: seq<Event>)
    requires gss.Valid() && Handles(handle) <= gss.live && cfd in gss.live && cfd !in Handles(handle)
    requires handle.Some? <==> context.Some?
    requires Path(cfg, Listening([]), before, {}) == Some(AwaitingMessage(context))
    requires Replayed(cfg, before, from, Now(fd)) && log == Recording(before)
    modifies fd, gss
    ensures gss.Valid() && gss.again == old(gss.again)
    ensures res == Some(0) ==>
              && tail != [] && (forall e :: e in tail ==> !e.Received?)
              && gss.live == if signed.Some? && tail[|tail| - 1].Sent? then old(gss.live)
                             else old(gss.live) - Handles(handle)
    ensures res == Some(-1) ==> gss.live == old(gss.live) - Handles(handle)
    ensures res.Some? ==> res == Some(0) || res == Some(-1)
    ensures res.Some? ==> Path(cfg, Listening([]), events, {}) == Some(ServerReturned(res.value))
    ensures res.None? ==> fd.answers == []
    ensures res == Some(0) ==> Replayed(cfg, events, from, Now(fd))
    ensures Healthy(faults, old(fd.answers)) && Clean(before) ==> Clean(events)
    ensures res == Some(0) ==>
              events == before + [Received(sealed)] + tail && signed == Signed(cfg, context, sealed, faults(GetMic))
    ensures res == Some(-1) ==> events == before + [Broke] && signed.None?
    ensures res.Some? ==> MicsTaken(cfg, Listening([]), events, {}) == MicOf(cfg, signed)
  {
    hide Replayed, Path, Recording, Clean, AllChunks, MicsTaken, ClientSide, Ledger.Valid, Act, OnReceive, Broken,
         Signed, Pending;
    signed, sealed, tail := None, [], [];
    var status, token, log';
    var local := handle;
    gss.Use(cfd);
    Unsealed(cfg, context, []);
    status, token, log', events := ReceiveOn(cfg, fd, log, Listening([]), {}, before, from);
    if !status.Done? {
      if status.Failed? {
        NoMicYet(cfg, events);
        if local.Some? {
          gss.Release(local.value);
        }
      }
      return if status.Running? then None else Some(-1), signed, events, sealed, tail;
    }
    sealed := token;
    Unsealed(cfg, context, sealed);
    var pending;
    pending, local := Unwrap(cfg, gss, context, local, token);
    ghost var rest;
    status, signed, rest, tail := SendMic(cfg, faults, fd, gss, cfd, local, pending, log', events, from);
    events := events + tail;
    res := if status.Running? then None else Some(0);
  }

  /** server.c, sign_message: gss_unwrap, after whose failure the context is deleted; the buffers are released. */
  method Unwrap(cfg: Config, gss: Ledger, context: Option<nat>, local: Option<nat>, token: Token)
    returns (pending: Option<(nat, Token)>, local': Option<nat>)
    requires gss.Valid() && Handles(local) <= gss.live && (local.Some? <==> context.Some?)
    modifies gss
    ensures gss.Valid() && gss.again == old(gss.again)
    ensures pending == Pending(cfg, context, token)
    ensures local' == if pending.Some? then local else None
    ensures gss.live == if pending.Some? then old(gss.live) else old(gss.live) - Handles(local)
  {
    gss.Bounded();
    hide Ledger.Valid;
    pending, local' := None, local;
    ContextGone(gss.live, local, gss.acquired);
    var recvTok := gss.Acquire();
    gss.Use(recvTok);
    if context.Some? {
      gss.Use(local.value);
      var unwrapped := cfg.mech.unwrap(context.value, token);
      if unwrapped.Some? {
        pending := Some((context.value, unwrapped.value));
      }
    }
    gss.Release(recvTok);
    if pending.None? && local'.Some? {
      gss.Release(local'.value);
      local' := None;
    }
  }

  /** Received after k events: a token that the completed context, with this key, unwrapped to this text. */
  predicate Unwrapped(cfg: Config, events: seq<Event>, k: nat, key: nat, text: Token)
    requires k < |events|
  {
    && Path(cfg, Listening([]), events[..k], {}) == Some(AwaitingMessage(Some(key)))
    && events[k].Received? && cfg.mech.unwrap(key, events[k].token) == Some(text)
  }

  // What the server's path comes to

  function HeldAfter(cfg: Config, held: seq<Token>, e: Event): seq<Token> {
    match e
    case Received(t) => if cfg.keepsContext then held + [t] else [t]
    case SendBroken(_) => []
    case _ => held
  }

  /** The tokens that the acceptor's context has been given. */
  function Held(cfg: Config, events: seq<Event>): seq<Token> {
    if events == [] then [] else HeldAfter(cfg, Held(cfg, events[..|events| - 1]), events[|events| - 1])
  }

  /** In the handshake the server is where the tokens its context holds have led it. */
  predicate Accepts(cfg: Config, held: seq<Token>, q: Proc) {
    match q
    case Listening(given) => given == held
    case Accepting(given) => given == held
    case AwaitingMessage(Some(key)) => cfg.mech.accept(held).Complete? && key == cfg.mech.acceptorKey(held)
    case _ => !ClientSide(q)
  }

  lemma AcceptsOn(cfg: Config, held: seq<Token>, e: Event, q: Proc)
    requires Accepts(cfg, held, q) && After(cfg, q, e, {}).Some?
    ensures Accepts(cfg, HeldAfter(cfg, held, e), After(cfg, q, e, {}).value)
  {
  }

  lemma {:induction false} ServerAccepts(cfg: Config, events: seq<Event>)
    requires Path(cfg, Listening([]), events, {}).Some?
    ensures Accepts(cfg, Held(cfg, events), Path(cfg, Listening([]), events, {}).value)
    decreases |events|
  {
    if events != [] {
      hide HeldAfter, Accepts, After;
      var init, last := events[..|events| - 1], events[|events| - 1];
      ServerAccepts(cfg, init);
      AcceptsOn(cfg, Held(cfg, init), last, Path(cfg, Listening([]), init, {}).value);
    }
  }

  predicate NoBroke(events: seq<Event>) {
    forall e :: e in events ==> !e.Broke?
  }

  lemma RefusedStep(cfg: Config, held: seq<Token>, q: Proc, e: Event)
    requires Accepts(cfg, held, q) && After(cfg, q, e, {}).Some?
    ensures After(cfg, q, e, {}) == Some(ServerReturned(-1)) && q != ServerReturned(-1) ==>
              e.Broke? || (e.Quiet? && cfg.mech.accept(held).Failure?)
    ensures q.ServerReturned? ==> e.Broke? && After(cfg, q, e, {}) == Some(q)
    ensures e.Broke? ==> After(cfg, q, e, {}).value.ServerReturned? || After(cfg, q, e, {}).value == Signing(None)
    ensures q.Signing? ==> After(cfg, q, e, {}).value.Signing? || After(cfg, q, e, {}) == Some(ServerReturned(0))
  {
  }

  /**
    * The server returns -1 only when a receive or gss_accept_sec_context failed (after k events), or
    * its mechanism refused the tokens its context held; a failed send never makes it.
    */
  lemma {:induction false} ServerFails(cfg: Config, events: seq<Event>) returns (k: nat)
    requires Path(cfg, Listening([]), events, {}) == Some(ServerReturned(-1))
    ensures k < |events| && Path(cfg, Listening([]), events[..k], {}).Some?
    ensures !Path(cfg, Listening([]), events[..k], {}).value.ServerReturned?
    ensures events[k].Broke? || (events[k].Quiet? && cfg.mech.accept(Held(cfg, events[..k])).Failure?)
    decreases |events|
  {
    hide After, Accepts, Held;
    var init, last := events[..|events| - 1], events[|events| - 1];
    var q := Path(cfg, Listening([]), init, {}).value;
    ServerAccepts(cfg, init);
    RefusedStep(cfg, Held(cfg, init), q, last);
    if q.ServerReturned? {
      k := ServerFails(cfg, init);
      assert events[..k] == init[..k];
    } else {
      k := |init|;
    }
  }

  /** A server that is still in its handshake, or waiting for the message, has met no failure but failed sends. */
  lemma {:induction false} NothingBroke(cfg: Config, events: seq<Event>)
    requires Path(cfg, Listening([]), events, {}).Some?
    ensures var q := Path(cfg, Listening([]), events, {}).value;
            !q.ServerReturned? && !q.Signing? ==> NoBroke(events)
    decreases |events|
  {
    if events != [] {
      hide After, Accepts, Held;
      var init, last := events[..|events| - 1], events[|events| - 1];
      assert init + [last] == events;
      var q := Path(cfg, Listening([]), init, {}).value;
      ServerAccepts(cfg, init);
      RefusedStep(cfg, Held(cfg, init), q, last);
      NothingBroke(cfg, init);
    }
  }

  lemma SigningStep(cfg: Config, q: Proc, e: Event, key: nat, text: Token)
    requires !ClientSide(q) && After(cfg, q, e, {}) == Some(Signing(Some((key, text))))
    ensures q == AwaitingMessage(Some(key)) && e.Received? && cfg.mech.unwrap(key, e.token) == Some(text)
  {
  }

  /** A message is pending only right after a token has been received and unwrapped. */
  lemma SigningOrigin(cfg: Config, events: seq<Event>, key: nat, text: Token)
    requires Path(cfg, Listening([]), events, {}) == Some(Signing(Some((key, text))))
    ensures events != [] && Unwrapped(cfg, events, |events| - 1, key, text)
  {
    var init, last := events[..|events| - 1], events[|events| - 1];
    NoMicYet(cfg, init);
    hide After;
    SigningStep(cfg, Path(cfg, Listening([]), init, {}).value, last, key, text);
  }

  lemma TakenFrom(cfg: Config, q: Proc, e: Event, mic: Mic)
    requires mic in MicTaken(cfg, q, e)
    ensures q == Signing(Some((mic.key, mic.message))) && MicTaken(cfg, q, e) == {mic}
    ensures mic.mic == cfg.mech.getMic(mic.key, mic.message)
  {
  }

  lemma UnwrappedStays(cfg: Config, events: seq<Event>, e: Event, k: nat, key: nat, text: Token)
    requires k < |events| && Unwrapped(cfg, events, k, key, text)
    ensures Unwrapped(cfg, events + [e], k, key, text)
  {
    assert (events + [e])[..k] == events[..k];
  }

  /** Where a MIC on the server's path comes from; it is the only one. */
  lemma {:induction false} MicOrigin(cfg: Config, events: seq<Event>, mic: Mic) returns (k: nat)
    requires Path(cfg, Listening([]), events, {}).Some? && mic in MicsTaken(cfg, Listening([]), events, {})
    ensures MicsTaken(cfg, Listening([]), events, {}) == {mic} && mic.mic == cfg.mech.getMic(mic.key, mic.message)
    ensures k < |events| && Unwrapped(cfg, events, k, mic.key, mic.message)
    decreases |events|
  {
    hide After, MicTaken, Unwrapped;
    var init, last := events[..|events| - 1], events[|events| - 1];
    var q := Path(cfg, Listening([]), init, {}).value;
    NoMicYet(cfg, init);
    MicsStep(cfg, Listening([]), init, last, {});
    assert init + [last] == events;
    hide Path, MicsTaken;
    if mic in MicsTaken(cfg, Listening([]), init, {}) {
      k := MicOrigin(cfg, init, mic);
      NothingMore(cfg, q, last);
    } else {
      TakenFrom(cfg, q, last, mic);
      SigningOrigin(cfg, init, mic.key, mic.message);
      k := |init| - 1;
    }
    UnwrappedStays(cfg, init, last, k, mic.key, mic.message);
  }

  lemma NothingMore(cfg: Config, q: Proc, e: Event)
    requires q == ServerReturned(0)
    ensures MicTaken(cfg, q, e) == {}
  {
  }

  lemma TailOverwrites(before: seq<Event>, sealed: Token, tail: seq<Event>)
    requires forall e :: e in tail ==> !e.Received?
    ensures Overwritten(before + [Received(sealed)] + tail) == Overwritten(before) + if Standing(before) then 1 else 0
  {
    var events := before + [Received(sealed)];
    if tail == [] {
      OverwrittenOn(before, Received(sealed));
      assert events + tail == events;
    } else {
      var init, last := tail[..|tail| - 1], tail[|tail| - 1];
      assert last in tail && forall e :: e in init ==> e in tail;
      TailOverwrites(before, sealed, init);
      OverwrittenOn(events + init, last);
      assert events + tail == events + init + [last];
    }
  }

  /** The last releases of talk_to_client: the context, dead or alive, and the connection. */
  lemma LastReleases(live: set<nat>, base: set<nat>, cfd: nat, handle: Option<nat>, lost: set<nat>)
    requires Contexts(live, base, handle, lost) && cfd in base
    ensures live - Handles(handle) - {cfd} == base - {cfd} + lost
    ensures live - Handles(handle) - Handles(handle) - {cfd} == base - {cfd} + lost
    ensures cfd in live && cfd !in Handles(handle) && Handles(handle) <= live
  {
  }

  /** The context handle reaches its last release alive: there is none, or the MIC has been taken and sent. */
  predicate ReleasedOnce(context: Option<nat>, signed: Option<(nat, Token)>, events: seq<Event>) {
    context.None? || (signed.Some? && events != [] && events[|events| - 1].Sent?)
  }

  lemma TailEnds(before: seq<Event>, sealed: Token, tail: seq<Event>)
    requires tail != []
    ensures var events := before + [Received(sealed)] + tail;
            && events != [] && events[|events| - 1] == tail[|tail| - 1]
            && |before| < |events| && events[..|before|] == before && events[|before|] == Received(sealed)
  {
  }

  /**
    * server.c, talk_to_client from the established context on: the message is signed, the context and
    * the connection are released.
    */
  method FinishClient(cfg: Config, faults: Faults, fd: Socket, gss: Ledger, cfd: nat, context: Option<nat>,
                      handle: Option<nat>, log: seq<Recorded>, ghost base: set<nat>, ghost lost: set<nat>,
                      ghost before: seq<Event>, ghost from: Traffic)
    returns (res: Option<int>, signed: Option<(nat, Token)>, ghost events: seq<Event>)
    requires gss.Valid() && Contexts(gss.live, base, handle, lost) && cfd in base
    requires (handle.Some? <==> context.Some?) && (Standing(before) <==> context.Some?)
    requires Path(cfg, Listening([]), before, {}) == Some(AwaitingMessage(context))
    requires Replayed(cfg, before, from, Now(fd)) && log == Recording(before)
    modifies fd, gss
    ensures gss.Valid()
    ensures res == Some(0) ==>
              && gss.again
                == (if ReleasedOnce(context, signed, events) then old(gss.again) else old(gss.again) + [handle.value])
              && gss.live == base - {cfd} + lost
              && Overwritten(events) == Overwritten(before) + Count(context)
    ensures res.Some? ==> res == Some(0) || res == Some(-1)
    ensures res.Some? ==> Path(cfg, Listening([]), events, {}) == Some(ServerReturned(res.value))
    ensures res.None? ==> fd.answers == []
    ensures res == Some(0) ==> Replayed(cfg, events, from, Now(fd))
    ensures Healthy(faults, old(fd.answers)) && Clean(before) ==> Clean(events)
    ensures res.Some? ==> MicsTaken(cfg, Listening([]), events, {}) == MicOf(cfg, signed)
    ensures res == Some(-1) ==> signed.None?
    ensures signed.Some? && res.Some? ==>
              exists k: nat :: k < |events| && Unwrapped(cfg, events, k, signed.value.0, signed.value.1)
  {
    hide Replayed, Path, Recording, Clean, Healthy, MicsTaken, Ledger.Valid, Contexts, Overwritten, Standing, Signed,
         MicOf;
    LastReleases(gss.live, base, cfd, handle, lost);
    ghost var sealed, tail;
    res, signed, events, sealed, tail := SignMessage(cfg, faults, fd, gss, cfd, context, handle, log, before, from);
    if res == Some(0) {
      TailEnds(before, sealed, tail);
      TailOverwrites(before, sealed, tail);
      Unsealed(cfg, context, sealed);
      assert signed.Some? ==> Unwrapped(cfg, events, |before|, signed.value.0, signed.value.1) by {
        UnwrappedHere(cfg, context, events, |before|, faults(GetMic));
      }
      if handle.Some? {
        gss.Discard(handle.value);
      }
      gss.Release(cfd);
    }
  }

  lemma UnwrappedHere(cfg: Config, context: Option<nat>, events: seq<Event>, k: nat, fault: bool)
    requires k < |events| && events[k].Received?
    requires Path(cfg, Listening([]), events[..k], {}) == Some(AwaitingMessage(context))
    ensures var signed := Signed(cfg, context, events[k].token, fault);
            signed.Some? ==> Unwrapped(cfg, events, k, signed.value.0, signed.value.1)
  {
  }

  /**
    * server.c, talk_to_client, from the accepted connection on. The process has returned the same,
    * and the MICs taken on its path are the one that was signed, or none. When it returns 0, no
    * handle has been released twice if and only if no unwrap, GetMIC or send failed under a context
    * (sign_message deletes its own copy of it); and only the contexts that were overwritten are kept.
    */
  method TalkToClient(cfg: Config, faults: Faults, fd: Socket, gss: Ledger, creds: nat, cfd: nat)
    returns (res: Option<int>, log: seq<Recorded>, context: Option<nat>, signed: Option<(nat, Token)>,
             ghost events: seq<Event>, ghost lost: set<nat>)
    requires gss.Valid() && {creds, cfd} <= gss.live && creds != cfd
    modifies fd, gss
    ensures gss.Valid()
    ensures res == Some(0) ==> (gss.again == old(gss.again) <==> ReleasedOnce(context, signed, events))
    ensures res == Some(0) ==> gss.live == old(gss.live) - {creds} - {cfd} + lost && lost !! old(gss.live)
    ensures res == Some(0) ==> |lost| == if cfg.keepsContext then 0 else Overwritten(events) - Count(context)
    ensures res.Some? ==> res == Some(0) || res == Some(-1)
    ensures res.Some? ==> Path(cfg, Listening([]), events, {}) == Some(ServerReturned(res.value))
    ensures res.None? ==> fd.answers == []
    ensures res == Some(0) ==> Replayed(cfg, events, old(Now(fd)), Now(fd))
    ensures Healthy(faults, old(fd.answers)) ==> Clean(events)
    ensures res.Some? ==> MicsTaken(cfg, Listening([]), events, {}) == MicOf(cfg, signed)
    ensures res == Some(-1) ==> signed.None?
    ensures signed.Some? && res.Some? ==>
              exists k: nat :: k < |events| && Unwrapped(cfg, events, k, signed.value.0, signed.value.1)
  {
    hide Replayed, Path, Recording, Clean, Healthy, MicsTaken, Ledger.Valid, Contexts, Overwritten, Standing,
         ReleasedOnce, Unwrapped, Handles;
    signed := None;
    var handle, clientName;
    res, context, handle, clientName, log, events, lost := EstablishContext(cfg, faults, fd, gss, creds, cfd);
    if res == Some(0) {
      ReleaseBuffer(gss, clientName);
      res, signed, events := FinishClient(cfg, faults, fd, gss, cfd, context, handle, log, old(gss.live) - {creds},
                                          lost, events, old(Now(fd)));
    } else if res == Some(-1) {
      NoMicYet(cfg, events);
    }
  }

  // The server as written

  /**
    * A server that sets its context to "none" on every pass can complete one, whatever its client
    * sends, if and only if some single token completes its acceptor.
    */
  lemma ForgetfulServerIff(cfg: Config)
    requires !cfg.keepsContext
    ensures (exists events, key :: Path(cfg, Listening([]), events, {}) == Some(AwaitingMessage(Some(key))))
       <==> !NeedsMemory(cfg.mech)
  {
    if !NeedsMemory(cfg.mech) {
      var t :| cfg.mech.accept([t]).Complete?;
      var reply, key := cfg.mech.accept([t]), cfg.mech.acceptorKey([t]);
      var events := [Received(t)] + [if reply.token == [] then Quiet else Sent(reply.token)];
      var start := Listening([]);
      assert Path(cfg, start, [], {}) == Some(start);
      assert [] + [Received(t)] == [Received(t)];
      PathStep(cfg, start, [], Received(t), {});
      PathStep(cfg, start, [Received(t)], events[1], {});
      assert Path(cfg, start, events, {}) == Some(AwaitingMessage(Some(key)));
    } else if exists events, key :: Path(cfg, Listening([]), events, {}) == Some(AwaitingMessage(Some(key))) {
      var events, key :| Path(cfg, Listening([]), events, {}) == Some(AwaitingMessage(Some(key)));
      NeverCompletes(cfg, events);
    }
  }

  predicate InHandshake(q: Proc) {
    q.Listening? || (q.Accepting? && |q.inputs| == 1) || q == ServerReturned(-1)
  }

  lemma StaysInHandshake(cfg: Config, q: Proc, e: Event)
    requires !cfg.keepsContext && NeedsMemory(cfg.mech) && InHandshake(q) && After(cfg, q, e, {}).Some?
    ensures InHandshake(After(cfg, q, e, {}).value)
  {
    if q.Accepting? {
      assert q.inputs == [q.inputs[0]];
    }
  }

  lemma {:induction false} NeverCompletes(cfg: Config, events: seq<Event>)
    requires !cfg.keepsContext && NeedsMemory(cfg.mech) && Path(cfg, Listening([]), events, {}).Some?
    ensures InHandshake(Path(cfg, Listening([]), events, {}).value)
    decreases |events|
  {
    hide After;
    if events != [] {
      var init, last := events[..|events| - 1], events[|events| - 1];
      NeverCompletes(cfg, init);
      StaysInHandshake(cfg, Path(cfg, Listening([]), init, {}).value, last);
    }
  }
}
