/** client.c: establish_context and call_server. */
module ClientProgram {
  import opened Wrappers
  import opened Streams
  import opened StreamProofs
  import opened Session
  import opened Programs

  /** RFC 2743 section 2.2.1: an initiator that needs to continue has a token to send. */
  ghost predicate InitiatorContract(m: Mechanism) {
    forall inputs :: m.initiate(inputs) != Continue([])
  }

  /** The handles of establish_context: its target name, the context and the token received last. */
  predicate Holds(live: set<nat>, base: set<nat>, target: nat, context: Option<nat>, recvTok: Option<nat>) {
    && live == base + {target} + Handles(context) + Handles(recvTok)
    && target !in base && Handles(context) + Handles(recvTok) !! base + {target} && Handles(context) !! Handles(recvTok)
  }

  lemma TokenReleased(live: set<nat>, base: set<nat>, target: nat, context: Option<nat>, recvTok: Option<nat>)
    requires Holds(live, base, target, context, recvTok)
    ensures Holds(live - Handles(recvTok), base, target, context, None)
    ensures {target} + Handles(context) + Handles(recvTok) <= live && base <= live
  {
    assert live - Handles(recvTok) == base + {target} + Handles(context) + {};
  }

  lemma ContextMade(live: set<nat>, base: set<nat>, target: nat, recvTok: Option<nat>, h: nat)
    requires Holds(live, base, target, None, recvTok) && h !in live
    ensures Holds(live + {h}, base, target, Some(h), recvTok)
  {
    assert live + {h} == base + {target} + {h} + Handles(recvTok);
  }

  lemma TokenHeld(live: set<nat>, base: set<nat>, target: nat, context: Option<nat>, h: nat)
    requires Holds(live, base, target, context, None) && h !in live
    ensures Holds(live + {h}, base, target, context, Some(h)) && live + {h} - {h} == live
  {
    assert live + {h} == base + {target} + Handles(context) + {h};
  }

  lemma NothingHeld(base: set<nat>)
    ensures base + Handles(None) == base && Handles(None) !! base
  {
  }

  lemma NameHeld(base: set<nat>, target: nat)
    requires target !in base
    ensures Holds(base + {target}, base, target, None, None)
  {
  }

  lemma NameReleased(live: set<nat>, base: set<nat>, target: nat, context: Option<nat>)
    requires Holds(live, base, target, context, None)
    ensures target in live && base <= live && live - {target} == base + Handles(context) && Handles(context) !! base
    ensures context.Some? ==>
              context.value in live && context.value != target && live - {target} - {context.value} == base
  {
  }

  /**
    * client.c, establish_context: gss_init_sec_context on the token received last, which is released.
    * The call may fail whatever the mechanism says; if it does not, there is a context afterwards.
    */
  method InitContext(cfg: Config, fault: bool, gss: Ledger, target: nat, context: Option<nat>, recvTok: Option<nat>,
                     inputs: seq<Token>, ghost base: set<nat>)
    returns (reply: Reply, ctx: Option<nat>)
    requires gss.Valid() && Holds(gss.live, base, target, context, recvTok)
    modifies gss
    ensures gss.Valid() && gss.acquired == old(gss.acquired) + Count(ctx) - Count(context)
    ensures reply == if fault then Failure else cfg.mech.initiate(inputs)
    ensures reply.Failure? || ctx.Some?
    ensures context.Some? || reply.Failure? ==> ctx == context
    ensures Holds(gss.live, base, target, ctx, None)
  {
    hide Ledger.Valid, Holds;
    TokenReleased(gss.live, base, target, context, recvTok);
    gss.Use(target);
    if context.Some? {
      gss.Use(context.value);
    }
    if recvTok.Some? {
      gss.Use(recvTok.value);
    }
    reply := if fault then Failure else cfg.mech.initiate(inputs);
    ctx := context;
    if ctx.None? && !reply.Failure? {
      ghost var live := gss.live;
      var h := gss.Acquire();
      ctx := Some(h);
      ContextMade(live, base, target, recvTok, h);
    }
    TokenReleased(gss.live, base, target, ctx, recvTok);
    if recvTok.Some? {
      gss.Release(recvTok.value);
    }
  }

  /** client.c, establish_context: the output token goes out and, if the mechanism continues, the next one comes in. */
  method SendAndReceive(cfg: Config, fd: Socket, gss: Ledger, sock: nat, reply: Reply, target: nat, ctx: nat,
                        inputs: seq<Token>, log: seq<Recorded>, ghost base: set<nat>,
                        ghost issued: set<Mic>, ghost events: seq<Event>, ghost from: Traffic)
    returns (status: Status, context: Option<nat>, recvTok: Option<nat>, token: Token, log': seq<Recorded>,
             ghost events': seq<Event>)
    requires gss.Valid() && Holds(gss.live, base, target, Some(ctx), None) && sock in base
    requires reply == cfg.mech.initiate(inputs) && !reply.Failure? && reply.token != []
    requires Path(cfg, Initiating([[]]), events, issued) == Some(Initiating(inputs))
    requires Replayed(cfg, events, from, Now(fd)) && log == Recording(events)
    modifies fd, gss
    ensures gss.Valid() && gss.acquired >= old(gss.acquired) && base <= gss.live
    ensures status.Running? ==> fd.answers == []
    ensures AllChunks(old(fd.answers)) && Clean(events) ==> !status.Failed? && AllChunks(fd.answers) && Clean(events')
    ensures status.Done? ==> context == Some(ctx)
    ensures status.Failed? ==>
              && (context.Some? ==> context == Some(ctx))
              && gss.live == base + Handles(context) && Handles(context) !! base
    ensures status.Failed? ==>
              Path(cfg, Initiating([[]]), events', issued) == Some(ClientReturned(-1)) && log' == Recording(events')
    ensures status.Done? ==> gss.acquired - old(gss.acquired) == Moved(events') - Moved(events)
    ensures status.Done? && Clean(events) ==> Clean(events')
    ensures status.Done? ==> |fd.answers| < |old(fd.answers)| && recvTok.Some? == reply.Continue?
    ensures status.Done? ==> Holds(gss.live, base, target, context, recvTok)
    ensures status.Done? ==>
              Path(cfg, Initiating([[]]), events', issued)
              == Some(if reply.Continue? then Initiating(inputs + [token]) else Sealing(cfg.mech.initiatorKey(inputs)))
    ensures status.Done? ==> Replayed(cfg, events', from, Now(fd)) && log' == Recording(events')
  {
    hide Replayed, Path, Recording, Moved, Ledger.Valid, Holds, Clean, AllChunks;
    context, recvTok, token := Some(ctx), None, [];
    NameReleased(gss.live, base, target, context);
    var sendTok := gss.Acquire();
    TokenHeld(old(gss.live), base, target, context, sendTok);
    gss.Use(sock);
    gss.Use(sendTok);
    status, log', events' := SendOn(cfg, fd, reply.token, log, Initiating([[]]), issued, events, from);
    if status.Failed? {
      gss.Release(target);
      gss.Release(sendTok);
      gss.Release(ctx);
      context := None;
    }
    if !status.Done? {
      return;
    }
    gss.Release(sendTok);
    if reply.Continue? {
      gss.Use(sock);
      status, token, log', events' := ReceiveOn(cfg, fd, log', Initiating([[]]), issued, events', from);
      if status.Done? {
        var h := gss.Acquire();
        recvTok := Some(h);
        TokenHeld(old(gss.live), base, target, context, h);
      } else if status.Failed? {
        gss.Release(target);
      }
    }
  }

  /** gss_init_sec_context failed, by itself or because the mechanism says so. */
  lemma Refused(cfg: Config, fault: bool, inputs: seq<Token>, issued: set<Mic>, events: seq<Event>,
                from: Traffic, to: Traffic) returns (events': seq<Event>)
    requires Path(cfg, Initiating([[]]), events, issued) == Some(Initiating(inputs))
    requires Replayed(cfg, events, from, to) && (fault || cfg.mech.initiate(inputs).Failure?)
    ensures Path(cfg, Initiating([[]]), events', issued) == Some(ClientReturned(-1))
              && Recording(events') == Recording(events)
    ensures Clean(events) && !fault ==> Clean(events')
  {
    hide Replayed, Path, Recording, Moved, Clean;
    if fault {
      BrokenOn(cfg, Initiating([[]]), issued, events, from, to);
      events' := events + [Broke];
    } else {
      QuietOn(cfg, Initiating([[]]), issued, events, from, to);
      events' := events + [Quiet];
    }
  }

  /** It completed without a token to send. */
  lemma Agreed(cfg: Config, inputs: seq<Token>, issued: set<Mic>, events: seq<Event>,
               from: Traffic, to: Traffic)
    requires Path(cfg, Initiating([[]]), events, issued) == Some(Initiating(inputs))
    requires Replayed(cfg, events, from, to) && cfg.mech.initiate(inputs) == Complete([])
    ensures Path(cfg, Initiating([[]]), events + [Quiet], issued) == Some(Sealing(cfg.mech.initiatorKey(inputs)))
    ensures Replayed(cfg, events + [Quiet], from, to)
              && Recording(events + [Quiet]) == Recording(events)
    ensures Moved(events + [Quiet]) == Moved(events) && (Clean(events) ==> Clean(events + [Quiet]))
  {
    hide Replayed, Path, Recording, Moved, Clean;
    QuietOn(cfg, Initiating([[]]), issued, events, from, to);
  }

  /**
    * client.c, establish_context. On success the process has reached the end of the handshake, the
    * context is the one new live handle, and the tokens recorded are those sent and received, in order.
    * None: the answers of the operating system ran out inside a call.
    */
  method EstablishContext(cfg: Config, faults: Faults, fd: Socket, gss: Ledger, sock: nat, issued: set<Mic>)
    returns (res: Option<int>, context: Option<nat>, key: nat, log: seq<Recorded>, ghost events: seq<Event>)
    requires gss.Valid() && sock in gss.live && InitiatorContract(cfg.mech)
    modifies fd, gss
    ensures gss.Valid() && gss.acquired >= old(gss.acquired) && old(gss.live) <= gss.live
    ensures res == Some(0) ==> context.Some?
    // a failure keeps a context that is not deleted
    ensures res.Some? ==> gss.live == old(gss.live) + Handles(context) && Handles(context) !! old(gss.live)
    ensures res == Some(0) ==> gss.acquired == old(gss.acquired) + 2 + Moved(events)
    ensures res == Some(0) ==> Replayed(cfg, events, old(Now(fd)), Now(fd))
    ensures res.Some? ==> res == Some(0) || res == Some(-1)
    ensures res.Some? ==>
              Path(cfg, Initiating([[]]), events, issued)
                == Some(if res == Some(0) then Sealing(key) else ClientReturned(-1))
    ensures res.Some? ==> log == Recording(events)
    ensures res.None? ==> fd.answers == []
    ensures res == Some(0) || Healthy(faults, old(fd.answers)) ==> Clean(events)
    ensures Healthy(faults, old(fd.answers)) ==> Healthy(faults, fd.answers)
  {
    hide Replayed, Path, Recording, Moved, Ledger.Valid, Clean, AllChunks, Act, Holds, Handles;
    context, key, log, events := None, 0, [], [];
    EmptyPath(cfg, Initiating([[]]), issued, Now(fd));
    if faults(ImportName) {
      NothingHeld(gss.live);
      BrokenOn(cfg, Initiating([[]]), issued, events, Now(fd), Now(fd));
      events := events + [Broke];
      return Some(-1), context, key, log, events;
    }
    var target := gss.Acquire();
    var recvTok: Option<nat> := None;
    NameHeld(old(gss.live), target);
    var inputs: seq<Token> := [[]];
    var more := true;
    while more
      invariant gss.Valid() && Holds(gss.live, old(gss.live), target, context, recvTok)
      invariant gss.acquired == old(gss.acquired) + 1 + Count(context) + Moved(events)
      invariant Path(cfg, Initiating([[]]), events, issued) == Some(if more then Initiating(inputs) else Sealing(key))
      invariant more || (context.Some? && recvTok.None?)
      invariant Replayed(cfg, events, old(Now(fd)), Now(fd))
      invariant log == Recording(events)
      invariant Clean(events) && (Healthy(faults, old(fd.answers)) ==> AllChunks(fd.answers))
      decreases |fd.answers|, more
    {
      var reply;
      reply, context := InitContext(cfg, faults(InitSecContext(|log|)), gss, target, context, recvTok, inputs,
                                    old(gss.live));
      recvTok := None;
      NameReleased(gss.live, old(gss.live), target, context);
      if reply.Failure? {
        gss.Release(target);
        events := Refused(cfg, faults(InitSecContext(|log|)), inputs, issued, events, old(Now(fd)), Now(fd));
        return Some(-1), context, key, log, events;
      }
      more := reply.Continue?;
      if reply.token == [] {
        Agreed(cfg, inputs, issued, events, old(Now(fd)), Now(fd));
        events := events + [Quiet];
      } else {
        var status, token;
        status, context, recvTok, token, log, events :=
          SendAndReceive(cfg, fd, gss, sock, reply, target, context.value, inputs, log, old(gss.live), issued, events,
                         old(Now(fd)));
        if !status.Done? {
          return if status.Running? then None else Some(-1), context, key, log, events;
        }
        if more {
          inputs := inputs + [token];
        }
      }
      if !more {
        key := cfg.mech.initiatorKey(inputs);
      }
    }
    NameReleased(gss.live, old(gss.live), target, context);
    gss.Release(target);
    res := Some(0);
  }

  predicate CanShow(faults: Faults) {
    && !faults(InquireContext) && !faults(WrapSizeLimit(false)) && !faults(WrapSizeLimit(true))
    && !faults(DisplaySource) && !faults(DisplayTarget)
  }

  /** client.c, call_server up to the message: the context's names are fetched, shown and released. */
  method ShowContext(faults: Faults, gss: Ledger, ctx: nat) returns (ok: bool)
    requires gss.Valid() && ctx in gss.live
    modifies gss
    ensures gss.Valid() && gss.acquired >= old(gss.acquired)
    ensures ok ==> gss.live == old(gss.live) && gss.acquired == old(gss.acquired) + 4
    ensures !ok ==> gss.live == old(gss.live) - {ctx}
    ensures ok == CanShow(faults)
  {
    hide Ledger.Valid;
    gss.Use(ctx);
    if faults(InquireContext) {
      gss.Release(ctx);
      return false;
    }
    var srcName := gss.Acquire();
    var targetName := gss.Acquire();
    if faults(WrapSizeLimit(false)) || faults(WrapSizeLimit(true)) {
      gss.Release(srcName);
      gss.Release(targetName);
      gss.Release(ctx);
      return false;
    }
    ok := ShowNames(faults, gss, old(gss.live), ctx, srcName, targetName);
  }

  /** Two handles more, and then one or two more again: all released but the context. */
  lemma AllBack(base: set<nat>, ctx: nat, a: nat, b: nat, c: nat, d: nat)
    requires ctx in base && {a, b} !! base && c !in base + {a, b} && d !in base + {a, b} + {c}
    ensures base + {a, b} - {a} - {b} - {ctx} == base - {ctx}
    ensures base + {a, b} + {c} - {a} - {b} - {c} - {ctx} == base - {ctx}
    ensures base + {a, b} + {c} + {d} - {a} - {b} - {c} - {d} == base
  {
  }

  /** ... both names are shown and released; so is the context when that fails. */
  method ShowNames(faults: Faults, gss: Ledger, ghost base: set<nat>, ctx: nat, srcName: nat, targetName: nat)
    returns (ok: bool)
    requires gss.Valid() && gss.live == base + {srcName, targetName} && {srcName, targetName} !! base
              && srcName != targetName && ctx in base
    modifies gss
    ensures gss.Valid() && gss.acquired >= old(gss.acquired)
    ensures ok ==> gss.live == base && gss.acquired == old(gss.acquired) + 2
    ensures !ok ==> gss.live == base - {ctx}
    ensures ok == (!faults(DisplaySource) && !faults(DisplayTarget))
  {
    gss.Bounded();
    hide Ledger.Valid;
    AllBack(base, ctx, srcName, targetName, gss.acquired, gss.acquired + 1);
    gss.Use(srcName);
    if faults(DisplaySource) {
      gss.Release(srcName);
      gss.Release(targetName);
      gss.Release(ctx);
      return false;
    }
    var sname := gss.Acquire();
    gss.Use(targetName);
    if faults(DisplayTarget) {
      gss.Release(srcName);
      gss.Release(targetName);
      gss.Release(sname);
      gss.Release(ctx);
      return false;
    }
    var tname := gss.Acquire();
    gss.Use(sname);
    gss.Use(tname);
    gss.Release(srcName);
    gss.Release(targetName);
    gss.Release(sname);
    gss.Release(tname);
    return true;
  }

  /** client.c, call_server: the message is wrapped and sent. A failure releases nothing but the wrapped message. */
  method SendMessage(cfg: Config, faults: Faults, fd: Socket, gss: Ledger, sock: nat, ctx: nat, key: nat,
                     issued: set<Mic>,
                     log: seq<Recorded>, ghost before: seq<Event>, ghost from: Traffic)
    returns (status: Status, log': seq<Recorded>, ghost events: seq<Event>)
    requires gss.Valid() && {sock, ctx} <= gss.live
    requires Path(cfg, Initiating([[]]), before, issued) == Some(Sealing(key))
    requires Replayed(cfg, before, from, Now(fd)) && log == Recording(before)
    modifies fd, gss
    ensures gss.Valid() && gss.acquired >= old(gss.acquired)
    ensures !status.Running? ==> gss.live == old(gss.live)
    ensures status.Done? ==> gss.acquired - old(gss.acquired) == Moved(events) - Moved(before)
    ensures !status.Running? ==>
              && Path(cfg, Initiating([[]]), events, issued)
                == Some(if status.Done? then AwaitingMic(key) else ClientReturned(-1))
              && Replayed(cfg, events, from, Now(fd)) && log' == Recording(events)
    ensures status.Running? ==> fd.answers == []
    ensures (status.Done? || Healthy(faults, old(fd.answers))) && Clean(before) ==> Clean(events)
    ensures Healthy(faults, old(fd.answers)) ==> AllChunks(fd.answers)
  {
    hide Replayed, Recording, Path, Moved, Ledger.Valid, Clean, AllChunks;
    log', events := log, before;
    if Healthy(faults, fd.answers) {
      HealthyMeans(faults, fd.answers, Wrap);
    }
    if faults(Wrap) {
      BrokenOn(cfg, Initiating([[]]), issued, events, from, Now(fd));
      events := events + [Broke];
      return Failed, log', events;
    }
    gss.Use(ctx);
    var token := cfg.mech.wrap(key, cfg.Text());
    var outBuffer := gss.Acquire();
    gss.Use(sock);
    gss.Use(outBuffer);
    status, log', events := SendOn(cfg, fd, token, log, Initiating([[]]), issued, events, from);
    if status.Running? {
      return;
    }
    gss.Release(outBuffer);
  }

  /** Of what has been acquired, at most two handles are still live. */
  predicate Leaves(before: set<nat>, live: set<nat>, kept: set<nat>) {
    live == before + kept && kept !! before && |kept| <= 2
  }

  lemma AreLeft(before: set<nat>, live: set<nat>, kept: set<nat>)
    requires live == before + kept && kept !! before && |kept| <= 2
    ensures Leaves(before, live, kept)
  {
  }

  lemma OneReleased(base: set<nat>, gone: nat, left: nat)
    requires {gone, left} !! base && gone != left
    ensures Leaves(base, base + {gone, left} - {gone}, {left})
  {
    AreLeft(base, base + {gone, left} - {gone}, {left});
  }

  /** One more handle, and it or one of the two before it released. */
  lemma OneMore(base: set<nat>, gone: nat, left: nat, h: nat)
    requires {gone, left} !! base && gone != left && h !in base + {gone, left}
    ensures Leaves(base, base + {gone, left} + {h} - {gone}, {left, h})
    ensures base + {gone, left} + {h} - {h} == base + {gone, left}
  {
    AreLeft(base, base + {gone, left} + {h} - {gone}, {left, h});
  }

  lemma BothHeld(base: set<nat>, sock: nat, ctx: nat)
    requires {sock, ctx} !! base && sock != ctx
    ensures Leaves(base, base + {sock, ctx}, {sock, ctx}) && base + {sock, ctx} - {ctx} - {sock} == base
    ensures Leaves(base, base + {sock, ctx} - {ctx}, {sock})
  {
    AreLeft(base, base + {sock, ctx}, {sock, ctx});
    AreLeft(base, base + {sock, ctx} - {ctx}, {sock});
  }

  /** client.c, call_server: the MIC comes back and is verified. */
  method CheckMic(cfg: Config, fd: Socket, gss: Ledger, sock: nat, ctx: nat, key: nat, issued: set<Mic>,
                  log: seq<Recorded>,
                  ghost base: set<nat>, ghost before: seq<Event>, ghost from: Traffic)
    returns (status: Status, ghost events: seq<Event>, ghost kept: set<nat>)
    requires gss.Valid() && gss.live == base + {sock, ctx} && {sock, ctx} !! base && sock != ctx
    requires Path(cfg, Initiating([[]]), before, issued) == Some(AwaitingMic(key))
    requires Replayed(cfg, before, from, Now(fd)) && log == Recording(before)
    modifies fd, gss
    ensures gss.Valid() && gss.acquired >= old(gss.acquired)
    ensures status.Done? ==>
              gss.live == old(gss.live) && gss.acquired - old(gss.acquired) == Moved(events) - Moved(before)
    // without a MIC the socket is kept, with a refused one the context and the MIC's buffer
    ensures status.Failed? ==>
              && Leaves(base, gss.live, kept) && |events| == |before| + 1
              && kept == if events[|before|].Received? then {ctx, old(gss.acquired)} else {sock}
    ensures !status.Running? ==>
              Path(cfg, Initiating([[]]), events, issued) == Some(ClientReturned(if status.Done? then 0 else -1))
    ensures status.Done? ==> Replayed(cfg, events, from, Now(fd))
    ensures status.Running? ==> fd.answers == []
    ensures (status.Done? || AllChunks(old(fd.answers))) && Clean(before) ==> Clean(events)
  {
    hide Replayed, Recording, Path, Moved, Ledger.Valid, Clean, AllChunks, Leaves;
    var mic, rest;
    kept := {};
    gss.Use(sock);
    status, mic, rest, events := ReceiveOn(cfg, fd, log, Initiating([[]]), issued, before, from);
    if status.Running? {
      return;
    }
    if status.Failed? {
      gss.Release(ctx);
      kept := {sock};
      assert {sock, ctx} == {ctx, sock};
      OneReleased(base, ctx, sock);
      return;
    }
    var outBuffer := gss.Acquire();
    OneMore(base, sock, ctx, outBuffer);
    gss.Use(ctx);
    gss.Use(outBuffer);
    if !cfg.mech.verifyMic(key, cfg.Text(), mic, issued) {
      gss.Release(sock);
      kept := {ctx, outBuffer};
      return Failed, events, kept;
    }
    gss.Release(outBuffer);
  }

  /** client.c, call_server from the established context on. */
  method UseContext(cfg: Config, faults: Faults, fd: Socket, gss: Ledger, sock: nat, ctx: nat, key: nat,
                    issued: set<Mic>, log: seq<Recorded>,
                    ghost base: set<nat>, ghost before: seq<Event>, ghost from: Traffic)
    returns (res: Option<int>, ghost events: seq<Event>, ghost kept: set<nat>)
    requires gss.Valid() && gss.live == base + {sock, ctx} && {sock, ctx} !! base && sock != ctx
    requires Path(cfg, Initiating([[]]), before, issued) == Some(Sealing(key))
    requires Replayed(cfg, before, from, Now(fd)) && log == Recording(before)
    modifies fd, gss
    ensures gss.Valid() && gss.acquired >= old(gss.acquired)
    ensures res == Some(0) ==> gss.live == base && gss.acquired - old(gss.acquired) == 4 + Moved(events) - Moved(before)
    ensures res == Some(-1) ==> Leaves(base, gss.live, kept)
    ensures res.Some? ==> Outcome(cfg, faults, res.value, Path(cfg, Initiating([[]]), events, issued))
    ensures res == Some(0) ==> Replayed(cfg, events, from, Now(fd))
    ensures res.None? ==> fd.answers == []
    ensures (res == Some(0) || Healthy(faults, old(fd.answers))) && Clean(before) ==> Clean(events)
  {
    hide Replayed, Recording, Path, Moved, Ledger.Valid, Clean, AllChunks, Leaves;
    events, kept := before, {sock, ctx};
    if Healthy(faults, fd.answers) {
      HealthyMeans(faults, fd.answers, Wrap);
    }
    BothHeld(base, sock, ctx);
    var shown := ShowContext(faults, gss, ctx);
    if !shown {
      kept := {sock};
      BrokenOn(cfg, Initiating([[]]), issued, events, from, Now(fd));
      events := events + [Broke];
      return Some(-1), events, kept;
    }
    var status, log';
    status, log', events := SendMessage(cfg, faults, fd, gss, sock, ctx, key, issued, log, events, from);
    if !status.Done? {
      return if status.Running? then None else Some(-1), events, kept;
    }
    status, events, kept := CheckMic(cfg, fd, gss, sock, ctx, key, issued, log', base, events, from);
    if !status.Done? {
      return if status.Running? then None else Some(-1), events, kept;
    }
    if faults(DeleteSecContext) {
      kept := {sock, ctx};
      return Some(-1), events, kept;
    }
    gss.Release(ctx);
    gss.Release(sock);
    return Some(0), events, kept;
  }

  lemma SocketClosed(base: set<nat>, sock: nat, context: Option<nat>)
    requires sock !in base && Handles(context) !! base + {sock}
    ensures Leaves(base, base + {sock} + Handles(context) - {sock}, Handles(context))
  {
    assert base + {sock} + Handles(context) - {sock} == base + Handles(context);
  }

  lemma SocketAndContext(base: set<nat>, sock: nat, context: Option<nat>)
    requires context.Some? && sock !in base && Handles(context) !! base + {sock}
    ensures base + {sock} + Handles(context) == base + {sock, context.value} && {sock, context.value} !! base
    ensures sock != context.value
  {
  }

  // What the client's path comes to

  /** What gss_init_sec_context has been given: no buffer first, then each token received. */
  function Inputs(events: seq<Event>): seq<Token> {
    [[]] + TokensReceived(events)
  }

  /** The last event decides: gss_init_sec_context refuses its inputs, or the context they completed checks the MIC. */
  predicate DecidedBy(cfg: Config, inputs: seq<Token>, last: Event, issued: set<Mic>, code: int) {
    match last
    case Quiet => code == -1 && cfg.mech.initiate(inputs).Failure?
    case Received(mic) =>
      && cfg.mech.initiate(inputs).Complete?
      && code == if cfg.mech.verifyMic(cfg.mech.initiatorKey(inputs), cfg.Text(), mic, issued) then 0 else -1
    case _ => false
  }

  /**
    * How a path without failures ends: gss_init_sec_context refused what had been received so far,
    * or the context it completed verified the token received last, a MIC over the message.
    */
  predicate Decided(cfg: Config, events: seq<Event>, issued: set<Mic>, code: int) {
    events != [] && DecidedBy(cfg, Inputs(events[..|events| - 1]), events[|events| - 1], issued, code)
  }

  /** Where the process is follows from its inputs. */
  predicate Follows(cfg: Config, inputs: seq<Token>, q: Proc) {
    match q
    case Initiating(given) => given == inputs
    case AwaitingToken(given) => given == inputs
    case Sealing(key) => cfg.mech.initiate(inputs).Complete? && key == cfg.mech.initiatorKey(inputs)
    case AwaitingMic(key) => cfg.mech.initiate(inputs).Complete? && key == cfg.mech.initiatorKey(inputs)
    case _ => false
  }

  lemma FollowsOn(cfg: Config, inputs: seq<Token>, e: Event, issued: set<Mic>, q: Proc)
    requires InitiatorContract(cfg.mech) && Follows(cfg, inputs, q)
    requires !e.Broke? && !e.SendBroken? && After(cfg, q, e, issued).Some?
    ensures var q' := After(cfg, q, e, issued).value;
            if q'.ClientReturned? then DecidedBy(cfg, inputs, e, issued, q'.code)
            else Follows(cfg, if e.Received? then inputs + [e.token] else inputs, q')
  {
  }

  lemma InputsOn(events: seq<Event>, e: Event)
    ensures Inputs(events + [e]) == if e.Received? then Inputs(events) + [e.token] else Inputs(events)
  {
    EventAdded(events, e);
    hide TokensReceived;
  }

  /** A client that has not returned is where its inputs have led it; nothing has failed yet. */
  lemma {:induction false} ClientFollows(cfg: Config, events: seq<Event>, issued: set<Mic>)
    requires InitiatorContract(cfg.mech) && Path(cfg, Initiating([[]]), events, issued).Some?
    ensures var q := Path(cfg, Initiating([[]]), events, issued).value;
            && (!q.ClientReturned? ==> Follows(cfg, Inputs(events), q) && Clean(events))
            && (q.ClientReturned? && Clean(events) ==> Decided(cfg, events, issued, q.code))
    decreases |events|
  {
    hide After, DecidedBy, InitiatorContract;
    if events != [] {
      var init, last := events[..|events| - 1], events[|events| - 1];
      assert init + [last] == events;
      assert last in events && forall e :: e in init ==> e in events;
      ClientFollows(cfg, init, issued);
      hide Path, Inputs, Follows;
      var q := Path(cfg, Initiating([[]]), init, issued).value;
      PathStep(cfg, Initiating([[]]), init, last, issued);
      if q.ClientReturned? {
        ReturnedStays(cfg, q, last, issued);
      } else if last.Broke? || last.SendBroken? {
        FailureEnds(cfg, Inputs(init), last, issued, q);
      } else {
        FollowsOn(cfg, Inputs(init), last, issued, q);
        InputsOn(init, last);
      }
    }
  }

  lemma ReturnedStays(cfg: Config, q: Proc, e: Event, issued: set<Mic>)
    requires q.ClientReturned? && After(cfg, q, e, issued).Some?
    ensures e.Broke? && After(cfg, q, e, issued) == Some(q)
  {
  }

  lemma FailureEnds(cfg: Config, inputs: seq<Token>, e: Event, issued: set<Mic>, q: Proc)
    requires Follows(cfg, inputs, q) && (e.Broke? || e.SendBroken?) && After(cfg, q, e, issued).Some?
    ensures After(cfg, q, e, issued) == Some(ClientReturned(-1))
  {
  }

  /** After m events a context was complete, with this key, and the token received next was accepted as a MIC. */
  predicate Verified(cfg: Config, events: seq<Event>, issued: set<Mic>, m: nat, key: nat)
    requires m < |events|
  {
    && Path(cfg, Initiating([[]]), events[..m], issued) == Some(AwaitingMic(key))
    && cfg.mech.initiate(Inputs(events[..m])).Complete? && key == cfg.mech.initiatorKey(Inputs(events[..m]))
    && events[m].Received? && cfg.mech.verifyMic(key, cfg.Text(), events[m].token, issued)
  }

  /** A client that has returned 0, whatever happened on its way, has verified a MIC. */
  lemma {:induction false} ReturnsVerified(cfg: Config, events: seq<Event>, issued: set<Mic>)
    returns (m: nat, key: nat)
    requires InitiatorContract(cfg.mech)
    requires Path(cfg, Initiating([[]]), events, issued) == Some(ClientReturned(0))
    ensures m < |events| && Verified(cfg, events, issued, m, key)
    decreases |events|
  {
    var init, last := events[..|events| - 1], events[|events| - 1];
    var q := Path(cfg, Initiating([[]]), init, issued).value;
    if q.ClientReturned? {
      hide After, Inputs;
      ReturnedStays(cfg, q, last, issued);
      m, key := ReturnsVerified(cfg, init, issued);
      assert events[..m] == init[..m];
    } else {
      ClientFollows(cfg, init, issued);
      hide Inputs, InitiatorContract, Path;
      m, key := |init|, q.key;
    }
  }

  /** A client whose path met no failure outside returns what its mechanism decided on the tokens it received. */
  lemma ClientDecides(cfg: Config, events: seq<Event>, issued: set<Mic>, code: int)
    requires InitiatorContract(cfg.mech) && Clean(events)
    requires Path(cfg, Initiating([[]]), events, issued) == Some(ClientReturned(code))
    ensures Decided(cfg, events, issued, code)
  {
    ClientFollows(cfg, events, issued);
  }

  /** The program's result is the process's, but for a context that could not be deleted at the very end. */
  predicate Outcome(cfg: Config, faults: Faults, res: int, end: Option<Proc>) {
    && (res == 0 || res == -1)
    && (end == Some(ClientReturned(res)) || (res == -1 && faults(DeleteSecContext) && end == Some(ClientReturned(0))))
  }

  lemma Decides(cfg: Config, faults: Faults, answers: seq<Answer>, events: seq<Event>, issued: set<Mic>, res: int)
    requires InitiatorContract(cfg.mech) && Outcome(cfg, faults, res, Path(cfg, Initiating([[]]), events, issued))
    ensures (res == 0 || Healthy(faults, answers)) && Clean(events) ==> Decided(cfg, events, issued, res)
  {
    if (res == 0 || Healthy(faults, answers)) && Clean(events) {
      ClientDecides(cfg, events, issued, res);
    }
  }

  /**
    * client.c, call_server. When it returns 0 the process has returned 0 too, everything acquired on
    * the way has been released, once, and nothing was used after its release on any path. When it
    * returns -1 so has the process, at most two handles are kept, and either something outside has
    * failed or the mechanism has refused the tokens received or the MIC.
    */
  method CallServer(cfg: Config, faults: Faults, fd: Socket, gss: Ledger, issued: set<Mic>)
    returns (res: Option<int>, log: seq<Recorded>, ghost events: seq<Event>, ghost kept: set<nat>)
    requires gss.Valid() && InitiatorContract(cfg.mech)
    modifies fd, gss
    ensures gss.Valid()
    ensures res == Some(0) ==> gss.live == old(gss.live)
    // a socket, a context, five names and name strings, and one buffer for each token
    ensures res == Some(0) ==> gss.acquired == old(gss.acquired) + 7 + Moved(events)
    ensures res == Some(0) ==> forall h :: old(gss.acquired) <= h < gss.acquired ==> h in gss.released
    ensures res == Some(-1) ==> Leaves(old(gss.live), gss.live, kept)
    ensures res.Some? ==> Outcome(cfg, faults, res.value, Path(cfg, Initiating([[]]), events, issued))
    ensures res == Some(0) ==> Replayed(cfg, events, old(Now(fd)), Now(fd))
    // None: the answers ran out
    ensures res.None? ==> fd.answers == []
    // on success, and on any return when nothing outside failed, the result is what the mechanism decided
    ensures res == Some(0) || Healthy(faults, old(fd.answers)) ==> Clean(events)
    ensures res == Some(0) || (res.Some? && Healthy(faults, old(fd.answers))) ==>
              Decided(cfg, events, issued, res.value)
  {
    hide Replayed, Recording, Path, Moved, Ledger.Valid, Clean, Leaves, AllChunks, Healthy, InitiatorContract, Act,
         CanShow, Handles;
    log, events, kept := [], [], {};
    assert Healthy(faults, fd.answers) ==> AllChunks(fd.answers) && !faults(Connect) by {
      if Healthy(faults, fd.answers) {
        HealthyMeans(faults, fd.answers, Connect);
      }
    }
    gss.Bounded();
    EmptyPath(cfg, Initiating([[]]), issued, Now(fd));
    if faults(Connect) {
      AreLeft(gss.live, gss.live, {});
      BrokenOn(cfg, Initiating([[]]), issued, events, Now(fd), Now(fd));
      events := events + [Broke];
      return Some(-1), log, events, kept;
    }
    var sock := gss.Acquire();
    var context, key;
    res, context, key, log, events := EstablishContext(cfg, faults, fd, gss, sock, issued);
    if res.None? {
      return;
    }
    if res != Some(0) {
      gss.Release(sock);
      kept := Handles(context);
      SocketClosed(old(gss.live), sock, context);
      Decides(cfg, faults, old(fd.answers), events, issued, -1);
      return;
    }
    SocketAndContext(old(gss.live), sock, context);
    res, events, kept := UseContext(cfg, faults, fd, gss, sock, context.value, key, issued, log, old(gss.live), events,
                                    old(Now(fd)));
    if res.Some? {
      Decides(cfg, faults, old(fd.answers), events, issued, res.value);
    }
    if res == Some(0) {
      gss.NothingKept(old(gss.acquired));
    }
  }
}
