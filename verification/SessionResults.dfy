/** The session as a whole: progress, completion, channel shape, recorded tokens, and the server as written. */
module SessionResults {
  import opened Bytes
  import opened Framing
  import opened Session
  import opened Exchange
  import opened SessionProgress

  /** Both programs have returned 0. */
  predicate Finished(st: State) {
    && st.client.phase.Idle? && st.client.proc == ClientReturned(0)
    && st.server.phase.Idle? && st.server.proc == ServerReturned(0)
  }

  // Every move keeps the invariant and comes nearer to the end

  /** Lexicographically: actions left, handshakes to close, octets to write, octets in flight, local steps. */
  predicate Closer(legs: seq<Token>, st: State, x: nat, y: nat, st': State, x': nat, y': nat) {
    || x + y < x' + y'
    || (x + y == x' + y' &&
        (var c, c' := Closing(legs, x, st.client) + Closing(legs, y, st.server),
         Closing(legs, x', st'.client) + Closing(legs, y', st'.server);
         || c' < c
         || (c' == c &&
             (var u, u' := |Unwritten(st.client)| + |Unwritten(st.server)|,
              |Unwritten(st'.client)| + |Unwritten(st'.server)|;
              || u' < u
              || (u' == u &&
                  (var f, f' := |st.toServer| + |st.toClient|, |st'.toServer| + |st'.toClient|;
                   || f' < f
                   || (f' == f && Pace(st'.client) + Pace(st'.server) < Pace(st.client) + Pace(st.server))))))))
  }

  /** One side's progress is the session's. */
  lemma ForwardIsCloser(legs: seq<Token>, side: Side, st: State, x: nat, y: nat, st': State, x': nat, y': nat)
    requires side.Client? ==> y' == y && st'.server == st.server
    requires side.Client? ==>
              Forward(legs, x, st.client, st.toClient, st.toServer, x', st'.client, st'.toClient, st'.toServer)
    requires side.Server? ==> x' == x && st'.client == st.client
    requires side.Server? ==>
              Forward(legs, y, st.server, st.toServer, st.toClient, y', st'.server, st'.toServer, st'.toClient)
    ensures Closer(legs, st, x, y, st', x', y')
  {
    hide Closing, Unwritten, Pace;
  }

  lemma StepKeeps(cfg: Config, legs: seq<Token>, st: State, x: nat, y: nat, side: Side, move: Move, st': State)
    returns (x': nat, y': nat)
    requires Sound(cfg, legs) && InvAt(cfg, legs, st, x, y) && TameStep(cfg, st, side, move, st')
    ensures InvAt(cfg, legs, st', x', y') && Closer(legs, st, x, y, st', x', y')
  {
    assert legs != [];
    hide InvFrom, Sound, StepParty, Tame, Forward, Closer;
    x', y' := x, y;
    if side.Client? {
      x' := MoveKeeps(cfg, legs, side, st.client, st.server, st.toClient, st.toServer, st.issued, x, y, move);
    } else {
      InvBothWays(cfg, legs, st, x, y);
      y' := MoveKeeps(cfg, legs, side, st.server, st.client, st.toServer, st.toClient, st.issued, y, x, move);
      InvBothWays(cfg, legs, st', x', y');
    }
    ForwardIsCloser(legs, side, st, x, y, st', x', y');
  }

  lemma StartInv(cfg: Config, legs: seq<Token>)
    requires Sound(cfg, legs)
    ensures InvAt(cfg, legs, START, 0, 0)
  {
  }

  // Nobody waits for good

  /** Nothing to do, or a read that wants more than the channel holds. */
  predicate Waits(cfg: Config, p: Party, input: seq<Byte>) {
    || (p.phase.Idle? && Act(cfg, p.proc).Halt?)
    || (p.phase.Receiving? && |input| < p.phase.io.left)
  }

  lemma MovesUnlessWaiting(cfg: Config, p: Party, input: seq<Byte>, output: seq<Byte>, issued: set<Mic>)
    returns (move: Move)
    requires !Waits(cfg, p, input)
    ensures Tame(cfg, p, move) && StepParty(cfg, p, input, output, issued, move).Some?
  {
    if p.phase.Idle? || p.phase.io.left == 0 {
      move := Local((k: nat) => 0);
    } else {
      move := Transfer(p.phase.io.left);
    }
  }

  /** A side whose peer has written all of a frame has enough to read. */
  lemma Underfull(cfg: Config, p: Party, input: seq<Byte>, queue: seq<Token>)
    requires PhaseOk(cfg, p) && p.phase.Receiving? && Short(queue)
    requires Partial(p) + input == Frames(queue) && |input| < p.phase.io.left
    ensures queue == []
  {
    hide Short, Big32, FromBig32, Act;
    if queue != [] {
      var io := p.phase.io;
      var frames := Frames(queue);
      assert |frames| >= 4 + |queue[0]|;
      if !p.phase.header {
        var header := Big32(|io.buf|);
        var rest := io.buf[..|io.buf| - io.left] + input;
        assert header + rest == frames;
        HeaderRead(header, rest, queue);
        Big32RoundTrip(|io.buf|);
      }
    }
  }

  lemma WaitingSide(cfg: Config, legs: seq<Token>, side: Side, me: Party, other: Party, input: seq<Byte>,
                    output: seq<Byte>, issued: set<Mic>, i: nat, j: nat)
    requires Sound(cfg, legs) && InvFrom(cfg, legs, side, me, other, input, output, issued, i, j)
    requires Waits(cfg, me, input) && !other.phase.Sending?
    ensures || (i == |legs| + 2 && At(cfg, legs, side, i, me.proc) && me.phase.Idle?)
            || (i < |legs| + 2 && !Sends(side, |legs|, i) && j <= i)
  {
    ActAt(cfg, legs, side, i, me.proc);
    if me.phase.Receiving? {
      var queue := Queue(cfg, legs, i, j);
      QueueShort(cfg, legs, i, j);
      assert Unwritten(other) == [];
      assert Partial(me) + input + [] == Partial(me) + input;
      Underfull(cfg, me, input, queue);
    }
  }

  /** In every reachable state some side can move, unless both programs have returned 0. */
  lemma NeverStuck(cfg: Config, legs: seq<Token>, st: State, x: nat, y: nat)
    returns (side: Side, move: Move, st': State)
    requires Sound(cfg, legs) && InvAt(cfg, legs, st, x, y) && !Finished(st)
    ensures TameStep(cfg, st, side, move, st')
  {
    assert legs != [];
    if !Waits(cfg, st.client, st.toClient) {
      hide Tame, StepParty, Waits, InvFrom, Sound;
      move := MovesUnlessWaiting(cfg, st.client, st.toClient, st.toServer, st.issued);
      side, st' := Client, Step(cfg, st, Client, move).value;
    } else if !Waits(cfg, st.server, st.toServer) {
      hide Tame, StepParty, Waits, InvFrom, Sound;
      move := MovesUnlessWaiting(cfg, st.server, st.toServer, st.toClient, st.issued);
      side, st' := Server, Step(cfg, st, Server, move).value;
    } else {
      assert !st.client.phase.Sending? && !st.server.phase.Sending?;
      InvBothWays(cfg, legs, st, x, y);
      hide InvFrom, Sound, Waits, InvAt;
      WaitingSide(cfg, legs, Client, st.client, st.server, st.toClient, st.toServer, st.issued, x, y);
      WaitingSide(cfg, legs, Server, st.server, st.client, st.toServer, st.toClient, st.issued, y, x);
      assert false;
    }
  }

  // Runs

  /** A failure-free run from st to st'. */
  ghost predicate TameRun(cfg: Config, st: State, moves: seq<(Side, Move)>, st': State)
    decreases |moves|
  {
    if moves == [] then st == st'
    else exists next :: TameStep(cfg, st, moves[0].0, moves[0].1, next) && TameRun(cfg, next, moves[1..], st')
  }

  lemma {:induction false} TameRunKeeps(cfg: Config, legs: seq<Token>, st: State, x: nat, y: nat,
                                        moves: seq<(Side, Move)>, st': State)
    returns (x': nat, y': nat)
    requires Sound(cfg, legs) && InvAt(cfg, legs, st, x, y) && TameRun(cfg, st, moves, st')
    ensures InvAt(cfg, legs, st', x', y')
    decreases |moves|
  {
    if moves == [] {
      return x, y;
    }
    assert legs != [];
    hide InvAt, Sound, TameStep;
    var next :| TameStep(cfg, st, moves[0].0, moves[0].1, next) && TameRun(cfg, next, moves[1..], st');
    x', y' := StepKeeps(cfg, legs, st, x, y, moves[0].0, moves[0].1, next);
    x', y' := TameRunKeeps(cfg, legs, next, x', y', moves[1..], st');
  }

  /** Lockstep progress: a failure-free run that has not finished can always go on. */
  lemma Progress(cfg: Config, legs: seq<Token>, moves: seq<(Side, Move)>, st: State)
    returns (side: Side, move: Move, st': State)
    requires Sound(cfg, legs) && TameRun(cfg, START, moves, st) && !Finished(st)
    ensures TameStep(cfg, st, side, move, st')
  {
    StartInv(cfg, legs);
    var x, y := TameRunKeeps(cfg, legs, START, 0, 0, moves, st);
    side, move, st' := NeverStuck(cfg, legs, st, x, y);
  }

  ghost predicate Moves(cfg: Config, st: State, st': State) {
    exists side, move :: TameStep(cfg, st, side, move, st')
  }

  ghost predicate AtRest(cfg: Config, st: State) {
    forall side, move, st' :: !TameStep(cfg, st, side, move, st')
  }

  /** The run moves on at i, or no move is possible and it stays where it is. */
  ghost predicate Advances(cfg: Config, run: nat -> State, i: nat) {
    Moves(cfg, run(i), run(i + 1)) || (AtRest(cfg, run(i)) && run(i + 1) == run(i))
  }

  /** Completion: every failure-free run, however it is scheduled, finishes. */
  lemma EveryRunFinishes(cfg: Config, legs: seq<Token>, run: nat -> State) returns (k: nat)
    requires Sound(cfg, legs) && run(0) == START
    requires forall i: nat :: Advances(cfg, run, i)
    ensures Finished(run(k))
  {
    StartInv(cfg, legs);
    hide Sound, Advances, Finished;
    k := RunFinishes(cfg, legs, run, 0, 0, 0);
  }

  lemma {:induction false} RunFinishes(cfg: Config, legs: seq<Token>, run: nat -> State, i: nat, x: nat, y: nat)
    returns (k: nat)
    requires Sound(cfg, legs) && InvAt(cfg, legs, run(i), x, y)
    requires forall i: nat :: Advances(cfg, run, i)
    ensures Finished(run(k))
    decreases 2 * |legs| + 4 - x - y, Closing(legs, x, run(i).client) + Closing(legs, y, run(i).server),
              |Unwritten(run(i).client)| + |Unwritten(run(i).server)|, |run(i).toServer| + |run(i).toClient|,
              Pace(run(i).client) + Pace(run(i).server)
  {
    Positions(cfg, legs, run(i), x, y);
    hide Sound, TameStep, Unwritten, Closing, Pace, Finished, InvAt, Advances;
    k := i;
    if !Finished(run(i)) {
      var side, move, st' := NeverStuck(cfg, legs, run(i), x, y);
      assert Advances(cfg, run, i);
      side, move := NextMove(cfg, run, i, side, move, st');
      var x', y' := StepKeeps(cfg, legs, run(i), x, y, side, move, run(i + 1));
      Positions(cfg, legs, run(i + 1), x', y');
      k := RunFinishes(cfg, legs, run, i + 1, x', y');
    }
  }

  lemma NextMove(cfg: Config, run: nat -> State, i: nat, side: Side, move: Move, st': State)
    returns (side': Side, move': Move)
    requires Advances(cfg, run, i) && TameStep(cfg, run(i), side, move, st')
    ensures TameStep(cfg, run(i), side', move', run(i + 1))
  {
    hide TameStep;
    side', move' :| TameStep(cfg, run(i), side', move', run(i + 1));
  }

  lemma Positions(cfg: Config, legs: seq<Token>, st: State, x: nat, y: nat)
    requires legs != [] && InvAt(cfg, legs, st, x, y)
    ensures x <= |legs| + 2 && y <= |legs| + 2
  {
  }

  lemma FinishedAt(cfg: Config, legs: seq<Token>, st: State, x: nat, y: nat)
    requires Sound(cfg, legs) && InvAt(cfg, legs, st, x, y) && Finished(st)
    ensures x == y == |legs| + 2
  {
    hide Sound, Linked, PhaseOk;
    ActAt(cfg, legs, Client, x, st.client.proc);
    ActAt(cfg, legs, Server, y, st.server.proc);
  }

  lemma LogEntries(legs: seq<Token>)
    ensures forall k :: 0 <= k < |legs| ==>
              && Log(legs, Client, |legs|)[k] == Recorded(k % 2 == 0, legs[k])
              && Log(legs, Server, |legs|)[k] == Recorded(k % 2 == 1, legs[k])
  {
  }

  /** What a finished session has done. */
  lemma FinishedSession(cfg: Config, legs: seq<Token>, moves: seq<(Side, Move)>, st: State)
    requires Sound(cfg, legs) && TameRun(cfg, START, moves, st) && Finished(st)
    ensures st.toServer == [] && st.toClient == []
    // recorded tokens: both sides have the legs, in order, sends of one being receives of the other
    ensures |st.client.log| == |st.server.log| == |legs|
    ensures forall k :: 0 <= k < |legs| ==>
              && st.client.log[k] == Recorded(k % 2 == 0, legs[k])
              && st.server.log[k] == Recorded(k % 2 == 1, legs[k])
    // the server has taken a MIC over the client's message
    ensures var key, text := Key(cfg.mech, legs), cfg.message + [0];
            Mic(key, text, cfg.mech.getMic(key, text)) in st.issued
  {
    StartInv(cfg, legs);
    var x, y := TameRunKeeps(cfg, legs, START, 0, 0, moves, st);
    var n := |legs|;
    hide TameRun, Sound, At, PhaseOk, Key, Tok, Queue, Sends;
    FinishedAt(cfg, legs, st, x, y);
    QueueEmpty(cfg, legs, x, y);
    assert st.client.log == Log(legs, Client, n) && st.server.log == Log(legs, Server, n);
    LogEntries(legs);
    hide Log;
  }

  // Channel shape

  /** The frames that a side has not read yet, its own partial reading included. */
  lemma ChannelShape(cfg: Config, legs: seq<Token>, moves: seq<(Side, Move)>, st: State)
    returns (toServer: seq<Token>, toClient: seq<Token>)
    requires Sound(cfg, legs) && TameRun(cfg, START, moves, st)
    ensures Partial(st.server) + st.toServer + Unwritten(st.client) == Frames(toServer)
    ensures Partial(st.client) + st.toClient + Unwritten(st.server) == Frames(toClient)
    ensures |toClient| <= 1 && |toServer| <= 2
    ensures toClient == [] || toServer == []
    // two only when the last leg is the client's, and the wrapped message comes right behind it
    ensures |toServer| == 2 ==>
              |legs| % 2 == 1 && toServer == [legs[|legs| - 1], cfg.mech.wrap(Key(cfg.mech, legs), cfg.message + [0])]
  {
    assert legs != [];
    hide Sound, TameRun, Frames, Partial, Unwritten, Key, Sends, Queue, PartyAt;
    StartInv(cfg, legs);
    var x, y := TameRunKeeps(cfg, legs, START, 0, 0, moves, st);
    toServer, toClient := ShapeAt(cfg, legs, st, x, y);
  }

  lemma ShapeAt(cfg: Config, legs: seq<Token>, st: State, x: nat, y: nat)
    returns (toServer: seq<Token>, toClient: seq<Token>)
    requires legs != [] && InvAt(cfg, legs, st, x, y)
    ensures Linked(st.server, st.toServer, st.client, toServer) && Linked(st.client, st.toClient, st.server, toClient)
    ensures |toClient| <= 1 && |toServer| <= 2 && (toClient == [] || toServer == [])
    ensures |toServer| == 2 ==>
              |legs| % 2 == 1 && toServer == [legs[|legs| - 1], cfg.mech.wrap(Key(cfg.mech, legs), cfg.message + [0])]
  {
    Positions(cfg, legs, st, x, y);
    toServer, toClient := Queue(cfg, legs, y, x), Queue(cfg, legs, x, y);
    hide PartyAt, Linked, Key, Sends;
    AheadBy(|legs|, x, y);
    if |toServer| == 2 {
      var n := |legs|;
      assert y == n - 1 && toServer[0] == Tok(cfg, legs, n - 1) && toServer[1] == Tok(cfg, legs, n);
    }
  }

  lemma AheadBy(n: nat, x: nat, y: nat)
    requires Ordered(Client, n, x, y) && x <= n + 2 && y <= n + 2 && n > 0
    ensures y <= x + 1 && x <= y + 2
    ensures x == y + 2 ==> y == n - 1 && n % 2 == 1
  {
    Consecutive(n, x);
    Consecutive(n, y);
  }

  /** Two tokens of the same side follow each other only where the last leg is the client's. */
  lemma Consecutive(n: nat, k: nat)
    ensures k <= n ==> Sends(Client, n, k) || Sends(Client, n, k + 1)
    ensures k <= n && Sends(Client, n, k) && Sends(Client, n, k + 1) ==> k + 1 == n && n % 2 == 1
    ensures k < n && Sends(Client, n, k) && Sends(Client, n, k + 1) ==> !Sends(Client, n, k + 2)
  {
  }
}
