/**
  * The server as written sets its context to "none" on every pass of the handshake loop. It can
  * complete every n-leg exchange if and only if its acceptor is called once: n is 1 or 2.
  */
module ServerAsWritten {
  import opened Wrappers
  import opened Streams
  import opened Session
  import opened SessionSafety
  import opened Exchange
  import opened SessionProgress
  import opened SessionResults

  /** Some failure-free run finishes. */
  ghost predicate CanFinish(cfg: Config) {
    exists moves, st :: TameRun(cfg, START, moves, st) && Finished(st)
  }

  lemma TameRunEmpty(cfg: Config, st: State)
    ensures TameRun(cfg, st, [], st)
  {
  }

  lemma TameRunCons(cfg: Config, st: State, side: Side, move: Move, next: State, rest: seq<(Side, Move)>, end: State)
    requires TameStep(cfg, st, side, move, next) && TameRun(cfg, next, rest, end)
    ensures TameRun(cfg, st, [(side, move)] + rest, end)
  {
    hide TameStep;
    var moves := [(side, move)] + rest;
    assert moves[0] == (side, move) && moves[1..] == rest;
  }

  lemma {:induction false} FinishFrom(cfg: Config, legs: seq<Token>, st: State, x: nat, y: nat)
    returns (moves: seq<(Side, Move)>, end: State)
    requires Sound(cfg, legs) && InvAt(cfg, legs, st, x, y)
    ensures TameRun(cfg, st, moves, end) && Finished(end)
    decreases 2 * |legs| + 4 - x - y, Closing(legs, x, st.client) + Closing(legs, y, st.server),
              |Unwritten(st.client)| + |Unwritten(st.server)|, |st.toServer| + |st.toClient|,
              Pace(st.client) + Pace(st.server)
  {
    Positions(cfg, legs, st, x, y);
    hide Sound, TameStep, Unwritten, Closing, Pace, Finished, InvAt, TameRun;
    if Finished(st) {
      TameRunEmpty(cfg, st);
      return [], st;
    }
    var side, move, next := NeverStuck(cfg, legs, st, x, y);
    var x', y' := StepKeeps(cfg, legs, st, x, y, side, move, next);
    Positions(cfg, legs, next, x', y');
    var rest;
    rest, end := FinishFrom(cfg, legs, next, x', y');
    moves := [(side, move)] + rest;
    TameRunCons(cfg, st, side, move, next, rest, end);
  }

  lemma {:induction false} TameRunIsRun(cfg: Config, st: State, moves: seq<(Side, Move)>, end: State)
    requires TameRun(cfg, st, moves, end)
    ensures Run(cfg, st, moves) == Some(end)
    decreases |moves|
  {
    hide Step, Tame;
    if moves != [] {
      var next :| TameStep(cfg, st, moves[0].0, moves[0].1, next) && TameRun(cfg, next, moves[1..], end);
      TameRunIsRun(cfg, next, moves[1..], end);
    }
  }

  // A mechanism that counts its calls: n legs, all of them one zero octet

  function CountedReply(n: nat, k: nat): Reply {
    if k == n then Complete([]) else if k == n - 1 then Complete([0]) else if k < n then Continue([0]) else Failure
  }

  function Counting(n: nat): Mechanism {
    Mechanism(
      (inputs: seq<Token>) => if inputs == [] then Failure else CountedReply(n, 2 * |inputs| - 2),
      (inputs: seq<Token>) => 0,
      (inputs: seq<Token>) => if inputs == [] then Failure else CountedReply(n, 2 * |inputs| - 1),
      (inputs: seq<Token>) => 0,
      (key: nat, text: Token) => text,
      (key: nat, token: Token) => Some(token),
      (key: nat, text: Token) => [],
      (key: nat, text: Token, mic: Token, issued: set<Mic>) => Mic(key, text, mic) in issued)
  }

  lemma {:induction false} HeardLength(legs: seq<Token>, k: nat)
    requires k <= |legs|
    ensures |Heard(legs, k)| == if k % 2 == 0 then 1 + k / 2 else (k + 1) / 2
  {
    if k >= 2 {
      HeardLength(legs, k - 2);
    }
  }

  lemma CountingWorks(n: nat, mode: Offsets, keeps: bool) returns (legs: seq<Token>)
    requires n > 0
    ensures |legs| == n && Works(Config(Counting(n), [], mode, keeps), legs) && MicSound(Counting(n))
  {
    legs := seq<Token>(n, _ => [0]);
    forall k | 0 <= k <= n
      ensures Answered(Counting(n), legs, k) == Expected(legs, k)
    {
      HeardLength(legs, k);
    }
  }

  lemma CountingNeedsMemory(n: nat)
    requires n >= 3
    ensures NeedsMemory(Counting(n))
  {
  }

  /** With its context reset on every pass, the server can finish every n-leg session iff n is 1 or 2. */
  lemma AsWrittenIff(n: nat, mode: Offsets)
    requires n > 0
    ensures (forall mech, legs, message :: |legs| == n && Works(Config(mech, message, mode, false), legs) ==>
               CanFinish(Config(mech, message, mode, false)))
        <==> n <= 2
  {
    if n <= 2 {
      forall mech, legs: seq<Token>, message | |legs| == n && Works(Config(mech, message, mode, false), legs)
        ensures CanFinish(Config(mech, message, mode, false))
      {
        CanFinishAll(Config(mech, message, mode, false), legs);
      }
    } else {
      var legs := CountingWorks(n, mode, false);
      CountingNeedsMemory(n);
      var cfg := Config(Counting(n), [], mode, false);
      if CanFinish(cfg) {
        var moves, st :| TameRun(cfg, START, moves, st) && Finished(st);
        TameRunIsRun(cfg, START, moves, st);
        ForgetfulServerFails(cfg, moves, st);
      }
      assert !CanFinish(cfg) && |legs| == n && Works(cfg, legs);
    }
  }

  /** A server that keeps its context, or is called once, can finish; by EveryRunFinishes it always does. */
  lemma CanFinishAll(cfg: Config, legs: seq<Token>)
    requires Sound(cfg, legs)
    ensures CanFinish(cfg)
  {
    StartInv(cfg, legs);
    var moves, st := FinishFrom(cfg, legs, START, 0, 0);
  }
}
