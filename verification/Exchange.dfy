/**
  * An n-leg exchange: a mechanism whose two sides complete after n tokens, sent in turn. The tokens
  * of a session are the n legs, then the wrapped message, then the MIC; each side acts on every one
  * of them once, in this order, sending its own and receiving the other's.
  */
module Exchange {
  import opened Wrappers
  import opened Framing
  import opened Session

  /** The inputs that the speaker of leg k has been given: the legs k - 1, k - 3, ... in order. */
  function Heard(legs: seq<Token>, k: nat): seq<Token>
    requires k <= |legs|
  {
    if k == 0 then [[]] else if k == 1 then [legs[0]] else Heard(legs, k - 2) + [legs[k - 1]]
  }

  /** The answer of the side whose turn it is after k legs. */
  function Answered(m: Mechanism, legs: seq<Token>, k: nat): Reply
    requires k <= |legs|
  {
    if k % 2 == 0 then m.initiate(Heard(legs, k)) else m.accept(Heard(legs, k))
  }

  function Expected(legs: seq<Token>, k: nat): Reply
    requires k <= |legs|
  {
    if k == |legs| then Complete([]) else if k == |legs| - 1 then Complete(legs[k]) else Continue(legs[k])
  }

  /** The last call to gss_init_sec_context comes with these inputs, the last to gss_accept_sec_context with those. */
  function LastInitiated(legs: seq<Token>): seq<Token>
    requires legs != []
  {
    if |legs| % 2 == 0 then Heard(legs, |legs|) else Heard(legs, |legs| - 1)
  }

  function LastAccepted(legs: seq<Token>): seq<Token>
    requires legs != []
  {
    if |legs| % 2 == 1 then Heard(legs, |legs|) else Heard(legs, |legs| - 1)
  }

  /**
    * The mechanism's own exchange has these legs. A side that answers CONTINUE_NEEDED gives a token,
    * and the two complete contexts share their key.
    */
  predicate Legs(m: Mechanism, legs: seq<Token>) {
    && legs != []
    && (forall k :: 0 <= k < |legs| ==> 0 < |legs[k]| < LIMIT)
    && (forall k :: 0 <= k <= |legs| ==> Answered(m, legs, k) == Expected(legs, k))
    && m.initiatorKey(LastInitiated(legs)) == m.acceptorKey(LastAccepted(legs))
  }

  function Key(m: Mechanism, legs: seq<Token>): nat
    requires legs != []
  {
    m.initiatorKey(LastInitiated(legs))
  }

  // The tokens of a session

  function Tok(cfg: Config, legs: seq<Token>, k: nat): Token
    requires legs != [] && k < |legs| + 2
  {
    if k < |legs| then legs[k]
    else if k == |legs| then cfg.mech.wrap(Key(cfg.mech, legs), cfg.Text())
    else cfg.mech.getMic(Key(cfg.mech, legs), cfg.Text())
  }

  predicate FromClient(n: nat, k: nat) {
    k == n || (k < n && k % 2 == 0)
  }

  predicate Sends(side: Side, n: nat, k: nat) {
    FromClient(n, k) == side.Client?
  }

  /** A session over an n-leg exchange whose frames all have a length that fits 32 bits. */
  ghost predicate Works(cfg: Config, legs: seq<Token>) {
    && Legs(cfg.mech, legs)
    && MicComplete(cfg.mech) && WrapRoundTrip(cfg.mech)
    && |Tok(cfg, legs, |legs|)| < LIMIT && |Tok(cfg, legs, |legs| + 1)| < LIMIT
  }

  /** ... with a server that keeps its context, or that is called only once. */
  ghost predicate Sound(cfg: Config, legs: seq<Token>) {
    Works(cfg, legs) && (cfg.keepsContext || |legs| <= 2)
  }

  // Where a process is after its first k actions

  predicate ClientAt(cfg: Config, legs: seq<Token>, k: nat, p: Proc)
    requires legs != []
  {
    var n := |legs|;
    if k < n then p == if k % 2 == 0 then Initiating(Heard(legs, k)) else AwaitingToken(Heard(legs, k - 1))
    else if k == n then p == Sealing(Key(cfg.mech, legs)) || (n % 2 == 0 && p == Initiating(Heard(legs, n)))
    else if k == n + 1 then p == AwaitingMic(Key(cfg.mech, legs))
    else p == ClientReturned(0)
  }

  predicate ServerAt(cfg: Config, legs: seq<Token>, k: nat, p: Proc)
    requires legs != []
  {
    var n := |legs|;
    var key := Key(cfg.mech, legs);
    if k < n then
      p == if k % 2 == 1 then Accepting(Heard(legs, k))
           else if k == 0 then Listening([])
           else Listening(Heard(legs, k - 1))
    else if k == n then p == AwaitingMessage(Some(key)) || (n % 2 == 1 && p == Accepting(Heard(legs, n)))
    else if k == n + 1 then p == Signing(Some((key, cfg.Text())))
    else p == ServerReturned(0)
  }

  predicate At(cfg: Config, legs: seq<Token>, side: Side, k: nat, p: Proc)
    requires legs != []
  {
    if side.Client? then ClientAt(cfg, legs, k, p) else ServerAt(cfg, legs, k, p)
  }

  /** At position k: its own token is sent, the other side's awaited, and the handshake closed after the legs. */
  predicate ActsAt(cfg: Config, legs: seq<Token>, side: Side, k: nat, p: Proc)
    requires legs != []
  {
    var n := |legs|;
    match Act(cfg, p)
    case Halt => k == n + 2
    case Receive => k < n + 2 && !Sends(side, n, k) && (Handshaking(p) <==> k < n)
    case Send(t, next) =>
      && k < n + 2 && Sends(side, n, k) && t == Tok(cfg, legs, k) && At(cfg, legs, side, k + 1, next)
      && (Handshaking(p) <==> k < n)
      && (k == n + 1 ==> p == Signing(Some((Key(cfg.mech, legs), cfg.Text()))))
      && (k != n + 1 ==> !p.Signing?)
    case Compute(next) =>
      k == n && Handshaking(p) && !Handshaking(next) && At(cfg, legs, side, k, next)
  }

  lemma ClientActsAt(cfg: Config, legs: seq<Token>, k: nat, p: Proc)
    requires Legs(cfg.mech, legs) && ClientAt(cfg, legs, k, p) && k <= |legs| + 2
    ensures ActsAt(cfg, legs, Client, k, p)
  {
    if k <= |legs| {
      assert Answered(cfg.mech, legs, k) == Expected(legs, k);
    }
  }

  lemma ServerActsAt(cfg: Config, legs: seq<Token>, k: nat, p: Proc)
    requires Legs(cfg.mech, legs) && ServerAt(cfg, legs, k, p) && k <= |legs| + 2
    ensures ActsAt(cfg, legs, Server, k, p)
  {
    if k <= |legs| {
      assert Answered(cfg.mech, legs, k) == Expected(legs, k);
    }
  }

  /** What the next action is, position by position. */
  lemma ActAt(cfg: Config, legs: seq<Token>, side: Side, k: nat, p: Proc)
    requires Sound(cfg, legs) && At(cfg, legs, side, k, p) && k <= |legs| + 2
    ensures ActsAt(cfg, legs, side, k, p)
  {
    hide ActsAt, Legs;
    if side.Client? {
      ClientActsAt(cfg, legs, k, p);
    } else {
      ServerActsAt(cfg, legs, k, p);
    }
  }

  /** Receiving the token at the position moves on to the next position. */
  lemma OnReceiveAt(cfg: Config, legs: seq<Token>, side: Side, k: nat, p: Proc, issued: set<Mic>)
    requires Sound(cfg, legs) && At(cfg, legs, side, k, p) && k < |legs| + 2 && Act(cfg, p).Receive?
    requires k == |legs| + 1 ==> Mic(Key(cfg.mech, legs), cfg.Text(), Tok(cfg, legs, k)) in issued
    ensures At(cfg, legs, side, k + 1, OnReceive(cfg, p, Tok(cfg, legs, k), issued))
  {
    ActAt(cfg, legs, side, k, p);
    var n := |legs|;
    if k < n {
      assert k + 1 <= n;
      if k > 0 {
        assert Heard(legs, k + 1) == Heard(legs, k - 1) + [legs[k]];
      }
    }
  }
}
