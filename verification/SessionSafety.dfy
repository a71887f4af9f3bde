/**
  * What holds in every run of the session, whatever the chunks, the offsets in use, the unset
  * memory, the failures and the mechanism.
  */
module SessionSafety {
  import opened Bytes
  import opened Wrappers
  import opened Session

  predicate ClientSide(p: Proc) {
    p.Initiating? || p.AwaitingToken? || p.Sealing? || p.AwaitingMic? || p.ClientReturned?
  }

  /** A process that holds a complete context holds the one whose key was noted. */
  predicate KeyMatches(p: Proc, key: Option<nat>) {
    match p
    case Sealing(k) => key == Some(k)
    case AwaitingMic(k) => key == Some(k)
    case AwaitingMessage(Some(k)) => key == Some(k)
    case Signing(Some((k, _))) => key == Some(k)
    case _ => true
  }

  ghost predicate ClientInv(cfg: Config, p: Party, issued: set<Mic>) {
    && ClientSide(p.proc) && KeyMatches(p.proc, p.key)
    && (p.phase.Sending? ==>
        ClientSide(p.phase.next) && !p.phase.next.ClientReturned? && KeyMatches(p.phase.next, p.key))
    && (p.proc == ClientReturned(0) ==>
          p.key.Some? && exists mic :: Mic(p.key.value, cfg.Text(), mic) in issued)
  }

  /** The server is past gss_get_mic. */
  predicate PastSigning(p: Party) {
    p.proc.ServerReturned? || (p.phase.Sending? && p.phase.next.ServerReturned?)
  }

  ghost predicate ServerInv(cfg: Config, p: Party, issued: set<Mic>) {
    && !ClientSide(p.proc) && KeyMatches(p.proc, p.key) && (p.proc.ServerReturned? ==> p.phase.Idle?)
    && (p.phase.Sending? ==>
          (p.phase.next.Listening? || p.phase.next.AwaitingMessage? || p.phase.next.ServerReturned?)
            && KeyMatches(p.phase.next, p.key))
    && (issued != {} ==>
          && PastSigning(p) && p.key.Some?
          && exists text :: issued == {Mic(p.key.value, text, cfg.mech.getMic(p.key.value, text))})
  }

  ghost predicate Inv(cfg: Config, st: State) {
    ClientInv(cfg, st.client, st.issued) && ServerInv(cfg, st.server, st.issued)
  }

  lemma ClientStep(cfg: Config, p: Party, input: seq<Byte>, output: seq<Byte>, issued: set<Mic>, move: Move)
    requires MicSound(cfg.mech) && ClientInv(cfg, p, issued)
    ensures var e := StepParty(cfg, p, input, output, issued, move);
            e.Some? ==> ClientInv(cfg, e.value.party, issued) && e.value.issued == issued
  {
  }

  lemma ServerStep(cfg: Config, p: Party, input: seq<Byte>, output: seq<Byte>, issued: set<Mic>, move: Move)
    requires ServerInv(cfg, p, issued)
    ensures var e := StepParty(cfg, p, input, output, issued, move);
            e.Some? ==> ServerInv(cfg, e.value.party, e.value.issued) && issued <= e.value.issued
  {
    if p.phase.Idle? && p.proc.Signing? && p.proc.unwrapped.Some? {
      var (key, text) := p.proc.unwrapped.value;
      assert {} + {Mic(key, text, cfg.mech.getMic(key, text))} == {Mic(key, text, cfg.mech.getMic(key, text))};
    }
  }

  lemma {:induction false} RunKeepsInv(cfg: Config, st: State, moves: seq<(Side, Move)>)
    requires MicSound(cfg.mech) && Inv(cfg, st)
    ensures var r := Run(cfg, st, moves);
            r.Some? ==> Inv(cfg, r.value)
    decreases |moves|
  {
    hide StepParty;
    if moves != [] {
      var (side, move) := moves[0];
      if side.Client? {
        ClientStep(cfg, st.client, st.toClient, st.toServer, st.issued, move);
      } else {
        ServerStep(cfg, st.server, st.toServer, st.toClient, st.issued, move);
      }
      var next := Step(cfg, st, side, move);
      if next.Some? {
        RunKeepsInv(cfg, next.value, moves[1..]);
      }
    }
  }

  /**
    * If the client returns 0, the server has completed a context with the client's key, and the one
    * MIC it took is over exactly the client's message with its terminating NUL.
    */
  lemma DeliveryConfirmed(cfg: Config, moves: seq<(Side, Move)>, st: State)
    requires MicSound(cfg.mech)
    requires Run(cfg, START, moves) == Some(st) && st.client.proc == ClientReturned(0)
    ensures st.client.key.Some? && st.server.key == st.client.key
    ensures var key, text := st.client.key.value, cfg.message + [0];
            st.issued == {Mic(key, text, cfg.mech.getMic(key, text))}
  {
    RunKeepsInv(cfg, START, moves);
  }

  // The server as written: every token goes to a new context

  /** No single token completes this acceptor. */
  ghost predicate NeedsMemory(m: Mechanism) {
    forall t :: !m.accept([t]).Complete?
  }

  /** The server never gets past the handshake. */
  predicate Stuck(p: Party) {
    && (p.proc.Listening? || (p.proc.Accepting? && |p.proc.inputs| == 1) || p.proc == ServerReturned(-1))
    && (p.phase.Sending? ==> p.phase.next.Listening?)
    && p.key.None?
  }

  lemma StuckStep(cfg: Config, p: Party, input: seq<Byte>, output: seq<Byte>, issued: set<Mic>, move: Move)
    requires !cfg.keepsContext && NeedsMemory(cfg.mech) && Stuck(p)
    ensures var e := StepParty(cfg, p, input, output, issued, move);
            e.Some? ==> Stuck(e.value.party) && e.value.issued == issued
  {
    if p.proc.Accepting? {
      assert p.proc.inputs == [p.proc.inputs[0]];
    }
  }

  lemma {:induction false} RunStaysStuck(cfg: Config, st: State, moves: seq<(Side, Move)>)
    requires !cfg.keepsContext && NeedsMemory(cfg.mech) && Stuck(st.server)
    ensures var r := Run(cfg, st, moves);
            r.Some? ==> Stuck(r.value.server)
    decreases |moves|
  {
    hide StepParty, Stuck;
    if moves != [] {
      var (side, move) := moves[0];
      StuckStep(cfg, st.server, st.toServer, st.toClient, st.issued, move);
      var next := Step(cfg, st, side, move);
      if next.Some? {
        RunStaysStuck(cfg, next.value, moves[1..]);
      }
    }
  }

  /**
    * With a mechanism whose acceptor needs more than one call, the server as written never completes
    * a context, and no client ever returns 0.
    */
  lemma ForgetfulServerFails(cfg: Config, moves: seq<(Side, Move)>, st: State)
    requires MicSound(cfg.mech) && !cfg.keepsContext && NeedsMemory(cfg.mech)
    requires Run(cfg, START, moves) == Some(st)
    ensures st.server.key.None? && st.server.proc != ServerReturned(0) && st.client.proc != ClientReturned(0)
  {
    RunStaysStuck(cfg, START, moves);
    if st.client.proc == ClientReturned(0) {
      DeliveryConfirmed(cfg, moves, st);
    }
  }
}
