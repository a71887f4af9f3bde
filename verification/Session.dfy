/**
  * The client and the server of application/gssapi as two processes that exchange octets over two
  * FIFO channels. A move is one system call or one step between system calls; whoever schedules
  * the moves picks the process, the chunk sizes, the contents of unset memory and every failure.
  */
module Session {
  import opened Bytes
  import opened Wrappers
  import opened Streams

  type Token = seq<Byte>

  // GSS-API mechanisms

  /** What gss_init_sec_context and gss_accept_sec_context answer, with the output token. */
  datatype Reply = Complete(token: Token) | Continue(token: Token) | Failure

  datatype Mic = Mic(key: nat, message: Token, mic: Token)

  /**
    * An abstract mechanism. A context is the list of input tokens it has been given since it was
    * created (an empty token stands for GSS_C_NO_BUFFER); its key is what both sides must share.
    * VerifyMIC may look at every MIC that has been issued.
    */
  datatype Mechanism = Mechanism(
    initiate: seq<Token> -> Reply, initiatorKey: seq<Token> -> nat,
    accept: seq<Token> -> Reply, acceptorKey: seq<Token> -> nat,
    wrap: (nat, Token) -> Token, unwrap: (nat, Token) -> Option<Token>,
    getMic: (nat, Token) -> Token, verifyMic: (nat, Token, Token, set<Mic>) -> bool)

  /** RFC 2743 section 2.3.2: only the output of GetMIC on this context and message is accepted. */
  ghost predicate MicSound(m: Mechanism) {
    forall k, msg, mic, issued :: m.verifyMic(k, msg, mic, issued) ==> Mic(k, msg, mic) in issued
  }

  ghost predicate MicComplete(m: Mechanism) {
    forall k, msg, mic, issued :: Mic(k, msg, mic) in issued ==> m.verifyMic(k, msg, mic, issued)
  }

  /** RFC 2743 sections 2.3.3 and 2.3.4. */
  ghost predicate WrapRoundTrip(m: Mechanism) {
    forall k, msg :: m.unwrap(k, m.wrap(k, msg)) == Some(msg)
  }

  /**
    * keepsContext: the acceptor's context is set to "none" once, before the loop. The server as
    * written does it on every pass, so every token goes to a new context.
    */
  datatype Config = Config(mech: Mechanism, message: Token, mode: Offsets, keepsContext: bool) {
    /** The message as sent: strlen(message) + 1 octets. */
    function Text(): Token {
      message + [0]
    }
  }

  // Control states

  datatype Proc =
    // the client
    | Initiating(inputs: seq<Token>)    // top of the do/while loop
    | AwaitingToken(inputs: seq<Token>)
    | Sealing(key: nat)                 // established; about to wrap and send
    | AwaitingMic(key: nat)
    | ClientReturned(code: int)
    // the server
    | Listening(inputs: seq<Token>)     // top of the do/while loop
    | Accepting(inputs: seq<Token>)
    | AwaitingMessage(context: Option<nat>)
    | Signing(unwrapped: Option<(nat, Token)>)
    | ServerReturned(code: int)

  datatype Action = Send(token: Token, next: Proc) | Receive | Compute(next: Proc) | Halt

  /** What a process does next. */
  function Act(cfg: Config, p: Proc): Action {
    match p
    case Initiating(inputs) =>
      (match cfg.mech.initiate(inputs)
       case Complete(t) =>
         var next := Sealing(cfg.mech.initiatorKey(inputs));
         if t != [] then Send(t, next) else Compute(next)
       case Continue(t) =>
         // without a token to send, the client does not receive: it calls again
         if t != [] then Send(t, AwaitingToken(inputs)) else Compute(Initiating(inputs + [[]]))
       case Failure => Compute(ClientReturned(-1)))
    case AwaitingToken(_) => Receive
    case Sealing(key) => Send(cfg.mech.wrap(key, cfg.Text()), AwaitingMic(key))
    case AwaitingMic(_) => Receive
    case ClientReturned(_) => Halt
    case Listening(_) => Receive
    case Accepting(inputs) =>
      (match cfg.mech.accept(inputs)
       case Complete(t) =>
         var next := AwaitingMessage(Some(cfg.mech.acceptorKey(inputs)));
         if t != [] then Send(t, next) else Compute(next)
       case Continue(t) =>
         if t != [] then Send(t, Listening(inputs)) else Compute(Listening(inputs))
       case Failure => Compute(ServerReturned(-1)))
    case AwaitingMessage(_) => Receive
    case Signing(Some((key, text))) => Send(cfg.mech.getMic(key, text), ServerReturned(0))
    case Signing(None) => Send([], ServerReturned(0)) // no context: GetMIC fails, its buffer stays empty
    case ServerReturned(_) => Halt
  }

  /** What a received token does to the process that was waiting for it. */
  function OnReceive(cfg: Config, p: Proc, token: Token, issued: set<Mic>): Proc {
    match p
    case AwaitingToken(inputs) => Initiating(inputs + [token])
    case AwaitingMic(key) => ClientReturned(if cfg.mech.verifyMic(key, cfg.Text(), token, issued) then 0 else -1)
    case Listening(inputs) => Accepting(if cfg.keepsContext then inputs + [token] else [token])
    case AwaitingMessage(Some(key)) =>
      (match cfg.mech.unwrap(key, token)
       case Some(text) => Signing(Some((key, text)))
       case None => Signing(None)) // the context is deleted, the code goes on
    case AwaitingMessage(None) => Signing(None)
    case _ => p
  }

  /** A failed receive, or a failed GSS call, ends either side. */
  function Broken(p: Proc): Proc {
    match p
    case Signing(_) => Signing(None)
    case Listening(_) => ServerReturned(-1)
    case Accepting(_) => ServerReturned(-1)
    case AwaitingMessage(_) => ServerReturned(-1)
    case ServerReturned(_) => p
    case ClientReturned(_) => p
    case _ => ClientReturned(-1)
  }

  /** A failed send ends the client; the server deletes its context and goes on. */
  function SendFailed(next: Proc): Proc {
    match next
    case Listening(_) => Listening([])
    case AwaitingMessage(_) => AwaitingMessage(None)
    case ServerReturned(_) => next
    case _ => Broken(next)
  }

  /** Tokens sent and received here are recorded. */
  predicate Handshaking(p: Proc) {
    p.Initiating? || p.AwaitingToken? || p.Listening? || p.Accepting?
  }

  /** The key of the context that is complete when the process gets here. */
  function Established(next: Proc): Option<nat> {
    match next
    case Sealing(key) => Some(key)
    case AwaitingMessage(context) => context
    case _ => None
  }

  // System calls in progress

  datatype IoState = IoState(buf: seq<Byte>, off: nat, left: nat)

  /** One read_all or write_all: the next chunk always fits the buffer. */
  type Io = io: IoState | io.off + io.left <= |io.buf| witness IoState([], 0, 0)

  datatype Phase =
    | Idle
    | Sending(header: bool, io: Io, token: Token, next: Proc)
    | Receiving(header: bool, io: Io)

  datatype Recorded = Recorded(sent: bool, token: Token)

  datatype Party = Party(proc: Proc, phase: Phase, log: seq<Recorded>, key: Option<nat>)

  datatype Side = Client | Server

  datatype State = State(client: Party, server: Party, toServer: seq<Byte>, toClient: seq<Byte>, issued: set<Mic>)

  /** Local: the next step that needs no octets. Eof: a read answers 0 at the end of the stream. */
  datatype Move = Local(memory: Memory) | Transfer(size: nat) | Fault | Eof

  datatype Effect = Effect(party: Party, input: seq<Byte>, output: seq<Byte>, issued: set<Mic>)

  function Noted(p: Party, sent: bool, token: Token): seq<Recorded> {
    if Handshaking(p.proc) then p.log + [Recorded(sent, token)] else p.log
  }

  function KeyAfter(p: Party, next: Proc): Option<nat> {
    if Established(next).Some? then Established(next) else p.key
  }

  function IssuedBy(cfg: Config, p: Proc, issued: set<Mic>): set<Mic> {
    match p
    case Signing(Some((key, text))) => issued + {Mic(key, text, cfg.mech.getMic(key, text))}
    case _ => issued
  }

  function StepLocal(cfg: Config, p: Party, input: seq<Byte>, output: seq<Byte>, issued: set<Mic>,
                     memory: Memory): Option<Effect> {
    match p.phase
    case Idle =>
      (match Act(cfg, p.proc)
       case Halt => None
       case Compute(next) => Some(Effect(p.(proc := next, key := KeyAfter(p, next)), input, output, issued))
       case Receive => Some(Effect(p.(phase := Receiving(true, IoState(Fresh(memory, 4), 0, 4))), input, output,
                                   issued))
       case Send(t, next) =>
         var p' := p.(phase := Sending(true, IoState(Big32(|t|), 0, 4), t, next),
                      log := Noted(p, true, t), key := KeyAfter(p, next));
         Some(Effect(p', input, output, IssuedBy(cfg, p.proc, issued))))
    case Sending(header, io, t, next) =>
      if io.left > 0 then None
      else if header then Some(Effect(p.(phase := Sending(false, IoState(t, 0, |t|), t, next)), input, output, issued))
      else Some(Effect(p.(proc := next, phase := Idle), input, output, issued))
    case Receiving(header, io) =>
      if io.left > 0 then None
      else if header && |io.buf| == 4 then
        var len := FromBig32(io.buf);
        Some(Effect(p.(phase := Receiving(false, IoState(Fresh(memory, len), 0, len))), input, output, issued))
      else
        Some(Effect(p.(proc := OnReceive(cfg, p.proc, io.buf, issued), phase := Idle, log := Noted(p, false, io.buf)),
                    input, output, issued))
  }

  function StepTransfer(cfg: Config, p: Party, input: seq<Byte>, output: seq<Byte>, issued: set<Mic>,
                        n: nat): Option<Effect> {
    match p.phase
    case Idle => None
    case Sending(header, io, t, next) =>
      if !(0 < n <= io.left) then None
      else
        var io' := IoState(io.buf, Advance(cfg.mode, io.off, n), io.left - n);
        Some(Effect(p.(phase := Sending(header, io', t, next)), input, output + io.buf[io.off..io.off + n], issued))
    case Receiving(header, io) =>
      if !(0 < n <= io.left && n <= |input|) then None
      else
        var io' := IoState(Store(io.buf, io.off, input[..n]), Advance(cfg.mode, io.off, n), io.left - n);
        Some(Effect(p.(phase := Receiving(header, io')), input[n..], output, issued))
  }

  function StepParty(cfg: Config, p: Party, input: seq<Byte>, output: seq<Byte>, issued: set<Mic>,
                     move: Move): Option<Effect> {
    match move
    case Local(memory) => StepLocal(cfg, p, input, output, issued, memory)
    case Transfer(n) => StepTransfer(cfg, p, input, output, issued, n)
    case Fault =>
      var proc := match p.phase { case Sending(_, _, _, next) => SendFailed(next) case _ => Broken(p.proc) };
      Some(Effect(p.(proc := proc, phase := Idle), input, output, issued))
    case Eof =>
      if p.phase.Receiving? && p.phase.io.left > 0 && input == [] then
        var io := p.phase.io;
        Some(Effect(p.(phase := Receiving(p.phase.header, io.(off := Advance(cfg.mode, io.off, 0)))), input, output,
                    issued))
      else None
  }

  function Step(cfg: Config, st: State, side: Side, move: Move): Option<State> {
    match side
    case Client =>
      (match StepParty(cfg, st.client, st.toClient, st.toServer, st.issued, move)
       case None => None
       case Some(e) => Some(State(e.party, st.server, e.output, e.input, e.issued)))
    case Server =>
      (match StepParty(cfg, st.server, st.toServer, st.toClient, st.issued, move)
       case None => None
       case Some(e) => Some(State(st.client, e.party, e.input, e.output, e.issued)))
  }

  const START := State(
    Party(Initiating([[]]), Idle, [], None), Party(Listening([]), Idle, [], None), [], [], {})

  /** A run: the state after a list of moves, if each of them was possible. */
  function Run(cfg: Config, st: State, moves: seq<(Side, Move)>): Option<State>
    decreases |moves|
  {
    if moves == [] then Some(st)
    else
      match Step(cfg, st, moves[0].0, moves[0].1)
      case None => None
      case Some(st') => Run(cfg, st', moves[1..])
  }
}
