/** Series of moves of one party in module Session: single calls, and the events of a path. */
module PartyMoves {
  import opened Bytes
  import opened Wrappers
  import opened Streams
  import opened StreamProofs
  import opened Framing
  import opened Session
  import opened Programs

  // Moves of one party

  /** The moves of one party, with what it reads, writes and issues. */
  function Moves(cfg: Config, e: Effect, moves: seq<Move>): Option<Effect>
    decreases |moves|
  {
    if moves == [] then Some(e)
    else
      match StepParty(cfg, e.party, e.input, e.output, e.issued, moves[0])
      case None => None
      case Some(e') => Moves(cfg, e', moves[1..])
  }

  ghost predicate Reaches(cfg: Config, e: Effect, e': Effect) {
    exists moves :: Moves(cfg, e, moves) == Some(e')
  }

  lemma Stays(cfg: Config, e: Effect)
    ensures Reaches(cfg, e, e)
  {
    assert Moves(cfg, e, []) == Some(e);
  }

  lemma OneMove(cfg: Config, e: Effect, move: Move, e': Effect)
    requires StepParty(cfg, e.party, e.input, e.output, e.issued, move) == Some(e')
    ensures Reaches(cfg, e, e')
  {
    hide StepParty;
    assert [move][1..] == [];
    assert Moves(cfg, e', []) == Some(e');
    assert Moves(cfg, e, [move]) == Some(e');
  }

  lemma GoesOn(cfg: Config, a: Effect, b: Effect, c: Effect)
    requires Reaches(cfg, a, b) && Reaches(cfg, b, c)
    ensures Reaches(cfg, a, c)
  {
    var first :| Moves(cfg, a, first) == Some(b);
    var second :| Moves(cfg, b, second) == Some(c);
    Concatenated(cfg, a, first, b, second);
  }

  lemma {:induction false} Concatenated(cfg: Config, a: Effect, first: seq<Move>, b: Effect, second: seq<Move>)
    requires Moves(cfg, a, first) == Some(b)
    ensures Moves(cfg, a, first + second) == Moves(cfg, b, second)
    decreases |first|
  {
    hide StepParty;
    if first == [] {
      assert first + second == second;
    } else {
      var e' := StepParty(cfg, a.party, a.input, a.output, a.issued, first[0]).value;
      Concatenated(cfg, e', first[1..], b, second);
      assert (first + second)[1..] == first[1..] + second;
    }
  }

  // An event as moves: calls that take a single chunk

  const UNSET: Memory := (i: nat) => 0
  const LOCAL := Local(UNSET)

  function Writing(p: Party, header: bool, io: Io, token: Token, next: Proc): Party {
    p.(phase := Phase.Sending(header, io, token, next))
  }

  function Reading(p: Party, header: bool, io: Io): Party {
    p.(phase := Phase.Receiving(header, io))
  }

  /** All of a buffer is written. */
  lemma WriteWhole(cfg: Config, p: Party, header: bool, buf: seq<Byte>, token: Token, next: Proc,
                   input: seq<Byte>, output: seq<Byte>, issued: set<Mic>) returns (io: Io)
    ensures io.left == 0
    ensures Reaches(cfg, Effect(Writing(p, header, IoState(buf, 0, |buf|), token, next), input, output, issued),
                    Effect(Writing(p, header, io, token, next), input, output + buf, issued))
  {
    var e := Effect(Writing(p, header, IoState(buf, 0, |buf|), token, next), input, output, issued);
    if buf == [] {
      io := IoState(buf, 0, 0);
      assert output + buf == output;
      Stays(cfg, e);
    } else {
      io := IoState(buf, Advance(cfg.mode, 0, |buf|), 0);
      assert buf[0..0 + |buf|] == buf;
      OneMove(cfg, e, Transfer(|buf|), Effect(Writing(p, header, io, token, next), input, output + buf, issued));
    }
  }

  /** All of a buffer is read. */
  lemma ReadWhole(cfg: Config, p: Party, header: bool, buf: seq<Byte>, chunk: seq<Byte>, input: seq<Byte>,
                  output: seq<Byte>, issued: set<Mic>) returns (io: Io)
    requires |buf| == |chunk|
    ensures io.left == 0 && io.buf == chunk
    ensures Reaches(cfg, Effect(Reading(p, header, IoState(buf, 0, |buf|)), chunk + input, output, issued),
                    Effect(Reading(p, header, io), input, output, issued))
  {
    var e := Effect(Reading(p, header, IoState(buf, 0, |buf|)), chunk + input, output, issued);
    if buf == [] {
      io := IoState(chunk, 0, 0);
      assert chunk + input == input && buf == chunk;
      Stays(cfg, e);
    } else {
      var n := |buf|;
      io := IoState(chunk, Advance(cfg.mode, 0, n), 0);
      assert (chunk + input)[..n] == chunk && (chunk + input)[n..] == input;
      assert Store(buf, 0, chunk) == chunk;
      OneMove(cfg, e, Transfer(n), Effect(Reading(p, header, io), input, output, issued));
    }
  }

  /** The party once a send has begun: what it recorded, and the context it may have completed. */
  function Begun(p: Party, token: Token, next: Proc): Party {
    p.(log := Noted(p, true, token), key := KeyAfter(p, next))
  }

  function Sending(cfg: Config, p: Party, token: Token, next: Proc, input: seq<Byte>, output: seq<Byte>,
                   issued: set<Mic>): Effect {
    Effect(Writing(Begun(p, token, next), true, IoState(Big32(|token|), 0, 4), token, next), input, output,
           IssuedBy(cfg, p.proc, issued))
  }

  lemma BeginSend(cfg: Config, p: Party, token: Token, next: Proc, input: seq<Byte>, output: seq<Byte>,
                  issued: set<Mic>)
    requires p.phase.Idle? && Act(cfg, p.proc) == Action.Send(token, next)
    ensures Reaches(cfg, Effect(p, input, output, issued), Sending(cfg, p, token, next, input, output, issued))
  {
    OneMove(cfg, Effect(p, input, output, issued), LOCAL, Sending(cfg, p, token, next, input, output, issued));
  }

  lemma FinishSend(cfg: Config, p: Party, token: Token, next: Proc, input: seq<Byte>, output: seq<Byte>,
                   issued: set<Mic>)
    ensures Reaches(cfg, Effect(Writing(p, true, IoState(Big32(|token|), 0, 4), token, next), input, output, issued),
                    Effect(p.(proc := next, phase := Idle), input, output + Frame(token), issued))
  {
    hide Reaches;
    var e := Effect(Writing(p, true, IoState(Big32(|token|), 0, 4), token, next), input, output, issued);
    var io := WriteWhole(cfg, p, true, Big32(|token|), token, next, input, output, issued);
    var wire := output + Big32(|token|);
    var header := Effect(Writing(p, true, io, token, next), input, wire, issued);
    var body := Effect(Writing(p, false, IoState(token, 0, |token|), token, next), input, wire, issued);
    OneMove(cfg, header, LOCAL, body);
    GoesOn(cfg, e, header, body);
    io := WriteWhole(cfg, p, false, token, token, next, input, wire, issued);
    var written := Effect(Writing(p, false, io, token, next), input, wire + token, issued);
    GoesOn(cfg, e, body, written);
    var done := Effect(p.(proc := next, phase := Idle), input, wire + token, issued);
    OneMove(cfg, written, LOCAL, done);
    GoesOn(cfg, e, written, done);
    assert wire + token == output + Frame(token);
  }

  lemma Receives(cfg: Config, p: Party, token: Token, input: seq<Byte>, output: seq<Byte>, issued: set<Mic>)
    requires p.phase.Idle? && Act(cfg, p.proc).Receive? && |token| < LIMIT
    ensures Reaches(cfg, Effect(p, Frame(token) + input, output, issued),
                    Effect(p.(proc := OnReceive(cfg, p.proc, token, issued), phase := Idle,
                              log := Noted(p, false, token)), input, output, issued))
  {
    hide Reaches, OnReceive, FromBig32, Big32;
    var wire := token + input;
    assert Frame(token) + input == Big32(|token|) + wire;
    var e := Effect(p, Big32(|token|) + wire, output, issued);
    var posted := Effect(Reading(p, true, IoState(Fresh(UNSET, 4), 0, 4)), Big32(|token|) + wire, output, issued);
    OneMove(cfg, e, LOCAL, posted);
    var io := ReadWhole(cfg, p, true, Fresh(UNSET, 4), Big32(|token|), wire, output, issued);
    var header := Effect(Reading(p, true, io), wire, output, issued);
    GoesOn(cfg, e, posted, header);
    Big32RoundTrip(|token|);
    var body := Effect(Reading(p, false, IoState(Fresh(UNSET, |token|), 0, |token|)), wire, output, issued);
    OneMove(cfg, header, LOCAL, body);
    GoesOn(cfg, e, header, body);
    io := ReadWhole(cfg, p, false, Fresh(UNSET, |token|), token, input, output, issued);
    var read := Effect(Reading(p, false, io), input, output, issued);
    GoesOn(cfg, e, body, read);
    var done := Effect(p.(proc := OnReceive(cfg, p.proc, token, issued), phase := Idle, log := Noted(p, false, token)),
                       input, output, issued);
    OneMove(cfg, read, LOCAL, done);
    GoesOn(cfg, e, read, done);
  }

  function Written(e: Event): seq<Byte> {
    if e.Sent? then Frame(e.token) else []
  }

  function Taken(e: Event): seq<Byte> {
    if e.Received? then Frame(e.token) else []
  }

  /** What the step records: tokens of the handshake. */
  function Kept(p: Proc, e: Event): seq<Recorded> {
    if !Handshaking(p) then []
    else
      match e
      case Sent(t) => [Recorded(true, t)]
      case SendBroken(t) => [Recorded(true, t)]
      case Received(t) => [Recorded(false, t)]
      case _ => []
  }

  /** The party and its channels before and after an event. */
  predicate Realised(cfg: Config, e: Effect, event: Event, e': Effect) {
    && After(cfg, e.party.proc, event, e.issued) == Some(e'.party.proc)
    && e.party.phase.Idle? && e'.party.phase.Idle?
    && e.input == Taken(event) + e'.input && e'.output == e.output + Written(event)
    && e'.issued == e.issued + MicTaken(cfg, e.party.proc, event)
    && e'.party.log == e.party.log + Kept(e.party.proc, event)
  }

  /** Every event of a process between two calls can be brought about by its moves. */
  lemma EventIsRealised(cfg: Config, p: Party, event: Event, input: seq<Byte>, output: seq<Byte>, issued: set<Mic>)
    returns (e': Effect)
    requires p.phase.Idle? && After(cfg, p.proc, event, issued).Some? && (event.Received? ==> |event.token| < LIMIT)
    ensures Realised(cfg, Effect(p, Taken(event) + input, output, issued), event, e') && e'.input == input
    ensures Reaches(cfg, Effect(p, Taken(event) + input, output, issued), e')
  {
    hide Frame, Reaches, Big32;
    var e := Effect(p, Taken(event) + input, output, issued);
    assert [] + input == input && output + [] == output && issued + {} == issued && p.log + [] == p.log;
    match event
    case Quiet =>
      var next := Act(cfg, p.proc).next;
      e' := Effect(p.(proc := next, key := KeyAfter(p, next)), input, output, issued);
      OneMove(cfg, e, LOCAL, e');
    case Broke =>
      e' := Effect(p.(proc := Broken(p.proc)), input, output, issued);
      OneMove(cfg, e, Fault, e');
    case Sent(t) =>
      var next := Act(cfg, p.proc).next;
      BeginSend(cfg, p, t, next, input, output, issued);
      FinishSend(cfg, Begun(p, t, next), t, next, input, output, IssuedBy(cfg, p.proc, issued));
      e' := Effect(Begun(p, t, next).(proc := next, phase := Idle), input, output + Frame(t),
                   IssuedBy(cfg, p.proc, issued));
      GoesOn(cfg, e, Sending(cfg, p, t, next, input, output, issued), e');
    case SendBroken(t) =>
      var next := Act(cfg, p.proc).next;
      BeginSend(cfg, p, t, next, input, output, issued);
      var begun := Sending(cfg, p, t, next, input, output, issued);
      e' := Effect(Begun(p, t, next).(proc := SendFailed(next), phase := Idle), input, output, begun.issued);
      OneMove(cfg, begun, Fault, e');
      GoesOn(cfg, e, begun, e');
    case Received(t) =>
      Receives(cfg, p, t, input, output, issued);
      e' := Effect(p.(proc := OnReceive(cfg, p.proc, t, issued), phase := Idle, log := Noted(p, false, t)),
                   input, output, issued);
  }

  // Calls in progress are the loops of utils.c, with either offset

  /** A read of 0 octets is the end of the stream. */
  function Transfers(sizes: seq<nat>): seq<Move> {
    if sizes == [] then [] else [if sizes[0] == 0 then Eof else Transfer(sizes[0])] + Transfers(sizes[1..])
  }

  function Granted(sizes: seq<nat>): seq<Answer> {
    if sizes == [] then [] else [Chunk(if sizes[0] == 0 then 1 else sizes[0])] + Granted(sizes[1..])
  }

  function Sent1(cfg: Config, io: Io, n: nat): Io
    requires n <= io.left
  {
    IoState(io.buf, Advance(cfg.mode, io.off, n), io.left - n)
  }

  lemma OneWrite(cfg: Config, p: Party, header: bool, io: Io, token: Token, next: Proc,
                 input: seq<Byte>, output: seq<Byte>, issued: set<Mic>, n: nat, e': Effect)
    requires StepParty(cfg, Writing(p, header, io, token, next), input, output, issued, if n == 0 then Eof
                       else Transfer(n)) == Some(e')
    ensures 0 < n <= io.left
    ensures e'
         == Effect(Writing(p, header, Sent1(cfg, io, n), token, next), input, output + io.buf[io.off..io.off + n],
                   issued)
  {
  }

  lemma TransfersStep(sizes: seq<nat>, n: nat)
    requires sizes != [] && n == sizes[0]
    ensures Transfers(sizes) != [] && Transfers(sizes)[0] == (if n == 0 then Eof else Transfer(n))
    ensures Transfers(sizes)[1..] == Transfers(sizes[1..])
    ensures Granted(sizes) != [] && Granted(sizes)[0] == Chunk(if n == 0 then 1 else n)
    ensures Granted(sizes)[1..] == Granted(sizes[1..])
  {
  }

  lemma MovesOn(cfg: Config, e: Effect, moves: seq<Move>) returns (e': Effect)
    requires moves != [] && Moves(cfg, e, moves).Some?
    ensures StepParty(cfg, e.party, e.input, e.output, e.issued, moves[0]) == Some(e')
    ensures Moves(cfg, e, moves) == Moves(cfg, e', moves[1..])
  {
    e' := StepParty(cfg, e.party, e.input, e.output, e.issued, moves[0]).value;
  }

  /** Whatever chunks a write in a session takes, it puts on the channel what write_all writes in those chunks. */
  lemma {:induction false} TransfersWrite(cfg: Config, p: Party, header: bool, io: Io, token: Token, next: Proc,
                                          input: seq<Byte>, output: seq<Byte>, issued: set<Mic>, sizes: seq<nat>)
    returns (io': Io)
    requires Moves(cfg, Effect(Writing(p, header, io, token, next), input, output, issued), Transfers(sizes)).Some?
    ensures var w := WriteLoop(cfg.mode, io.buf, io.off, io.left, output, Granted(sizes));
            && Moves(cfg, Effect(Writing(p, header, io, token, next), input, output, issued), Transfers(sizes))
               == Some(Effect(Writing(p, header, io', token, next), input, w.wire, issued))
            && w.answers == [] && (w.status.Done? <==> io'.left == 0)
    decreases |sizes|
  {
    if sizes == [] {
      io' := io;
    } else {
      hide StepParty, Granted, Transfers;
      var e := Effect(Writing(p, header, io, token, next), input, output, issued);
      var n := sizes[0];
      TransfersStep(sizes, n);
      var e' := MovesOn(cfg, e, Transfers(sizes));
      hide Moves;
      OneWrite(cfg, p, header, io, token, next, input, output, issued, n, e');
      io' := TransfersWrite(cfg, p, header, Sent1(cfg, io, n), token, next, input, e'.output, issued, sizes[1..]);
    }
  }

  /** And every write_all can take place in a session, chunk by chunk. */
  lemma {:induction false} WritesTransfer(cfg: Config, p: Party, header: bool, io: Io, token: Token, next: Proc,
                                          input: seq<Byte>, output: seq<Byte>, issued: set<Mic>, answers: seq<Answer>)
    returns (io': Io)
    ensures var w := WriteLoop(cfg.mode, io.buf, io.off, io.left, output, answers);
            && Reaches(cfg, Effect(Writing(p, header, io, token, next), input, output, issued),
                       Effect(Writing(p, header, io', token, next), input, w.wire, issued))
            && (w.status.Done? <==> io'.left == 0)
    decreases |answers|
  {
    hide Reaches, StepParty;
    var e := Effect(Writing(p, header, io, token, next), input, output, issued);
    if io.left > 0 && answers != [] && answers[0].Chunk? {
      var n := Min(answers[0].limit, io.left);
      var wire := output + io.buf[io.off..io.off + n];
      var e' := Effect(Writing(p, header, Sent1(cfg, io, n), token, next), input, wire, issued);
      OneWritten(cfg, p, header, io, token, next, input, output, issued, n);
      OneMove(cfg, e, Transfer(n), e');
      io' := WritesTransfer(cfg, p, header, Sent1(cfg, io, n), token, next, input, wire, issued, answers[1..]);
      GoesOn(cfg, e, e', Effect(Writing(p, header, io', token, next), input,
                                WriteLoop(cfg.mode, io.buf, io.off, io.left, output, answers).wire, issued));
    } else {
      io' := io;
      Stays(cfg, e);
    }
  }

  lemma OneWritten(cfg: Config, p: Party, header: bool, io: Io, token: Token, next: Proc,
                   input: seq<Byte>, output: seq<Byte>, issued: set<Mic>, n: nat)
    requires 0 < n <= io.left
    ensures StepParty(cfg, Writing(p, header, io, token, next), input, output, issued, Transfer(n))
         == Some(Effect(Writing(p, header, Sent1(cfg, io, n), token, next), input, output + io.buf[io.off..io.off + n],
                        issued))
  {
  }

  function Read1(cfg: Config, io: Io, chunk: seq<Byte>): Io
    requires |chunk| <= io.left
  {
    IoState(Store(io.buf, io.off, chunk), Advance(cfg.mode, io.off, |chunk|), io.left - |chunk|)
  }

  lemma OneRead(cfg: Config, p: Party, header: bool, io: Io, input: seq<Byte>, output: seq<Byte>, issued: set<Mic>,
                n: nat, e': Effect)
    requires StepParty(cfg, Reading(p, header, io), input, output, issued, if n == 0 then Eof else Transfer(n))
         == Some(e')
    ensures n <= io.left && n <= |input| && io.left > 0 && (n == 0 ==> input == [])
    ensures e' == Effect(Reading(p, header, Read1(cfg, io, input[..n])), input[n..], output, issued)
  {
    if n == 0 {
      assert Store(io.buf, io.off, input[..0]) == io.buf;
    }
  }

  /** What a read in progress and what read_all have come to. */
  predicate ReadSame(e: Effect, p: Party, header: bool, io: Io, r: Streams.Reading, output: seq<Byte>,
                     issued: set<Mic>) {
    && e == Effect(Reading(p, header, io), r.input, output, issued)
    && io.buf == r.buf && r.answers == [] && (r.status.Done? <==> io.left == 0)
  }

  /** Whatever chunks a read in a session takes, it stores what read_all stores in those chunks. */
  lemma {:induction false} TransfersRead(cfg: Config, p: Party, header: bool, io: Io, input: seq<Byte>,
                                         output: seq<Byte>, issued: set<Mic>, sizes: seq<nat>)
    returns (io': Io)
    requires Moves(cfg, Effect(Reading(p, header, io), input, output, issued), Transfers(sizes)).Some?
    ensures ReadSame(Moves(cfg, Effect(Reading(p, header, io), input, output, issued), Transfers(sizes)).value,
                     p, header, io', ReadLoop(cfg.mode, io.buf, io.off, io.left, input, Granted(sizes)), output, issued)
    decreases |sizes|
  {
    if sizes == [] {
      io' := io;
    } else {
      hide StepParty, ReadLoop, Granted, Transfers, ReadSame, Reading, Read1;
      var e := Effect(Reading(p, header, io), input, output, issued);
      var n := sizes[0];
      TransfersStep(sizes, n);
      var e' := MovesOn(cfg, e, Transfers(sizes));
      hide Moves;
      OneRead(cfg, p, header, io, input, output, issued, n, e');
      LoopReads(cfg, io, input, Granted(sizes), n);
      io' := TransfersRead(cfg, p, header, Read1(cfg, io, input[..n]), input[n..], output, issued, sizes[1..]);
    }
  }

  /** The loop's next pass, when the answer grants exactly what is read. */
  lemma LoopReads(cfg: Config, io: Io, input: seq<Byte>, answers: seq<Answer>, n: nat)
    requires n <= io.left && n <= |input| && io.left > 0 && (n == 0 ==> input == [])
    requires answers != [] && answers[0] == Chunk(if n == 0 then 1 else n)
    ensures var io' := Read1(cfg, io, input[..n]);
            && ReadLoop(cfg.mode, io.buf, io.off, io.left, input, answers)
               == ReadLoop(cfg.mode, io'.buf, io'.off, io'.left, input[n..], answers[1..])
            && Counts(io.left, |input|, answers) == [n] + Counts(io'.left, |input[n..]|, answers[1..])
  {
    hide Store, ReadLoop, Counts, Sum, Advance;
    var k := ReadStep(cfg.mode, io.buf, io.off, io.left, input, answers);
    assert k == n;
  }

  /** The chunks of the call are the sizes of the transfers. */
  lemma {:induction false} TransfersCount(cfg: Config, p: Party, header: bool, io: Io, input: seq<Byte>,
                                          output: seq<Byte>, issued: set<Mic>, sizes: seq<nat>)
    requires Moves(cfg, Effect(Reading(p, header, io), input, output, issued), Transfers(sizes)).Some?
    ensures Counts(io.left, |input|, Granted(sizes)) == sizes
    decreases |sizes|
  {
    if sizes != [] {
      hide StepParty, Counts, Granted, Transfers, Reading, Read1;
      var e := Effect(Reading(p, header, io), input, output, issued);
      var n := sizes[0];
      TransfersStep(sizes, n);
      var e' := MovesOn(cfg, e, Transfers(sizes));
      hide Moves;
      OneRead(cfg, p, header, io, input, output, issued, n, e');
      LoopReads(cfg, io, input, Granted(sizes), n);
      TransfersCount(cfg, p, header, Read1(cfg, io, input[..n]), input[n..], output, issued, sizes[1..]);
    }
  }

  /** And every read_all can take place in a session. */
  lemma {:induction false} ReadsTransfer(cfg: Config, p: Party, header: bool, io: Io, input: seq<Byte>,
                                         output: seq<Byte>, issued: set<Mic>, answers: seq<Answer>)
    returns (io': Io)
    ensures var r := ReadLoop(cfg.mode, io.buf, io.off, io.left, input, answers);
            && Reaches(cfg, Effect(Reading(p, header, io), input, output, issued),
                       Effect(Reading(p, header, io'), r.input, output, issued))
            && io'.buf == r.buf && (r.status.Done? <==> io'.left == 0)
    decreases |answers|
  {
    hide Reaches, StepParty, Store;
    var e := Effect(Reading(p, header, io), input, output, issued);
    if io.left > 0 && answers != [] && answers[0].Chunk? {
      var n := ReadCount(answers[0].limit, io.left, |input|);
      var e' := Effect(Reading(p, header, Read1(cfg, io, input[..n])), input[n..], output, issued);
      OneReadDone(cfg, p, header, io, input, output, issued, n);
      OneMove(cfg, e, if n == 0 then Eof else Transfer(n), e');
      io' := ReadsTransfer(cfg, p, header, Read1(cfg, io, input[..n]), input[n..], output, issued, answers[1..]);
      GoesOn(cfg, e, e', Effect(Reading(p, header, io'),
                                ReadLoop(cfg.mode, io.buf, io.off, io.left, input, answers).input, output, issued));
    } else {
      io' := io;
      Stays(cfg, e);
    }
  }

  lemma OneReadDone(cfg: Config, p: Party, header: bool, io: Io, input: seq<Byte>, output: seq<Byte>, issued: set<Mic>,
                    n: nat)
    requires n <= io.left && n <= |input| && io.left > 0 && (n == 0 ==> input == [])
    ensures StepParty(cfg, Reading(p, header, io), input, output, issued, if n == 0 then Eof else Transfer(n))
         == Some(Effect(Reading(p, header, Read1(cfg, io, input[..n])), input[n..], output, issued))
  {
    if n == 0 {
      assert Store(io.buf, io.off, input[..0]) == io.buf;
    }
  }

  /** With a third chunk the last octet of a buffer that is read in a session, as written, is never set. */
  lemma ThirdChunkLost(cfg: Config, p: Party, header: bool, buf: seq<Byte>, input: seq<Byte>, output: seq<Byte>,
                       issued: set<Mic>, sizes: seq<nat>)
    returns (io: Io)
    requires cfg.mode.LastChunk? && |sizes| > 2 && 0 !in sizes
    requires var e := Effect(Reading(p, header, IoState(buf, 0, |buf|)), input, output, issued);
             && Moves(cfg, e, Transfers(sizes)).Some?
             && Moves(cfg, e, Transfers(sizes)).value.party.phase.Receiving?
             && Moves(cfg, e, Transfers(sizes)).value.party.phase.io.left == 0
    ensures |buf| <= |input|
    ensures Moves(cfg, Effect(Reading(p, header, IoState(buf, 0, |buf|)), input, output, issued), Transfers(sizes))
         == Some(Effect(Reading(p, header, io), input[|buf|..], output, issued))
    ensures |buf| > 0 && |io.buf| == |buf| && io.buf[|buf| - 1] == buf[|buf| - 1]
  {
    hide Moves, ReadLoop, Counts, Sum;
    TransfersCount(cfg, p, header, IoState(buf, 0, |buf|), input, output, issued, sizes);
    io := TransfersRead(cfg, p, header, IoState(buf, 0, |buf|), input, output, issued, sizes);
    DoneWhenCounted(LastChunk, buf, 0, |buf|, input, Granted(sizes));
    ReadConsumes(LastChunk, buf, 0, |buf|, input, Granted(sizes));
    CountsStep(|buf|, |input|, Granted(sizes));
    LastNeverRead(buf, input, Granted(sizes));
  }

  /**
    * A call may fail at any point. A client ends with -1 then, unless it has returned; a server goes
    * on after a failed send, with its context gone, and ends with -1 after a failed receive.
    */
  lemma FailsAnywhere(cfg: Config, p: Party, input: seq<Byte>, output: seq<Byte>, issued: set<Mic>)
    ensures var r := StepParty(cfg, p, input, output, issued, Fault);
            && r.Some? && r.value.input == input && r.value.output == output && r.value.issued == issued
            && r.value.party.phase.Idle?
            && (!p.phase.Sending? ==>
                  && (p.proc.Initiating? || p.proc.AwaitingToken? || p.proc.Sealing? || p.proc.AwaitingMic? ==>
                        r.value.party.proc == ClientReturned(-1))
                  && (p.proc.Listening? || p.proc.Accepting? || p.proc.AwaitingMessage? ==>
                        r.value.party.proc == ServerReturned(-1))
                  && (p.proc.Signing? ==> r.value.party.proc == Signing(None))
                  && (p.proc.ClientReturned? || p.proc.ServerReturned? ==> r.value.party.proc == p.proc))
            && (p.phase.Sending? ==>
                  match p.phase.next
                  case Listening(_) => r.value.party.proc == Listening([])
                  case AwaitingMessage(_) => r.value.party.proc == AwaitingMessage(None)
                  case ServerReturned(code) => r.value.party.proc == ServerReturned(code)
                  case AwaitingToken(_) => r.value.party.proc == ClientReturned(-1)
                  case Sealing(_) => r.value.party.proc == ClientReturned(-1)
                  case AwaitingMic(_) => r.value.party.proc == ClientReturned(-1)
                  case _ => true)
  {
  }

  // The events of a path, in the chunks in which they took place

  /** A token that is being sent: its header, then its body, as far as the answers allow. */
  lemma SendReplayed(cfg: Config, p: Party, token: Token, next: Proc, a: Traffic, issued: set<Mic>)
    returns (header: bool, io: Io)
    ensures var w := SendResult(cfg.mode, token, a.wire, a.answers);
            && Reaches(cfg,
                       Effect(Writing(p, true, IoState(Big32(|token|), 0, 4), token, next), a.input, a.wire, issued),
                       Effect(Writing(p, header, io, token, next), a.input, w.wire, issued))
            && (w.status.Done? ==> !header && io.left == 0)
  {
    hide Reaches, WriteLoop, Big32;
    header := true;
    io := WritesTransfer(cfg, p, true, IoState(Big32(|token|), 0, 4), token, next, a.input, a.wire, issued, a.answers);
    var e := Effect(Writing(p, true, IoState(Big32(|token|), 0, 4), token, next), a.input, a.wire, issued);
    var h := WriteLoop(cfg.mode, Big32(|token|), 0, 4, a.wire, a.answers);
    var read := Effect(Writing(p, true, io, token, next), a.input, h.wire, issued);
    if h.status.Done? {
      var body := Effect(Writing(p, false, IoState(token, 0, |token|), token, next), a.input, h.wire, issued);
      OneMove(cfg, read, LOCAL, body);
      GoesOn(cfg, e, read, body);
      header := false;
      io := WritesTransfer(cfg, p, false, IoState(token, 0, |token|), token, next, a.input, h.wire, issued, h.answers);
      GoesOn(cfg, e, body, Effect(Writing(p, false, io, token, next), a.input,
                                  WriteLoop(cfg.mode, token, 0, |token|, h.wire, h.answers).wire, issued));
    }
  }

  function Got(cfg: Config, p: Party, token: Token, issued: set<Mic>): Party {
    p.(proc := OnReceive(cfg, p.proc, token, issued), phase := Idle, log := Noted(p, false, token))
  }

  lemma ReceiveReplayed(cfg: Config, p: Party, token: Token, stack: Memory, heap: Memory, a: Traffic, b: Traffic,
                        issued: set<Mic>)
    requires p.phase.Idle? && Act(cfg, p.proc).Receive? && Takes(cfg.mode, token, stack, heap, a, b)
    ensures Reaches(cfg, Effect(p, a.input, a.wire, issued),
                    Effect(Got(cfg, p, token, issued), b.input, b.wire, issued))
  {
    hide Reaches, OnReceive, ReadLoop, Fresh, FromBig32;
    var e := Effect(p, a.input, a.wire, issued);
    var posted := Effect(Reading(p, true, IoState(Fresh(stack, 4), 0, 4)), a.input, a.wire, issued);
    OneMove(cfg, e, Local(stack), posted);
    var io := ReadsTransfer(cfg, p, true, IoState(Fresh(stack, 4), 0, 4), a.input, a.wire, issued, a.answers);
    var h := ReadLoop(cfg.mode, Fresh(stack, 4), 0, 4, a.input, a.answers);
    var header := Effect(Reading(p, true, io), h.input, a.wire, issued);
    GoesOn(cfg, e, posted, header);
    var n := FromBig32(h.buf);
    var body := Effect(Reading(p, false, IoState(Fresh(heap, n), 0, n)), h.input, a.wire, issued);
    OneMove(cfg, header, Local(heap), body);
    GoesOn(cfg, e, header, body);
    io := ReadsTransfer(cfg, p, false, IoState(Fresh(heap, n), 0, n), h.input, a.wire, issued, h.answers);
    var read := Effect(Reading(p, false, io), b.input, b.wire, issued);
    GoesOn(cfg, e, body, read);
    OneMove(cfg, read, LOCAL, Effect(Got(cfg, p, token, issued), b.input, b.wire, issued));
    GoesOn(cfg, e, read, Effect(Got(cfg, p, token, issued), b.input, b.wire, issued));
  }

  /** What an event makes of a party between two calls, whatever the streams. */
  predicate Led(cfg: Config, p: Party, event: Event, issued: set<Mic>, p': Party, issued': set<Mic>) {
    && After(cfg, p.proc, event, issued) == Some(p'.proc) && p'.phase.Idle?
    && issued' == issued + MicTaken(cfg, p.proc, event) && p'.log == p.log + Kept(p.proc, event)
  }

  /** An event of a program is brought about by moves that read and write exactly what its calls did. */
  lemma EventReplayed(cfg: Config, p: Party, event: Event, a: Traffic, b: Traffic, issued: set<Mic>)
    returns (p': Party, issued': set<Mic>)
    requires p.phase.Idle? && After(cfg, p.proc, event, issued).Some? && Carries(cfg.mode, event, a, b)
    ensures Reaches(cfg, Effect(p, a.input, a.wire, issued), Effect(p', b.input, b.wire, issued'))
    ensures Led(cfg, p, event, issued, p', issued')
  {
    hide Reaches, Big32, SendResult, RecvResult;
    var e := Effect(p, a.input, a.wire, issued);
    assert issued + {} == issued && p.log + [] == p.log;
    issued' := issued;
    match event
    case Quiet =>
      var next := Act(cfg, p.proc).next;
      p' := p.(proc := next, key := KeyAfter(p, next));
      OneMove(cfg, e, LOCAL, Effect(p', b.input, b.wire, issued));
    case Broke =>
      p' := p.(proc := Broken(p.proc));
      OneMove(cfg, e, Fault, Effect(p', b.input, b.wire, issued));
    case Sent(t) =>
      var next := Act(cfg, p.proc).next;
      issued' := IssuedBy(cfg, p.proc, issued);
      p' := Begun(p, t, next).(proc := next, phase := Idle);
      BeginSend(cfg, p, t, next, a.input, a.wire, issued);
      var header, io := SendReplayed(cfg, Begun(p, t, next), t, next, a, issued');
      var written := Effect(Writing(Begun(p, t, next), header, io, t, next), a.input, b.wire, issued');
      GoesOn(cfg, e, Sending(cfg, p, t, next, a.input, a.wire, issued), written);
      OneMove(cfg, written, LOCAL, Effect(p', b.input, b.wire, issued'));
      GoesOn(cfg, e, written, Effect(p', b.input, b.wire, issued'));
    case SendBroken(t) =>
      var next := Act(cfg, p.proc).next;
      issued' := IssuedBy(cfg, p.proc, issued);
      p' := Begun(p, t, next).(proc := SendFailed(next), phase := Idle);
      BeginSend(cfg, p, t, next, a.input, a.wire, issued);
      var header, io := SendReplayed(cfg, Begun(p, t, next), t, next, a, issued');
      var written := Effect(Writing(Begun(p, t, next), header, io, t, next), a.input, b.wire, issued');
      GoesOn(cfg, e, Sending(cfg, p, t, next, a.input, a.wire, issued), written);
      OneMove(cfg, written, Fault, Effect(p', b.input, b.wire, issued'));
      GoesOn(cfg, e, written, Effect(p', b.input, b.wire, issued'));
    case Received(t) =>
      var stack, heap :| Takes(cfg.mode, t, stack, heap, a, b);
      p' := Got(cfg, p, t, issued);
      ReceiveReplayed(cfg, p, t, stack, heap, a, b, issued);
  }
}
