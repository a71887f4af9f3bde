/**
  * Sessions over an n-leg exchange, without failures: octets in flight always are the frames still
  * owed, nobody ever waits for good, and every run ends with the message confirmed.
  */
module SessionProgress {
  import opened Bytes
  import opened Wrappers
  import opened Streams
  import opened Framing
  import opened Session
  import opened Exchange

  // Failure-free moves

  /**
    * Chunks of any size with accumulating offsets; with the offsets as written, chunks such that no
    * call takes more than two of them.
    */
  predicate Tame(cfg: Config, p: Party, move: Move) {
    match move
    case Local(_) => true
    case Transfer(n) =>
      cfg.mode.RunningTotal? || p.phase.Idle? || p.phase.io.left == |p.phase.io.buf| || n == p.phase.io.left
    case _ => false
  }

  function PartyOf(st: State, side: Side): Party {
    if side.Client? then st.client else st.server
  }

  predicate TameStep(cfg: Config, st: State, side: Side, move: Move, st': State) {
    Tame(cfg, PartyOf(st, side), move) && Step(cfg, st, side, move) == Some(st')
  }

  // Frames in transit

  /** The part of a frame that has been read but not handed on. */
  function Partial(p: Party): seq<Byte> {
    match p.phase
    case Receiving(header, io) =>
      (if header then [] else Big32(|io.buf|)) + io.buf[..|io.buf| - io.left]
    case _ => []
  }

  /** What is left of a buffer, and the body if the buffer is the header. */
  function Rest(header: bool, io: Io, token: Token): seq<Byte> {
    io.buf[|io.buf| - io.left..] + (if header then token else [])
  }

  /** The part of a frame that has not been written yet. */
  function Unwritten(p: Party): seq<Byte> {
    match p.phase
    case Sending(header, io, t, _) => Rest(header, io, t)
    case _ => []
  }

  /** The control state with a send in progress taken as done. */
  function Position(p: Party): Proc {
    if p.phase.Sending? then p.phase.next else p.proc
  }

  /** The buffer offset is the running total, or the call is over. */
  predicate InStep(io: Io) {
    io.left > 0 ==> io.off == |io.buf| - io.left
  }

  predicate PhaseOk(cfg: Config, p: Party) {
    match p.phase
    case Idle => true
    case Sending(header, io, t, _) => InStep(io) && (if header then |io.buf| == 4 else io.buf == t)
    case Receiving(header, io) =>
      InStep(io) && (if header then |io.buf| == 4 else |io.buf| < LIMIT) && Act(cfg, p.proc).Receive?
  }

  /** What a side has recorded after its first k actions. */
  function Log(legs: seq<Token>, side: Side, k: nat): seq<Recorded>
    requires k <= |legs|
  {
    seq(k, i requires 0 <= i < k => Recorded(Sends(side, |legs|, i), legs[i]))
  }

  predicate PartyAt(cfg: Config, legs: seq<Token>, side: Side, k: nat, p: Party)
    requires legs != []
  {
    && k <= |legs| + 2
    && At(cfg, legs, side, k, Position(p))
    && PhaseOk(cfg, p)
    && p.log == Log(legs, side, Min(k, |legs|))
  }

  /** Octets read ahead, in the channel and still to be written make up whole frames. */
  predicate Linked(receiver: Party, channel: seq<Byte>, sender: Party, queue: seq<Token>) {
    Partial(receiver) + channel + Unwritten(sender) == Frames(queue)
  }

  // One move of one side

  /** How many local steps the phase is away from reading octets. */
  function Pace(p: Party): nat {
    match p.phase
    case Sending(header, _, _, _) => if header then 4 else 3
    case Idle => 2
    case Receiving(header, _) => if header then 1 else 0
  }

  function Closing(legs: seq<Token>, k: nat, p: Party): nat {
    if k == |legs| && Handshaking(Position(p)) then 1 else 0
  }

  /** A send begins: the whole frame is still to be written. */
  lemma SendStep(cfg: Config, legs: seq<Token>, side: Side, k: nat, p: Party, input: seq<Byte>, output: seq<Byte>,
                 issued: set<Mic>, memory: Memory)
    requires Sound(cfg, legs) && PartyAt(cfg, legs, side, k, p) && p.phase.Idle? && Act(cfg, p.proc).Send?
    ensures k < |legs| + 2 && Sends(side, |legs|, k)
    ensures StepLocal(cfg, p, input, output, issued, memory).Some?
    ensures var e := StepLocal(cfg, p, input, output, issued, memory).value;
            && PartyAt(cfg, legs, side, k + 1, e.party)
            && e.input == input && e.output == output
            && Partial(e.party) == Partial(p) && Unwritten(p) == [] && Unwritten(e.party) == Frames([Tok(cfg, legs, k)])
            && issued <= e.issued
            && (k == |legs| + 1 ==> Mic(Key(cfg.mech, legs), cfg.Text(), Tok(cfg, legs, k)) in e.issued)
  {
    ActAt(cfg, legs, side, k, p.proc);
    assert k < |legs| ==> Tok(cfg, legs, k) == legs[k];
    assert k == |legs| + 1 ==> Tok(cfg, legs, k) == cfg.mech.getMic(Key(cfg.mech, legs), cfg.Text());
    hide At, Sound, Frame, Act, Log, Key, Tok, Sends;
    OneFrame(Tok(cfg, legs, k));
    LogGrows(legs, side, k);
  }

  /** A receive is posted, or the handshake closes without a token. */
  lemma QuietStep(cfg: Config, legs: seq<Token>, side: Side, k: nat, p: Party, input: seq<Byte>, output: seq<Byte>,
                  issued: set<Mic>, memory: Memory)
    requires Sound(cfg, legs) && PartyAt(cfg, legs, side, k, p) && p.phase.Idle? && !Act(cfg, p.proc).Send?
    requires StepLocal(cfg, p, input, output, issued, memory).Some?
    ensures var e := StepLocal(cfg, p, input, output, issued, memory).value;
            && PartyAt(cfg, legs, side, k, e.party)
            && e.input == input && e.output == output && e.issued == issued
            && Partial(e.party) == Partial(p) && Unwritten(p) == Unwritten(e.party)
            && Closing(legs, k, e.party) <= Closing(legs, k, p)
            && Closing(legs, k, e.party) + Pace(e.party) < Closing(legs, k, p) + Pace(p)
  {
    ActAt(cfg, legs, side, k, p.proc);
    hide At, Sound, Act, Log, Key, Tok, Sends;
  }

  lemma OneFrame(t: Token)
    ensures Frames([t]) == Frame(t) == Big32(|t|) + t
  {
    assert [t][1..] == [];
  }

  lemma LogGrows(legs: seq<Token>, side: Side, k: nat)
    ensures k < |legs| ==> Log(legs, side, k + 1) == Log(legs, side, k) + [Recorded(Sends(side, |legs|, k), legs[k])]
  {
  }

  /** A write moves octets from the party to its outgoing channel, and nothing else. */
  lemma WriteStep(cfg: Config, legs: seq<Token>, side: Side, k: nat, p: Party, input: seq<Byte>, output: seq<Byte>,
                  issued: set<Mic>, n: nat)
    requires legs != [] && PartyAt(cfg, legs, side, k, p) && p.phase.Sending?
    requires Tame(cfg, p, Transfer(n)) && StepTransfer(cfg, p, input, output, issued, n).Some?
    ensures var e := StepTransfer(cfg, p, input, output, issued, n).value;
            && PartyAt(cfg, legs, side, k, e.party) && e.issued == issued && e.input == input
            && Partial(e.party) == Partial(p) && Position(e.party) == Position(p)
            && e.output + Unwritten(e.party) == output + Unwritten(p) && |Unwritten(e.party)| < |Unwritten(p)|
  {
    hide At, Log, Act, Big32, Sends, Rest, Frames;
    var io := p.phase.io;
    var io': Io := IoState(io.buf, Advance(cfg.mode, io.off, n), io.left - n);
    StaysInStep(cfg.mode, io, n);
    PartWritten(p.phase.header, io, io', p.phase.token, n, output);
  }

  lemma PartWritten(header: bool, io: Io, io': Io, token: Token, n: nat, output: seq<Byte>)
    requires InStep(io) && 0 < n <= io.left && io'.buf == io.buf && io'.left == io.left - n
    ensures output + io.buf[io.off..io.off + n] + Rest(header, io', token) == output + Rest(header, io, token)
    ensures |Rest(header, io', token)| < |Rest(header, io, token)|
  {
    var chunk, rest := io.buf[io.off..io.off + n], if header then token else [];
    assert io.buf[io.off..] == chunk + io.buf[io.off + n..];
    Associate(chunk, io.buf[io.off + n..], rest);
    Associate(output, chunk, io.buf[io.off + n..] + rest);
  }

  lemma StaysInStep(mode: Offsets, io: Io, n: nat)
    requires InStep(io) && 0 < n <= io.left
    requires mode.RunningTotal? || io.left == |io.buf| || n == io.left
    ensures InStep(IoState(io.buf, Advance(mode, io.off, n), io.left - n))
  {
  }

  /** A read moves octets from the incoming channel to the party, and nothing else. */
  lemma ReadStep(cfg: Config, legs: seq<Token>, side: Side, k: nat, p: Party, input: seq<Byte>, output: seq<Byte>,
                 issued: set<Mic>, n: nat)
    requires legs != [] && PartyAt(cfg, legs, side, k, p) && p.phase.Receiving?
    requires Tame(cfg, p, Transfer(n)) && StepTransfer(cfg, p, input, output, issued, n).Some?
    ensures var e := StepTransfer(cfg, p, input, output, issued, n).value;
            && PartyAt(cfg, legs, side, k, e.party) && e.issued == issued && e.output == output
            && Position(e.party) == Position(p)
            && Partial(e.party) + e.input == Partial(p) + input && |e.input| < |input|
            && Unwritten(e.party) == Unwritten(p) == []
  {
    hide At, Log, Act, Big32, Sends;
    var io := p.phase.io;
    var e := StepTransfer(cfg, p, input, output, issued, n).value;
    StorePrefix(io.buf, io.off, input[..n]);
    assert Partial(e.party) == Partial(p) + input[..n];
    assert input == input[..n] + input[n..];
  }

  lemma StorePrefix(buf: seq<Byte>, off: nat, chunk: seq<Byte>)
    requires off + |chunk| <= |buf|
    ensures Store(buf, off, chunk)[..off + |chunk|] == buf[..off] + chunk
  {
  }

  /** The end of a call: on to the body, or on to the next action. */
  lemma SentStep(cfg: Config, legs: seq<Token>, side: Side, k: nat, p: Party, input: seq<Byte>, output: seq<Byte>,
                 issued: set<Mic>, memory: Memory)
    requires legs != [] && PartyAt(cfg, legs, side, k, p) && p.phase.Sending?
    requires StepLocal(cfg, p, input, output, issued, memory).Some?
    ensures var e := StepLocal(cfg, p, input, output, issued, memory).value;
            && PartyAt(cfg, legs, side, k, e.party)
            && e.input == input && e.output == output && e.issued == issued
            && Partial(e.party) == Partial(p) && Unwritten(e.party) == Unwritten(p)
            && Position(e.party) == Position(p) && Pace(e.party) < Pace(p)
  {
    hide At, Log;
    var t := p.phase.token;
    assert t[0..] == t && t[|t|..] == [];
  }

  /** The first frame of a queue, once all of it has been read, is the frame of its first token. */
  lemma FrameRead(token: Token, rest: seq<Byte>, queue: seq<Token>)
    requires Short(queue) && |token| < LIMIT
    requires Big32(|token|) + token + rest == Frames(queue)
    ensures queue != [] && queue[0] == token && rest == Frames(queue[1..])
  {
    hide Big32, FromBig32, Short;
    var header := Big32(|token|);
    assert header + (token + rest) == Frames(queue);
    HeaderRead(header, token + rest, queue);
    Big32RoundTrip(|token|);
    var t, tail := queue[0], Frames(queue[1..]);
    assert |t| == |token|;
    assert Frames(queue) == header + (t + tail);
    hide Frames;
    SameHead(header, token + rest, t + tail);
    assert (token + rest)[..|t|] == token && (t + tail)[..|t|] == t;
    assert (token + rest)[|t|..] == rest && (t + tail)[|t|..] == tail;
  }

  lemma SameHead(head: seq<Byte>, a: seq<Byte>, b: seq<Byte>)
    requires head + a == head + b
    ensures a == b
  {
    assert (head + a)[|head|..] == a && (head + b)[|head|..] == b;
  }

  /** The first four octets give the length of the first token. */
  lemma HeaderRead(header: seq<Byte>, rest: seq<Byte>, queue: seq<Token>)
    requires Short(queue) && |header| == 4
    requires header + rest == Frames(queue)
    ensures queue != [] && FromBig32(header) == |queue[0]| < LIMIT && header == Big32(FromBig32(header))
  {
    hide Big32, FromBig32, Short;
    var f := Frames(queue);
    assert |f| >= 4;
    ShortTail(queue);
    assert f[..4] == header && f[..4] == Big32(|queue[0]|);
    Big32RoundTrip(|queue[0]|);
  }

  /** The length has been read: the body is awaited. */
  lemma HeaderStep(cfg: Config, legs: seq<Token>, side: Side, k: nat, p: Party, input: seq<Byte>, output: seq<Byte>,
                   issued: set<Mic>, memory: Memory, rest: seq<Byte>, queue: seq<Token>)
    requires Sound(cfg, legs) && PartyAt(cfg, legs, side, k, p) && p.phase.Receiving? && p.phase.header
    requires Short(queue) && Partial(p) + (input + rest) == Frames(queue)
    requires StepLocal(cfg, p, input, output, issued, memory).Some?
    ensures var e := StepLocal(cfg, p, input, output, issued, memory).value;
            && PartyAt(cfg, legs, side, k, e.party)
            && e.input == input && e.output == output && e.issued == issued
            && Unwritten(e.party) == Unwritten(p) && Partial(e.party) == Partial(p)
            && Position(e.party) == Position(p) && Pace(e.party) < Pace(p)
  {
    hide At, Sound, Frames, Big32, FromBig32, Log, Short, OnReceive, Act, Key, Tok;
    var io := p.phase.io;
    assert Partial(p) == io.buf;
    HeaderRead(io.buf, input + rest, queue);
  }

  /** The body has been read: it is the next token of the queue. */
  lemma BodyStep(cfg: Config, legs: seq<Token>, side: Side, k: nat, p: Party, input: seq<Byte>, output: seq<Byte>,
                 issued: set<Mic>, memory: Memory, rest: seq<Byte>, queue: seq<Token>)
    requires Sound(cfg, legs) && PartyAt(cfg, legs, side, k, p) && p.phase.Receiving? && !p.phase.header
    requires Short(queue) && Partial(p) + (input + rest) == Frames(queue)
    requires k < |legs| + 2 && queue != [] && !Sends(side, |legs|, k) ==> queue[0] == Tok(cfg, legs, k)
    requires k == |legs| + 1 && queue != [] && side.Client? ==>
              Mic(Key(cfg.mech, legs), cfg.Text(), Tok(cfg, legs, k)) in issued
    requires StepLocal(cfg, p, input, output, issued, memory).Some?
    ensures k < |legs| + 2 && !Sends(side, |legs|, k) && queue != [] && (k == |legs| + 1 ==> side.Client?)
    ensures var e := StepLocal(cfg, p, input, output, issued, memory).value;
            && PartyAt(cfg, legs, side, k + 1, e.party)
            && e.input == input && e.output == output && e.issued == issued
            && Unwritten(e.party) == Unwritten(p) && Partial(e.party) + (input + rest) == Frames(queue[1..])
  {
    ActAt(cfg, legs, side, k, p.proc);
    assert k < |legs| ==> Tok(cfg, legs, k) == legs[k];
    hide At, Sound, Frames, Big32, FromBig32, Log, Short, OnReceive, Act, Key, Tok;
    var io := p.phase.io;
    assert Partial(p) == Big32(|io.buf|) + io.buf;
    FrameRead(io.buf, input + rest, queue);
    OnReceiveAt(cfg, legs, side, k, p.proc, issued);
    LogGrows(legs, side, k);
  }

  // The whole session

  function Queue(cfg: Config, legs: seq<Token>, lo: nat, hi: nat): (q: seq<Token>)
    requires legs != [] && hi <= |legs| + 2
  {
    seq(if lo < hi then hi - lo else 0, i requires 0 <= i < hi - lo => Tok(cfg, legs, lo + i))
  }

  lemma QueueShort(cfg: Config, legs: seq<Token>, lo: nat, hi: nat)
    requires Sound(cfg, legs) && hi <= |legs| + 2
    ensures Short(Queue(cfg, legs, lo, hi))
  {
    forall k | lo <= k < hi
      ensures |Tok(cfg, legs, k)| < LIMIT
    {
    }
    hide Sound, Tok;
  }

  lemma QueueMoves(cfg: Config, legs: seq<Token>, lo: nat, hi: nat)
    requires legs != [] && lo <= hi < |legs| + 2
    ensures Queue(cfg, legs, lo, hi + 1) == Queue(cfg, legs, lo, hi) + [Tok(cfg, legs, hi)]
    ensures Queue(cfg, legs, lo, hi + 1)[0] == Tok(cfg, legs, lo)
              && Queue(cfg, legs, lo, hi + 1)[1..] == Queue(cfg, legs, lo + 1, hi + 1)
  {
  }

  lemma QueueHead(cfg: Config, legs: seq<Token>, lo: nat, hi: nat)
    requires legs != [] && hi <= |legs| + 2 && Queue(cfg, legs, lo, hi) != []
    ensures lo < hi && Queue(cfg, legs, lo, hi)[0] == Tok(cfg, legs, lo)
    ensures Queue(cfg, legs, lo, hi)[1..] == Queue(cfg, legs, lo + 1, hi)
  {
  }

  lemma QueueEmpty(cfg: Config, legs: seq<Token>, lo: nat, hi: nat)
    requires legs != [] && hi <= |legs| + 2 && hi <= lo
    ensures Queue(cfg, legs, lo, hi) == []
  {
  }

  lemma LinkSend(receiver: Party, channel: seq<Byte>, p: Party, p': Party, queue: seq<Token>, sent: seq<Token>)
    requires Linked(receiver, channel, p, queue) && Unwritten(p) == [] && Unwritten(p') == Frames(sent)
    ensures Linked(receiver, channel, p', queue + sent)
  {
    hide Unwritten, Partial, Frames;
    FramesAppend(queue, sent);
    assert Partial(receiver) + channel + [] == Partial(receiver) + channel;
  }

  lemma SameReader(p: Party, p': Party, channel: seq<Byte>, sender: Party, queue: seq<Token>)
    requires Linked(p, channel, sender, queue) && Partial(p') == Partial(p)
    ensures Linked(p', channel, sender, queue)
  {
    hide Unwritten, Partial, Frames;
  }

  lemma SameWriter(receiver: Party, channel: seq<Byte>, p: Party, p': Party, queue: seq<Token>)
    requires Linked(receiver, channel, p, queue) && Unwritten(p') == Unwritten(p)
    ensures Linked(receiver, channel, p', queue)
  {
    hide Unwritten, Partial, Frames;
  }

  lemma LinkedMove(receiver: Party, channel: seq<Byte>, p: Party, channel': seq<Byte>, p': Party, queue: seq<Token>)
    requires Linked(receiver, channel, p, queue) && channel' + Unwritten(p') == channel + Unwritten(p)
    ensures Linked(receiver, channel', p', queue)
  {
    hide Unwritten, Partial, Frames;
    Associate(Partial(receiver), channel', Unwritten(p'));
    Associate(Partial(receiver), channel, Unwritten(p));
  }

  lemma LinkedRead(p: Party, channel: seq<Byte>, p': Party, channel': seq<Byte>, sender: Party, queue: seq<Token>)
    requires Linked(p, channel, sender, queue) && Partial(p') + channel' == Partial(p) + channel
    ensures Linked(p', channel', sender, queue)
  {
    hide Unwritten, Partial, Frames;
  }

  lemma LinkedRest(p: Party, channel: seq<Byte>, sender: Party, queue: seq<Token>)
    ensures Linked(p, channel, sender, queue) <==> Partial(p) + (channel + Unwritten(sender)) == Frames(queue)
  {
    hide Unwritten, Partial, Frames;
    Associate(Partial(p), channel, Unwritten(sender));
  }

  lemma Associate(a: seq<Byte>, b: seq<Byte>, c: seq<Byte>)
    ensures a + b + c == a + (b + c)
  {
  }

  function Peer(side: Side): Side {
    if side.Client? then Server else Client
  }

  /** A side that is ahead is ahead by its own tokens only. */
  predicate Ordered(side: Side, n: nat, i: nat, j: nat) {
    && (forall k: nat :: j <= k < i ==> Sends(side, n, k))
    && (forall k: nat :: i <= k < j ==> !Sends(side, n, k))
  }

  lemma OrderedAdvance(side: Side, n: nat, i: nat, j: nat)
    requires Ordered(side, n, i, j)
    ensures Sends(side, n, i) ==> j <= i && Ordered(side, n, i + 1, j)
    ensures !Sends(side, n, i) && i < j ==> Ordered(side, n, i + 1, j)
  {
    assert i < j ==> !Sends(side, n, i);
  }

  /** The invariant as one side sees it: its own position i, the other's j. */
  predicate InvFrom(cfg: Config, legs: seq<Token>, side: Side, me: Party, other: Party,
                    input: seq<Byte>, output: seq<Byte>, issued: set<Mic>, i: nat, j: nat)
    requires legs != []
  {
    && PartyAt(cfg, legs, side, i, me) && PartyAt(cfg, legs, Peer(side), j, other)
    && Ordered(side, |legs|, i, j)
    && Linked(other, output, me, Queue(cfg, legs, j, i))
    && Linked(me, input, other, Queue(cfg, legs, i, j))
    && ((if side.Client? then j else i) == |legs| + 2 ==>
        Mic(Key(cfg.mech, legs), cfg.Text(), Tok(cfg, legs, |legs| + 1)) in issued)
  }

  /** Every reachable state: the client has done x of its actions, the server y. */
  predicate InvAt(cfg: Config, legs: seq<Token>, st: State, x: nat, y: nat)
    requires legs != []
  {
    InvFrom(cfg, legs, Client, st.client, st.server, st.toClient, st.toServer, st.issued, x, y)
  }

  lemma InvBothWays(cfg: Config, legs: seq<Token>, st: State, x: nat, y: nat)
    requires legs != []
    ensures InvAt(cfg, legs, st, x, y)
        <==> InvFrom(cfg, legs, Server, st.server, st.client, st.toServer, st.toClient, st.issued, y, x)
  {
    assert forall k: nat :: Sends(Server, |legs|, k) <==> !Sends(Client, |legs|, k);
    hide PartyAt, Linked, Queue, Sends;
  }

  lemma SamePlace(legs: seq<Token>, k: nat, p: Party, p': Party)
    requires Position(p) == Position(p')
    ensures Closing(legs, k, p) == Closing(legs, k, p')
  {
  }

  /** A move brings a side forward: to its next action, or nearer to it. */
  predicate Forward(legs: seq<Token>, i: nat, me: Party, input: seq<Byte>, output: seq<Byte>,
                    i': nat, me': Party, input': seq<Byte>, output': seq<Byte>) {
    || i' == i + 1
    || (i' == i &&
        (|| Closing(legs, i, me') < Closing(legs, i, me)
         || (Closing(legs, i, me') == Closing(legs, i, me) &&
             (|| |Unwritten(me')| < |Unwritten(me)|
              || (|Unwritten(me')| == |Unwritten(me)| && output' == output &&
                  (|| |input'| < |input|
                   || (input' == input && Pace(me') < Pace(me))))))))
  }

  lemma MoveKeeps(cfg: Config, legs: seq<Token>, side: Side, me: Party, other: Party, input: seq<Byte>,
                  output: seq<Byte>, issued: set<Mic>, i: nat, j: nat, move: Move) returns (i': nat)
    requires Sound(cfg, legs) && InvFrom(cfg, legs, side, me, other, input, output, issued, i, j)
    requires Tame(cfg, me, move) && StepParty(cfg, me, input, output, issued, move).Some?
    ensures var e := StepParty(cfg, me, input, output, issued, move).value;
            && InvFrom(cfg, legs, side, e.party, other, e.input, e.output, e.issued, i', j)
            && Forward(legs, i, me, input, output, i', e.party, e.input, e.output)
            && issued <= e.issued
  {
    assert legs != [];
    hide InvFrom, Sound, StepLocal, StepTransfer, Act;
    match move
    case Transfer(n) =>
      i' := i;
      if me.phase.Sending? {
        WriteKeeps(cfg, legs, side, me, other, input, output, issued, i, j, n);
      } else {
        ReadKeeps(cfg, legs, side, me, other, input, output, issued, i, j, n);
      }
    case Local(memory) =>
      if me.phase.Idle? {
        if Act(cfg, me.proc).Send? {
          i' := i + 1;
          SendKeeps(cfg, legs, side, me, other, input, output, issued, i, j, memory);
        } else {
          i' := i;
          QuietKeeps(cfg, legs, side, me, other, input, output, issued, i, j, memory);
        }
      } else if me.phase.Sending? {
        i' := i;
        SentKeeps(cfg, legs, side, me, other, input, output, issued, i, j, memory);
      } else if me.phase.header {
        i' := i;
        HeaderKeeps(cfg, legs, side, me, other, input, output, issued, i, j, memory);
      } else {
        i' := i + 1;
        BodyKeeps(cfg, legs, side, me, other, input, output, issued, i, j, memory);
      }
  }

  lemma WriteKeeps(cfg: Config, legs: seq<Token>, side: Side, me: Party, other: Party, input: seq<Byte>,
                   output: seq<Byte>, issued: set<Mic>, i: nat, j: nat, n: nat)
    requires Sound(cfg, legs) && InvFrom(cfg, legs, side, me, other, input, output, issued, i, j) && me.phase.Sending?
    requires Tame(cfg, me, Transfer(n)) && StepTransfer(cfg, me, input, output, issued, n).Some?
    ensures var e := StepTransfer(cfg, me, input, output, issued, n).value;
            && InvFrom(cfg, legs, side, e.party, other, e.input, e.output, e.issued, i, j)
            && Forward(legs, i, me, input, output, i, e.party, e.input, e.output) && e.issued == issued
  {
    assert legs != [] && i <= |legs| + 2 && j <= |legs| + 2;
    hide PartyAt, StepTransfer, StepLocal, Unwritten, Partial, Position, Queue, Ordered, Sound, Tame, Pace, Key, Tok,
         Sends, Linked, Frames, Closing;
    WriteStep(cfg, legs, side, i, me, input, output, issued, n);
    var e := StepTransfer(cfg, me, input, output, issued, n).value;
    LinkedMove(other, output, me, e.output, e.party, Queue(cfg, legs, j, i));
    SameReader(me, e.party, input, other, Queue(cfg, legs, i, j));
    SamePlace(legs, i, me, e.party);
  }

  lemma ReadKeeps(cfg: Config, legs: seq<Token>, side: Side, me: Party, other: Party, input: seq<Byte>,
                  output: seq<Byte>, issued: set<Mic>, i: nat, j: nat, n: nat)
    requires Sound(cfg, legs) && InvFrom(cfg, legs, side, me, other, input, output, issued, i, j) && !me.phase.Sending?
    requires Tame(cfg, me, Transfer(n)) && StepTransfer(cfg, me, input, output, issued, n).Some?
    ensures var e := StepTransfer(cfg, me, input, output, issued, n).value;
            && InvFrom(cfg, legs, side, e.party, other, e.input, e.output, e.issued, i, j)
            && Forward(legs, i, me, input, output, i, e.party, e.input, e.output) && e.issued == issued
  {
    assert me.phase.Receiving?;
    assert legs != [] && i <= |legs| + 2 && j <= |legs| + 2;
    hide PartyAt, StepTransfer, StepLocal, Unwritten, Partial, Position, Queue, Ordered, Sound, Tame, Pace, Key, Tok,
         Sends, Linked, Frames, Closing;
    ReadStep(cfg, legs, side, i, me, input, output, issued, n);
    var e := StepTransfer(cfg, me, input, output, issued, n).value;
    LinkedRead(me, input, e.party, e.input, other, Queue(cfg, legs, i, j));
    SameWriter(other, output, me, e.party, Queue(cfg, legs, j, i));
    SamePlace(legs, i, me, e.party);
  }

  lemma SentKeeps(cfg: Config, legs: seq<Token>, side: Side, me: Party, other: Party, input: seq<Byte>,
                  output: seq<Byte>, issued: set<Mic>, i: nat, j: nat, memory: Memory)
    requires Sound(cfg, legs) && InvFrom(cfg, legs, side, me, other, input, output, issued, i, j) && me.phase.Sending?
    requires StepLocal(cfg, me, input, output, issued, memory).Some?
    ensures var e := StepLocal(cfg, me, input, output, issued, memory).value;
            && InvFrom(cfg, legs, side, e.party, other, e.input, e.output, e.issued, i, j)
            && Forward(legs, i, me, input, output, i, e.party, e.input, e.output) && e.issued == issued
  {
    assert legs != [] && i <= |legs| + 2 && j <= |legs| + 2;
    hide PartyAt, StepTransfer, StepLocal, Unwritten, Partial, Position, Queue, Ordered, Sound, Tame, Pace, Key, Tok,
         Sends, Linked, Frames, Closing;
    SentStep(cfg, legs, side, i, me, input, output, issued, memory);
    var e := StepLocal(cfg, me, input, output, issued, memory).value;
    SameReader(me, e.party, input, other, Queue(cfg, legs, i, j));
    SameWriter(other, output, me, e.party, Queue(cfg, legs, j, i));
    SamePlace(legs, i, me, e.party);
  }

  lemma SendKeeps(cfg: Config, legs: seq<Token>, side: Side, me: Party, other: Party, input: seq<Byte>,
                  output: seq<Byte>, issued: set<Mic>, i: nat, j: nat, memory: Memory)
    requires Sound(cfg, legs) && InvFrom(cfg, legs, side, me, other, input, output, issued, i, j)
    requires me.phase.Idle? && Act(cfg, me.proc).Send?
    ensures StepLocal(cfg, me, input, output, issued, memory).Some?
    ensures var e := StepLocal(cfg, me, input, output, issued, memory).value;
            InvFrom(cfg, legs, side, e.party, other, e.input, e.output, e.issued, i + 1, j) && issued <= e.issued
  {
    assert legs != [] && i <= |legs| + 2 && j <= |legs| + 2;
    hide PartyAt, StepLocal, Unwritten, Partial, Position, Queue, Ordered, Sound, Frames, Tok, Sends, Key, Act;
    SendStep(cfg, legs, side, i, me, input, output, issued, memory);
    OrderedAdvance(side, |legs|, i, j);
    hide Linked;
    var e := StepLocal(cfg, me, input, output, issued, memory).value;
    LinkSend(other, output, me, e.party, Queue(cfg, legs, j, i), [Tok(cfg, legs, i)]);
    SameReader(me, e.party, input, other, Queue(cfg, legs, i, j));
    QueuesAfterSend(cfg, legs, i, j);
  }

  lemma QueuesAfterSend(cfg: Config, legs: seq<Token>, i: nat, j: nat)
    requires legs != [] && j <= i < |legs| + 2
    ensures Queue(cfg, legs, j, i + 1) == Queue(cfg, legs, j, i) + [Tok(cfg, legs, i)]
    ensures Queue(cfg, legs, i + 1, j) == Queue(cfg, legs, i, j)
  {
    hide Queue;
    QueueMoves(cfg, legs, j, i);
    QueueEmpty(cfg, legs, i + 1, j);
    QueueEmpty(cfg, legs, i, j);
  }

  lemma QuietKeeps(cfg: Config, legs: seq<Token>, side: Side, me: Party, other: Party, input: seq<Byte>,
                   output: seq<Byte>, issued: set<Mic>, i: nat, j: nat, memory: Memory)
    requires Sound(cfg, legs) && InvFrom(cfg, legs, side, me, other, input, output, issued, i, j)
    requires me.phase.Idle? && !Act(cfg, me.proc).Send? && StepLocal(cfg, me, input, output, issued, memory).Some?
    ensures var e := StepLocal(cfg, me, input, output, issued, memory).value;
            && InvFrom(cfg, legs, side, e.party, other, e.input, e.output, e.issued, i, j)
            && Forward(legs, i, me, input, output, i, e.party, e.input, e.output) && e.issued == issued
  {
    assert legs != [] && i <= |legs| + 2 && j <= |legs| + 2;
    hide PartyAt, StepTransfer, StepLocal, Unwritten, Partial, Position, Queue, Ordered, Sound, Tame, Pace, Key, Tok,
         Sends, Linked, Frames;
    hide Closing, Act;
    QuietStep(cfg, legs, side, i, me, input, output, issued, memory);
    var e := StepLocal(cfg, me, input, output, issued, memory).value;
    SameReader(me, e.party, input, other, Queue(cfg, legs, i, j));
    SameWriter(other, output, me, e.party, Queue(cfg, legs, j, i));
  }

  lemma {:induction false} FramesAppend(a: seq<Token>, b: seq<Token>)
    ensures Frames(a + b) == Frames(a) + Frames(b)
  {
    hide Frame;
    if a == [] {
      assert a + b == b;
    } else {
      FramesAppend(a[1..], b);
      assert (a + b)[1..] == a[1..] + b;
    }
  }

  lemma HeaderKeeps(cfg: Config, legs: seq<Token>, side: Side, me: Party, other: Party, input: seq<Byte>,
                    output: seq<Byte>, issued: set<Mic>, i: nat, j: nat, memory: Memory)
    requires Sound(cfg, legs) && InvFrom(cfg, legs, side, me, other, input, output, issued, i, j)
    requires me.phase.Receiving? && me.phase.header
    requires StepLocal(cfg, me, input, output, issued, memory).Some?
    ensures var e := StepLocal(cfg, me, input, output, issued, memory).value;
            && InvFrom(cfg, legs, side, e.party, other, e.input, e.output, e.issued, i, j)
            && Forward(legs, i, me, input, output, i, e.party, e.input, e.output) && e.issued == issued
  {
    assert legs != [] && i <= |legs| + 2 && j <= |legs| + 2;
    hide PartyAt, StepLocal, Unwritten, Partial, Position, Queue, Ordered, Sound, Pace, Linked, Closing, Frames, Short,
         Key, Tok, Sends;
    var queue := Queue(cfg, legs, i, j);
    QueueShort(cfg, legs, i, j);
    LinkedRest(me, input, other, queue);
    HeaderStep(cfg, legs, side, i, me, input, output, issued, memory, Unwritten(other), queue);
    var e := StepLocal(cfg, me, input, output, issued, memory).value;
    LinkedRest(e.party, input, other, queue);
    SameWriter(other, output, me, e.party, Queue(cfg, legs, j, i));
    SamePlace(legs, i, me, e.party);
  }

  lemma BodyKeeps(cfg: Config, legs: seq<Token>, side: Side, me: Party, other: Party, input: seq<Byte>,
                  output: seq<Byte>, issued: set<Mic>, i: nat, j: nat, memory: Memory)
    requires Sound(cfg, legs) && InvFrom(cfg, legs, side, me, other, input, output, issued, i, j)
    requires me.phase.Receiving? && !me.phase.header
    requires StepLocal(cfg, me, input, output, issued, memory).Some?
    ensures var e := StepLocal(cfg, me, input, output, issued, memory).value;
            InvFrom(cfg, legs, side, e.party, other, e.input, e.output, e.issued, i + 1, j) && e.issued == issued
  {
    assert legs != [] && i <= |legs| + 2 && j <= |legs| + 2;
    hide PartyAt, StepLocal, Unwritten, Partial, Position, Queue, Ordered, Sound, Linked, Frames, Tok, Sends, Short,
         Key;
    var queue := Queue(cfg, legs, i, j);
    var rest := Unwritten(other);
    QueueShort(cfg, legs, i, j);
    LinkedRest(me, input, other, queue);
    if queue != [] {
      QueueHead(cfg, legs, i, j);
    }
    OrderedAdvance(side, |legs|, i, j);
    BodyStep(cfg, legs, side, i, me, input, output, issued, memory, rest, queue);
    var e := StepLocal(cfg, me, input, output, issued, memory).value;
    LinkedRest(e.party, input, other, queue[1..]);
    SameWriter(other, output, me, e.party, Queue(cfg, legs, j, i));
    QueueEmpty(cfg, legs, j, i + 1);
    QueueEmpty(cfg, legs, j, i);
  }
}
