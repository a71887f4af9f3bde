/** Lists of tokens over one stream: what send_token sends, recv_token receives. */
module Framing {
  import opened Bytes
  import opened Streams
  import opened StreamProofs

  const LIMIT := 0x1_0000_0000

  function Frames(tokens: seq<seq<Byte>>): (s: seq<Byte>) {
    if tokens == [] then [] else Frame(tokens[0]) + Frames(tokens[1..])
  }

  lemma FramesSnoc(tokens: seq<seq<Byte>>, t: seq<Byte>)
    ensures Frames(tokens + [t]) == Frames(tokens) + Frame(t)
  {
    hide Frame;
    if tokens == [] {
      assert tokens + [t] == [t] && [t][1..] == [];
    } else {
      FramesSnoc(tokens[1..], t);
      assert (tokens + [t])[1..] == tokens[1..] + [t];
    }
  }

  function SendAll(mode: Offsets, tokens: seq<seq<Byte>>, wire: seq<Byte>, answers: seq<Answer>): Writing {
    if tokens == [] then Writing(Done, wire, answers)
    else
      var w := SendResult(mode, tokens[0], wire, answers);
      if !w.status.Done? then w else SendAll(mode, tokens[1..], w.wire, w.answers)
  }

  datatype Receiving = Receiving(status: Status, tokens: seq<seq<Byte>>, input: seq<Byte>, answers: seq<Answer>)

  /** `memories` gives the unset contents of the two buffers of each call. */
  function RecvAll(mode: Offsets, memories: nat -> Memory, count: nat, input: seq<Byte>,
                   answers: seq<Answer>): Receiving {
    if count == 0 then Receiving(Done, [], input, answers)
    else
      var r := RecvResult(mode, memories(2 * count), memories(2 * count + 1), input, answers);
      if !r.status.Done? then Receiving(r.status, [], r.input, r.answers)
      else
        var rest := RecvAll(mode, memories, count - 1, r.input, r.answers);
        rest.(tokens := [r.buf] + rest.tokens)
  }

  // One token

  lemma SendFrame(token: seq<Byte>, wire: seq<Byte>, answers: seq<Answer>)
    ensures var w := SendResult(RunningTotal, token, wire, answers);
            w.status.Done? ==> w.wire == wire + Frame(token)
  {
    hide WriteLoop;
    var header := WriteLoop(RunningTotal, Big32(|token|), 0, 4, wire, answers);
    WriteAccumulates(Big32(|token|), 0, 4, wire, answers);
    WriteAccumulates(token, 0, |token|, header.wire, header.answers);
    assert Big32(|token|)[0..0 + 4] == Big32(|token|) && token[0..0 + |token|] == token;
  }

  /** The header read from a frame is the low 32 bits of the length. */
  lemma RecvHeader(stack: Memory, token: seq<Byte>, rest: seq<Byte>, answers: seq<Answer>)
    ensures var header := ReadLoop(RunningTotal, Fresh(stack, 4), 0, 4, Frame(token) + rest, answers);
            header.status.Done? ==> FromBig32(header.buf) == |token| % LIMIT && header.input == token + rest
  {
    hide ReadLoop, Fresh, FromBig32, Big32;
    var input := Frame(token) + rest;
    ReadWhole(Fresh(stack, 4), input, answers);
    assert input[..4] == Big32(|token|) && input[4..] == token + rest;
    Big32RoundTrip(|token|);
  }

  /** The receiver reads as many octets as the low 32 bits of the length say. */
  lemma RecvFrame(stack: Memory, heap: Memory, token: seq<Byte>, rest: seq<Byte>, answers: seq<Answer>)
    ensures var r := RecvResult(RunningTotal, stack, heap, Frame(token) + rest, answers);
            var n := |token| % LIMIT;
            r.status.Done? ==> r.buf == token[..n] && r.input == token[n..] + rest
  {
    hide ReadLoop, Fresh, Frame, FromBig32;
    var header := ReadLoop(RunningTotal, Fresh(stack, 4), 0, 4, Frame(token) + rest, answers);
    var n := |token| % LIMIT;
    RecvHeader(stack, token, rest, answers);
    if header.status.Done? {
      ReadWhole(Fresh(heap, n), token + rest, header.answers);
      assert (token + rest)[..n] == token[..n] && (token + rest)[n..] == token[n..] + rest;
    }
  }

  lemma ReadWhole(buf: seq<Byte>, input: seq<Byte>, answers: seq<Answer>)
    ensures var r := ReadLoop(RunningTotal, buf, 0, |buf|, input, answers);
            r.status.Done? ==> |buf| <= |input| && r.buf == input[..|buf|] && r.input == input[|buf|..]
  {
    hide ReadLoop, Counts, Sum;
    ReadAccumulates(buf, 0, |buf|, input, answers);
    DoneWhenCounted(RunningTotal, buf, 0, |buf|, input, answers);
  }

  /** A token survives one send and receive, and the next frame starts where it should, iff its length fits 32 bits. */
  lemma TokenSurvives(stack: Memory, heap: Memory, token: seq<Byte>, rest: seq<Byte>, answers: seq<Answer>)
    requires RecvResult(RunningTotal, stack, heap, Frame(token) + rest, answers).status.Done?
    ensures var r := RecvResult(RunningTotal, stack, heap, Frame(token) + rest, answers);
            r.buf == token && r.input == rest <==> |token| < LIMIT
  {
    hide RecvResult, Frame;
    RecvFrame(stack, heap, token, rest, answers);
    if |token| < LIMIT {
      assert |token| % LIMIT == |token|;
      assert token[..|token|] == token && token[|token|..] + rest == rest;
    } else {
      assert |token| % LIMIT < LIMIT;
    }
  }

  // Lists of tokens

  predicate Short(tokens: seq<seq<Byte>>) {
    forall t :: t in tokens ==> |t| < LIMIT
  }

  lemma ShortTail(tokens: seq<seq<Byte>>)
    requires Short(tokens) && tokens != []
    ensures |tokens[0]| < LIMIT && Short(tokens[1..])
  {
    assert tokens[0] in tokens && forall t :: t in tokens[1..] ==> t in tokens;
  }

  lemma {:induction false} SendFrames(tokens: seq<seq<Byte>>, wire: seq<Byte>, answers: seq<Answer>)
    ensures var w := SendAll(RunningTotal, tokens, wire, answers);
            w.status.Done? ==> w.wire == wire + Frames(tokens)
  {
    hide SendResult, Frame;
    if tokens != [] {
      var w := SendResult(RunningTotal, tokens[0], wire, answers);
      SendFrame(tokens[0], wire, answers);
      SendFrames(tokens[1..], w.wire, w.answers);
    }
  }

  lemma {:induction false} RecvFrames(memories: nat -> Memory, tokens: seq<seq<Byte>>, rest: seq<Byte>,
                                      answers: seq<Answer>)
    requires Short(tokens)
    ensures var r := RecvAll(RunningTotal, memories, |tokens|, Frames(tokens) + rest, answers);
            r.status.Done? ==> r.tokens == tokens && r.input == rest
    decreases |tokens|
  {
    hide RecvResult, Frame, Short;
    if tokens == [] {
      assert Frames(tokens) + rest == rest;
    } else {
      var n := |tokens|;
      var rest' := Frames(tokens[1..]) + rest;
      assert Frames(tokens) + rest == Frame(tokens[0]) + rest';
      var r := RecvResult(RunningTotal, memories(2 * n), memories(2 * n + 1), Frame(tokens[0]) + rest', answers);
      ShortTail(tokens);
      if r.status.Done? {
        TokenSurvives(memories(2 * n), memories(2 * n + 1), tokens[0], rest', answers);
        RecvFrames(memories, tokens[1..], rest, r.answers);
        assert [tokens[0]] + tokens[1..] == tokens;
      }
    }
  }

  /** Accumulating loops carry every list of tokens across, whatever the chunks on either side. */
  lemma FramingRoundTrip(memories: nat -> Memory, tokens: seq<seq<Byte>>, sent: seq<Answer>, received: seq<Answer>,
                         rest: seq<Byte>)
    requires Short(tokens)
    requires SendAll(RunningTotal, tokens, [], sent).status.Done?
    ensures var r := RecvAll(RunningTotal, memories, |tokens|, SendAll(RunningTotal, tokens, [], sent).wire + rest,
                             received);
            r.status.Done? ==> r.tokens == tokens && r.input == rest
  {
    SendFrames(tokens, [], sent);
    assert [] + Frames(tokens) == Frames(tokens);
    RecvFrames(memories, tokens, rest, received);
  }

  /** Answers without errors, one for each octet at worst, are enough on both sides. */
  lemma {:induction false} SendEnough(mode: Offsets, tokens: seq<seq<Byte>>, wire: seq<Byte>, answers: seq<Answer>)
    requires AllChunks(answers) && |Frames(tokens)| <= |answers|
    ensures SendAll(mode, tokens, wire, answers).status.Done?
  {
    hide WriteLoop, Big32, AllChunks;
    if tokens != [] {
      var token := tokens[0];
      var header := WriteLoop(mode, Big32(|token|), 0, 4, wire, answers);
      WriteProgress(mode, Big32(|token|), 0, 4, wire, answers);
      var body := WriteLoop(mode, token, 0, |token|, header.wire, header.answers);
      WriteProgress(mode, token, 0, |token|, header.wire, header.answers);
      SendEnough(mode, tokens[1..], body.wire, body.answers);
    }
  }

  lemma {:induction false} RecvEnough(memories: nat -> Memory, tokens: seq<seq<Byte>>, rest: seq<Byte>,
                                      answers: seq<Answer>)
    requires Short(tokens) && AllChunks(answers) && |Frames(tokens)| <= |answers|
    ensures RecvAll(RunningTotal, memories, |tokens|, Frames(tokens) + rest, answers).status.Done?
    decreases |tokens|
  {
    hide RecvResult, Frame, AllChunks, Short;
    if tokens != [] {
      var n := |tokens|;
      var rest' := Frames(tokens[1..]) + rest;
      assert Frames(tokens) + rest == Frame(tokens[0]) + rest';
      ShortTail(tokens);
      RecvEnoughOne(memories(2 * n), memories(2 * n + 1), tokens[0], rest', answers);
      var r := RecvResult(RunningTotal, memories(2 * n), memories(2 * n + 1), Frame(tokens[0]) + rest', answers);
      TokenSurvives(memories(2 * n), memories(2 * n + 1), tokens[0], rest', answers);
      RecvEnough(memories, tokens[1..], rest, r.answers);
    }
  }

  lemma RecvEnoughOne(stack: Memory, heap: Memory, token: seq<Byte>, rest: seq<Byte>, answers: seq<Answer>)
    requires |token| < LIMIT && AllChunks(answers) && |Frame(token)| <= |answers|
    ensures var r := RecvResult(RunningTotal, stack, heap, Frame(token) + rest, answers);
            r.status.Done? && |answers| - |r.answers| <= |Frame(token)| && AllChunks(r.answers)
  {
    hide ReadLoop, Fresh, AllChunks, Frame, FromBig32;
    var input := Frame(token) + rest;
    var header := ReadLoop(RunningTotal, Fresh(stack, 4), 0, 4, input, answers);
    ReadProgress(RunningTotal, Fresh(stack, 4), 0, 4, input, answers);
    RecvHeader(stack, token, rest, answers);
    ReadProgress(RunningTotal, Fresh(heap, |token|), 0, |token|, header.input, header.answers);
  }

  /** Framing with positive chunks, end to end: the list arrives and the stream is at a frame boundary. */
  lemma FramingComplete(memories: nat -> Memory, tokens: seq<seq<Byte>>, sent: seq<Answer>, received: seq<Answer>,
                        rest: seq<Byte>)
    requires Short(tokens) && AllChunks(sent) && AllChunks(received)
    requires |Frames(tokens)| <= |sent| && |Frames(tokens)| <= |received|
    ensures var w := SendAll(RunningTotal, tokens, [], sent);
            var r := RecvAll(RunningTotal, memories, |tokens|, w.wire + rest, received);
            w.status.Done? && r.status.Done? && r.tokens == tokens && r.input == rest
  {
    SendEnough(RunningTotal, tokens, [], sent);
    SendFrames(tokens, [], sent);
    assert [] + Frames(tokens) == Frames(tokens);
    RecvEnough(memories, tokens, rest, received);
    RecvFrames(memories, tokens, rest, received);
  }

  // The code as written

  /** The call ends well after at most two chunks. */
  predicate InTwo(len: nat, available: nat, answers: seq<Answer>) {
    var ks := Counts(len, available, answers);
    Sum(ks) == len && |ks| <= 2
  }

  predicate SendInTwo(tokens: seq<seq<Byte>>, wire: seq<Byte>, answers: seq<Answer>) {
    tokens == [] ||
    var header := WriteLoop(LastChunk, Big32(|tokens[0]|), 0, 4, wire, answers);
    var body := WriteLoop(LastChunk, tokens[0], 0, |tokens[0]|, header.wire, header.answers);
    && InTwo(4, 4, answers)
    && InTwo(|tokens[0]|, |tokens[0]|, header.answers)
    && SendInTwo(tokens[1..], body.wire, body.answers)
  }

  predicate RecvInTwo(memories: nat -> Memory, count: nat, input: seq<Byte>, answers: seq<Answer>) {
    count == 0 ||
    var header := ReadLoop(LastChunk, Fresh(memories(2 * count), 4), 0, 4, input, answers);
    var len := FromBig32(header.buf);
    var body := ReadLoop(LastChunk, Fresh(memories(2 * count + 1), len), 0, len, header.input, header.answers);
    && InTwo(4, |input|, answers)
    && InTwo(len, |header.input|, header.answers)
    && RecvInTwo(memories, count - 1, body.input, body.answers)
  }

  lemma {:induction false} SendAsWritten(tokens: seq<seq<Byte>>, wire: seq<Byte>, answers: seq<Answer>)
    requires SendInTwo(tokens, wire, answers)
    ensures SendAll(LastChunk, tokens, wire, answers) == SendAll(RunningTotal, tokens, wire, answers)
    ensures SendAll(LastChunk, tokens, wire, answers).status.Done?
  {
    hide WriteLoop, Counts, Sum, Big32;
    if tokens != [] {
      var length, token := Big32(|tokens[0]|), tokens[0];
      var header := WriteLoop(LastChunk, length, 0, 4, wire, answers);
      var body := WriteLoop(LastChunk, token, 0, |token|, header.wire, header.answers);
      TwoChunksWritten(length, wire, answers);
      WriteDone(LastChunk, length, 0, 4, wire, answers);
      TwoChunksWritten(token, header.wire, header.answers);
      WriteDone(LastChunk, token, 0, |token|, header.wire, header.answers);
      SendAsWritten(tokens[1..], body.wire, body.answers);
    }
  }

  lemma {:induction false} RecvAsWritten(memories: nat -> Memory, count: nat, input: seq<Byte>, answers: seq<Answer>)
    requires RecvInTwo(memories, count, input, answers)
    ensures RecvAll(LastChunk, memories, count, input, answers)
         == RecvAll(RunningTotal, memories, count, input, answers)
    ensures RecvAll(LastChunk, memories, count, input, answers).status.Done?
  {
    hide ReadLoop, Counts, Sum, Fresh, FromBig32;
    if count != 0 {
      var stack := Fresh(memories(2 * count), 4);
      var header := ReadLoop(LastChunk, stack, 0, 4, input, answers);
      TwoChunksRead(stack, 4, input, answers);
      DoneWhenCounted(LastChunk, stack, 0, 4, input, answers);
      var len := FromBig32(header.buf);
      var heap := Fresh(memories(2 * count + 1), len);
      var body := ReadLoop(LastChunk, heap, 0, len, header.input, header.answers);
      TwoChunksRead(heap, len, header.input, header.answers);
      DoneWhenCounted(LastChunk, heap, 0, len, header.input, header.answers);
      RecvAsWritten(memories, count - 1, body.input, body.answers);
    }
  }

  /** With at most two chunks a call, the loops as written carry every list of tokens across too. */
  lemma FramingAsWritten(memories: nat -> Memory, tokens: seq<seq<Byte>>, sent: seq<Answer>, received: seq<Answer>,
                         rest: seq<Byte>)
    requires Short(tokens) && SendInTwo(tokens, [], sent)
    requires RecvInTwo(memories, |tokens|, SendAll(LastChunk, tokens, [], sent).wire + rest, received)
    ensures var r := RecvAll(LastChunk, memories, |tokens|, SendAll(LastChunk, tokens, [], sent).wire + rest, received);
            r.status.Done? && r.tokens == tokens && r.input == rest
  {
    SendAsWritten(tokens, [], sent);
    var wire := SendAll(LastChunk, tokens, [], sent).wire + rest;
    RecvAsWritten(memories, |tokens|, wire, received);
    FramingRoundTrip(memories, tokens, sent, received, rest);
  }

  // The code as written, exactly

  const ZEROS: Memory := (i: nat) => 0
  const ONES: Memory := (i: nat) => 1

  /** The answers that are left when n octets have been asked for; what memory held does not matter. */
  function Left(n: nat, input: seq<Byte>, answers: seq<Answer>): seq<Answer> {
    ReadLoop(RunningTotal, Fresh(ZEROS, n), 0, n, input, answers).answers
  }

  lemma LeftIs(mode: Offsets, buf: seq<Byte>, input: seq<Byte>, answers: seq<Answer>)
    ensures ReadLoop(mode, buf, 0, |buf|, input, answers).answers == Left(|buf|, input, answers)
  {
    hide ReadLoop, Fresh;
    ReadModes(mode, buf, 0, RunningTotal, Fresh(ZEROS, |buf|), 0, |buf|, input, input, answers);
  }

  predicate Arrives(stack: Memory, heap: Memory, token: seq<Byte>, rest: seq<Byte>, answers: seq<Answer>) {
    var r := RecvResult(LastChunk, stack, heap, Frame(token) + rest, answers);
    r.status.Done? && r.buf == token && r.input == rest
  }

  /** The header in at most two chunks, then the body. */
  predicate TokenInTwo(token: seq<Byte>, rest: seq<Byte>, answers: seq<Answer>) {
    && InTwo(4, 4 + |token| + |rest|, answers)
    && InTwo(|token|, |token| + |rest|, Left(4, Frame(token) + rest, answers))
  }

  function TokenLeft(token: seq<Byte>, rest: seq<Byte>, answers: seq<Answer>): seq<Answer> {
    Left(|token|, token + rest, Left(4, Frame(token) + rest, answers))
  }

  /** A header in two chunks is read as it should be, whatever the stack held. */
  lemma HeaderInTwo(stack: Memory, token: seq<Byte>, rest: seq<Byte>, answers: seq<Answer>)
    requires |token| < LIMIT && InTwo(4, 4 + |token| + |rest|, answers)
    ensures var header := ReadLoop(LastChunk, Fresh(stack, 4), 0, 4, Frame(token) + rest, answers);
            && header.status.Done? && FromBig32(header.buf) == |token| && header.input == token + rest
            && header.answers == Left(4, Frame(token) + rest, answers)
  {
    hide ReadLoop, Fresh, Counts, Sum, Frame, FromBig32, Left;
    var buf, input := Fresh(stack, 4), Frame(token) + rest;
    TwoChunksRead(buf, 4, input, answers);
    DoneWhenCounted(LastChunk, buf, 0, 4, input, answers);
    RecvHeader(stack, token, rest, answers);
    LeftIs(LastChunk, buf, input, answers);
  }

  lemma ArrivesInTwo(stack: Memory, heap: Memory, token: seq<Byte>, rest: seq<Byte>, answers: seq<Answer>)
    requires |token| < LIMIT && TokenInTwo(token, rest, answers)
    ensures Arrives(stack, heap, token, rest, answers)
    ensures RecvResult(LastChunk, stack, heap, Frame(token) + rest, answers).answers == TokenLeft(token, rest, answers)
  {
    hide ReadLoop, Fresh, Counts, Sum, Frame, FromBig32, Left;
    HeaderInTwo(stack, token, rest, answers);
    var n, after := |token|, Left(4, Frame(token) + rest, answers);
    TwoChunksRead(Fresh(heap, n), n, token + rest, after);
    DoneWhenCounted(LastChunk, Fresh(heap, n), 0, n, token + rest, after);
    ReadWhole(Fresh(heap, n), token + rest, after);
    LeftIs(LastChunk, Fresh(heap, n), token + rest, after);
    assert (token + rest)[..n] == token && (token + rest)[n..] == rest;
  }

  lemma LastOctet(s: seq<Byte>)
    requires |s| == 4
    ensures FromBig32(s) % 0x100 == s[3]
  {
    assert FromBig32(s) == 0x100 * (s[0] as int * 0x1_0000 + s[1] as int * 0x100 + s[2]) + s[3];
  }

  lemma HeaderArrived(stack: Memory, heap: Memory, token: seq<Byte>, rest: seq<Byte>, answers: seq<Answer>)
    requires Arrives(stack, heap, token, rest, answers)
    ensures var header := ReadLoop(LastChunk, Fresh(stack, 4), 0, 4, Frame(token) + rest, answers);
            header.status.Done? && FromBig32(header.buf) == |token| && |token| % 0x100 == header.buf[3]
  {
    hide ReadLoop, FromBig32, Frame;
    LastOctet(ReadLoop(LastChunk, Fresh(stack, 4), 0, 4, Frame(token) + rest, answers).buf);
  }

  /** With a third chunk the length depends on what the stack held. */
  lemma HeaderNeedsTwo(token: seq<Byte>, rest: seq<Byte>, answers: seq<Answer>)
    ensures Arrives(ZEROS, ZEROS, token, rest, answers) && Arrives(ONES, ZEROS, token, rest, answers)
            ==> InTwo(4, 4 + |token| + |rest|, answers)
  {
    hide ReadLoop, Counts, Sum, Frame, FromBig32, Arrives;
    if Arrives(ZEROS, ZEROS, token, rest, answers) && Arrives(ONES, ZEROS, token, rest, answers) {
      HeaderArrived(ZEROS, ZEROS, token, rest, answers);
      HeaderArrived(ONES, ZEROS, token, rest, answers);
      var input := Frame(token) + rest;
      DoneWhenCounted(LastChunk, Fresh(ZEROS, 4), 0, 4, input, answers);
      if |Counts(4, |input|, answers)| > 2 {
        LastNeverRead(Fresh(ZEROS, 4), input, answers);
        LastNeverRead(Fresh(ONES, 4), input, answers);
      }
    }
  }

  lemma BodyArrived(stack: Memory, heap: Memory, token: seq<Byte>, rest: seq<Byte>, answers: seq<Answer>)
    requires Arrives(stack, heap, token, rest, answers)
    requires |token| < LIMIT && InTwo(4, 4 + |token| + |rest|, answers)
    ensures var n, after := |token|, Left(4, Frame(token) + rest, answers);
            var body := ReadLoop(LastChunk, Fresh(heap, n), 0, n, token + rest, after);
            body.status.Done? && body.buf == token
  {
    hide ReadLoop, FromBig32, Frame, Fresh, Left, InTwo;
    HeaderInTwo(stack, token, rest, answers);
  }

  function Filled(octet: Byte): Memory {
    (i: nat) => octet
  }

  lemma FilledAt(octet: Byte, n: nat, i: nat)
    requires i < n
    ensures Fresh(Filled(octet), n)[i] == octet
  {
  }

  /** With a third chunk the last octet of the body is what memory held. */
  lemma BodyNeedsTwo(octet: Byte, token: seq<Byte>, rest: seq<Byte>, answers: seq<Answer>)
    requires |token| < LIMIT && InTwo(4, 4 + |token| + |rest|, answers)
    requires token != [] ==> octet != token[|token| - 1]
    requires Arrives(ZEROS, Filled(octet), token, rest, answers)
    ensures TokenInTwo(token, rest, answers)
  {
    hide ReadLoop, Counts, Sum, Frame, Left, Arrives, Fresh, Filled;
    BodyArrived(ZEROS, Filled(octet), token, rest, answers);
    var n, after := |token|, Left(4, Frame(token) + rest, answers);
    var buf := Fresh(Filled(octet), n);
    DoneWhenCounted(LastChunk, buf, 0, n, token + rest, after);
    if |Counts(n, |token + rest|, after)| > 2 {
      CountsStep(n, |token + rest|, after);
      FilledAt(octet, n, n - 1);
      LastNeverRead(buf, token + rest, after);
    }
  }

  /** One token arrives whatever memory held if and only if its two calls take at most two chunks each. */
  lemma RecvExact(token: seq<Byte>, rest: seq<Byte>, answers: seq<Answer>)
    requires |token| < LIMIT
    ensures (forall stack, heap :: Arrives(stack, heap, token, rest, answers)) <==> TokenInTwo(token, rest, answers)
  {
    hide Arrives, TokenInTwo, InTwo;
    if TokenInTwo(token, rest, answers) {
      forall stack, heap
        ensures Arrives(stack, heap, token, rest, answers)
      {
        ArrivesInTwo(stack, heap, token, rest, answers);
      }
    } else if forall stack, heap :: Arrives(stack, heap, token, rest, answers) {
      HeaderNeedsTwo(token, rest, answers);
      var other: Byte := if token != [] && token[|token| - 1] == 0 then 1 else 0;
      BodyNeedsTwo(other, token, rest, answers);
    }
  }

  predicate AllArrive(memories: nat -> Memory, tokens: seq<seq<Byte>>, rest: seq<Byte>, answers: seq<Answer>) {
    var r := RecvAll(LastChunk, memories, |tokens|, Frames(tokens) + rest, answers);
    r.status.Done? && r.tokens == tokens && r.input == rest
  }

  predicate AllInTwo(tokens: seq<seq<Byte>>, rest: seq<Byte>, answers: seq<Answer>) {
    tokens == [] ||
    var rest' := Frames(tokens[1..]) + rest;
    TokenInTwo(tokens[0], rest', answers) && AllInTwo(tokens[1..], rest, TokenLeft(tokens[0], rest', answers))
  }

  /** The first token of a list arrives as well, and the rest of the list behind it. */
  lemma FirstArrives(memories: nat -> Memory, tokens: seq<seq<Byte>>, rest: seq<Byte>, answers: seq<Answer>)
    requires tokens != [] && AllArrive(memories, tokens, rest, answers)
    ensures var n := |tokens|;
            var rest' := Frames(tokens[1..]) + rest;
            && Arrives(memories(2 * n), memories(2 * n + 1), tokens[0], rest', answers)
            && AllArrive(memories, tokens[1..], rest,
                         RecvResult(LastChunk, memories(2 * n), memories(2 * n + 1), Frame(tokens[0]) + rest',
                                    answers).answers)
  {
    hide RecvResult, Frame;
    var n := |tokens|;
    var rest' := Frames(tokens[1..]) + rest;
    assert Frames(tokens) + rest == Frame(tokens[0]) + rest';
    var r := RecvResult(LastChunk, memories(2 * n), memories(2 * n + 1), Frame(tokens[0]) + rest', answers);
    var tail := RecvAll(LastChunk, memories, n - 1, r.input, r.answers);
    assert ([r.buf] + tail.tokens)[0] == r.buf && ([r.buf] + tail.tokens)[1..] == tail.tokens;
    TakesFrame(memories(2 * n), memories(2 * n + 1), tokens[0], rest', answers);
  }

  lemma TakesFrame(stack: Memory, heap: Memory, token: seq<Byte>, rest: seq<Byte>, answers: seq<Answer>)
    ensures var r := RecvResult(LastChunk, stack, heap, Frame(token) + rest, answers);
            r.status.Done? && |r.buf| == |token| ==> r.input == rest
  {
    hide ReadLoop, Fresh, FromBig32, Big32;
    var input := Frame(token) + rest;
    var header := ReadLoop(LastChunk, Fresh(stack, 4), 0, 4, input, answers);
    ReadConsumes(LastChunk, Fresh(stack, 4), 0, 4, input, answers);
    if header.status.Done? {
      var n := FromBig32(header.buf);
      ReadConsumes(LastChunk, Fresh(heap, n), 0, n, header.input, header.answers);
      assert input[4..] == token + rest && (token + rest)[|token|..] == rest;
    }
  }

  /**
    * As written, a list of tokens arrives whatever memory held if and only if no call of the receiver
    * takes more than two chunks.
    */
  lemma {:induction false} FramingExact(tokens: seq<seq<Byte>>, rest: seq<Byte>, answers: seq<Answer>)
    requires Short(tokens)
    ensures (forall memories :: AllArrive(memories, tokens, rest, answers)) <==> AllInTwo(tokens, rest, answers)
    decreases |tokens|
  {
    if tokens == [] {
      assert Frames(tokens) + rest == rest;
    } else {
      var rest' := Frames(tokens[1..]) + rest;
      var after := TokenLeft(tokens[0], rest', answers);
      ShortTail(tokens);
      RecvExact(tokens[0], rest', answers);
      FramingExact(tokens[1..], rest, after);
      hide Short;
      if AllInTwo(tokens, rest, answers) {
        forall memories
          ensures AllArrive(memories, tokens, rest, answers)
        {
          ListArrives(memories, tokens, rest, answers);
        }
      } else if forall memories :: AllArrive(memories, tokens, rest, answers) {
        ListNeedsTwo(tokens, rest, answers);
      }
    }
  }

  lemma ListArrives(memories: nat -> Memory, tokens: seq<seq<Byte>>, rest: seq<Byte>, answers: seq<Answer>)
    requires tokens != [] && |tokens[0]| < LIMIT
    requires var rest' := Frames(tokens[1..]) + rest;
             && TokenInTwo(tokens[0], rest', answers)
             && AllArrive(memories, tokens[1..], rest, TokenLeft(tokens[0], rest', answers))
    ensures AllArrive(memories, tokens, rest, answers)
  {
    hide TokenInTwo, TokenLeft, Frame, RecvResult;
    var n := |tokens|;
    var rest' := Frames(tokens[1..]) + rest;
    assert Frames(tokens) + rest == Frame(tokens[0]) + rest';
    ArrivesInTwo(memories(2 * n), memories(2 * n + 1), tokens[0], rest', answers);
    assert [tokens[0]] + tokens[1..] == tokens;
  }

  lemma ListNeedsTwo(tokens: seq<seq<Byte>>, rest: seq<Byte>, answers: seq<Answer>)
    requires tokens != [] && |tokens[0]| < LIMIT && forall memories :: AllArrive(memories, tokens, rest, answers)
    ensures var rest' := Frames(tokens[1..]) + rest;
            && TokenInTwo(tokens[0], rest', answers)
            && forall memories :: AllArrive(memories, tokens[1..], rest, TokenLeft(tokens[0], rest', answers))
  {
    hide AllArrive, Arrives, TokenInTwo, TokenLeft, RecvResult, Frame, Frames;
    var n := |tokens|;
    var rest' := Frames(tokens[1..]) + rest;
    forall stack, heap
      ensures Arrives(stack, heap, tokens[0], rest', answers)
    {
      var memories := (k: nat) => if k == 2 * n then stack else heap;
      FirstArrives(memories, tokens, rest, answers);
    }
    RecvExact(tokens[0], rest', answers);
    forall memories: nat -> Memory
      ensures AllArrive(memories, tokens[1..], rest, TokenLeft(tokens[0], rest', answers))
    {
      assert AllArrive(memories, tokens, rest, answers);
      FirstArrives(memories, tokens, rest, answers);
      ArrivesInTwo(memories(2 * n), memories(2 * n + 1), tokens[0], rest', answers);
    }
  }

  // Sending, exactly

  lemma NothingWritten(mode: Offsets, buf: seq<Byte>, off: nat, len: nat, wire: seq<Byte>, answers: seq<Answer>)
    requires off + len <= |buf| && (len == 0 || answers == [] || !answers[0].Chunk?)
    ensures var w, alone := WriteLoop(mode, buf, off, len, wire, answers), WriteLoop(mode, buf, off, len, [], answers);
            && w.wire == wire && alone.wire == [] && w.status == alone.status && w.answers == alone.answers
            && (w.status.Done? ==> len == 0)
  {
  }

  /** What a write call adds to the wire does not depend on what is there. */
  lemma {:induction false} WritesBehind(mode: Offsets, buf: seq<Byte>, off: nat, len: nat, wire: seq<Byte>,
                                        answers: seq<Answer>)
    requires off + len <= |buf|
    ensures var w, alone := WriteLoop(mode, buf, off, len, wire, answers), WriteLoop(mode, buf, off, len, [], answers);
            && w.wire == wire + alone.wire && w.status == alone.status && w.answers == alone.answers
            && (w.status.Done? ==> |alone.wire| == len)
    decreases |answers|
  {
    hide WriteLoop, Counts, Sum;
    if len > 0 && answers != [] && answers[0].Chunk? {
      var n := WriteStep(mode, buf, off, len, wire, answers);
      var _ := WriteStep(mode, buf, off, len, [], answers);
      var chunk := buf[off..off + n];
      WritesBehind(mode, buf, Advance(mode, off, n), len - n, wire + chunk, answers[1..]);
      WritesBehind(mode, buf, Advance(mode, off, n), len - n, [] + chunk, answers[1..]);
      Regroup(wire, chunk, WriteLoop(mode, buf, Advance(mode, off, n), len - n, [], answers[1..]).wire);
    } else {
      NothingWritten(mode, buf, off, len, wire, answers);
      assert wire + [] == wire;
    }
  }

  lemma Regroup(a: seq<Byte>, b: seq<Byte>, c: seq<Byte>)
    ensures a + b + c == a + ([] + b + c)
  {
  }

  predicate Goes(token: seq<Byte>, answers: seq<Answer>) {
    var w := SendResult(LastChunk, token, [], answers);
    w.status.Done? && w.wire == Frame(token)
  }

  lemma GoesParts(token: seq<Byte>, answers: seq<Answer>)
    ensures var header := WriteLoop(LastChunk, Big32(|token|), 0, 4, [], answers);
            var body := WriteLoop(LastChunk, token, 0, |token|, [], header.answers);
            Goes(token, answers) <==>
              header.status.Done? && header.wire == Big32(|token|) && body.status.Done? && body.wire == token
  {
    hide WriteLoop, Big32;
    var header := WriteLoop(LastChunk, Big32(|token|), 0, 4, [], answers);
    var body := WriteLoop(LastChunk, token, 0, |token|, [], header.answers);
    WritesBehind(LastChunk, Big32(|token|), 0, 4, [], answers);
    WritesBehind(LastChunk, token, 0, |token|, header.wire, header.answers);
    if Goes(token, answers) {
      assert header.wire + body.wire == Big32(|token|) + token;
      assert header.wire == (header.wire + body.wire)[..4] && body.wire == (header.wire + body.wire)[4..];
    }
  }

  /**
    * As written, every token of one length is sent as its frame if and only if the header goes out as
    * it is and the body takes at most two chunks.
    */
  lemma SendExact(n: nat, answers: seq<Answer>)
    ensures var header := WriteLoop(LastChunk, Big32(n), 0, 4, [], answers);
            (forall token: seq<Byte> | |token| == n :: Goes(token, answers)) <==>
              header.status.Done? && header.wire == Big32(n) && InTwo(n, n, header.answers)
  {
    hide WriteLoop, Big32, Counts, Sum, Goes;
    var header := WriteLoop(LastChunk, Big32(n), 0, 4, [], answers);
    forall token: seq<Byte> | |token| == n
      ensures Goes(token, answers) <==>
                && header.status.Done? && header.wire == Big32(n) && Sum(Counts(n, n, header.answers)) == n
                && WriteLoop(LastChunk, token, 0, n, [], header.answers).wire == token
    {
      GoesParts(token, answers);
      WriteDone(LastChunk, token, 0, n, [], header.answers);
    }
    var some := Fresh(ZEROS, n);
    if Sum(Counts(n, n, header.answers)) == n {
      WriteAllExact(n, header.answers);
    } else {
      assert !Goes(some, answers);
    }
    if !(header.status.Done? && header.wire == Big32(n)) {
      assert !Goes(some, answers);
    }
  }
}
