/**
  * utils.c: read_all and write_all over calls that may transfer less than asked, and the token
  * framing on top of them. The two loops advance the buffer by the size of the last chunk; the
  * accumulating form, which advances by the running total, is modelled beside them.
  */
module Streams {
  import opened Bytes

  /** Where the next chunk goes in the buffer: LastChunk is what utils.c does. */
  datatype Offsets = LastChunk | RunningTotal

  function Advance(mode: Offsets, off: nat, n: nat): nat {
    if mode.LastChunk? then n else off + n
  }

  type Positive = n: nat | n > 0 witness 1

  /** What the operating system answers to one read or write: at most so many octets, or an error. */
  datatype Answer = Chunk(limit: Positive) | Interrupted | Error

  /** Running: the answers ran out inside the loop, which is still asking. */
  datatype Status = Done | Failed | Running

  function Min(a: nat, b: nat): nat {
    if a < b then a else b
  }

  /** A read returns as much as is there, asked for and granted; nothing only at the end of the stream. */
  function ReadCount(c: Positive, len: nat, available: nat): (n: nat)
    ensures n <= len && n <= available
    ensures n == 0 <==> len == 0 || available == 0
  {
    Min(c, Min(len, available))
  }

  /** Never more than granted, and as much as is granted when so much is asked for and there. */
  lemma ReadCountExact(c: Positive, len: nat, available: nat)
    ensures var n := ReadCount(c, len, available);
            n <= c && n <= len && n <= available && (n == c || n == len || n == available)
  {
  }

  /** The buffer after a chunk has been put at an offset. */
  function Store(buf: seq<Byte>, off: nat, chunk: seq<Byte>): (r: seq<Byte>)
    requires off + |chunk| <= |buf|
    ensures |r| == |buf|
  {
    buf[..off] + chunk + buf[off + |chunk|..]
  }

  // The loops as functions of the answers

  datatype Reading = Reading(status: Status, buf: seq<Byte>, input: seq<Byte>, answers: seq<Answer>)

  function ReadLoop(mode: Offsets, buf: seq<Byte>, off: nat, len: nat, input: seq<Byte>,
                    answers: seq<Answer>): (r: Reading)
    requires off + len <= |buf|
    ensures |r.buf| == |buf|
    decreases |answers|
  {
    if len == 0 then Reading(Done, buf, input, answers)
    else if answers == [] then Reading(Running, buf, input, answers)
    else if !answers[0].Chunk? then Reading(Failed, buf, input, answers[1..])
    else
      var n := ReadCount(answers[0].limit, len, |input|);
      ReadLoop(mode, Store(buf, off, input[..n]), Advance(mode, off, n), len - n, input[n..], answers[1..])
  }

  datatype Writing = Writing(status: Status, wire: seq<Byte>, answers: seq<Answer>)

  function WriteLoop(mode: Offsets, buf: seq<Byte>, off: nat, len: nat, wire: seq<Byte>,
                     answers: seq<Answer>): (r: Writing)
    requires off + len <= |buf|
    decreases |answers|
  {
    if len == 0 then Writing(Done, wire, answers)
    else if answers == [] then Writing(Running, wire, answers)
    else if !answers[0].Chunk? then Writing(Failed, wire, answers[1..])
    else
      var n := Min(answers[0].limit, len);
      WriteLoop(mode, buf, Advance(mode, off, n), len - n, wire + buf[off..off + n], answers[1..])
  }

  /** The sizes of the chunks one call takes. */
  function Counts(len: nat, available: nat, answers: seq<Answer>): (ks: seq<nat>)
    decreases |answers|
  {
    if len == 0 || answers == [] || !answers[0].Chunk? then []
    else
      var n := ReadCount(answers[0].limit, len, available);
      [n] + Counts(len - n, available - n, answers[1..])
  }

  // The socket, and the loops as the source writes them

  class Socket {
    var incoming: seq<Byte>  // what the peer has sent or will send before it closes
    var outgoing: seq<Byte>
    var answers: seq<Answer>

    constructor (incoming: seq<Byte>, answers: seq<Answer>)
      ensures this.incoming == incoming && outgoing == [] && this.answers == answers
    {
      this.incoming, outgoing, this.answers := incoming, [], answers;
    }

    method Read(buffer: array<Byte>, off: nat, len: nat) returns (n: int)
      requires off + len <= buffer.Length && answers != []
      modifies this`incoming, this`answers, buffer
      ensures answers == old(answers)[1..]
      ensures !old(answers)[0].Chunk? ==> n == -1 && incoming == old(incoming) && buffer[..] == old(buffer[..])
      ensures old(answers)[0].Chunk? ==>
                && n == ReadCount(old(answers)[0].limit, len, |old(incoming)|)
                && incoming == old(incoming)[n..]
                && buffer[..] == Store(old(buffer[..]), off, old(incoming)[..n])
    {
      var answer := answers[0];
      answers := answers[1..];
      if !answer.Chunk? {
        return -1;
      }
      n := ReadCount(answer.limit, len, |incoming|);
      ghost var before := buffer[..];
      forall k | 0 <= k < n {
        buffer[off + k] := incoming[k];
      }
      assert buffer[..] == Store(before, off, incoming[..n]);
      incoming := incoming[n..];
    }

    method Write(buffer: seq<Byte>, off: nat, len: nat) returns (n: int)
      requires off + len <= |buffer| && answers != []
      modifies this`outgoing, this`answers
      ensures answers == old(answers)[1..]
      ensures !old(answers)[0].Chunk? ==> n == -1 && outgoing == old(outgoing)
      ensures old(answers)[0].Chunk? ==>
                && n == Min(old(answers)[0].limit, len)
                && outgoing == old(outgoing) + buffer[off..off + n]
    {
      var answer := answers[0];
      answers := answers[1..];
      if !answer.Chunk? {
        return -1;
      }
      n := Min(answer.limit, len);
      outgoing := outgoing + buffer[off..off + n];
    }
  }

  method ReadAll(mode: Offsets, fd: Socket, buffer: array<Byte>) returns (status: Status)
    modifies fd`incoming, fd`answers, buffer
    ensures Reading(status, buffer[..], fd.incoming, fd.answers)
         == old(ReadLoop(mode, buffer[..], 0, buffer.Length, fd.incoming, fd.answers))
  {
    var off, len := 0, buffer.Length;
    while len != 0
      invariant 0 <= off && 0 <= len && off + len <= buffer.Length
      invariant ReadLoop(mode, buffer[..], off, len, fd.incoming, fd.answers)
             == old(ReadLoop(mode, buffer[..], 0, buffer.Length, fd.incoming, fd.answers))
      decreases |fd.answers|
    {
      if fd.answers == [] {
        return Running;
      }
      var bytesRead := fd.Read(buffer, off, len);
      if bytesRead == -1 {
        return Failed;
      }
      off := Advance(mode, off, bytesRead);
      len := len - bytesRead;
    }
    return Done;
  }

  method WriteAll(mode: Offsets, fd: Socket, buffer: seq<Byte>) returns (status: Status)
    modifies fd`outgoing, fd`answers
    ensures Writing(status, fd.outgoing, fd.answers)
         == WriteLoop(mode, buffer, 0, |buffer|, old(fd.outgoing), old(fd.answers))
  {
    var off, len := 0, |buffer|;
    while len != 0
      invariant 0 <= off && 0 <= len && off + len <= |buffer|
      invariant WriteLoop(mode, buffer, off, len, fd.outgoing, fd.answers)
             == WriteLoop(mode, buffer, 0, |buffer|, old(fd.outgoing), old(fd.answers))
      decreases |fd.answers|
    {
      if fd.answers == [] {
        return Running;
      }
      var bytesWritten := fd.Write(buffer, off, len);
      if bytesWritten == -1 {
        return Failed;
      }
      off := Advance(mode, off, bytesWritten);
      len := len - bytesWritten;
    }
    return Done;
  }

  // Tokens

  /** A frame: the low 32 bits of the length in network order, then all the octets. */
  function Frame(token: seq<Byte>): (s: seq<Byte>)
    ensures |s| == 4 + |token|
  {
    Big32(|token|) + token
  }

  function SendResult(mode: Offsets, token: seq<Byte>, wire: seq<Byte>, answers: seq<Answer>): Writing {
    var header := WriteLoop(mode, Big32(|token|), 0, 4, wire, answers);
    if !header.status.Done? then header else WriteLoop(mode, token, 0, |token|, header.wire, header.answers)
  }

  /** Memory as malloc and the stack hand it out: contents nobody has set. */
  type Memory = nat -> Byte

  function Fresh(memory: Memory, n: nat): (s: seq<Byte>)
    ensures |s| == n
  {
    seq<Byte>(n, memory)
  }

  function RecvResult(mode: Offsets, stack: Memory, heap: Memory, input: seq<Byte>, answers: seq<Answer>): Reading {
    var header := ReadLoop(mode, Fresh(stack, 4), 0, 4, input, answers);
    if !header.status.Done? then header.(buf := [])
    else
      var len := FromBig32(header.buf);
      ReadLoop(mode, Fresh(heap, len), 0, len, header.input, header.answers)
  }

  method SendToken(mode: Offsets, fd: Socket, token: seq<Byte>) returns (status: Status)
    modifies fd`outgoing, fd`answers
    ensures Writing(status, fd.outgoing, fd.answers) == SendResult(mode, token, old(fd.outgoing), old(fd.answers))
  {
    var length := Big32(|token|);
    status := WriteAll(mode, fd, length);
    if status != Done {
      return;
    }
    status := WriteAll(mode, fd, token);
  }

  ghost function Snapshot(s: seq<Byte>): (m: Memory)
    ensures Fresh(m, |s|) == s
  {
    var m := (i: nat) => if i < |s| then s[i] else 0;
    assert Fresh(m, |s|) == s;
    m
  }

  /** The token is set when status is Done; the ghost results are what the memory held before. */
  method RecvToken(mode: Offsets, fd: Socket)
    returns (status: Status, token: seq<Byte>, ghost stack: Memory, ghost heap: Memory)
    modifies fd`incoming, fd`answers
    ensures var r := RecvResult(mode, stack, heap, old(fd.incoming), old(fd.answers));
            && status == r.status && fd.incoming == r.input && fd.answers == r.answers
            && (status.Done? ==> token == r.buf)
  {
    var lengthBuffer := new Byte[4];
    stack := Snapshot(lengthBuffer[..]);
    heap := stack;
    token := [];
    status := ReadAll(mode, fd, lengthBuffer);
    if status != Done {
      return;
    }
    var length := FromBig32(lengthBuffer[..]);
    var value := new Byte[length];
    heap := Snapshot(value[..]);
    status := ReadAll(mode, fd, value);
    token := value[..];
  }
}
