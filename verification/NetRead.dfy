/** The reference client's net_read: the accumulating loop that stops at the end of the stream. */
module NetRead {
  import opened Bytes
  import opened Wrappers
  import opened Streams
  import opened StreamProofs

  /** What the call returns (None: the answers ran out first) and what it leaves behind. */
  datatype Net = Net(ret: Option<int>, buf: seq<Byte>, input: seq<Byte>, answers: seq<Answer>)

  /** One pass and what follows it; `pos` octets have been copied, `len` are still wanted. */
  function NetLoop(buf: seq<Byte>, pos: nat, len: nat, input: seq<Byte>, answers: seq<Answer>): (r: Net)
    requires pos + len <= |buf|
    ensures |r.buf| == |buf|
    decreases |answers|
  {
    if answers == [] then Net(None, buf, input, answers)
    else
      match answers[0]
      case Interrupted =>
        if len > 0 then NetLoop(buf, pos, len, input, answers[1..]) else Net(Some(pos), buf, input, answers[1..])
      case Error => Net(Some(-1), buf, input, answers[1..])
      case Chunk(limit) =>
        var n := ReadCount(limit, len, |input|);
        if n == 0 then Net(Some(pos), buf, input, answers[1..])
        else
          var buf' := Store(buf, pos, input[..n]);
          if len - n > 0 then NetLoop(buf', pos + n, len - n, input[n..], answers[1..])
          else Net(Some(pos + n), buf', input[n..], answers[1..])
  }

  /** sclient.c, net_read: a do/while loop, entered even when nothing is wanted. */
  method NetReadInto(fd: Socket, buffer: array<Byte>) returns (ret: Option<int>)
    modifies fd`incoming, fd`answers, buffer
    ensures Net(ret, buffer[..], fd.incoming, fd.answers)
         == old(NetLoop(buffer[..], 0, buffer.Length, fd.incoming, fd.answers))
  {
    var copied, len, again := 0, buffer.Length, true;
    while again
      invariant 0 <= copied && 0 <= len && copied + len <= buffer.Length
      invariant old(NetLoop(buffer[..], 0, buffer.Length, fd.incoming, fd.answers))
             == if again then NetLoop(buffer[..], copied, len, fd.incoming, fd.answers)
                else Net(Some(copied), buffer[..], fd.incoming, fd.answers)
      decreases |fd.answers|, again
    {
      if fd.answers == [] {
        return None;
      }
      var interrupted := fd.answers[0].Interrupted?;
      var cc := fd.Read(buffer, copied, len);
      if cc < 0 {
        if !interrupted {
          return Some(cc);
        }
      } else if cc == 0 {
        return Some(copied);
      } else {
        copied := copied + cc;
        len := len - cc;
      }
      again := len > 0;
    }
    return Some(copied);
  }

  /**
    * The count returned is the number of octets copied, the buffer holds that prefix of the stream,
    * and it falls short of the request only when the stream has ended.
    */
  predicate Counted(r: Net, buf: seq<Byte>, pos: nat, len: nat, input: seq<Byte>)
    requires pos + len <= |buf|
  {
    r.ret.Some? && r.ret != Some(-1) ==>
      var k := r.ret.value - pos;
      && 0 <= k <= len && k <= |input|
      && r.buf == Store(buf, pos, input[..k]) && r.input == input[k..]
      && (k < len ==> r.input == [])
  }

  lemma CountedBack(r: Net, buf: seq<Byte>, pos: nat, len: nat, input: seq<Byte>, n: nat)
    requires pos + len <= |buf| && n <= len && n <= |input|
    requires Counted(r, Store(buf, pos, input[..n]), pos + n, len - n, input[n..])
    ensures Counted(r, buf, pos, len, input)
  {
    hide Store;
    if r.ret.Some? && r.ret != Some(-1) {
      StoreTwice(buf, pos, input, n, r.ret.value - pos);
    }
  }

  /** How much the first read of a call brings. */
  function FirstRead(len: nat, input: seq<Byte>, answers: seq<Answer>): (n: nat)
    requires answers != []
    ensures n <= len && n <= |input|
  {
    if answers[0].Chunk? then ReadCount(answers[0].limit, len, |input|) else 0
  }

  /** The loop goes round again after the first read. */
  predicate Again(len: nat, input: seq<Byte>, answers: seq<Answer>) {
    && answers != [] && !answers[0].Error?
    && FirstRead(len, input, answers) < len
    && (FirstRead(len, input, answers) > 0 || answers[0].Interrupted?)
  }

  lemma NetReadAgain(buf: seq<Byte>, pos: nat, len: nat, input: seq<Byte>, answers: seq<Answer>)
    requires pos + len <= |buf| && Again(len, input, answers)
    ensures var n := FirstRead(len, input, answers);
            NetLoop(buf, pos, len, input, answers)
            == NetLoop(Store(buf, pos, input[..n]), pos + n, len - n, input[n..], answers[1..])
  {
    hide Store, ReadCount;
    StoreNone(buf, pos, input);
  }

  lemma NetReadStops(buf: seq<Byte>, pos: nat, len: nat, input: seq<Byte>, answers: seq<Answer>)
    requires pos + len <= |buf| && !Again(len, input, answers)
    ensures Counted(NetLoop(buf, pos, len, input, answers), buf, pos, len, input)
  {
    hide Store;
    StoreNone(buf, pos, input);
  }

  lemma {:induction false} NetReadCounts(
      buf: seq<Byte>, pos: nat, len: nat, input: seq<Byte>, answers: seq<Answer>)
    requires pos + len <= |buf|
    ensures Counted(NetLoop(buf, pos, len, input, answers), buf, pos, len, input)
    decreases |answers|
  {
    hide Store, NetLoop, FirstRead, Counted;
    if Again(len, input, answers) {
      var n := FirstRead(len, input, answers);
      NetReadAgain(buf, pos, len, input, answers);
      NetReadCounts(Store(buf, pos, input[..n]), pos + n, len - n, input[n..], answers[1..]);
      CountedBack(NetLoop(buf, pos, len, input, answers), buf, pos, len, input, n);
    } else {
      NetReadStops(buf, pos, len, input, answers);
    }
  }

  lemma StoreNone(buf: seq<Byte>, pos: nat, input: seq<Byte>)
    requires pos <= |buf|
    ensures Store(buf, pos, input[..0]) == buf && input[0..] == input
  {
  }

  lemma NetReadEnd(buf: seq<Byte>, pos: nat, len: nat, input: seq<Byte>, answers: seq<Answer>)
    requires pos + len <= |buf| && !Again(len, input, answers)
    ensures var r := NetLoop(buf, pos, len, input, answers);
            && (answers == [] ==> r.ret == None && r.answers == [])
            && (answers != [] ==>
                  && r.answers == answers[1..]
                  && (if answers[0].Error? then r.ret == Some(-1) else r.ret.Some? && r.ret.value >= 0))
  {
  }

  /**
    * -1 is returned if and only if one of the reads failed for good, however much had been read by
    * then and whether or not the stream had ended; it is the last read of the call.
    */
  lemma {:induction false} NetReadFails(buf: seq<Byte>, pos: nat, len: nat, input: seq<Byte>, answers: seq<Answer>)
    requires pos + len <= |buf|
    ensures var r := NetLoop(buf, pos, len, input, answers);
            && |r.answers| <= |answers| && r.answers == answers[|answers| - |r.answers|..]
            && (r.ret == Some(-1) <==> Error in Used(answers, r.answers))
            && (r.ret == None ==> r.answers == [])
    decreases |answers|
  {
    hide NetLoop, FirstRead;
    if Again(len, input, answers) {
      var n := FirstRead(len, input, answers);
      NetReadAgain(buf, pos, len, input, answers);
      NetReadFails(Store(buf, pos, input[..n]), pos + n, len - n, input[n..], answers[1..]);
      UsedMore(answers, NetLoop(buf, pos, len, input, answers).answers);
    } else {
      NetReadEnd(buf, pos, len, input, answers);
      if answers != [] {
        assert Used(answers, answers[1..]) == [answers[0]];
      }
    }
  }

  function Uninterrupted(answers: seq<Answer>): (r: seq<Answer>)
    ensures |r| <= |answers|
  {
    if answers == [] then []
    else (if answers[0].Interrupted? then [] else [answers[0]]) + Uninterrupted(answers[1..])
  }

  /** The same result, buffer and stream as if no read had been interrupted. */
  predicate InterruptsLost(buf: seq<Byte>, pos: nat, len: nat, input: seq<Byte>, answers: seq<Answer>)
    requires pos + len <= |buf|
  {
    var r, r' := NetLoop(buf, pos, len, input, answers), NetLoop(buf, pos, len, input, Uninterrupted(answers));
    r.ret == r'.ret && r.buf == r'.buf && r.input == r'.input
  }

  /**
    * Interrupted reads change neither the result nor the buffer nor the stream, if and only if
    * something is asked for: `continue` goes to the loop's test, which ends a call that wants nothing.
    */
  lemma InterruptsChangeNothing(buf: seq<Byte>, pos: nat, len: nat, input: seq<Byte>)
    requires pos + len <= |buf|
    ensures (forall answers :: InterruptsLost(buf, pos, len, input, answers)) <==> len > 0
  {
    if len > 0 {
      forall answers
        ensures InterruptsLost(buf, pos, len, input, answers)
      {
        WithoutInterrupts(buf, pos, len, input, answers);
      }
    } else {
      var answers := [Interrupted, Error];
      assert Uninterrupted(answers) == [Error];
      assert !InterruptsLost(buf, pos, len, input, answers);
    }
  }

  lemma {:induction false} WithoutInterrupts(
      buf: seq<Byte>, pos: nat, len: nat, input: seq<Byte>, answers: seq<Answer>)
    requires pos + len <= |buf| && len > 0
    ensures InterruptsLost(buf, pos, len, input, answers)
    decreases |answers|
  {
    hide Store, ReadCount;
    if answers != [] {
      if answers[0].Interrupted? {
        WithoutInterrupts(buf, pos, len, input, answers[1..]);
        assert Uninterrupted(answers) == Uninterrupted(answers[1..]);
      } else {
        assert Uninterrupted(answers)[1..] == Uninterrupted(answers[1..]);
        if answers[0].Chunk? {
          var n := ReadCount(answers[0].limit, len, |input|);
          if 0 < n < len {
            WithoutInterrupts(Store(buf, pos, input[..n]), pos + n, len - n, input[n..], answers[1..]);
          }
        }
      }
    }
  }

  lemma ReadsLeft(answers: seq<Answer>)
    requires answers != []
    ensures |Uninterrupted(answers)| == |Uninterrupted(answers[1..])| + if answers[0].Interrupted? then 0 else 1
  {
  }

  /** Without errors, and with a read for each octet at worst, the call returns; interrupts come on top. */
  lemma {:induction false} NetReadReturns(
      buf: seq<Byte>, pos: nat, len: nat, input: seq<Byte>, answers: seq<Answer>)
    requires pos + len <= |buf| && Error !in answers
    requires len <= |Uninterrupted(answers)| && answers != []
    ensures var r := NetLoop(buf, pos, len, input, answers);
            && r.ret.Some? && Error !in r.answers
            && |Uninterrupted(answers)| - |Uninterrupted(r.answers)| <= if len == 0 then 1 else len
    decreases |answers|
  {
    hide Store, Uninterrupted;
    ReadsLeft(answers);
    assert answers[0] in answers && forall a :: a in answers[1..] ==> a in answers;
    if Again(len, input, answers) {
      var n := FirstRead(len, input, answers);
      NetReadAgain(buf, pos, len, input, answers);
      hide NetLoop;
      NetReadReturns(Store(buf, pos, input[..n]), pos + n, len - n, input[n..], answers[1..]);
    }
  }

  /**
    * While the stream holds what is asked for, the accumulating read_all does what net_read does,
    * errors included. Interrupts alone part them: to read_all they are errors.
    */
  lemma {:induction false} ReadAllRefines(
      buf: seq<Byte>, pos: nat, len: nat, input: seq<Byte>, answers: seq<Answer>)
    requires pos + len <= |buf| && 0 < len <= |input| && Interrupted !in answers
    ensures var r := ReadLoop(RunningTotal, buf, pos, len, input, answers);
            var net := NetLoop(buf, pos, len, input, answers);
            && r.buf == net.buf && r.input == net.input && r.answers == net.answers
            && (r.status.Done? <==> net.ret == Some(pos + len))
            && (r.status.Running? <==> net.ret == None)
            && (r.status.Failed? <==> net.ret == Some(-1))
    decreases |answers|
  {
    hide Store, ReadCount;
    if answers != [] && !answers[0].Error? {
      assert answers[0] in answers;
      var n := ReadCount(answers[0].limit, len, |input|);
      if n < len {
        assert forall a :: a in answers[1..] ==> a in answers;
        ReadAllRefines(Store(buf, pos, input[..n]), pos + n, len - n, input[n..], answers[1..]);
      }
    }
  }

  /** On a stream that ends early they part: net_read returns what there was, read_all keeps asking. */
  lemma {:induction false} NetReadEnds(buf: seq<Byte>, pos: nat, len: nat, input: seq<Byte>, answers: seq<Answer>)
    requires pos + len <= |buf| && |input| < len && |input| < |answers| && AllChunks(answers)
    ensures NetLoop(buf, pos, len, input, answers).ret == Some(pos + |input|)
    ensures ReadLoop(RunningTotal, buf, pos, len, input, answers).status.Running?
    decreases |answers|
  {
    EndOfStreamSpins(RunningTotal, buf, pos, len, input, answers);
    assert answers[0] in answers;
    var n := ReadCount(answers[0].limit, len, |input|);
    if n > 0 {
      assert forall a :: a in answers[1..] ==> a in answers;
      NetReadEnds(Store(buf, pos, input[..n]), pos + n, len - n, input[n..], answers[1..]);
    }
  }
}
