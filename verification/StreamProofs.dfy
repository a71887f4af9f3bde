/** What the chunked loops of utils.c transfer, and when the framing carries tokens across. */
module StreamProofs {
  import opened Bytes
  import opened Streams

  predicate AllChunks(answers: seq<Answer>) {
    forall a :: a in answers ==> a.Chunk?
  }

  function Sum(ks: seq<nat>): nat {
    if ks == [] then 0 else ks[0] + Sum(ks[1..])
  }

  // read_all

  lemma ReadStep(mode: Offsets, buf: seq<Byte>, off: nat, len: nat, input: seq<Byte>, answers: seq<Answer>)
    returns (n: nat)
    requires off + len <= |buf| && len > 0 && answers != [] && answers[0].Chunk?
    ensures n == ReadCount(answers[0].limit, len, |input|)
    ensures ReadLoop(mode, buf, off, len, input, answers)
         == ReadLoop(mode, Store(buf, off, input[..n]), Advance(mode, off, n), len - n, input[n..], answers[1..])
    ensures Counts(len, |input|, answers) == [n] + Counts(len - n, |input| - n, answers[1..])
    ensures Sum(Counts(len, |input|, answers)) == n + Sum(Counts(len - n, |input| - n, answers[1..]))
  {
    n := ReadCount(answers[0].limit, len, |input|);
    var rest := Counts(len - n, |input| - n, answers[1..]);
    assert ([n] + rest)[1..] == rest;
  }

  lemma CountsStep(len: nat, available: nat, answers: seq<Answer>)
    requires Counts(len, available, answers) != []
    ensures len > 0 && answers != [] && answers[0].Chunk?
    ensures Sum(Counts(len, available, answers)) == len ==> ReadCount(answers[0].limit, len, available) > 0
  {
    if available == 0 {
      NothingLeft(len, answers);
    }
  }

  /** The accumulating loop copies a prefix of the stream in place, however it is cut. */
  lemma {:induction false} ReadAccumulates(buf: seq<Byte>, off: nat, len: nat, input: seq<Byte>, answers: seq<Answer>)
    requires off + len <= |buf|
    ensures var r := ReadLoop(RunningTotal, buf, off, len, input, answers);
            var m := Sum(Counts(len, |input|, answers));
            && m <= len && m <= |input|
            && r.input == input[m..] && r.buf == Store(buf, off, input[..m])
    decreases |answers|
  {
    hide ReadLoop, Counts, Sum, Store, ReadCount;
    if Counts(len, |input|, answers) != [] {
      CountsStep(len, |input|, answers);
      var n := ReadStep(RunningTotal, buf, off, len, input, answers);
      var buf' := Store(buf, off, input[..n]);
      ReadAccumulates(buf', off + n, len - n, input[n..], answers[1..]);
      var m := Sum(Counts(len - n, |input| - n, answers[1..]));
      StoreTwice(buf, off, input, n, n + m);
    } else {
      NoChunks(RunningTotal, buf, off, len, input, answers);
    }
  }

  lemma NoChunks(mode: Offsets, buf: seq<Byte>, off: nat, len: nat, input: seq<Byte>, answers: seq<Answer>)
    requires off + len <= |buf| && Counts(len, |input|, answers) == []
    ensures var r := ReadLoop(mode, buf, off, len, input, answers);
            r.input == input[0..] && r.buf == Store(buf, off, input[..0])
    ensures Sum(Counts(len, |input|, answers)) == 0
  {
    assert Store(buf, off, input[..0]) == buf;
  }

  lemma StoreTwice(buf: seq<Byte>, off: nat, input: seq<Byte>, n: nat, m: nat)
    requires n <= m <= |input| && off + m <= |buf|
    ensures Store(Store(buf, off, input[..n]), off + n, input[n..][..m - n]) == Store(buf, off, input[..m])
    ensures input[n..][m - n..] == input[m..]
  {
    assert input[..n] + input[n..][..m - n] == input[..m];
  }

  /** Where the chunks land does not change how the call ends or what it takes from the stream. */
  lemma {:induction false} ReadModes(
      mode: Offsets, buf: seq<Byte>, off: nat, mode': Offsets, buf': seq<Byte>, off': nat,
      len: nat, input: seq<Byte>, input': seq<Byte>, answers: seq<Answer>)
    requires off + len <= |buf| && off' + len <= |buf'| && |input| == |input'|
    ensures var r, r' := ReadLoop(mode, buf, off, len, input, answers), ReadLoop(mode', buf', off', len, input',
                                                                                 answers);
            && r.status == r'.status && r.answers == r'.answers
            && |r.input| == |r'.input| && (input == input' ==> r.input == r'.input)
    decreases |answers|
  {
    hide Store, ReadCount;
    if len > 0 && answers != [] && answers[0].Chunk? {
      var n := ReadCount(answers[0].limit, len, |input|);
      ReadModes(mode, Store(buf, off, input[..n]), Advance(mode, off, n),
                mode', Store(buf', off', input'[..n]), Advance(mode', off', n),
                len - n, input[n..], input'[n..], answers[1..]);
    }
  }

  /** A call that ends well has taken exactly len octets, with either offset. */
  lemma ReadConsumes(mode: Offsets, buf: seq<Byte>, off: nat, len: nat, input: seq<Byte>, answers: seq<Answer>)
    requires off + len <= |buf|
    ensures var r := ReadLoop(mode, buf, off, len, input, answers);
            r.status.Done? ==> len <= |input| && r.input == input[len..]
  {
    ReadModes(mode, buf, off, RunningTotal, buf, off, len, input, input, answers);
    ReadAccumulates(buf, off, len, input, answers);
    DoneWhenCounted(mode, buf, off, len, input, answers);
  }

  /** A call ends well exactly when its chunks add up to len. */
  lemma {:induction false} DoneWhenCounted(mode: Offsets, buf: seq<Byte>, off: nat, len: nat, input: seq<Byte>,
                                           answers: seq<Answer>)
    requires off + len <= |buf|
    ensures ReadLoop(mode, buf, off, len, input, answers).status.Done? <==> Sum(Counts(len, |input|, answers)) == len
    ensures Sum(Counts(len, |input|, answers)) <= len
    decreases |answers|
  {
    if len > 0 && answers != [] && answers[0].Chunk? {
      var n := ReadCount(answers[0].limit, len, |input|);
      DoneWhenCounted(mode, Store(buf, off, input[..n]), Advance(mode, off, n), len - n, input[n..], answers[1..]);
    }
  }

  /** Enough answers, none of them an error, and enough octets: the call ends well. */
  lemma {:induction false} ReadProgress(mode: Offsets, buf: seq<Byte>, off: nat, len: nat, input: seq<Byte>,
                                        answers: seq<Answer>)
    requires off + len <= |buf| && AllChunks(answers)
    requires len <= |input| && len <= |answers|
    ensures var r := ReadLoop(mode, buf, off, len, input, answers);
            r.status.Done? && |answers| - |r.answers| <= len && AllChunks(r.answers)
    decreases |answers|
  {
    if len > 0 {
      assert answers[0] in answers;
      var n := ReadCount(answers[0].limit, len, |input|);
      assert forall a :: a in answers[1..] ==> a in answers;
      ReadProgress(mode, Store(buf, off, input[..n]), Advance(mode, off, n), len - n, input[n..], answers[1..]);
    }
  }

  /**
    * A stream that ends early never ends the call: read answers 0 from then on, and the loop asks
    * again for as long as it gets an answer.
    */
  lemma {:induction false} EndOfStreamSpins(mode: Offsets, buf: seq<Byte>, off: nat, len: nat, input: seq<Byte>,
                                            answers: seq<Answer>)
    requires off + len <= |buf| && AllChunks(answers)
    requires |input| < len
    ensures var r := ReadLoop(mode, buf, off, len, input, answers);
            r.status.Running? && r.answers == []
    decreases |answers|
  {
    if answers != [] {
      assert answers[0] in answers;
      var n := ReadCount(answers[0].limit, len, |input|);
      assert forall a :: a in answers[1..] ==> a in answers;
      EndOfStreamSpins(mode, Store(buf, off, input[..n]), Advance(mode, off, n), len - n, input[n..], answers[1..]);
    }
  }

  /** With error-free answers, one for each octet at worst, the call ends if and only if the stream holds enough. */
  lemma ReadEndsIff(mode: Offsets, buf: seq<Byte>, off: nat, len: nat, input: seq<Byte>, answers: seq<Answer>)
    requires off + len <= |buf| && AllChunks(answers) && len <= |answers|
    ensures !ReadLoop(mode, buf, off, len, input, answers).status.Running? <==> len <= |input|
    ensures ReadLoop(mode, buf, off, len, input, answers).status.Done? <==> len <= |input|
  {
    if len <= |input| {
      ReadProgress(mode, buf, off, len, input, answers);
    } else {
      EndOfStreamSpins(mode, buf, off, len, input, answers);
    }
  }

  /** With one or two chunks the offset as written is the running total. */
  lemma TwoChunksRead(buf: seq<Byte>, len: nat, input: seq<Byte>, answers: seq<Answer>)
    requires len <= |buf|
    requires Sum(Counts(len, |input|, answers)) == len && |Counts(len, |input|, answers)| <= 2
    ensures ReadLoop(LastChunk, buf, 0, len, input, answers) == ReadLoop(RunningTotal, buf, 0, len, input, answers)
  {
    if len > 0 {
      var n := ReadStep(LastChunk, buf, 0, len, input, answers);
      var _ := ReadStep(RunningTotal, buf, 0, len, input, answers);
      if n < len {
        var buf', input' := Store(buf, 0, input[..n]), input[n..];
        OneChunkRead(buf', n, len - n, input', answers[1..]);
      }
    }
  }

  lemma OneChunkRead(buf: seq<Byte>, off: nat, len: nat, input: seq<Byte>, answers: seq<Answer>)
    requires off + len <= |buf|
    requires Sum(Counts(len, |input|, answers)) == len && |Counts(len, |input|, answers)| <= 1
    ensures ReadLoop(LastChunk, buf, off, len, input, answers) == ReadLoop(RunningTotal, buf, off, len, input, answers)
  {
    if len > 0 {
      var n := ReadStep(LastChunk, buf, off, len, input, answers);
      var _ := ReadStep(RunningTotal, buf, off, len, input, answers);
      assert Counts(len - n, |input| - n, answers[1..]) == [];
    }
  }

  /** Once the loop has fallen behind the running total, the last octet of the buffer is out of reach. */
  lemma {:induction false} LastOutOfReach(buf: seq<Byte>, off: nat, len: nat, input: seq<Byte>, answers: seq<Answer>)
    requires off + len < |buf|
    ensures ReadLoop(LastChunk, buf, off, len, input, answers).buf[|buf| - 1] == buf[|buf| - 1]
    decreases |answers|
  {
    if len > 0 && answers != [] && answers[0].Chunk? {
      var n := ReadCount(answers[0].limit, len, |input|);
      LastOutOfReach(Store(buf, off, input[..n]), n, len - n, input[n..], answers[1..]);
    }
  }

  lemma LastNeverRead(buf: seq<Byte>, input: seq<Byte>, answers: seq<Answer>)
    requires Sum(Counts(|buf|, |input|, answers)) == |buf| && |Counts(|buf|, |input|, answers)| > 2
    ensures ReadLoop(LastChunk, buf, 0, |buf|, input, answers).buf[|buf| - 1] == buf[|buf| - 1]
  {
    hide ReadLoop, Counts, Sum, Store, ReadCount;
    var len := |buf|;
    CountsStep(len, |input|, answers);
    var a := ReadStep(LastChunk, buf, 0, len, input, answers);
    var buf', input' := Store(buf, 0, input[..a]), input[a..];
    CountsStep(len - a, |input'|, answers[1..]);
    var b := ReadStep(LastChunk, buf', a, len - a, input', answers[1..]);
    CountsStep(len - a - b, |input'| - b, answers[1..][1..]);
    StoreKeeps(buf, 0, input[..a], len - 1);
    StoreKeeps(buf', a, input'[..b], len - 1);
    LastOutOfReach(Store(buf', a, input'[..b]), b, len - a - b, input'[b..], answers[1..][1..]);
  }

  lemma StoreKeeps(buf: seq<Byte>, off: nat, chunk: seq<Byte>, i: nat)
    requires off + |chunk| <= i < |buf|
    ensures Store(buf, off, chunk)[i] == buf[i]
  {
  }

  lemma {:induction false} NothingLeft(len: nat, answers: seq<Answer>)
    ensures Sum(Counts(len, 0, answers)) == 0
    decreases |answers|
  {
    if len > 0 && answers != [] && answers[0].Chunk? {
      NothingLeft(len, answers[1..]);
    }
  }

  /**
    * Chunks that add up to len reproduce every stream over every earlier buffer contents, with the
    * offset as written, if and only if there are at most two of them.
    */
  lemma ReadAllExact(len: nat, available: nat, answers: seq<Answer>)
    requires Sum(Counts(len, available, answers)) == len
    ensures (forall buf: seq<Byte>, input: seq<Byte> | |buf| == len && |input| == available ::
               len <= available && ReadLoop(LastChunk, buf, 0, len, input, answers).buf == input[..len])
        <==> |Counts(len, available, answers)| <= 2
  {
    hide ReadLoop, Counts, Sum;
    if |Counts(len, available, answers)| <= 2 {
      forall buf: seq<Byte>, input: seq<Byte> | |buf| == len && |input| == available
        ensures len <= available && ReadLoop(LastChunk, buf, 0, len, input, answers).buf == input[..len]
      {
        TwoChunksFaithful(buf, input, answers);
      }
    } else {
      CountsStep(len, available, answers);
      var buf: seq<Byte> := seq(len, _ => 0);
      var input: seq<Byte> := seq(available, _ => 1);
      LastNeverRead(buf, input, answers);
      DoneWhenCounted(LastChunk, buf, 0, len, input, answers);
      ReadConsumes(LastChunk, buf, 0, len, input, answers);
      assert input[..len][len - 1] == 1;
    }
  }

  lemma TwoChunksFaithful(buf: seq<Byte>, input: seq<Byte>, answers: seq<Answer>)
    requires Sum(Counts(|buf|, |input|, answers)) == |buf| && |Counts(|buf|, |input|, answers)| <= 2
    ensures |buf| <= |input| && ReadLoop(LastChunk, buf, 0, |buf|, input, answers).buf == input[..|buf|]
  {
    hide ReadLoop, Counts, Sum;
    TwoChunksRead(buf, |buf|, input, answers);
    ReadAccumulates(buf, 0, |buf|, input, answers);
  }

  /** The answers that a call has used. */
  function Used(answers: seq<Answer>, left: seq<Answer>): seq<Answer> {
    if |left| <= |answers| then answers[..|answers| - |left|] else answers
  }

  lemma UsedMore(answers: seq<Answer>, left: seq<Answer>)
    requires answers != [] && |left| < |answers|
    ensures Used(answers, left) == [answers[0]] + Used(answers[1..], left)
  {
  }

  lemma UsedOne(answers: seq<Answer>)
    requires answers != []
    ensures Used(answers, answers[1..]) == [answers[0]] && Used(answers, answers) == []
  {
  }

  /** A read call fails if and only if one of its reads does, interrupted ones included; it is the last. */
  lemma {:induction false} ReadFails(mode: Offsets, buf: seq<Byte>, off: nat, len: nat, input: seq<Byte>,
                                     answers: seq<Answer>)
    requires off + len <= |buf|
    ensures var r := ReadLoop(mode, buf, off, len, input, answers);
            && |r.answers| <= |answers| && r.answers == answers[|answers| - |r.answers|..]
            && (r.status.Failed? <==> Error in Used(answers, r.answers) || Interrupted in Used(answers, r.answers))
    decreases |answers|
  {
    hide Used, Store, ReadCount;
    if answers != [] {
      UsedOne(answers);
      if len > 0 && answers[0].Chunk? {
        var n := ReadCount(answers[0].limit, len, |input|);
        ReadFails(mode, Store(buf, off, input[..n]), Advance(mode, off, n), len - n, input[n..], answers[1..]);
        UsedMore(answers, ReadLoop(mode, buf, off, len, input, answers).answers);
      }
    } else {
      assert Used([], []) == [] by { UsedNone(); }
    }
  }

  lemma UsedNone()
    ensures Used([], []) == []
  {
  }

  // write_all

  lemma {:induction false} WriteAccumulates(buf: seq<Byte>, off: nat, len: nat, wire: seq<Byte>, answers: seq<Answer>)
    requires off + len <= |buf|
    ensures var w := WriteLoop(RunningTotal, buf, off, len, wire, answers);
            var m := |w.wire| - |wire|;
            0 <= m <= len && w.wire == wire + buf[off..off + m] && (w.status.Done? ==> m == len)
    decreases |answers|
  {
    if len > 0 && answers != [] && answers[0].Chunk? {
      var n := Min(answers[0].limit, len);
      WriteAccumulates(buf, off + n, len - n, wire + buf[off..off + n], answers[1..]);
      var m := |WriteLoop(RunningTotal, buf, off, len, wire, answers).wire| - |wire|;
      assert buf[off..off + m] == buf[off..off + n] + buf[off + n..off + m];
    }
  }

  lemma {:induction false} WriteProgress(mode: Offsets, buf: seq<Byte>, off: nat, len: nat, wire: seq<Byte>,
                                         answers: seq<Answer>)
    requires off + len <= |buf| && AllChunks(answers) && len <= |answers|
    ensures var w := WriteLoop(mode, buf, off, len, wire, answers);
            w.status.Done? && |answers| - |w.answers| <= len && AllChunks(w.answers)
    decreases |answers|
  {
    if len > 0 {
      assert answers[0] in answers;
      var n := Min(answers[0].limit, len);
      assert forall a :: a in answers[1..] ==> a in answers;
      WriteProgress(mode, buf, Advance(mode, off, n), len - n, wire + buf[off..off + n], answers[1..]);
    }
  }

  /** The same for writing. */
  lemma {:induction false} WriteFails(mode: Offsets, buf: seq<Byte>, off: nat, len: nat, wire: seq<Byte>,
                                      answers: seq<Answer>)
    requires off + len <= |buf|
    ensures var w := WriteLoop(mode, buf, off, len, wire, answers);
            && |w.answers| <= |answers| && w.answers == answers[|answers| - |w.answers|..]
            && (w.status.Failed? <==> Error in Used(answers, w.answers) || Interrupted in Used(answers, w.answers))
    decreases |answers|
  {
    hide Used;
    if answers != [] {
      UsedOne(answers);
      if len > 0 && answers[0].Chunk? {
        var n := Min(answers[0].limit, len);
        WriteFails(mode, buf, Advance(mode, off, n), len - n, wire + buf[off..off + n], answers[1..]);
        UsedMore(answers, WriteLoop(mode, buf, off, len, wire, answers).answers);
      }
    } else {
      UsedNone();
    }
  }

  /** How a write call ends depends on its chunks only. */
  lemma {:induction false} WriteDone(mode: Offsets, buf: seq<Byte>, off: nat, len: nat, wire: seq<Byte>,
                                     answers: seq<Answer>)
    requires off + len <= |buf|
    ensures WriteLoop(mode, buf, off, len, wire, answers).status.Done? <==> Sum(Counts(len, len, answers)) == len
    ensures Sum(Counts(len, len, answers)) <= len
    decreases |answers|
  {
    if len > 0 && answers != [] && answers[0].Chunk? {
      var n := Min(answers[0].limit, len);
      WriteDone(mode, buf, Advance(mode, off, n), len - n, wire + buf[off..off + n], answers[1..]);
    }
  }

  lemma WriteStep(mode: Offsets, buf: seq<Byte>, off: nat, len: nat, wire: seq<Byte>, answers: seq<Answer>)
    returns (n: nat)
    requires off + len <= |buf| && len > 0 && answers != [] && answers[0].Chunk?
    ensures n == Min(answers[0].limit, len) == ReadCount(answers[0].limit, len, len)
    ensures WriteLoop(mode, buf, off, len, wire, answers)
         == WriteLoop(mode, buf, Advance(mode, off, n), len - n, wire + buf[off..off + n], answers[1..])
    ensures Counts(len, len, answers) == [n] + Counts(len - n, len - n, answers[1..])
    ensures Sum(Counts(len, len, answers)) == n + Sum(Counts(len - n, len - n, answers[1..]))
  {
    n := Min(answers[0].limit, len);
    var rest := Counts(len - n, len - n, answers[1..]);
    assert ([n] + rest)[1..] == rest;
  }

  lemma OneChunkWritten(buf: seq<Byte>, off: nat, len: nat, wire: seq<Byte>, answers: seq<Answer>)
    requires off + len <= |buf|
    requires Sum(Counts(len, len, answers)) == len && |Counts(len, len, answers)| <= 1
    ensures WriteLoop(LastChunk, buf, off, len, wire, answers) == WriteLoop(RunningTotal, buf, off, len, wire, answers)
  {
    if len > 0 {
      var n := WriteStep(LastChunk, buf, off, len, wire, answers);
      var _ := WriteStep(RunningTotal, buf, off, len, wire, answers);
      assert Counts(len - n, len - n, answers[1..]) == [];
    }
  }

  lemma TwoChunksWritten(buf: seq<Byte>, wire: seq<Byte>, answers: seq<Answer>)
    requires Sum(Counts(|buf|, |buf|, answers)) == |buf| && |Counts(|buf|, |buf|, answers)| <= 2
    ensures WriteLoop(LastChunk, buf, 0, |buf|, wire, answers) == WriteLoop(RunningTotal, buf, 0, |buf|, wire, answers)
  {
    var len := |buf|;
    if len > 0 {
      var n := WriteStep(LastChunk, buf, 0, len, wire, answers);
      var _ := WriteStep(RunningTotal, buf, 0, len, wire, answers);
      if n < len {
        OneChunkWritten(buf, n, len - n, wire + buf[0..0 + n], answers[1..]);
      }
    }
  }

  predicate AllZero(s: seq<Byte>) {
    forall i :: 0 <= i < |s| ==> s[i] == 0
  }

  lemma {:induction false} LastNeverWritten(buf: seq<Byte>, off: nat, len: nat, wire: seq<Byte>, answers: seq<Answer>)
    requires off + len < |buf| && AllZero(buf[..|buf| - 1]) && AllZero(wire)
    ensures AllZero(WriteLoop(LastChunk, buf, off, len, wire, answers).wire)
    decreases |answers|
  {
    if len > 0 && answers != [] && answers[0].Chunk? {
      var n := Min(answers[0].limit, len);
      assert buf[off..off + n] == buf[..|buf| - 1][off..off + n];
      LastNeverWritten(buf, n, len - n, wire + buf[off..off + n], answers[1..]);
    }
  }

  /** The same characterisation for writing: with a third chunk the last octet is never sent. */
  lemma WriteAllExact(len: nat, answers: seq<Answer>)
    requires Sum(Counts(len, len, answers)) == len
    ensures (forall buf: seq<Byte> | |buf| == len :: WriteLoop(LastChunk, buf, 0, len, [], answers).wire == buf)
        <==> |Counts(len, len, answers)| <= 2
  {
    assert len == 0 ==> Counts(len, len, answers) == [];
    hide Counts, WriteLoop, Sum;
    if |Counts(len, len, answers)| <= 2 {
      forall buf: seq<Byte> | |buf| == len
        ensures WriteLoop(LastChunk, buf, 0, len, [], answers).wire == buf
      {
        TwoChunksWritten(buf, [], answers);
        WriteAccumulates(buf, 0, len, [], answers);
        WriteDone(RunningTotal, buf, 0, len, [], answers);
        hide WriteLoop;
        assert buf[0..0 + len] == buf;
      }
    } else {
      var buf: seq<Byte> := seq(len - 1, _ => 0) + [1];
      ThirdChunkLosesLast(buf, answers);
      assert |buf| == len && WriteLoop(LastChunk, buf, 0, len, [], answers).wire != buf;
    }
  }

  lemma ThirdChunkLosesLast(buf: seq<Byte>, answers: seq<Answer>)
    requires buf != [] && AllZero(buf[..|buf| - 1]) && buf[|buf| - 1] != 0
    requires Sum(Counts(|buf|, |buf|, answers)) == |buf| && |Counts(|buf|, |buf|, answers)| > 2
    ensures WriteLoop(LastChunk, buf, 0, |buf|, [], answers).wire != buf
  {
    hide WriteLoop, Counts, Sum, Min;
    var len := |buf|;
    CountsStep(len, len, answers);
    var a := WriteStep(LastChunk, buf, 0, len, [], answers);
    var wire := [] + buf[0..0 + a];
    CountsStep(len - a, len - a, answers[1..]);
    var b := WriteStep(LastChunk, buf, a, len - a, wire, answers[1..]);
    CountsStep(len - a - b, len - a - b, answers[1..][1..]);
    assert wire == buf[..len - 1][..a];
    assert buf[a..a + b] == buf[..len - 1][a..a + b];
    LastNeverWritten(buf, b, len - a - b, wire + buf[a..a + b], answers[1..][1..]);
  }
}
