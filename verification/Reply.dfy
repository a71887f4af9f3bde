/**
  * The reference server's reply: a string built in a buffer of BUFSIZ octets, sent behind a 16-bit
  * length, and read back by the reference client with two net_read calls.
  */
module Reply {
  import opened Bytes
  import opened Wrappers
  import opened Streams
  import opened StreamProofs
  import opened NetRead

  // C strings in buffers

  /** The octets before the first NUL. */
  function CString(buf: seq<Byte>): (s: seq<Byte>)
    ensures |s| <= |buf| && s == buf[..|s|] && 0 !in s
    ensures |s| < |buf| ==> buf[|s|] == 0
  {
    if buf == [] || buf[0] == 0 then [] else [buf[0]] + CString(buf[1..])
  }

  lemma {:induction false} CStringIs(buf: seq<Byte>, s: seq<Byte>)
    requires 0 !in s && |s| < |buf| && s == buf[..|s|] && buf[|s|] == 0
    ensures CString(buf) == s
  {
    if s != [] {
      assert s[0] in s && forall b :: b in s[1..] ==> b in s;
      CStringIs(buf[1..], s[1..]);
      assert s == [s[0]] + s[1..];
    }
  }

  function Take(n: nat, s: seq<Byte>): (r: seq<Byte>)
    ensures |r| == Min(n, |s|) && r <= s
  {
    if n < |s| then s[..n] else s
  }

  lemma Copied(buf: seq<Byte>, src: seq<Byte>, n: nat, copied: nat, rest: seq<Byte>)
    requires copied == Min(n, |src|) && n <= |buf| && rest == buf[n..]
    requires forall k :: 0 <= k < n ==> buf[k] == if k < copied then src[k] else 0
    ensures buf == Take(n, src) + seq<Byte>(n - |Take(n, src)|, _ => 0) + rest
  {
  }

  /** strncpy: at most n octets, then NULs up to n; no terminator when the source is longer. */
  method Strncpy(dst: array<Byte>, src: seq<Byte>, n: nat)
    requires n <= dst.Length
    modifies dst
    ensures dst[..] == Take(n, src) + seq<Byte>(n - |Take(n, src)|, _ => 0) + old(dst[n..])
  {
    var i := 0;
    while i < n && i < |src|
      invariant 0 <= i <= n && i <= |src|
      invariant forall k :: 0 <= k < dst.Length ==> dst[k] == if k < i then src[k] else old(dst[k])
    {
      dst[i] := src[i];
      i := i + 1;
    }
    ghost var copied := i;
    while i < n
      invariant copied <= i <= n
      invariant forall k :: 0 <= k < dst.Length ==>
                dst[k] == if k < copied then src[k] else if k < i then 0 else old(dst[k])
    {
      dst[i] := 0;
      i := i + 1;
    }
    Copied(dst[..], src, n, copied, old(dst[n..]));
  }

  /** strncat: at most n octets behind the string in dst, then a NUL; all of it must fit. */
  method Strncat(dst: array<Byte>, src: seq<Byte>, n: nat)
    requires 0 !in src && |CString(dst[..])| + Min(n, |src|) < dst.Length
    modifies dst
    ensures CString(dst[..]) == old(CString(dst[..])) + Take(n, src)
  {
    hide CString;
    ghost var before := dst[..];
    var start := |CString(dst[..])|;
    var i := 0;
    while i < n && i < |src|
      invariant 0 <= i <= n && i <= |src|
      invariant forall k :: 0 <= k < dst.Length ==>
                dst[k] == if start <= k < start + i then src[k - start] else before[k]
    {
      dst[start + i] := src[i];
      i := i + 1;
    }
    dst[start + i] := 0;
    ghost var result := before[..start] + src[..i];
    assert result == dst[..][..start + i] && 0 !in result;
    CStringIs(dst[..], result);
  }

  // The server

  const YOU_ARE: seq<Byte> := [89, 111, 117, 32, 97, 114, 101, 32] // "You are "
  const UNPARSE_ERROR: seq<Byte> := [60, 117, 110, 112, 97, 114, 115, 101, 32, 101, 114, 114, 111, 114, 62]
  const NEWLINE: seq<Byte> := [10]

  /** The untruncated reply; no name when the principal cannot be unparsed. */
  function Greeting(name: Option<seq<Byte>>): seq<Byte> {
    YOU_ARE + (if name.Some? then name.value else UNPARSE_ERROR) + NEWLINE
  }

  /** The octets of a text. */
  predicate Spells(s: seq<Byte>, text: string) {
    |s| == |text| && forall i :: 0 <= i < |s| ==> s[i] == text[i] as int
  }

  /** "You are ", the name or "<unparse error>", a newline. */
  lemma GreetingSpells(name: Option<seq<Byte>>)
    ensures var g := Greeting(name);
            && |g| >= 9 && Spells(g[..8], "You are ") && g[|g| - 1] == '\n' as int
            && (name.Some? ==> g[8..|g| - 1] == name.value)
            && (name.None? ==> Spells(g[8..|g| - 1], "<unparse error>"))
  {
  }

  /** sserver.c: the string left in repbuf is the greeting cut to BUFSIZ - 1 octets. */
  method BuildReply(bufsiz: nat, name: Option<seq<Byte>>) returns (repbuf: array<Byte>)
    requires bufsiz > 0
    requires name.Some? ==> 0 !in name.value
    ensures fresh(repbuf) && repbuf.Length == bufsiz
    ensures CString(repbuf[..]) == Take(bufsiz - 1, Greeting(name))
  {
    hide CString;
    repbuf := new Byte[bufsiz];
    repbuf[bufsiz - 1] := 0;
    if name.None? {
      CopyInto(repbuf, YOU_ARE + UNPARSE_ERROR + NEWLINE);
    } else {
      CopyInto(repbuf, YOU_ARE);
      AppendTo(repbuf, YOU_ARE, name.value);
      AppendTo(repbuf, YOU_ARE + name.value, NEWLINE);
    }
  }

  /** strncpy(repbuf, text, sizeof(repbuf) - 1), the last octet being NUL already. */
  method CopyInto(repbuf: array<Byte>, text: seq<Byte>)
    requires repbuf.Length > 0 && repbuf[repbuf.Length - 1] == 0 && 0 !in text
    modifies repbuf
    ensures CString(repbuf[..]) == Take(repbuf.Length - 1, text)
  {
    Strncpy(repbuf, text, repbuf.Length - 1);
    CStringIs(repbuf[..], Take(repbuf.Length - 1, text));
  }

  /** strncat(repbuf, text, sizeof(repbuf) - 1 - strlen(repbuf)) */
  method AppendTo(repbuf: array<Byte>, ghost sofar: seq<Byte>, text: seq<Byte>)
    requires repbuf.Length > 0 && 0 !in text
    requires CString(repbuf[..]) == Take(repbuf.Length - 1, sofar)
    modifies repbuf
    ensures CString(repbuf[..]) == Take(repbuf.Length - 1, sofar + text)
  {
    hide CString;
    TakeAppend(repbuf.Length - 1, sofar, text);
    Strncat(repbuf, text, repbuf.Length - 1 - |CString(repbuf[..])|);
  }

  lemma TakeAppend(n: nat, s: seq<Byte>, t: seq<Byte>)
    ensures Take(n, s) + Take(n - |Take(n, s)|, t) == Take(n, s + t)
  {
  }

  /** sserver.c: the length in 16 bits, then the string; krb5_net_write writes all it is given. */
  function ReplyWire(reply: seq<Byte>): seq<Byte> {
    Big16(|reply|) + reply
  }

  method SendReply(fd: Socket, bufsiz: nat, name: Option<seq<Byte>>)
    requires bufsiz > 0 && (name.Some? ==> 0 !in name.value)
    modifies fd`outgoing
    ensures fd.outgoing == old(fd.outgoing) + ReplyWire(Take(bufsiz - 1, Greeting(name)))
  {
    hide Big16, Take, Greeting;
    ghost var before := fd.outgoing;
    var repbuf := BuildReply(bufsiz, name);
    var reply := CString(repbuf[..]);
    hide CString;
    fd.outgoing := fd.outgoing + Big16(|reply|);
    assert repbuf[..|reply|] == repbuf[..][..|reply|];
    fd.outgoing := fd.outgoing + repbuf[..|reply|];
    assert fd.outgoing == before + (Big16(|reply|) + reply);
  }

  // The client

  /** Pending: the answers ran out. Printed: the octets the client shows, as many as the length said. */
  datatype Outcome = Pending | Aborted | Printed(data: seq<Byte>)

  function ReadReplyResult(stack: Memory, heap: Memory, input: seq<Byte>, answers: seq<Answer>): Outcome {
    var header := NetLoop(Fresh(stack, 2), 0, 2, input, answers);
    if header.ret.None? then Pending
    else if header.ret.value <= 0 then Aborted
    else
      var len := FromBig16(header.buf);
      var body := NetLoop(Fresh(heap, len), 0, len, header.input, header.answers);
      if body.ret.None? then Pending else if body.ret.value <= 0 then Aborted else Printed(body.buf)
  }

  /** sclient.c, main: two octets of length, then that many octets; nothing read or an error aborts. */
  method ReadReply(fd: Socket) returns (outcome: Outcome, ghost stack: Memory, ghost heap: Memory)
    modifies fd`incoming, fd`answers
    ensures outcome == ReadReplyResult(stack, heap, old(fd.incoming), old(fd.answers))
  {
    var xmitlen := new Byte[2];
    stack := Snapshot(xmitlen[..]);
    heap := stack;
    var retval := NetReadInto(fd, xmitlen);
    if retval.None? {
      return Pending, stack, heap;
    }
    if retval.value <= 0 {
      return Aborted, stack, heap;
    }
    var length := FromBig16(xmitlen[..]);
    var data := new Byte[length];
    heap := Snapshot(data[..]);
    retval := NetReadInto(fd, data);
    if retval.None? {
      return Pending, stack, heap;
    }
    if retval.value <= 0 {
      return Aborted, stack, heap;
    }
    outcome := Printed(data[..]);
  }

  // Round trip

  lemma LengthRead(stack: Memory, reply: seq<Byte>, answers: seq<Answer>)
    requires Error !in answers
    ensures var header := NetLoop(Fresh(stack, 2), 0, 2, ReplyWire(reply), answers);
            header.ret.Some? ==>
              && header.ret.value == 2 && FromBig16(header.buf) == |reply| % 0x1_0000
              && header.input == reply && Error !in header.answers
  {
    hide NetLoop, Fresh, FromBig16, Big16;
    var input := ReplyWire(reply);
    NetReadCounts(Fresh(stack, 2), 0, 2, input, answers);
    NetReadFails(Fresh(stack, 2), 0, 2, input, answers);
    AnswersLeft(Fresh(stack, 2), 0, 2, input, answers);
    Big16RoundTrip(|reply|);
    assert input[..2] == Big16(|reply|) && input[2..] == reply;
    var header := NetLoop(Fresh(stack, 2), 0, 2, input, answers);
    if header.ret.Some? {
      assert header.buf == input[..2];
    }
  }

  lemma BodyRead(heap: Memory, reply: seq<Byte>, n: nat, answers: seq<Answer>)
    requires Error !in answers && n <= |reply|
    ensures var body := NetLoop(Fresh(heap, n), 0, n, reply, answers);
            body.ret.Some? ==> body.ret.value == n && body.buf == reply[..n]
  {
    hide NetLoop, Fresh;
    NetReadCounts(Fresh(heap, n), 0, n, reply, answers);
    NetReadFails(Fresh(heap, n), 0, n, reply, answers);
  }

  /** Whatever the chunks and interrupts, the client reads as many octets as 16 bits of length can say. */
  lemma ReplyReadBack(stack: Memory, heap: Memory, reply: seq<Byte>, answers: seq<Answer>)
    requires Error !in answers
    ensures var r := ReadReplyResult(stack, heap, ReplyWire(reply), answers);
            var n := |reply| % 0x1_0000;
            r == Pending || r == (if n == 0 then Aborted else Printed(reply[..n]))
  {
    hide NetLoop, Fresh, FromBig16, Big16;
    var input := ReplyWire(reply);
    var header := NetLoop(Fresh(stack, 2), 0, 2, input, answers);
    LengthRead(stack, reply, answers);
    if header.ret.Some? {
      BodyRead(heap, reply, |reply| % 0x1_0000, header.answers);
    }
  }

  /** Without errors, and with a read for each octet at worst, the client's two calls both return. */
  lemma ReadsReturn(stack: Memory, heap: Memory, reply: seq<Byte>, answers: seq<Answer>)
    requires Error !in answers && 2 + ReadsFor(|reply|) <= |Uninterrupted(answers)|
    ensures ReadReplyResult(stack, heap, ReplyWire(reply), answers) != Pending
  {
    hide NetLoop, Fresh, FromBig16, Big16;
    var input := ReplyWire(reply);
    var header := NetLoop(Fresh(stack, 2), 0, 2, input, answers);
    LengthRead(stack, reply, answers);
    NetReadReturns(Fresh(stack, 2), 0, 2, input, answers);
    assert header.answers != [];
    var n := |reply| % 0x1_0000;
    NetReadReturns(Fresh(heap, n), 0, n, header.input, header.answers);
  }

  /** How many reads the body can take. An empty one takes one too. */
  function ReadsFor(length: nat): nat {
    var n := length % 0x1_0000;
    if n == 0 then 1 else n
  }

  lemma {:induction false} AnswersLeft(buf: seq<Byte>, pos: nat, len: nat, input: seq<Byte>, answers: seq<Answer>)
    requires pos + len <= |buf|
    ensures forall a :: a in NetLoop(buf, pos, len, input, answers).answers ==> a in answers
    decreases |answers|
  {
    if answers != [] && !answers[0].Error? {
      var n := if answers[0].Chunk? then ReadCount(answers[0].limit, len, |input|) else 0;
      if n < len {
        AnswersLeft(Store(buf, pos, input[..n]), pos + n, len - n, input[n..], answers[1..]);
        assert Store(buf, pos, input[..0]) == buf;
      }
    }
  }

  /**
    * With enough reads that do not fail, both calls return. Then the client shows the server's
    * greeting, cut to BUFSIZ - 1 octets, if and only if that cut is not empty and its length fits
    * 16 bits; for every BUFSIZ from 2 to 65536 it always does.
    */
  lemma ReplyRoundTrip(bufsiz: nat, name: Option<seq<Byte>>, stack: Memory, heap: Memory, answers: seq<Answer>)
    requires bufsiz > 0 && Error !in answers
    ensures var reply := Take(bufsiz - 1, Greeting(name));
            var shown := ReadReplyResult(stack, heap, ReplyWire(reply), answers);
            && (2 + ReadsFor(|reply|) <= |Uninterrupted(answers)| ==> shown != Pending)
            && (shown != Pending ==>
                  (shown == Printed(reply) <==> bufsiz >= 2 && (bufsiz <= 0x1_0000 || |Greeting(name)| < 0x1_0000)))
  {
    var reply := Take(bufsiz - 1, Greeting(name));
    ReplyReadBack(stack, heap, reply, answers);
    if 2 + ReadsFor(|reply|) <= |Uninterrupted(answers)| {
      ReadsReturn(stack, heap, reply, answers);
    }
    hide ReadReplyResult, ReplyWire, Greeting;
    if |reply| < 0x1_0000 {
      assert reply[..|reply|] == reply;
    }
    assert |Greeting(name)| >= 9 by { GreetingLength(name); }
  }

  lemma GreetingLength(name: Option<seq<Byte>>)
    ensures |Greeting(name)| >= 9
  {
  }

  // When the client gives up

  /** A call that has returned without an error: how much it got, and what for. */
  predicate Ended(r: Net, buf: seq<Byte>, len: nat, input: seq<Byte>) {
    && r.ret.Some? && 0 <= r.ret.value <= len && r.ret.value <= |input| && len <= |buf|
    && (r.ret.value < len ==> r.ret.value == |input|)
    && r.buf == Store(buf, 0, input[..r.ret.value]) && r.input == input[r.ret.value..]
  }

  lemma CallEnds(buf: seq<Byte>, len: nat, input: seq<Byte>, answers: seq<Answer>)
    requires len <= |buf|
    ensures var r := NetLoop(buf, 0, len, input, answers);
            && (r.ret == Some(-1) <==> Error in Used(answers, r.answers))
            && (r.ret.Some? && r.ret != Some(-1) ==> Ended(r, buf, len, input))
  {
    hide NetLoop, Used, Store;
    NetReadFails(buf, 0, len, input, answers);
    NetReadCounts(buf, 0, len, input, answers);
  }

  /** What the second call finds, if the first has found a length. */
  function BodyCall(stack: Memory, heap: Memory, input: seq<Byte>, answers: seq<Answer>): Net {
    var header := NetLoop(Fresh(stack, 2), 0, 2, input, answers);
    var len := FromBig16(header.buf);
    NetLoop(Fresh(heap, len), 0, len, header.input, header.answers)
  }

  /** A length has been read exactly when two octets were there. */
  lemma HeaderEnds(buf: seq<Byte>, r: Net, input: seq<Byte>)
    requires |buf| == 2 && Ended(r, buf, 2, input)
    ensures |input| < 2 ==> r.input == []
    ensures |input| >= 2 ==> r.buf == input[..2] && r.input == input[2..] && r.ret == Some(2)
    ensures |input| == 0 <==> r.ret == Some(0)
  {
  }

  function Smaller(a: nat, b: nat): nat {
    if a < b then a else b
  }

  /**
    * Once both calls have returned, the client has given up if and only if a read failed for good, the
    * stream ended before the first octet of the body, or the length is 0.
    */
  lemma ReplyAborts(stack: Memory, heap: Memory, input: seq<Byte>, answers: seq<Answer>)
    requires ReadReplyResult(stack, heap, input, answers) != Pending
    ensures var header := NetLoop(Fresh(stack, 2), 0, 2, input, answers);
            var body := BodyCall(stack, heap, input, answers);
            ReadReplyResult(stack, heap, input, answers) == Aborted <==>
              || Error in Used(answers, header.answers)
              || |input| <= 2 || FromBig16(input[..2]) == 0
              || Error in Used(header.answers, body.answers)
  {
    hide NetLoop, Fresh, FromBig16, Used, Store;
    var header := NetLoop(Fresh(stack, 2), 0, 2, input, answers);
    CallEnds(Fresh(stack, 2), 2, input, answers);
    if header.ret != Some(-1) {
      HeaderEnds(Fresh(stack, 2), header, input);
      var len := FromBig16(header.buf);
      CallEnds(Fresh(heap, len), len, header.input, header.answers);
      hide Ended;
      BodyEnds(heap, len, header, BodyCall(stack, heap, input, answers));
    }
  }

  /**
    * The client is still waiting exactly while its first call is, or, once an octet of the length has
    * come without an error, its second: on an empty stream one call is all there is.
    */
  lemma ReplyPending(stack: Memory, heap: Memory, input: seq<Byte>, answers: seq<Answer>)
    ensures var header := NetLoop(Fresh(stack, 2), 0, 2, input, answers);
            ReadReplyResult(stack, heap, input, answers) == Pending <==>
              || header.ret == None
              || (input != [] && Error !in Used(answers, header.answers)
                  && BodyCall(stack, heap, input, answers).ret == None)
  {
    hide NetLoop, Fresh, FromBig16, Used, Store;
    var header := NetLoop(Fresh(stack, 2), 0, 2, input, answers);
    CallEnds(Fresh(stack, 2), 2, input, answers);
    if header.ret.Some? && header.ret != Some(-1) {
      HeaderEnds(Fresh(stack, 2), header, input);
    }
  }

  lemma BodyEnds(heap: Memory, len: nat, header: Net, body: Net)
    ensures Ended(body, Fresh(heap, len), len, header.input) ==> body.ret.Some? && body.ret.value >= 0
    ensures Ended(body, Fresh(heap, len), len, header.input) ==>
              (body.ret == Some(0) <==> len == 0 || header.input == [])
  {
  }

  /**
    * Otherwise it shows as many octets as the length says: those of the stream first, and where that
    * has ended whatever the heap held.
    */
  lemma ReplyShown(stack: Memory, heap: Memory, input: seq<Byte>, answers: seq<Answer>)
    requires ReadReplyResult(stack, heap, input, answers).Printed?
    ensures |input| > 2
    ensures var len := FromBig16(input[..2]);
            var k := Smaller(len, |input| - 2);
            ReadReplyResult(stack, heap, input, answers).data == Store(Fresh(heap, len), 0, input[2..][..k])
  {
    hide NetLoop, Fresh, FromBig16, Used, Store;
    var header := NetLoop(Fresh(stack, 2), 0, 2, input, answers);
    CallEnds(Fresh(stack, 2), 2, input, answers);
    HeaderEnds(Fresh(stack, 2), header, input);
    var len := FromBig16(header.buf);
    CallEnds(Fresh(heap, len), len, header.input, header.answers);
  }
}
