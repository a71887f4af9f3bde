/** The hex dump that decoder.c prints, and reading it back. */
module HexDump {
  import opened Bytes
  import opened Wrappers

  const DIGITS := "0123456789abcdef"

  /** printf("%02x ", b) */
  function Hex(b: Byte): (s: string)
    ensures |s| == 3
  {
    [DIGITS[b / 16], DIGITS[b % 16], ' ']
  }

  function Row(bytes: seq<Byte>): (s: string)
    ensures |s| == 3 * |bytes|
  {
    if bytes == [] then "" else Hex(bytes[0]) + Row(bytes[1..])
  }

  /** Rows of sixteen, then one last row of the remaining bytes, possibly none. */
  function Dump(bytes: seq<Byte>): (s: string) {
    if |bytes| < 16 then Row(bytes) + "\n" else Row(bytes[..16]) + "\n" + Dump(bytes[16..])
  }

  // Reading a dump

  function HexValue(c: char): (v: Option<nat>)
    ensures v.Some? ==> v.value < 16
  {
    if '0' <= c <= '9' then Some(c as nat - '0' as nat)
    else if 'a' <= c <= 'f' then Some(c as nat - 'a' as nat + 10)
    else None
  }

  function ReadDump(s: string): (r: Option<seq<Byte>>) {
    if s == "" then Some([])
    else if s[0] == '\n' then ReadDump(s[1..])
    else if |s| < 3 || HexValue(s[0]).None? || HexValue(s[1]).None? || s[2] != ' ' then None
    else
      match ReadDump(s[3..])
      case None => None
      case Some(rest) => Some([16 * HexValue(s[0]).value + HexValue(s[1]).value] + rest)
  }

  /** The lines of a text, the newline that ends each one removed. */
  function Lines(s: string): (r: seq<string>)
    ensures r != []
  {
    if s == "" then [""]
    else if s[0] == '\n' then [""] + Lines(s[1..])
    else
      var rest := Lines(s[1..]);
      [[s[0]] + rest[0]] + rest[1..]
  }

  // Rows

  lemma HexReads(b: Byte)
    ensures var s := Hex(b);
            && s[0] != '\n' && s[1] != '\n' && s == [s[0], s[1], ' ']
            && HexValue(s[0]) == Some(b / 16) && HexValue(s[1]) == Some(b % 16)
  {
    forall d | 0 <= d < 16
      ensures DIGITS[d] != '\n' && HexValue(DIGITS[d]) == Some(d)
    {
    }
  }

  lemma ReadThree(hi: char, lo: char, rest: string)
    requires hi != '\n' && HexValue(hi).Some? && HexValue(lo).Some? && ReadDump(rest).Some?
    ensures ReadDump([hi, lo, ' '] + rest)
         == Some([16 * HexValue(hi).value + HexValue(lo).value] + ReadDump(rest).value)
  {
    hide HexValue;
    var s := [hi, lo, ' '] + rest;
    assert s[3..] == rest;
  }

  lemma ReadByte(b: Byte, rest: string)
    requires ReadDump(rest).Some?
    ensures ReadDump(Hex(b) + rest) == Some([b] + ReadDump(rest).value)
  {
    HexReads(b);
    hide Hex;
    ReadThree(Hex(b)[0], Hex(b)[1], rest);
    hide HexValue, ReadDump;
    assert b == 16 * (b / 16) + b % 16;
  }

  lemma {:induction false} RowReads(bytes: seq<Byte>, tail: string)
    requires ReadDump(tail).Some?
    ensures ReadDump(Row(bytes) + tail) == Some(bytes + ReadDump(tail).value)
  {
    hide ReadDump, Hex;
    if bytes == [] {
      assert Row(bytes) + tail == tail;
      assert bytes + ReadDump(tail).value == ReadDump(tail).value;
    } else {
      RowReads(bytes[1..], tail);
      assert Row(bytes) + tail == Hex(bytes[0]) + (Row(bytes[1..]) + tail);
      ReadByte(bytes[0], Row(bytes[1..]) + tail);
      assert bytes + ReadDump(tail).value == [bytes[0]] + (bytes[1..] + ReadDump(tail).value);
    }
  }

  lemma {:induction false} LineFirst(line: string, tail: string)
    requires '\n' !in line
    ensures Lines(line + "\n" + tail) == [line] + Lines(tail)
  {
    var s := line + "\n" + tail;
    if line == "" {
      assert s[1..] == tail;
    } else {
      LineFirst(line[1..], tail);
      assert s[1..] == line[1..] + "\n" + tail;
      assert line == [line[0]] + line[1..];
    }
  }

  lemma {:induction false} RowOneLine(bytes: seq<Byte>)
    ensures '\n' !in Row(bytes)
  {
    if bytes != [] {
      RowOneLine(bytes[1..]);
      HexReads(bytes[0]);
    }
  }

  /** Reading a dump gives back the bytes dumped. */
  lemma {:induction false} DumpReadsBack(bytes: seq<Byte>)
    ensures ReadDump(Dump(bytes)) == Some(bytes)
    decreases |bytes|
  {
    var head, tail := bytes, "";
    if |bytes| >= 16 {
      head, tail := bytes[..16], Dump(bytes[16..]);
      DumpReadsBack(bytes[16..]);
      assert head + bytes[16..] == bytes;
    }
    assert ("\n" + tail)[1..] == tail;
    assert tail == "" ==> ReadDump(tail) == Some([]);
    assert ReadDump("\n" + tail) == ReadDump(tail);
    RowReads(head, "\n" + tail);
    assert Dump(bytes) == Row(head) + "\n" + tail == Row(head) + ("\n" + tail);
    assert head + ReadDump(tail).value == bytes;
  }

  /** The dump has size / 16 + 1 rows, of sixteen bytes each but the last. */
  lemma {:induction false} DumpRows(bytes: seq<Byte>)
    ensures var rows := Lines(Dump(bytes));
            && |rows| == |bytes| / 16 + 2 // the text after the last newline is empty
            && (forall k :: 0 <= k < |bytes| / 16 ==> |rows[k]| == 3 * 16)
            && |rows[|bytes| / 16]| == 3 * (|bytes| % 16)
            && rows[|bytes| / 16 + 1] == ""
    decreases |bytes|
  {
    if |bytes| < 16 {
      RowOneLine(bytes);
      LineFirst(Row(bytes), "");
      assert Dump(bytes) == Row(bytes) + "\n" + "";
    } else {
      RowOneLine(bytes[..16]);
      LineFirst(Row(bytes[..16]), Dump(bytes[16..]));
      DumpRows(bytes[16..]);
    }
  }

  // print_bytes

  lemma RowAppend(bytes: seq<Byte>, b: Byte)
    ensures Row(bytes + [b]) == Row(bytes) + Hex(b)
  {
    hide Hex;
    if bytes == [] {
      assert bytes + [b] == [b];
      assert Row([b]) == Hex(b) + Row([]);
    } else {
      RowAppend(bytes[1..], b);
      assert (bytes + [b])[1..] == bytes[1..] + [b];
    }
  }

  /** One step of the outer loop: the row of the first sixteen bytes, or the last row. */
  lemma DumpStep(rest: seq<Byte>, row: seq<Byte>)
    requires row == if |rest| >= 16 then rest[..16] else rest
    ensures Dump(rest) == Row(row) + "\n" + (if |rest| >= 16 then Dump(rest[16..]) else "")
  {
  }

  lemma RowGrows(bytes: seq<Byte>, i: nat, j: nat)
    requires i <= j < |bytes|
    ensures Row(bytes[i..j + 1]) == Row(bytes[i..j]) + Hex(bytes[j])
  {
    RowAppend(bytes[i..j], bytes[j]);
    assert bytes[i..j] + [bytes[j]] == bytes[i..j + 1];
  }

  lemma SliceOfSlice(bytes: seq<Byte>, i: nat, j: nat)
    requires i <= j <= |bytes|
    ensures bytes[i..][..j - i] == bytes[i..j] && bytes[i..][j - i..] == bytes[j..]
    ensures j == |bytes| ==> bytes[i..j] == bytes[i..]
  {
  }

  /** The row that starts at i, and the rows behind it. */
  lemma DumpFrom(bytes: seq<Byte>, i: nat, j: nat)
    requires i <= j <= |bytes| && j == if i + 16 <= |bytes| then i + 16 else |bytes|
    ensures Dump(bytes[i..])
         == Row(bytes[i..j]) + "\n" + if i + 16 <= |bytes| then Dump(bytes[j..]) else ""
  {
    hide Dump, Row;
    SliceOfSlice(bytes, i, j);
    if i + 16 <= |bytes| {
      DumpStep(bytes[i..], bytes[i..j]);
    } else {
      DumpStep(bytes[i..], bytes[i..]);
    }
  }

  /** Each index once, from 0 on. */
  predicate InOrder(visited: seq<nat>) {
    forall k :: 0 <= k < |visited| ==> visited[k] == k
  }

  lemma InOrderFrom()
    ensures InOrder([])
  {
  }

  lemma InOrderOn(visited: seq<nat>)
    requires InOrder(visited)
    ensures InOrder(visited + [|visited|])
  {
  }

  lemma Regroup(a: string, b: string, c: string)
    ensures a + (b + "\n" + c) == a + b + "\n" + c
  {
  }

  /** How many bytes go on the line when `size` are left. */
  function OnLine(size: nat): nat {
    if size >= 16 then 16 else size
  }

  /** The lines before line i are out: what is missing is the dump of the rest. */
  predicate Printed(buff: seq<Byte>, i: nat, out: string) {
    Dump(buff) == out + if 16 * i <= |buff| then Dump(buff[16 * i..]) else ""
  }

  lemma NothingPrinted(buff: seq<Byte>)
    ensures Printed(buff, 0, "")
  {
    hide Dump;
    assert buff[0..] == buff;
  }

  lemma LinePrinted(buff: seq<Byte>, i: nat, out: string)
    requires 16 * i <= |buff| && Printed(buff, i, out)
    ensures Printed(buff, i + 1, out + Row(buff[16 * i..16 * i + OnLine(|buff| - 16 * i)]) + "\n")
  {
    hide Dump, Row;
    var j := 16 * i + OnLine(|buff| - 16 * i);
    DumpFrom(buff, 16 * i, j);
    Regroup(out, Row(buff[16 * i..j]), if 16 * (i + 1) <= |buff| then Dump(buff[j..]) else "");
  }

  /** decoder.c, print_bytes: the inner loop, one line. */
  method PrintLine(buff: seq<Byte>, i: nat, size: nat, before: seq<nat>) returns (line: string, visited: seq<nat>)
    requires size + 16 * i == |buff| && |before| == 16 * i && InOrder(before)
    ensures line == Row(buff[16 * i..16 * i + OnLine(size)])
    ensures |visited| == 16 * i + OnLine(size) && InOrder(visited)
  {
    hide Row, Hex, InOrder;
    line, visited := "", before;
    var j := 0;
    assert Row(buff[16 * i..16 * i]) == "";
    while j < (if size >= 16 then 16 else size)
      invariant 0 <= j <= OnLine(size)
      invariant line == Row(buff[16 * i..16 * i + j])
      invariant |visited| == 16 * i + j && InOrder(visited)
    {
      InOrderOn(visited);
      RowGrows(buff, 16 * i, 16 * i + j);
      line := line + Hex(buff[i * 16 + j]);
      visited := visited + [i * 16 + j];
      j := j + 1;
    }
  }

  /** decoder.c, print_bytes: `visited` lists the indices read, in the order of reading. */
  method PrintBytes(buff: seq<Byte>) returns (out: string, visited: seq<nat>)
    ensures out == Dump(buff)
    ensures |visited| == |buff| && InOrder(visited)
  {
    hide Row, Dump, InOrder, Printed;
    out, visited := "", [];
    InOrderFrom();
    NothingPrinted(buff);
    var size: int := |buff|;
    var lines := size / 16 + 1;
    var i := 0;
    while i < lines
      invariant 0 <= i <= lines && size == |buff| - 16 * i
      invariant Printed(buff, i, out)
      invariant |visited| == (if i < lines then 16 * i else |buff|) && InOrder(visited)
    {
      var line;
      line, visited := PrintLine(buff, i, size, visited);
      LinePrinted(buff, i, out);
      out := out + line + "\n";
      size := size - 16;
      i := i + 1;
    }
    AllPrinted(buff, i, out);
  }

  lemma AllPrinted(buff: seq<Byte>, i: nat, out: string)
    requires Printed(buff, i, out) && 16 * i > |buff|
    ensures out == Dump(buff)
  {
    hide Dump;
  }

  /** Lower-case digits, the high one first, a blank behind each byte, a line break behind each row. */
  lemma KnownDump()
    ensures Dump([]) == "\n" && Dump([0x00, 0x7F, 0xA9, 0xFE]) == "00 7f a9 fe \n"
  {
    assert Row([0xFE]) == Hex(0xFE) + "" == "fe ";
    assert Row([0xA9, 0xFE]) == "a9 fe ";
    assert Row([0x7F, 0xA9, 0xFE]) == "7f a9 fe ";
    assert Row([0x00, 0x7F, 0xA9, 0xFE]) == "00 7f a9 fe ";
  }
}
