/**
  * The decoder of module Asn1 is the exact inverse of its encoder, for every grammar: it accepts an
  * octet string if and only if it starts with the encoding of a value, and it returns that value.
  * Verdicts never change when more octets arrive, so a cut encoding is always "more octets wanted".
  */
module Asn1Proofs {
  import opened Bytes
  import opened Oid
  import opened Asn1

  // Stability: an Ok or Fail verdict survives the arrival of more octets

  lemma {:induction false} ElemStable(e: Elem, s: seq<Byte>, s': seq<Byte>)
    requires s <= s' && !DecodeElem(e, s).WMore?
    ensures DecodeElem(e, s') == DecodeElem(e, s)
    decreases e, 1
  {
    match e
    case Tagged(tag, body) =>
      if s[0] == tag {
        TlvStable(body, s, s');
      }
    case Choice(tag, body, other) =>
      if s[0] == tag {
        TlvStable(body, s, s');
      } else {
        ElemStable(other, s, s');
      }
  }

  lemma {:induction false} TlvStable(b: Body, s: seq<Byte>, s': seq<Byte>)
    requires s != [] && s <= s' && !DecodeTlv(b, s).WMore?
    ensures DecodeTlv(b, s') == DecodeTlv(b, s)
    decreases b, 1
  {
    hide DecodeLength, DecodeBody;
    LengthStable(s[1..], s'[1..]);
    if DecodeLength(s[1..]).Ok? {
      var len, k := DecodeLength(s[1..]).value, DecodeLength(s[1..]).consumed;
      BodyStable(b, len, Arrived(s, 1 + k, len), Arrived(s', 1 + k, len));
    }
  }

  lemma {:induction false} BodyStable(b: Body, len: nat, s: seq<Byte>, s': seq<Byte>)
    requires s <= s' && |s'| <= len && !DecodeBody(b, len, s).WMore?
    ensures DecodeBody(b, len, s') == DecodeBody(b, len, s)
    decreases b, 0
  {
    match b
    case Primitive(_) => assert s' == s;
    case Explicit(inner) =>
      if |s| < len {
        ElemStable(inner, s, s');
      } else {
        assert s' == s;
      }
    case SequenceOf(item) => ListStable(item, len, s, s');
    case Sequence(fields) => FieldsStable(fields, len, s, s');
  }

  lemma {:induction false} ListStable(item: Elem, len: nat, s: seq<Byte>, s': seq<Byte>)
    requires s <= s' && |s'| <= len && !DecodeList(item, len, s).WMore?
    ensures DecodeList(item, len, s') == DecodeList(item, len, s)
    decreases item, 2, len
  {
    hide DecodeElem;
    if 0 < len && |s| < len {
      ElemStable(item, s, s');
      if DecodeElem(item, s).Ok? {
        var n := DecodeElem(item, s).consumed;
        ListStable(item, len - n, s[n..], s'[n..]);
      }
    } else {
      assert s' == s;
    }
  }

  lemma {:induction false} FieldsStable(f: Fields, len: nat, s: seq<Byte>, s': seq<Byte>)
    requires s <= s' && |s'| <= len && !DecodeFields(f, len, s).WMore?
    ensures DecodeFields(f, len, s') == DecodeFields(f, len, s)
    decreases f, 1
  {
    match f
    case End =>
    case Opaque => assert s' == s;
    case Extensible(known) => ExtrasStable(known, len, s, s');
    case Required(_, _) => ComponentStable(f, len, s, s');
    case Optional(e, next) =>
      if len > 0 && s[0] in FirstOctets(e) {
        ComponentStable(f, len, s, s');
      } else {
        FieldsStable(next, len, s, s');
      }
  }

  lemma {:induction false} ComponentStable(f: Fields, len: nat, s: seq<Byte>, s': seq<Byte>)
    requires f.Required? || f.Optional?
    requires s <= s' && |s'| <= len && !DecodeComponent(f, len, s).WMore?
    ensures DecodeComponent(f, len, s') == DecodeComponent(f, len, s)
    decreases f, 0
  {
    hide DecodeElem, DecodeFields;
    if |s| < len {
      ElemStable(f.elem, s, s');
      if DecodeElem(f.elem, s).Ok? {
        var n := DecodeElem(f.elem, s).consumed;
        FieldsStable(f.next, len - n, s[n..], s'[n..]);
      }
    } else {
      assert s' == s;
    }
  }

  lemma AnyStable(s: seq<Byte>, s': seq<Byte>)
    requires s <= s' && !DecodeAny(s).WMore?
    ensures DecodeAny(s') == DecodeAny(s)
  {
    hide DecodeIdentifier, DecodeLength;
    IdentifierStable(s, s');
    if DecodeIdentifier(s).Ok? {
      var i := DecodeIdentifier(s).consumed;
      LengthStable(s[i..], s'[i..]);
      if DecodeLength(s[i..]).Ok? {
        var j := i + DecodeLength(s[i..]).consumed + DecodeLength(s[i..]).value;
        assert s'[..j] == s[..j];
        var h := i + DecodeLength(s[i..]).consumed;
        assert s'[h..j] == s'[..j][h..];
        assert s[h..j] == s[..j][h..];
      }
    }
  }

  lemma {:induction false} ExtrasStable(known: set<Byte>, len: nat, s: seq<Byte>, s': seq<Byte>)
    requires s <= s' && |s'| <= len && !DecodeExtras(known, len, s).WMore?
    ensures DecodeExtras(known, len, s') == DecodeExtras(known, len, s)
    decreases len
  {
    hide DecodeAny;
    if |s| == len {
      assert s' == s;
    } else if s[0] !in known {
      AnyStable(s, s');
      if DecodeAny(s).Ok? {
        var n := DecodeAny(s).consumed;
        assert s[n..] <= s'[n..];
        ExtrasStable(known, len - n, s[n..], s'[n..]);
      }
    }
  }

  // Round trip: decoding an encoding, whatever follows it, gives the value back

  lemma {:induction false} ElemRoundTrip(e: Elem, v: Value, t: seq<Byte>)
    requires DistinctElem(e) && Encodable(e, v)
    ensures DecodeElem(e, EncodeElem(e, v) + t) == Ok(v, |EncodeElem(e, v)|)
    decreases e, 1
  {
    match e
    case Tagged(tag, body) => TlvRoundTrip(tag, body, v, t);
    case Choice(tag, body, other) =>
      if v.First? {
        TlvRoundTrip(tag, body, v.value, t);
      } else {
        ElemRoundTrip(other, v.value, t);
        assert EncodeElem(e, v) == EncodeElem(other, v.value);
      }
  }

  lemma {:induction false} TlvRoundTrip(tag: Byte, b: Body, v: Value, t: seq<Byte>)
    requires DistinctBody(b) && IsBody(b, v) && LengthFits(|EncodeBody(b, v)|)
    ensures var s := EncodeTlv(tag, EncodeBody(b, v));
            DecodeTlv(b, s + t) == Ok(v, |s|)
    decreases b, 1
  {
    hide LengthFits, DecodeLength, EncodeLength, DecodeBody, EncodeBody;
    var c := EncodeBody(b, v);
    var l := EncodeLength(|c|);
    var s := EncodeTlv(tag, c) + t;
    LengthRoundTrip(|c|, c + t);
    assert s[1..] == l + (c + t);
    assert Arrived(s, 1 + |l|, |c|) == c;
    BodyRoundTrip(b, v);
  }

  lemma {:induction false} BodyRoundTrip(b: Body, v: Value)
    requires DistinctBody(b) && IsBody(b, v) && LengthFits(|EncodeBody(b, v)|)
    ensures var s := EncodeBody(b, v);
            DecodeBody(b, |s|, s) == Ok(v, |s|)
    decreases b, 0
  {
    match b
    case Primitive(leaf) => LeafRoundTrip(leaf, v);
    case Explicit(inner) =>
      LengthFitsDown(|Contents(inner, v)|, |EncodeElem(inner, v)|);
      ElemRoundTrip(inner, v, []);
      assert EncodeBody(b, v) + [] == EncodeBody(b, v);
    case SequenceOf(item) => ListRoundTrip(item, v);
    case Sequence(fields) => FieldsRoundTrip(fields, v);
  }

  lemma {:induction false} ListRoundTrip(item: Elem, v: Value)
    requires DistinctElem(item) && IsList(item, v) && LengthFits(|EncodeList(item, v)|)
    ensures var s := EncodeList(item, v);
            DecodeList(item, |s|, s) == Ok(v, |s|)
    decreases item, 2, v
  {
    hide DecodeElem, EncodeElem, IsElem, Contents, LengthFits;
    if v.Cons? {
      var head, tail := EncodeElem(item, v.head), EncodeList(item, v.tail);
      LengthFitsDown(|Contents(item, v.head)|, |head + tail|);
      LengthFitsDown(|tail|, |head + tail|);
      ElemRoundTrip(item, v.head, tail);
      ListRoundTrip(item, v.tail);
      assert (head + tail)[|head|..] == tail;
    }
  }

  lemma {:induction false} FieldsRoundTrip(f: Fields, v: Value)
    requires DistinctFields(f) && IsFields(f, v) && LengthFits(|EncodeFields(f, v)|)
    ensures var s := EncodeFields(f, v);
            DecodeFields(f, |s|, s) == Ok(v, |s|)
    decreases f, 1
  {
    match f
    case End =>
    case Opaque =>
    case Extensible(known) => ExtrasRoundTrip(known, v);
    case Required(_, _) => ComponentRoundTrip(f, v);
    case Optional(e, next) =>
      if v.Absent? {
        FieldsRoundTrip(next, v.tail);
        StartsElsewhere(next, v.tail, FirstOctets(e));
      } else {
        ComponentRoundTrip(f, v);
      }
  }

  lemma {:induction false} ComponentRoundTrip(f: Fields, v: Value)
    requires f.Required? || f.Optional?
    requires DistinctFields(f) && IsFields(f, v) && v.Cons? && LengthFits(|EncodeFields(f, v)|)
    ensures var s := EncodeFields(f, v);
            s != [] && s[0] in FirstOctets(f.elem) && DecodeComponent(f, |s|, s) == Ok(v, |s|)
    decreases f, 0
  {
    hide DecodeElem, Contents, LengthFits;
    var head, tail := EncodeElem(f.elem, v.head), EncodeFields(f.next, v.tail);
    LengthFitsDown(|Contents(f.elem, v.head)|, |head + tail|);
    LengthFitsDown(|tail|, |head + tail|);
    ElemRoundTrip(f.elem, v.head, tail);
    FieldsRoundTrip(f.next, v.tail);
    assert EncodeFields(f, v) == head + tail;
    assert (head + tail)[|head|..] == tail;
  }

  lemma {:induction false} StartsElsewhere(f: Fields, v: Value, octets: set<Byte>)
    requires IsFields(f, v) && CannotStart(f, octets)
    ensures var s := EncodeFields(f, v);
            s == [] || s[0] !in octets
  {
    match f
    case Optional(e, next) =>
      if v.Absent? {
        StartsElsewhere(next, v.tail, octets);
      }
    case Extensible(known) =>
      if v.Extra? {
        assert EncodeFields(f, v)[0] == EncodeIdentifier(v.id)[0];
      }
    case _ =>
  }

  lemma AnyRoundTrip(id: Identifier, contents: seq<Byte>, t: seq<Byte>)
    requires ValidIdentifier(id) && LengthFits(|contents|)
    ensures DecodeAny(EncodeExtra(id, contents) + t)
         == Ok(AnyElement(id, contents), |EncodeExtra(id, contents)|)
  {
    hide DecodeIdentifier, EncodeIdentifier, DecodeLength, EncodeLength, LengthFits;
    var i, l := EncodeIdentifier(id), EncodeLength(|contents|);
    var s := EncodeExtra(id, contents) + t;
    var rest := l + (contents + t);
    IdentifierRoundTrip(id, rest);
    LengthRoundTrip(|contents|, contents + t);
    assert s == i + rest;
    assert s[|i|..] == rest;
    assert s[|i| + |l|..|i| + |l| + |contents|] == contents;
  }

  lemma {:induction false} ExtrasRoundTrip(known: set<Byte>, v: Value)
    requires IsExtras(known, v) && LengthFits(|EncodeExtras(known, v)|)
    ensures var s := EncodeExtras(known, v);
            DecodeExtras(known, |s|, s) == Ok(v, |s|)
    decreases v
  {
    hide DecodeAny, EncodeExtra;
    if v.Extra? {
      var head, tail := EncodeExtra(v.id, v.contents), EncodeExtras(known, v.tail);
      LengthFitsDown(|v.contents|, |head + tail|);
      LengthFitsDown(|tail|, |head + tail|);
      AnyRoundTrip(v.id, v.contents, tail);
      ExtrasRoundTrip(known, v.tail);
      assert (head + tail)[|head|..] == tail;
    }
  }

  // Canonicity: whatever is accepted is the encoding of the value returned

  lemma {:induction false} ElemCanonical(e: Elem, s: seq<Byte>)
    requires DecodeElem(e, s).Ok?
    ensures var r := DecodeElem(e, s);
            Encodable(e, r.value) && EncodeElem(e, r.value) == s[..r.consumed]
    decreases e, 1
  {
    match e
    case Tagged(tag, body) => TlvCanonical(tag, body, s);
    case Choice(tag, body, other) =>
      if s[0] == tag {
        TlvCanonical(tag, body, s);
      } else {
        ElemCanonical(other, s);
      }
  }

  lemma {:induction false} TlvCanonical(tag: Byte, b: Body, s: seq<Byte>)
    requires s != [] && s[0] == tag && DecodeTlv(b, s).Ok?
    ensures var r := DecodeTlv(b, s);
            && IsBody(b, r.value)
            && LengthFits(|EncodeBody(b, r.value)|)
            && EncodeTlv(tag, EncodeBody(b, r.value)) == s[..r.consumed]
    decreases b, 1
  {
    hide LengthFits, DecodeLength, EncodeLength, DecodeBody, EncodeBody;
    LengthCanonical(s[1..]);
    var len, k := DecodeLength(s[1..]).value, DecodeLength(s[1..]).consumed;
    var c := Arrived(s, 1 + k, len);
    BodyCanonical(b, len, c);
    TlvSplit(s, k, len);
  }

  lemma TlvSplit(s: seq<Byte>, k: nat, len: nat)
    requires 1 + k + len <= |s|
    ensures s[..1 + k + len] == [s[0]] + s[1..][..k] + Arrived(s, 1 + k, len)
  {
  }

  lemma {:induction false} BodyCanonical(b: Body, len: nat, s: seq<Byte>)
    requires |s| <= len && DecodeBody(b, len, s).Ok?
    ensures var v := DecodeBody(b, len, s).value;
            IsBody(b, v) && EncodeBody(b, v) == s
    decreases b, 0
  {
    match b
    case Primitive(leaf) => LeafCanonical(leaf, s);
    case Explicit(inner) =>
      ElemCanonical(inner, s);
      assert s[..len] == s;
    case SequenceOf(item) => ListCanonical(item, len, s);
    case Sequence(fields) => FieldsCanonical(fields, len, s);
  }

  lemma {:induction false} ListCanonical(item: Elem, len: nat, s: seq<Byte>)
    requires |s| <= len && DecodeList(item, len, s).Ok?
    ensures var v := DecodeList(item, len, s).value;
            IsList(item, v) && EncodeList(item, v) == s
    decreases item, 2, len
  {
    hide DecodeElem, EncodeElem, IsElem, Contents;
    if len > 0 {
      ElemCanonical(item, s);
      var n := DecodeElem(item, s).consumed;
      ListCanonical(item, len - n, s[n..]);
      assert s == s[..n] + s[n..];
    }
  }

  lemma {:induction false} FieldsCanonical(f: Fields, len: nat, s: seq<Byte>)
    requires |s| <= len && DecodeFields(f, len, s).Ok?
    ensures var v := DecodeFields(f, len, s).value;
            IsFields(f, v) && EncodeFields(f, v) == s
    decreases f, 1
  {
    match f
    case End =>
    case Opaque =>
    case Extensible(known) => ExtrasCanonical(known, len, s);
    case Required(_, _) => ComponentCanonical(f, len, s);
    case Optional(e, next) =>
      if len > 0 && s[0] in FirstOctets(e) {
        ComponentCanonical(f, len, s);
      } else {
        FieldsCanonical(next, len, s);
      }
  }

  lemma {:induction false} ComponentCanonical(f: Fields, len: nat, s: seq<Byte>)
    requires f.Required? || f.Optional?
    requires |s| <= len && DecodeComponent(f, len, s).Ok?
    ensures var v := DecodeComponent(f, len, s).value;
            v.Cons? && IsFields(f, v) && EncodeFields(f, v) == s
    decreases f, 0
  {
    hide DecodeElem, DecodeFields, Contents;
    ElemCanonical(f.elem, s);
    var n := DecodeElem(f.elem, s).consumed;
    FieldsCanonical(f.next, len - n, s[n..]);
    assert s == s[..n] + s[n..];
  }

  lemma AnyCanonical(s: seq<Byte>)
    requires DecodeAny(s).Ok?
    ensures var r := DecodeAny(s);
            && ValidIdentifier(r.value.id)
            && LengthFits(|r.value.contents|)
            && EncodeExtra(r.value.id, r.value.contents) == s[..r.consumed]
            && EncodeIdentifier(r.value.id)[0] == s[0]
  {
    hide DecodeIdentifier, EncodeIdentifier, DecodeLength, EncodeLength, LengthFits;
    IdentifierCanonical(s);
    var i := DecodeIdentifier(s).consumed;
    LengthCanonical(s[i..]);
    var len, k := DecodeLength(s[i..]).value, DecodeLength(s[i..]).consumed;
    assert s[..i + k + len] == s[..i] + s[i..][..k] + s[i + k..i + k + len];
  }

  lemma {:induction false} ExtrasCanonical(known: set<Byte>, len: nat, s: seq<Byte>)
    requires |s| <= len && DecodeExtras(known, len, s).Ok?
    ensures var v := DecodeExtras(known, len, s).value;
            IsExtras(known, v) && EncodeExtras(known, v) == s
    decreases len
  {
    hide DecodeAny, EncodeExtra;
    if len > 0 {
      AnyCanonical(s);
      var n := DecodeAny(s).consumed;
      ExtrasCanonical(known, len - n, s[n..]);
      assert s == s[..n] + s[n..];
    }
  }

  // Consequences

  /** The decoder accepts s with value v exactly when s starts with the encoding of v. */
  lemma DecodeIffEncoded(e: Elem, s: seq<Byte>, v: Value, n: nat)
    requires DistinctElem(e)
    ensures DecodeElem(e, s) == Ok(v, n) <==> Encodable(e, v) && n <= |s| && EncodeElem(e, v) == s[..n]
  {
    hide DecodeElem, EncodeElem;
    if DecodeElem(e, s) == Ok(v, n) {
      ElemCanonical(e, s);
    }
    if Encodable(e, v) && n <= |s| && EncodeElem(e, v) == s[..n] {
      ElemRoundTrip(e, v, s[n..]);
      assert s == s[..n] + s[n..];
    }
  }

  /** Every strict prefix of an encoding asks for more octets. */
  lemma PrefixWantsMore(e: Elem, v: Value, k: nat)
    requires DistinctElem(e) && Encodable(e, v) && k < |EncodeElem(e, v)|
    ensures DecodeElem(e, EncodeElem(e, v)[..k]) == WMore
  {
    var s := EncodeElem(e, v);
    ElemRoundTrip(e, v, []);
    assert s + [] == s;
    if !DecodeElem(e, s[..k]).WMore? {
      ElemStable(e, s[..k], s);
    }
  }
}
