/**
  * When the decoder answers "more octets wanted" and when it fails: by the first octet, the length
  * octets and how much of the announced contents has come.
  */
module Verdicts {
  import opened Bytes
  import opened Oid
  import opened Wrappers
  import opened Asn1
  import opened Asn1Proofs
  import opened Tokens

  // Identifiers

  /** Every subidentifier ends, and none starts with a zero digit. */
  predicate WellFormed(s: seq<Byte>) {
    && s != [] && s[0] != 128 && s[|s| - 1] < 128
    && forall i :: 0 < i < |s| && s[i - 1] < 128 ==> s[i] != 128
  }

  lemma {:induction false} ArcsAccepted(s: seq<Byte>)
    ensures DecodeArcs(s).Some? <==> s == [] || WellFormed(s)
    decreases |s|
  {
    if s != [] && s[0] != 128 && Terminator(s) < |s| {
      var k := Terminator(s) + 1;
      ArcsAccepted(s[k..]);
      WellFormedTail(s, k);
    } else if s != [] {
      BadStartOrEnd(s);
    }
  }

  lemma BadStartOrEnd(s: seq<Byte>)
    requires s != [] && (s[0] == 128 || s[|s| - 1] >= 128)
    ensures !WellFormed(s)
  {
  }

  lemma WellFormedTail(s: seq<Byte>, k: nat)
    requires 0 < k <= |s| && s[0] != 128 && s[k - 1] < 128 && forall i :: 0 <= i < k - 1 ==> s[i] >= 128
    ensures WellFormed(s) <==> s[k..] == [] || WellFormed(s[k..])
  {
    var t := s[k..];
    if t != [] {
      assert t[|t| - 1] == s[|s| - 1];
      if WellFormed(s) {
        assert t[0] == s[k];
        forall i | 0 < i < |t| && t[i - 1] < 128
          ensures t[i] != 128
        {
          assert s[k + i] == t[i] && s[k + i - 1] < 128;
        }
      }
      if WellFormed(t) {
        forall i | 0 < i < |s| && s[i - 1] < 128
          ensures s[i] != 128
        {
          assert i >= k;
          assert t[i - k] == s[i];
        }
      }
    }
  }

  /** All contents in base 128 are identifiers, and nothing else is. */
  lemma OidAccepted(s: seq<Byte>)
    ensures DecodeOid(s).Some? <==> WellFormed(s)
  {
    ArcsAccepted(s);
    assert DecodeArcs([]) == Some([]);
    if s != [] && DecodeArcs(s).Some? {
      DecodeArcsCons(s);
    }
  }

  // Lengths

  /** Length octets that DER never uses: indefinite, reserved, or longer than necessary. */
  predicate BadLength(s: seq<Byte>) {
    && s != []
    && (s[0] == 0x80 || s[0] == 0xFF || (s[0] > 0x80 && |s| > 1 && (s[1] == 0 || (s[0] == 0x81 && s[1] < 0x80))))
  }

  /** The length octets are cut: a count in the first octet, and fewer than that behind it. */
  predicate CutLength(s: seq<Byte>) {
    s == [] || (s[0] > 0x80 && |s| - 1 < s[0] - 0x80)
  }

  lemma LengthVerdict(s: seq<Byte>)
    ensures DecodeLength(s).Fail? <==> BadLength(s)
    ensures DecodeLength(s).WMore? <==> CutLength(s) && !BadLength(s)
  {
  }

  /** 127 octets are always enough to tell the length. */
  lemma LengthTold(s: seq<Byte>)
    requires |s| >= 127
    ensures !DecodeLength(s).WMore?
  {
  }

  // Elements

  /** The identifier octet, the length octets and all the contents have come. */
  predicate Complete(s: seq<Byte>) {
    && s != [] && DecodeLength(s[1..]).Ok?
    && |s| >= 1 + DecodeLength(s[1..]).consumed + DecodeLength(s[1..]).value
  }

  /**
    * A wrong first octet and bad length octets fail at once. While octets of the element are missing
    * it is never accepted; once they are all there no more are wanted.
    */
  lemma {:induction false} ElemVerdict(e: Elem, s: seq<Byte>)
    ensures s == [] ==> DecodeElem(e, s) == WMore
    ensures s != [] && s[0] !in FirstOctets(e) ==> DecodeElem(e, s) == Fail
    ensures s != [] && BadLength(s[1..]) ==> DecodeElem(e, s) == Fail
    ensures s != [] && s[0] in FirstOctets(e) && CutLength(s[1..]) && !BadLength(s[1..]) ==> DecodeElem(e, s) == WMore
    ensures Complete(s) ==> !DecodeElem(e, s).WMore?
    ensures !Complete(s) ==> !DecodeElem(e, s).Ok?
    decreases e
  {
    if s != [] {
      LengthVerdict(s[1..]);
      hide DecodeLength, BadLength, CutLength;
      match e
      case Tagged(_, body) => TlvVerdict(body, s);
      case Choice(_, body, other) =>
        TlvVerdict(body, s);
        ElemVerdict(other, s);
    }
  }

  lemma TlvVerdict(b: Body, s: seq<Byte>)
    requires s != []
    ensures DecodeLength(s[1..]).Fail? ==> DecodeTlv(b, s) == Fail
    ensures DecodeLength(s[1..]).WMore? ==> DecodeTlv(b, s) == WMore
    ensures Complete(s) ==> !DecodeTlv(b, s).WMore?
    ensures !Complete(s) ==> !DecodeTlv(b, s).Ok?
  {
    hide DecodeLength, DecodeBody;
  }

  /** A complete element fails exactly when its octets start with no encoding of any value. */
  lemma FailsIffNoValue(e: Elem, s: seq<Byte>)
    requires DistinctElem(e) && Complete(s)
    ensures DecodeElem(e, s) == Fail <==> !exists v :: Encodable(e, v) && EncodeElem(e, v) <= s
  {
    ElemVerdict(e, s);
    hide DecodeElem, DistinctElem, EncodeElem, IsElem;
    if DecodeElem(e, s).Ok? {
      var v := DecodeElem(e, s).value;
      DecodeIffEncoded(e, s, v, DecodeElem(e, s).consumed);
      assert Encodable(e, v) && EncodeElem(e, v) <= s;
    } else if exists v :: Encodable(e, v) && EncodeElem(e, v) <= s {
      var v :| Encodable(e, v) && EncodeElem(e, v) <= s;
      DecodeIffEncoded(e, s, v, |EncodeElem(e, v)|);
    }
  }

  /**
    * No octet string asks for more for ever: after 128 octets a number is known with which the
    * verdict falls, whatever the octets still to come.
    */
  lemma EventuallyDecided(e: Elem, s: seq<Byte>) returns (n: nat)
    requires |s| >= 128
    ensures forall s' :: s <= s' && |s'| >= n ==> !DecodeElem(e, s').WMore?
  {
    LengthTold(s[1..]);
    n := if DecodeLength(s[1..]).Ok? then 1 + DecodeLength(s[1..]).consumed + DecodeLength(s[1..]).value else 0;
    forall s' | s <= s' && |s'| >= n
      ensures !DecodeElem(e, s').WMore?
    {
      LengthStable(s[1..], s'[1..]);
      LengthVerdict(s'[1..]);
      hide DecodeLength, DecodeElem;
      ElemVerdict(e, s');
    }
  }

  // What has come of the contents is judged at once

  /** The contents of an element that have come. */
  function Come(s: seq<Byte>): seq<Byte>
    requires s != [] && DecodeLength(s[1..]).Ok?
  {
    Arrived(s, 1 + DecodeLength(s[1..]).consumed, DecodeLength(s[1..]).value)
  }

  lemma InnerFails(tag: Byte, inner: Elem, s: seq<Byte>)
    requires s != [] && DecodeLength(s[1..]).Ok? && DecodeElem(inner, Come(s)).Fail?
    ensures DecodeElem(Tagged(tag, Explicit(inner)), s) == Fail
  {
    hide DecodeLength;
    assert DecodeBody(Explicit(inner), DecodeLength(s[1..]).value, Come(s)) == Fail;
  }

  /** The first item of a list, and behind each item the next. */
  lemma ListFails(item: Elem, len: nat, s: seq<Byte>)
    requires |s| <= len && len > 0
    ensures DecodeElem(item, s).Fail? ==> DecodeList(item, len, s) == Fail
    ensures DecodeElem(item, s).Ok?
              && DecodeList(item, len - DecodeElem(item, s).consumed, s[DecodeElem(item, s).consumed..]).Fail?
            ==> DecodeList(item, len, s) == Fail
  {
  }

  lemma ComponentFails(f: Fields, len: nat, s: seq<Byte>)
    requires (f.Required? || f.Optional?) && |s| <= len && len > 0
    ensures f.Required? && DecodeElem(f.elem, s).Fail? ==> DecodeFields(f, len, s) == Fail
    ensures f.Optional? && s != [] && s[0] in FirstOctets(f.elem) && DecodeElem(f.elem, s).Fail? ==>
              DecodeFields(f, len, s) == Fail
    ensures f.Optional? && s != [] && s[0] !in FirstOctets(f.elem) && DecodeFields(f.next, len, s).Fail? ==>
              DecodeFields(f, len, s) == Fail
  {
  }

  // Whole tokens

  /** SPNEGO tokens start with 0xA0 or 0xA1, and the SEQUENCE inside with 0x30: anything else fails at once. */
  lemma NegotiationVerdict(s: seq<Byte>)
    ensures s == [] ==> DecodeNegotiation(s) == WMore
    ensures s != [] && s[0] != 0xA0 && s[0] != 0xA1 ==> DecodeNegotiation(s) == Fail
    ensures s != [] && BadLength(s[1..]) ==> DecodeNegotiation(s) == Fail
    ensures s != [] && s[0] in {0xA0, 0xA1} && CutLength(s[1..]) && !BadLength(s[1..]) ==> DecodeNegotiation(s) == WMore
    ensures Complete(s) ==> !DecodeNegotiation(s).WMore?
    ensures !Complete(s) ==> !DecodeNegotiation(s).Ok?
    ensures |s| >= 3 && 0 < s[1] < 0x80 && s[2] != 0x30 ==> DecodeNegotiation(s) == Fail
  {
    ElemVerdict(NEGOTIATION_TOKEN, s);
    assert FirstOctets(NEGOTIATION_TOKEN) == {0xA0, 0xA1};
    if |s| >= 3 && 0 < s[1] < 0x80 && s[2] != 0x30 {
      assert DecodeLength(s[1..]) == Ok(s[1], 1);
      assert Come(s)[0] == s[2];
      NotASequence(s);
    }
  }

  lemma NotASequence(s: seq<Byte>)
    requires s != [] && DecodeLength(s[1..]).Ok? && Come(s) != [] && Come(s)[0] != 0x30
    ensures DecodeElem(NEGOTIATION_TOKEN, s) == Fail
  {
    hide DecodeLength, DecodeFields;
    var init, resp := Tagged(0x30, Sequence(INIT_FIELDS)), Tagged(0x30, Sequence(RESP_FIELDS));
    assert DecodeElem(init, Come(s)) == Fail && DecodeElem(resp, Come(s)) == Fail;
    InnerFails(0xA0, init, s);
    InnerFails(0xA1, resp, s);
  }

  /** Initial tokens start with 0x60. */
  lemma InitialContextVerdict(s: seq<Byte>)
    ensures s == [] ==> DecodeInitialContext(s) == WMore
    ensures s != [] && s[0] != 0x60 ==> DecodeInitialContext(s) == Fail
    ensures s != [] && BadLength(s[1..]) ==> DecodeInitialContext(s) == Fail
    ensures s != [] && s[0] == 0x60 && CutLength(s[1..]) && !BadLength(s[1..]) ==> DecodeInitialContext(s) == WMore
    ensures Complete(s) ==> !DecodeInitialContext(s).WMore?
    ensures !Complete(s) ==> !DecodeInitialContext(s).Ok?
  {
    ElemVerdict(INITIAL_CONTEXT_TOKEN, s);
  }
}
