/** What the DER reading of gssapi.asn1 promises, for whole tokens. */
module TokenProofs {
  import opened Bytes
  import opened Oid
  import opened Wrappers
  import opened Asn1
  import opened Asn1Proofs
  import opened Tokens

  /** No two alternatives and no two optional components of the grammar start with the same octet. */
  lemma GrammarDistinct()
    ensures DistinctElem(NEGOTIATION_TOKEN) && DistinctElem(INITIAL_CONTEXT_TOKEN)
  {
    DistinctExplicit(0xA2, OCTETS);
    DistinctExplicit(0xA3, OCTETS);
    DistinctExplicit(0xA1, CONTEXT_FLAGS);
    DistinctExplicit(0xA0, NEG_STATE);
    DistinctExplicit(0xA1, MECH_TYPE);
    assert DistinctBody(SequenceOf(MECH_TYPE)) == DistinctElem(MECH_TYPE) == DistinctBody(Primitive(ObjectId)) == true;
    DistinctExplicit(0xA0, MECH_TYPE_LIST);
    assert DistinctFields(Optional(Tagged(0xA3, Explicit(OCTETS)), Extensible(KNOWN)));
    assert DistinctFields(INIT_TAIL);
    assert DistinctFields(INIT_FIELDS) && DistinctFields(RESP_FIELDS);
    DistinctSequence(INIT_FIELDS);
    DistinctSequence(RESP_FIELDS);
    DistinctExplicit(0xA1, Tagged(0x30, Sequence(RESP_FIELDS)));
    assert DistinctBody(Sequence(Required(MECH_TYPE, Opaque)));
  }

  lemma DistinctExplicit(tag: Byte, e: Elem)
    ensures DistinctElem(Tagged(tag, Explicit(e))) == DistinctBody(Explicit(e)) == DistinctElem(e)
  {
  }

  lemma DistinctSequence(f: Fields)
    ensures DistinctElem(Tagged(0x30, Sequence(f))) == DistinctBody(Sequence(f)) == DistinctFields(f)
  {
  }

  // NegotiationToken

  /** Decoding an encoding gives the token back, whatever extension elements it carries and whatever follows. */
  lemma NegotiationRoundTrip(t: NegotiationToken, extras: seq<AnyElement>, rest: seq<Byte>)
    requires NegotiationEncodable(t, extras)
    ensures var s := EncodeNegotiation(t, extras);
            DecodeNegotiation(s + rest) == Ok(t, |s|)
  {
    hide DecodeElem, IsElem, DistinctElem, Contents, EncodeElem;
    GrammarDistinct();
    var v := NegotiationValue(t, extras);
    ElemRoundTrip(NEGOTIATION_TOKEN, v, rest);
    NegotiationTyped(t, extras);
  }

  /** Exactly the encodings are accepted: of the token returned, with some extension elements. */
  lemma NegotiationAccepts(s: seq<Byte>, t: NegotiationToken, n: nat)
    ensures DecodeNegotiation(s) == Ok(t, n) <==>
            n <= |s| && exists extras :: NegotiationEncodable(t, extras) && EncodeNegotiation(t, extras) == s[..n]
  {
    hide DecodeElem, IsElem, DistinctElem, Contents, EncodeElem;
    if DecodeNegotiation(s) == Ok(t, n) {
      ElemCanonical(NEGOTIATION_TOKEN, s);
      var v := DecodeElem(NEGOTIATION_TOKEN, s).value;
      NegotiationIsShape(v);
      NegotiationOfTyped(v);
      var extras := NegotiationOf(v).1;
      assert NegotiationEncodable(t, extras) && EncodeNegotiation(t, extras) == s[..n];
    }
    if n <= |s| && exists extras :: NegotiationEncodable(t, extras) && EncodeNegotiation(t, extras) == s[..n] {
      var extras :| NegotiationEncodable(t, extras) && EncodeNegotiation(t, extras) == s[..n];
      NegotiationRoundTrip(t, extras, s[n..]);
      assert s == s[..n] + s[n..];
    }
  }

  /** The octets that are accepted and hold no extension element. */
  predicate ExtensionFree(s: seq<Byte>) {
    match DecodeElem(NEGOTIATION_TOKEN, s)
    case Ok(v, n) =>
      ElemCanonical(NEGOTIATION_TOKEN, s);
      NegotiationIsShape(v);
      NegotiationOf(v).1 == []
    case _ => false
  }

  /** Without extension elements there is one encoding of each token: the encoder's. */
  lemma NegotiationCanonical(s: seq<Byte>, s': seq<Byte>)
    requires ExtensionFree(s) && ExtensionFree(s')
    ensures var r := DecodeNegotiation(s);
            && NegotiationEncodable(r.value, [])
            && s[..r.consumed] == EncodeNegotiation(r.value, [])
    ensures var r, r' := DecodeNegotiation(s), DecodeNegotiation(s');
            r.value == r'.value ==> s[..r.consumed] == s'[..r'.consumed]
  {
    hide DecodeElem, IsElem, DistinctElem, Contents, EncodeElem;
    forall x | x == s || x == s'
      ensures var r := DecodeNegotiation(x);
              NegotiationEncodable(r.value, []) && x[..r.consumed] == EncodeNegotiation(r.value, [])
    {
      ElemCanonical(NEGOTIATION_TOKEN, x);
      var v := DecodeElem(NEGOTIATION_TOKEN, x).value;
      NegotiationIsShape(v);
      NegotiationOfTyped(v);
    }
  }

  /** OK and FAIL are final: no octets that arrive later change them. */
  lemma NegotiationStable(s: seq<Byte>, s': seq<Byte>)
    requires s <= s' && !DecodeNegotiation(s).WMore?
    ensures DecodeNegotiation(s') == DecodeNegotiation(s)
  {
    ElemStable(NEGOTIATION_TOKEN, s, s');
  }

  lemma NegotiationPrefix(t: NegotiationToken, extras: seq<AnyElement>, k: nat)
    requires NegotiationEncodable(t, extras) && k < |EncodeNegotiation(t, extras)|
    ensures DecodeNegotiation(EncodeNegotiation(t, extras)[..k]) == WMore
  {
    hide DecodeElem, IsElem, DistinctElem, Contents, EncodeElem;
    GrammarDistinct();
    PrefixWantsMore(NEGOTIATION_TOKEN, NegotiationValue(t, extras), k);
  }

  // Extension tolerance

  lemma TlvGrows(tag: Byte, c: seq<Byte>, d: seq<Byte>)
    requires |c| <= |d| && LengthFits(|d|)
    ensures LengthFits(|c|) && |EncodeTlv(tag, c)| <= |EncodeTlv(tag, d)|
  {
    LengthFitsDown(|c|, |d|);
  }

  /** Leaving the extension elements out does not make the components longer. */
  lemma {:induction false} FieldsShrink(f: Fields, v: Value, w: Value)
    requires IsFields(f, v) && IsFields(f, w) && SameButExtras(f, v, w)
    ensures |EncodeFields(f, w)| <= |EncodeFields(f, v)|
  {
    match f
    case Required(_, next) => FieldsShrink(next, v.tail, w.tail);
    case Optional(_, next) => FieldsShrink(next, v.tail, w.tail);
    case _ =>
  }

  /** w is v without its extension elements. */
  predicate SameButExtras(f: Fields, v: Value, w: Value)
    requires IsFields(f, v) && IsFields(f, w)
  {
    match f
    case Required(_, next) => v.head == w.head && SameButExtras(next, v.tail, w.tail)
    case Optional(_, next) =>
      v.Absent? == w.Absent? && (v.Cons? ==> v.head == w.head) && SameButExtras(next, v.tail, w.tail)
    case Extensible(_) => w.Nil?
    case _ => v == w
  }

  lemma ContentsShrink(t: NegotiationToken, extras: seq<AnyElement>)
    requires NegotiationEncodable(t, extras)
    ensures NegotiationEncodable(t, [])
  {
    NegotiationTyped(t, extras);
    NegotiationTyped(t, []);
    var v, w := NegotiationValue(t, extras), NegotiationValue(t, []);
    if t.NegInit? {
      InitIsShape(v.value);
      InitIsShape(w.value);
      InitExtrasOnly(t.init, extras);
      SequenceShrinks(INIT_FIELDS, v.value, w.value);
      ChoiceContents(v.value);
      ChoiceContents(w.value);
    } else {
      RespIsShape(v.value);
      RespIsShape(w.value);
      RespExtrasOnly(t.resp, extras);
      SequenceShrinks(RESP_FIELDS, v.value, w.value);
      OtherContents(v.value);
      OtherContents(w.value);
    }
  }

  lemma ChoiceContents(v: Value)
    requires IsElem(NEGOTIATION_TOKEN, First(v)) && IsFields(INIT_FIELDS, v)
    ensures Contents(NEGOTIATION_TOKEN, First(v)) == EncodeTlv(0x30, EncodeFields(INIT_FIELDS, v))
  {
    SequenceEncoding(INIT_FIELDS, v);
  }

  lemma OtherContents(v: Value)
    requires IsElem(NEGOTIATION_TOKEN, Other(v)) && IsFields(RESP_FIELDS, v)
    ensures Contents(NEGOTIATION_TOKEN, Other(v)) == EncodeTlv(0x30, EncodeFields(RESP_FIELDS, v))
  {
    var e := Tagged(0xA1, Explicit(Tagged(0x30, Sequence(RESP_FIELDS))));
    assert IsElem(e, v);
    SequenceEncoding(RESP_FIELDS, v);
    assert Contents(NEGOTIATION_TOKEN, Other(v)) == Contents(e, v);
  }

  lemma SequenceEncoding(f: Fields, v: Value)
    requires IsFields(f, v)
    ensures IsBody(Explicit(Tagged(0x30, Sequence(f))), v)
    ensures EncodeBody(Explicit(Tagged(0x30, Sequence(f))), v) == EncodeTlv(0x30, EncodeFields(f, v))
  {
    var e := Tagged(0x30, Sequence(f));
    assert IsBody(Sequence(f), v);
    assert IsElem(e, v);
    assert EncodeBody(Sequence(f), v) == EncodeFields(f, v);
    assert EncodeElem(e, v) == EncodeTlv(0x30, EncodeBody(Sequence(f), v));
  }

  lemma SequenceShrinks(f: Fields, v: Value, w: Value)
    requires IsFields(f, v) && IsFields(f, w) && SameButExtras(f, v, w)
    ensures LengthFits(|EncodeTlv(0x30, EncodeFields(f, v))|) ==> LengthFits(|EncodeTlv(0x30, EncodeFields(f, w))|)
  {
    FieldsShrink(f, v, w);
    var c, d := EncodeFields(f, w), EncodeFields(f, v);
    if LengthFits(|EncodeTlv(0x30, d)|) {
      LengthFitsDown(|d|, |EncodeTlv(0x30, d)|);
      TlvGrows(0x30, c, d);
      LengthFitsDown(|EncodeTlv(0x30, c)|, |EncodeTlv(0x30, d)|);
    }
  }

  lemma TailExtrasOnly(token: Option<seq<Byte>>, mic: Option<seq<Byte>>, extras: seq<AnyElement>)
    requires IsFields(INIT_TAIL, TailValue(token, mic, extras)) && IsFields(INIT_TAIL, TailValue(token, mic, []))
    ensures SameButExtras(INIT_TAIL, TailValue(token, mic, extras), TailValue(token, mic, []))
  {
    var v, w := TailValue(token, mic, extras), TailValue(token, mic, []);
    var next := Optional(Tagged(0xA3, Explicit(OCTETS)), Extensible(KNOWN));
    assert IsFields(next, v.tail) && IsFields(next, w.tail);
    assert SameButExtras(Extensible(KNOWN), v.tail.tail, w.tail.tail);
    assert SameButExtras(next, v.tail, w.tail);
  }

  lemma InitExtrasOnly(i: NegTokenInit, extras: seq<AnyElement>)
    requires IsFields(INIT_FIELDS, InitValue(i, extras)) && IsFields(INIT_FIELDS, InitValue(i, []))
    ensures SameButExtras(INIT_FIELDS, InitValue(i, extras), InitValue(i, []))
  {
    var v, w := InitValue(i, extras), InitValue(i, []);
    InitIsShape(v);
    InitIsShape(w);
    TailIsShape(v.tail.tail);
    TailIsShape(w.tail.tail);
    TailExtrasOnly(i.mechToken, i.mechListMic, extras);
    var next := Optional(Tagged(0xA1, Explicit(CONTEXT_FLAGS)), INIT_TAIL);
    assert IsFields(next, v.tail) && IsFields(next, w.tail);
    assert SameButExtras(next, v.tail, w.tail);
  }

  lemma RespExtrasOnly(r: NegTokenResp, extras: seq<AnyElement>)
    requires IsFields(RESP_FIELDS, RespValue(r, extras)) && IsFields(RESP_FIELDS, RespValue(r, []))
    ensures SameButExtras(RESP_FIELDS, RespValue(r, extras), RespValue(r, []))
  {
    var v, w := RespValue(r, extras), RespValue(r, []);
    RespIsShape(v);
    RespIsShape(w);
    TailIsShape(v.tail.tail);
    TailIsShape(w.tail.tail);
    TailExtrasOnly(r.responseToken, r.mechListMic, extras);
    var next := Optional(Tagged(0xA1, Explicit(MECH_TYPE)), INIT_TAIL);
    assert IsFields(next, v.tail) && IsFields(next, w.tail);
    assert SameButExtras(next, v.tail, w.tail);
  }

  /**
    * Extension elements with unknown tags, with the enclosing lengths recomputed, change nothing:
    * the token without them has an encoding too, and both decode to the same value.
    */
  lemma ExtensionTolerance(t: NegotiationToken, extras: seq<AnyElement>)
    requires NegotiationEncodable(t, extras)
    ensures NegotiationEncodable(t, [])
    ensures var with, without :=
              DecodeNegotiation(EncodeNegotiation(t, extras)), DecodeNegotiation(EncodeNegotiation(t, []));
            with.Ok? && without.Ok? && with.value == without.value == t
  {
    ContentsShrink(t, extras);
    NegotiationRoundTrip(t, extras, []);
    NegotiationRoundTrip(t, [], []);
    assert EncodeNegotiation(t, extras) + [] == EncodeNegotiation(t, extras);
    assert EncodeNegotiation(t, []) + [] == EncodeNegotiation(t, []);
  }

  // InitialContextToken

  lemma InitialContextTyped(t: InitialContextToken)
    requires ValidOid(t.thisMech)
    ensures IsElem(INITIAL_CONTEXT_TOKEN, InitialContextValue(t))
  {
    var v := InitialContextValue(t);
    TaggedLeaf(0x06, ObjectId, v.head);
    assert IsFields(Opaque, v.tail);
    assert IsFields(Required(MECH_TYPE, Opaque), v);
    assert IsBody(Sequence(Required(MECH_TYPE, Opaque)), v);
  }

  /** The initial token is accepted exactly in its one encoding, whatever the mechanism's octets are. */
  lemma InitialContextAccepts(s: seq<Byte>, t: InitialContextToken, n: nat)
    ensures DecodeInitialContext(s) == Ok(t, n) <==>
            n <= |s| && InitialContextEncodable(t) && EncodeInitialContext(t) == s[..n]
  {
    hide DecodeElem, IsElem, DistinctElem, Contents, EncodeElem;
    GrammarDistinct();
    var v := InitialContextValue(t);
    DecodeIffEncoded(INITIAL_CONTEXT_TOKEN, s, v, n);
    if DecodeInitialContext(s) == Ok(t, n) {
      ElemCanonical(INITIAL_CONTEXT_TOKEN, s);
      InitialContextShape(DecodeElem(INITIAL_CONTEXT_TOKEN, s).value);
    }
  }

  lemma InitialContextRoundTrip(t: InitialContextToken, rest: seq<Byte>)
    requires InitialContextEncodable(t)
    ensures var s := EncodeInitialContext(t);
            DecodeInitialContext(s + rest) == Ok(t, |s|)
  {
    var s := EncodeInitialContext(t);
    assert (s + rest)[..|s|] == s;
    InitialContextAccepts(s + rest, t, |s|);
  }

  lemma InitialContextStable(s: seq<Byte>, s': seq<Byte>)
    requires s <= s' && !DecodeInitialContext(s).WMore?
    ensures DecodeInitialContext(s') == DecodeInitialContext(s)
  {
    ElemStable(INITIAL_CONTEXT_TOKEN, s, s');
  }

  lemma InitialContextPrefix(t: InitialContextToken, k: nat)
    requires InitialContextEncodable(t) && k < |EncodeInitialContext(t)|
    ensures DecodeInitialContext(EncodeInitialContext(t)[..k]) == WMore
  {
    hide DecodeElem, IsElem, DistinctElem, Contents, EncodeElem;
    GrammarDistinct();
    PrefixWantsMore(INITIAL_CONTEXT_TOKEN, InitialContextValue(t), k);
  }

  /**
    * Reading innerContextToken as ANY, one element of whatever tag, takes exactly the octets that
    * the opaque reading takes when they are a SPNEGO token.
    */
  lemma AnyReadsNegotiation(t: NegotiationToken, extras: seq<AnyElement>)
    requires NegotiationEncodable(t, extras)
    ensures var s := EncodeNegotiation(t, extras);
            DecodeAny(s).Ok? && DecodeAny(s).consumed == |s|
  {
    var v := NegotiationValue(t, extras);
    var c := Contents(NEGOTIATION_TOKEN, v);
    var s := EncodeNegotiation(t, extras);
    var id := if t.NegInit? then Identifier(5, 0) else Identifier(5, 1);
    assert s == EncodeExtra(id, c);
    AnyRoundTrip(id, c, []);
    assert s + [] == s;
  }
}
