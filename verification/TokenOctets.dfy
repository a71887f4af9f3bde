/**
  * The octets of every token, written out: which identifier octets, in which nesting, around which
  * contents. Section 4.2 of RFC 4178 and section 3.1 of RFC 2743 under DER.
  */
module TokenOctets {
  import opened Bytes
  import opened Oid
  import opened Wrappers
  import opened Asn1
  import opened Tokens
  import opened TokenProofs

  /** OBJECT IDENTIFIERs one behind the other. */
  function MechOctets(mechs: seq<seq<nat>>): seq<Byte>
    requires forall m :: m in mechs ==> ValidOid(m)
  {
    if mechs == [] then [] else EncodeTlv(0x06, EncodeOid(mechs[0])) + MechOctets(mechs[1..])
  }

  /** An optional component: its explicit context tag around the universal one, or nothing. */
  function FieldOctets(context: Byte, universal: Byte, contents: Option<seq<Byte>>): seq<Byte> {
    match contents
    case None => []
    case Some(c) => EncodeTlv(context, EncodeTlv(universal, c))
  }

  function ExtraOctets(extras: seq<AnyElement>): seq<Byte>
    requires forall x :: x in extras ==> ValidIdentifier(x.id)
  {
    if extras == [] then []
    else
      EncodeIdentifier(extras[0].id) + EncodeLength(|extras[0].contents|) + extras[0].contents +
      ExtraOctets(extras[1..])
  }

  /** Contents of the flags' BIT STRING. */
  function FlagContents(flags: seq<Byte>): seq<Byte>
    requires |flags| == 4
  {
    EncodeLeaf(FlagBits, Flags(flags))
  }

  /** The flags are all there but for trailing zero bits, whose number in the last octet comes first. */
  lemma FlagContentsMean(flags: seq<Byte>)
    requires |flags| == 4
    ensures var c := FlagContents(flags);
            && 1 <= |c| <= 5 && flags == c[1..] + seq<Byte>(5 - |c|, _ => 0)
            && if |c| == 1 then c[0] == 0 else c[|c| - 1] != 0 && c[0] == TrailingZeros(c[|c| - 1])
  {
    LeafRoundTrip(FlagBits, Flags(flags));
  }

  /** The low bits of an odd number times 2, 4, 8 or 16, sixteen numbers at a time. */
  lemma OddTimes(q: nat, k: nat)
    requires q < 4 && k < 16
    ensures var b := 4 * (16 * q + k) + 2;
            b % 2 == 0 && b % 4 == 2
    ensures q < 2 ==> var b := 8 * (16 * q + k) + 4;
                      b % 2 == 0 && b % 4 == 0 && b % 8 == 4
  {
    assert q in {0, 1, 2, 3} && k in {0, 1, 2, 3, 4, 5, 6, 7, 8, 9, 10, 11, 12, 13, 14, 15};
  }

  lemma OddTimesMore(r: nat)
    requires r < 16
    ensures var b := 16 * r + 8;
            b % 2 == 0 && b % 4 == 0 && b % 8 == 0 && b % 16 == 8
  {
    assert r in {0, 1, 2, 3, 4, 5, 6, 7, 8, 9, 10, 11, 12, 13, 14, 15};
  }

  lemma FewOddTimes(r: nat)
    requires r < 8
    ensures TrailingZeros(16 * (2 * r + 1)) == 4
    ensures r < 4 ==> TrailingZeros(32 * (2 * r + 1)) == 5
    ensures r < 2 ==> TrailingZeros(64 * (2 * r + 1)) == 6
  {
    assert r in {0, 1, 2, 3, 4, 5, 6, 7};
  }

  /** Every odd number m, shifted left: the shift is what TrailingZeros finds. */
  lemma TrailingZerosExact(m: nat)
    requires m % 2 == 1
    ensures m < 256 ==> TrailingZeros(m) == 0
    ensures m < 128 ==> TrailingZeros(2 * m) == 1
    ensures m < 64 ==> TrailingZeros(4 * m) == 2
    ensures m < 32 ==> TrailingZeros(8 * m) == 3
    ensures m < 16 ==> TrailingZeros(16 * m) == 4
    ensures m < 8 ==> TrailingZeros(32 * m) == 5
    ensures m < 4 ==> TrailingZeros(64 * m) == 6
    ensures m < 2 ==> TrailingZeros(128 * m) == 7
  {
    var r := m / 2;
    assert m == 2 * r + 1;
    if m < 128 {
      assert r == 16 * (r / 16) + r % 16;
      OddTimes(r / 16, r % 16);
    }
    assert 2 * m == 4 * r + 2 && 4 * m == 8 * r + 4 && 8 * m == 16 * r + 8;
    if m < 32 {
      OddTimesMore(r);
    }
    if m < 16 {
      FewOddTimes(r);
    }
  }

  // Fields

  lemma {:induction false} ListOctets(mechs: seq<seq<nat>>)
    requires forall m :: m in mechs ==> ValidOid(m)
    ensures var v := ListValue(mechs);
            IsList(MECH_TYPE, v) && EncodeList(MECH_TYPE, v) == MechOctets(mechs)
  {
    if mechs != [] {
      ListOctets(mechs[1..]);
      LeafElem(0x06, ObjectId, Arcs(mechs[0]));
    }
  }

  lemma LeafElem(tag: Byte, leaf: Leaf, v: Value)
    requires ValidLeaf(leaf, v)
    ensures IsElem(Tagged(tag, Primitive(leaf)), v)
    ensures EncodeElem(Tagged(tag, Primitive(leaf)), v) == EncodeTlv(tag, EncodeLeaf(leaf, v))
  {
    TaggedLeaf(tag, leaf, v);
    assert EncodeBody(Primitive(leaf), v) == EncodeLeaf(leaf, v);
  }

  lemma ExplicitOctets(tag: Byte, e: Elem, v: Value)
    requires IsElem(e, v)
    ensures IsElem(Tagged(tag, Explicit(e)), v)
    ensures EncodeElem(Tagged(tag, Explicit(e)), v) == EncodeTlv(tag, EncodeElem(e, v))
  {
    ExplicitElem(tag, e, v);
    assert IsBody(Explicit(e), v) && EncodeBody(Explicit(e), v) == EncodeElem(e, v);
  }

  lemma {:induction false} ExtrasOctets(extras: seq<AnyElement>)
    requires WellTypedExtras(extras)
    ensures var v := ExtrasValue(extras);
            IsExtras(KNOWN, v) && EncodeExtras(KNOWN, v) == ExtraOctets(extras)
  {
    if extras != [] {
      assert extras[0] in extras && WellTypedExtras(extras[1..]);
      ExtrasOctets(extras[1..]);
    }
  }

  /** One optional component in front of the rest. */
  lemma OptionalOctets(context: Byte, universal: Byte, leaf: Leaf, o: Option<Value>, next: Fields, tail: Value)
    requires IsFields(next, tail) && (o.Some? ==> ValidLeaf(leaf, o.value) && !o.value.Absent?)
    ensures var f := Optional(Tagged(context, Explicit(Tagged(universal, Primitive(leaf)))), next);
            var v := OptionalValue(o, tail);
            && IsFields(f, v)
            && EncodeFields(f, v)
               == FieldOctets(context, universal, if o.Some? then Some(EncodeLeaf(leaf, o.value)) else None)
                 + EncodeFields(next, tail)
  {
    var e := Tagged(universal, Primitive(leaf));
    if o.Some? {
      LeafElem(universal, leaf, o.value);
      ExplicitOctets(context, e, o.value);
    } else {
      assert [] + EncodeFields(next, tail) == EncodeFields(next, tail);
    }
    hide EncodeElem, IsElem, EncodeTlv;
  }

  lemma TailOctets(token: Option<seq<Byte>>, mic: Option<seq<Byte>>, extras: seq<AnyElement>)
    requires WellTypedExtras(extras)
    ensures var v := TailValue(token, mic, extras);
            && IsFields(INIT_TAIL, v)
            && EncodeFields(INIT_TAIL, v)
               == FieldOctets(0xA2, 0x04, token) + (FieldOctets(0xA3, 0x04, mic) + ExtraOctets(extras))
  {
    ExtrasOctets(extras);
    var end := Extensible(KNOWN);
    assert IsFields(end, ExtrasValue(extras)) && EncodeFields(end, ExtrasValue(extras)) == ExtraOctets(extras);
    OptionalOctets(0xA3, 0x04, OctetString, OctetsOption(mic), end, ExtrasValue(extras));
    var last := Optional(Tagged(0xA3, Explicit(OCTETS)), end);
    OptionalOctets(0xA2, 0x04, OctetString, OctetsOption(token), last,
                   OptionalValue(OctetsOption(mic), ExtrasValue(extras)));
    hide EncodeFields, IsFields, FieldOctets, ExtraOctets;
  }

  // Whole tokens

  function InitOctets(i: NegTokenInit, extras: seq<AnyElement>): seq<Byte>
    requires WellTyped(NegInit(i)) && WellTypedExtras(extras)
  {
    EncodeTlv(0xA0, EncodeTlv(0x30, MechOctets(i.mechTypes))) +
    (FieldOctets(0xA1, 0x03, if i.reqFlags.Some? then Some(FlagContents(i.reqFlags.value)) else None) +
     (FieldOctets(0xA2, 0x04, i.mechToken) + (FieldOctets(0xA3, 0x04, i.mechListMic) + ExtraOctets(extras))))
  }

  function RespOctets(r: NegTokenResp, extras: seq<AnyElement>): seq<Byte>
    requires WellTyped(NegResp(r)) && WellTypedExtras(extras)
  {
    FieldOctets(0xA0, 0x0A, if r.negState.Some? then Some([StateNumber(r.negState.value)]) else None) +
    (FieldOctets(0xA1, 0x06, if r.supportedMech.Some? then Some(EncodeOid(r.supportedMech.value)) else None) +
     (FieldOctets(0xA2, 0x04, r.responseToken) + (FieldOctets(0xA3, 0x04, r.mechListMic) + ExtraOctets(extras))))
  }

  /** The SEQUENCE inside a NegotiationToken. */
  function SequenceOctets(t: NegotiationToken, extras: seq<AnyElement>): seq<Byte>
    requires WellTyped(t) && WellTypedExtras(extras)
  {
    EncodeTlv(0x30, match t { case NegInit(i) => InitOctets(i, extras) case NegResp(r) => RespOctets(r, extras) })
  }

  lemma MechListOctets(mechs: seq<seq<nat>>)
    requires forall m :: m in mechs ==> ValidOid(m)
    ensures var v := ListValue(mechs);
            && IsElem(Tagged(0xA0, Explicit(MECH_TYPE_LIST)), v)
            && EncodeElem(Tagged(0xA0, Explicit(MECH_TYPE_LIST)), v)
              == EncodeTlv(0xA0, EncodeTlv(0x30, MechOctets(mechs)))
  {
    var v := ListValue(mechs);
    ListOctets(mechs);
    assert IsElem(MECH_TYPE_LIST, v) by { assert IsBody(SequenceOf(MECH_TYPE), v); }
    assert EncodeBody(SequenceOf(MECH_TYPE), v) == MechOctets(mechs);
    assert EncodeElem(MECH_TYPE_LIST, v) == EncodeTlv(0x30, MechOctets(mechs));
    ExplicitOctets(0xA0, MECH_TYPE_LIST, v);
  }

  lemma InitFields(i: NegTokenInit, extras: seq<AnyElement>)
    requires WellTyped(NegInit(i)) && WellTypedExtras(extras)
    ensures var v := InitValue(i, extras);
            IsFields(INIT_FIELDS, v) && EncodeFields(INIT_FIELDS, v) == InitOctets(i, extras)
  {
    hide EncodeElem, IsElem, EncodeTlv, FieldOctets, ExtraOctets, MechOctets, EncodeLeaf, ListValue, TailValue;
    MechListOctets(i.mechTypes);
    TailOctets(i.mechToken, i.mechListMic, extras);
    var flags := if i.reqFlags.Some? then Some(Flags(i.reqFlags.value)) else None;
    OptionalOctets(0xA1, 0x03, FlagBits, flags, INIT_TAIL, TailValue(i.mechToken, i.mechListMic, extras));
  }

  lemma RespFields(r: NegTokenResp, extras: seq<AnyElement>)
    requires WellTyped(NegResp(r)) && WellTypedExtras(extras)
    ensures var v := RespValue(r, extras);
            IsFields(RESP_FIELDS, v) && EncodeFields(RESP_FIELDS, v) == RespOctets(r, extras)
  {
    TailOctets(r.responseToken, r.mechListMic, extras);
    var tail := TailValue(r.responseToken, r.mechListMic, extras);
    var mech := if r.supportedMech.Some? then Some(Arcs(r.supportedMech.value)) else None;
    OptionalOctets(0xA1, 0x06, ObjectId, mech, INIT_TAIL, tail);
    var next := Optional(Tagged(0xA1, Explicit(MECH_TYPE)), INIT_TAIL);
    var state := if r.negState.Some? then Some(Ordinal(StateNumber(r.negState.value))) else None;
    OptionalOctets(0xA0, 0x0A, Enumerated(4), state, next, OptionalValue(mech, tail));
    hide EncodeFields, IsFields, EncodeTlv, FieldOctets, ExtraOctets, EncodeOid, TailValue;
  }

  lemma TokenContents(t: NegotiationToken, extras: seq<AnyElement>)
    requires WellTyped(t) && WellTypedExtras(extras)
    ensures IsElem(NEGOTIATION_TOKEN, NegotiationValue(t, extras))
    ensures Contents(NEGOTIATION_TOKEN, NegotiationValue(t, extras)) == SequenceOctets(t, extras)
    ensures EncodeElem(NEGOTIATION_TOKEN, NegotiationValue(t, extras))
         == EncodeTlv(if t.NegInit? then 0xA0 else 0xA1, SequenceOctets(t, extras))
  {
    NegotiationTyped(t, extras);
    match t
    case NegInit(i) =>
      InitFields(i, extras);
      ChoiceContents(InitValue(i, extras));
      SequenceEncoding(INIT_FIELDS, InitValue(i, extras));
      hide InitOctets, EncodeFields, IsFields, InitValue;
    case NegResp(r) =>
      RespFields(r, extras);
      OtherContents(RespValue(r, extras));
      SequenceEncoding(RESP_FIELDS, RespValue(r, extras));
      assert IsElem(Tagged(0xA1, Explicit(Tagged(0x30, Sequence(RESP_FIELDS)))), RespValue(r, extras));
      hide RespOctets, EncodeFields, IsFields, RespValue;
  }

  /** Every NegotiationToken, octet by octet. It can be encoded if and only if its outermost length has a form. */
  lemma NegotiationOctets(t: NegotiationToken, extras: seq<AnyElement>)
    requires WellTyped(t) && WellTypedExtras(extras)
    ensures NegotiationEncodable(t, extras) <==> LengthFits(|SequenceOctets(t, extras)|)
    ensures NegotiationEncodable(t, extras) ==>
              EncodeNegotiation(t, extras) == EncodeTlv(if t.NegInit? then 0xA0 else 0xA1, SequenceOctets(t, extras))
  {
    TokenContents(t, extras);
    hide SequenceOctets, NegotiationValue, EncodeElem, Contents, IsElem, LengthFits;
  }

  /** Every InitialContextToken: [APPLICATION 0] around the identifier and the mechanism's octets as they are. */
  lemma InitialOctets(t: InitialContextToken)
    requires ValidOid(t.thisMech)
    ensures var contents := EncodeTlv(0x06, EncodeOid(t.thisMech)) + t.innerContextToken;
            && (InitialContextEncodable(t) <==> LengthFits(|contents|))
            && (InitialContextEncodable(t) ==> EncodeInitialContext(t) == EncodeTlv(0x60, contents))
  {
    var v := InitialContextValue(t);
    var fields := Required(MECH_TYPE, Opaque);
    InitialContextTyped(t);
    LeafElem(0x06, ObjectId, v.head);
    hide EncodeLeaf, EncodeOid;
    assert IsFields(Opaque, v.tail) && EncodeFields(Opaque, v.tail) == t.innerContextToken;
    assert IsFields(fields, v) && EncodeFields(fields, v) == EncodeElem(MECH_TYPE, v.head) + t.innerContextToken;
    assert IsBody(Sequence(fields), v) && EncodeBody(Sequence(fields), v) == EncodeFields(fields, v);
    assert Contents(INITIAL_CONTEXT_TOKEN, v) == EncodeFields(fields, v);
    hide EncodeTlv, LengthFits, EncodeFields;
  }

  // Extension elements

  /** At the extension marker the tags [0] to [3] are out of place; every other well-formed element is skipped. */
  lemma MarkerVerdict(len: nat, s: seq<Byte>)
    requires s != [] && |s| <= len
    ensures s[0] in {0xA0, 0xA1, 0xA2, 0xA3} ==> DecodeExtras(KNOWN, len, s) == Fail
    ensures s[0] !in {0xA0, 0xA1, 0xA2, 0xA3} && DecodeAny(s).Ok? && DecodeAny(s).consumed == len == |s| ==>
              DecodeExtras(KNOWN, len, s) == Ok(Extra(DecodeAny(s).value.id, DecodeAny(s).value.contents, Nil), len)
  {
    if s[0] !in KNOWN && DecodeAny(s).Ok? && DecodeAny(s).consumed == len == |s| {
      assert s[len..] == [];
      assert DecodeExtras(KNOWN, 0, []) == Ok(Nil, 0);
    }
  }
}
