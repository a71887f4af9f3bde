/** Octet strings worked out by hand from X.690, so that the codec is DER and not just invertible. */
module KnownOctets {
  import opened Bytes
  import opened Oid
  import opened Wrappers
  import opened Streams
  import opened Asn1
  import opened Tokens
  import opened TokenProofs
  import opened TokenOctets
  import opened Decoder

  /** Short form up to 127, then the fewest octets, most significant first. */
  lemma Lengths()
    ensures EncodeLength(0) == [0] && EncodeLength(127) == [127]
    ensures EncodeLength(128) == [0x81, 0x80] && EncodeLength(255) == [0x81, 0xFF]
    ensures EncodeLength(256) == [0x82, 0x01, 0x00] && EncodeLength(2048) == [0x82, 0x08, 0x00]
  {
    BigSmall(1);
    BigSmall(8);
    BigSmall(128);
    BigSmall(255);
    assert Big(256) == [1, 0] && Big(2048) == [8, 0];
  }

  /** Three length octets and more. */
  lemma LongLengths()
    ensures EncodeLength(65536) == [0x83, 1, 0, 0] && EncodeLength(16909060) == [0x84, 1, 2, 3, 4]
  {
    BigSmall(1);
    assert Big(256) == [1, 0] && Big(65536) == [1, 0, 0];
    assert Big(258) == [1, 2] && Big(66051) == [1, 2, 3] && Big(16909060) == [1, 2, 3, 4];
  }

  /** htonl and htons: the high octet first. */
  lemma NetworkOrder()
    ensures Big32(0x0102_0304) == [1, 2, 3, 4] && FromBig32([1, 2, 3, 4]) == 0x0102_0304
    ensures Big16(0x0102) == [1, 2] && FromBig16([1, 2]) == 0x0102
  {
  }

  /** A token on the wire: the length of the body alone, then the body. */
  lemma FrameOctets()
    ensures Frame([]) == [0, 0, 0, 0] && Frame([7, 8]) == [0, 0, 0, 2, 7, 8]
  {
  }

  /** The four states of section 4.2.2 of RFC 4178, read and written. */
  lemma States()
    ensures StateNumber(AcceptCompleted) == 0 && StateNumber(AcceptIncomplete) == 1
    ensures StateNumber(Reject) == 2 && StateNumber(RequestMic) == 3
    ensures NumberState(0) == AcceptCompleted && NumberState(1) == AcceptIncomplete
    ensures NumberState(2) == Reject && NumberState(3) == RequestMic
  {
  }

  /** Identifier octets: tag numbers from 31 on in base 128 behind the first octet. */
  lemma Identifiers31()
    ensures EncodeIdentifier(Identifier(5, 4)) == [0xA4] && EncodeIdentifier(Identifier(5, 30)) == [0xBE]
    ensures EncodeIdentifier(Identifier(5, 31)) == [0xBF, 0x1F]
              && EncodeIdentifier(Identifier(5, 201)) == [0xBF, 0x81, 0x49]
  {
    SmallArc(31);
    assert Leading(1) == Leading(0) + [129] == [129];
  }

  lemma TwoArcs(first: nat, second: nat)
    requires ValidOid([first, second]) && 40 * first + second < 128
    ensures EncodeOid([first, second]) == [40 * first + second]
  {
    SmallArc(40 * first + second);
    hide EncodeArc;
    EncodeArcsCons(40 * first + second, []);
    assert [40 * first + second] + [first, second][2..] == [40 * first + second] + [];
  }

  lemma ThirdArc(second: nat)
    ensures EncodeOid([2, second, 3]) == EncodeArc(80 + second) + [3]
  {
    SmallArc(3);
    hide EncodeArc;
    EncodeArcsCons(80 + second, [3]);
    EncodeArcsCons(3, []);
    assert [3] + [] == [3];
    assert [80 + second] + [2, second, 3][2..] == [80 + second] + [3];
  }

  lemma LargeArcs()
    ensures EncodeArc(180) == [0x81, 0x34] && EncodeArc(1079) == [0x88, 0x37]
  {
    assert Leading(1) == Leading(0) + [129] == [129];
    assert Leading(8) == Leading(0) + [136] == [136];
  }

  /** The first two arcs share a subidentifier, which under 2 may be large (X.690 section 8.19.5 has 2.100.3). */
  lemma Identifiers()
    ensures EncodeOid([2, 100, 3]) == [0x81, 0x34, 0x03] && EncodeOid([2, 999, 3]) == [0x88, 0x37, 0x03]
    ensures EncodeOid([0, 9]) == [0x09] && EncodeOid([1, 39]) == [0x4F] && EncodeOid([2, 0]) == [0x50]
  {
    LargeArcs();
    hide EncodeOid, EncodeArc;
    ThirdArc(100);
    ThirdArc(999);
    TwoArcs(0, 9);
    TwoArcs(1, 39);
    TwoArcs(2, 0);
  }

  lemma TlvOctets(tag: Byte, contents: seq<Byte>)
    requires |contents| < 128
    ensures EncodeTlv(tag, contents) == [tag, |contents|] + contents
  {
  }

  lemma ShortFits(n: nat)
    requires n < 128
    ensures LengthFits(n)
  {
    BigSmall(n);
  }

  /** [APPLICATION 0], the Kerberos identifier, then the mechanism's own octets. */
  lemma KerberosInitialToken(inner: seq<Byte>)
    requires |inner| < 100
    ensures InitialContextEncodable(InitialContextToken(KRB5, inner))
    ensures EncodeInitialContext(InitialContextToken(KRB5, inner))
         == [0x60, 11 + |inner|, 0x06, 9] + KRBV5_MECH_OID + inner
  {
    var t := InitialContextToken(KRB5, inner);
    Krb5Entry();
    InitialOctets(t);
    hide EncodeOid, InitialContextEncodable, EncodeInitialContext;
    TlvOctets(0x06, KRBV5_MECH_OID);
    var contents := [0x06, 9] + KRBV5_MECH_OID + inner;
    ShortFits(|contents|);
    hide EncodeTlv, LengthFits;
    TlvOctets(0x60, contents);
    assert [0x60, 11 + |inner|] + contents == [0x60, 11 + |inner|, 0x06, 9] + KRBV5_MECH_OID + inner;
  }

  /** Flags that are these octets and zeros behind them. */
  lemma PaddedFlags(bits: seq<Byte>, flags: seq<Byte>)
    requires |flags| == 4 && |bits| <= 4 && flags == bits + seq<Byte>(4 - |bits|, _ => 0)
    requires bits != [] ==> bits[|bits| - 1] != 0
    ensures EncodeLeaf(FlagBits, Flags(flags)) == if bits == [] then [0] else [TrailingZeros(bits[|bits| - 1])] + bits
  {
    StripPadded(bits, 4 - |bits|);
    hide StripZeros;
  }

  lemma LowZeros()
    ensures TrailingZeros(0x40) == 6 && TrailingZeros(0x62) == 1
  {
    assert TrailingZeros(8) == 3;
  }

  /** Trailing zero bits of the flags go, the unused bits of the last octet are counted. */
  lemma FlagOctets()
    ensures EncodeLeaf(FlagBits, Flags([0, 0, 0, 0])) == [0]
    ensures EncodeLeaf(FlagBits, Flags([0x40, 0, 0, 0])) == [6, 0x40] // mutualFlag
    ensures EncodeLeaf(FlagBits, Flags([0x62, 0, 0, 0])) == [1, 0x62] // mutualFlag, replayFlag, integFlag
  {
    hide EncodeLeaf, TrailingZeros;
    LowZeros();
    PaddedFlags([], [0, 0, 0, 0]);
    PaddedFlags([0x40], [0x40, 0, 0, 0]);
    PaddedFlags([0x62], [0x62, 0, 0, 0]);
  }

  /** One short component under its context tag. */
  lemma ShortField(context: Byte, universal: Byte, c: seq<Byte>)
    requires |c| < 100
    ensures FieldOctets(context, universal, Some(c)) == [context, 2 + |c|, universal, |c|] + c
  {
    TlvOctets(universal, c);
    TlvOctets(context, [universal, |c|] + c);
  }

  const MECH_LIST_OCTETS: seq<Byte> := [0xA0, 13, 0x30, 11, 0x06, 9] + KRBV5_MECH_OID

  lemma MechListOctets()
    ensures ValidOid(KRB5) && EncodeTlv(0xA0, EncodeTlv(0x30, MechOctets([KRB5]))) == MECH_LIST_OCTETS
  {
    Krb5Entry();
    hide EncodeOid;
    assert [KRB5][1..] == [];
    assert MechOctets([KRB5]) == EncodeTlv(0x06, KRBV5_MECH_OID) + [];
    TlvOctets(0x06, KRBV5_MECH_OID);
    TlvOctets(0x30, [0x06, 9] + KRBV5_MECH_OID);
    TlvOctets(0xA0, [0x30, 11] + ([0x06, 9] + KRBV5_MECH_OID));
  }

  /** A token whose SEQUENCE is short. */
  lemma ShortToken(t: NegotiationToken, extras: seq<AnyElement>, fields: seq<Byte>)
    requires WellTyped(t) && WellTypedExtras(extras) && |fields| < 100
    requires fields == match t { case NegInit(i) => InitOctets(i, extras) case NegResp(r) => RespOctets(r, extras) }
    ensures NegotiationEncodable(t, extras)
    ensures EncodeNegotiation(t, extras)
         == [if t.NegInit? then 0xA0 else 0xA1, 2 + |fields|, 0x30, |fields|] + fields
  {
    NegotiationOctets(t, extras);
    hide WellTyped, WellTypedExtras, InitOctets, RespOctets, EncodeNegotiation, NegotiationEncodable;
    TlvOctets(0x30, fields);
    ShortFits(2 + |fields|);
    TlvOctets(if t.NegInit? then 0xA0 else 0xA1, [0x30, |fields|] + fields);
  }

  const KERBEROS_ONLY := NegTokenInit([KRB5], None, None, None)

  /** An offer of one mechanism and nothing else. */
  lemma InitToken()
    ensures NegotiationEncodable(NegInit(KERBEROS_ONLY), [])
    ensures EncodeNegotiation(NegInit(KERBEROS_ONLY), []) == [0xA0, 17, 0x30, 15] + MECH_LIST_OCTETS
  {
    MechListOctets();
    hide EncodeTlv, MechOctets, FieldOctets;
    assert FieldOctets(0xA1, 0x03, None) == [] by { NoField(0xA1, 0x03); }
    NoField(0xA2, 0x04);
    NoField(0xA3, 0x04);
    assert InitOctets(KERBEROS_ONLY, []) == MECH_LIST_OCTETS + ([] + ([] + ([] + []))) == MECH_LIST_OCTETS;
    ShortToken(NegInit(KERBEROS_ONLY), [], MECH_LIST_OCTETS);
  }

  lemma NoField(context: Byte, universal: Byte)
    ensures FieldOctets(context, universal, None) == []
  {
  }

  const FULL_INIT := NegTokenInit([KRB5], Some([0x40, 0, 0, 0]), Some([0xAA]), Some([0xBB]))
  const FULL_INIT_TAIL: seq<Byte> := [0xA1, 4, 0x03, 2, 6, 0x40, 0xA2, 3, 0x04, 1, 0xAA, 0xA3, 3, 0x04, 1, 0xBB]

  lemma FullInitParts()
    ensures FieldOctets(0xA1, 0x03, Some(FlagContents([0x40, 0, 0, 0]))) == [0xA1, 4, 0x03, 2, 6, 0x40]
    ensures FieldOctets(0xA2, 0x04, Some([0xAA])) == [0xA2, 3, 0x04, 1, 0xAA]
    ensures FieldOctets(0xA3, 0x04, Some([0xBB])) == [0xA3, 3, 0x04, 1, 0xBB]
  {
    FlagOctets();
    hide EncodeLeaf, FieldOctets;
    ShortField(0xA1, 0x03, [6, 0x40]);
    ShortField(0xA2, 0x04, [0xAA]);
    ShortField(0xA3, 0x04, [0xBB]);
  }

  lemma FullInitUnfolds()
    requires ValidOid(KRB5)
    ensures InitOctets(FULL_INIT, [])
         == EncodeTlv(0xA0, EncodeTlv(0x30, MechOctets([KRB5]))) +
            (FieldOctets(0xA1, 0x03, Some(FlagContents([0x40, 0, 0, 0]))) +
             (FieldOctets(0xA2, 0x04, Some([0xAA])) + (FieldOctets(0xA3, 0x04, Some([0xBB])) + [])))
  {
    hide EncodeTlv, MechOctets, FieldOctets, FlagContents;
  }

  /** An offer with flags (mutualFlag), a token and a MIC. */
  lemma FullInitToken()
    ensures NegotiationEncodable(NegInit(FULL_INIT), [])
    ensures EncodeNegotiation(NegInit(FULL_INIT), []) == [0xA0, 33, 0x30, 31] + (MECH_LIST_OCTETS + FULL_INIT_TAIL)
  {
    MechListOctets();
    FullInitParts();
    FullInitUnfolds();
    hide EncodeTlv, MechOctets, FieldOctets, FlagContents, InitOctets;
    assert [0xA1, 4, 0x03, 2, 6, 0x40] + ([0xA2, 3, 0x04, 1, 0xAA] + ([0xA3, 3, 0x04, 1, 0xBB] + [])) == FULL_INIT_TAIL;
    ShortToken(NegInit(FULL_INIT), [], MECH_LIST_OCTETS + FULL_INIT_TAIL);
  }

  const STATE_OCTETS: seq<Byte> := [0xA0, 3, 0x0A, 1, 1]
  const TOKEN_OCTETS: seq<Byte> := [0xA2, 3, 0x04, 1, 0xAA]
  const ANSWER := NegTokenResp(Some(AcceptIncomplete), None, Some([0xAA]), None)

  lemma AnswerParts()
    ensures FieldOctets(0xA0, 0x0A, Some([1])) == STATE_OCTETS && FieldOctets(0xA1, 0x06, None) == []
    ensures FieldOctets(0xA2, 0x04, Some([0xAA])) == TOKEN_OCTETS && FieldOctets(0xA3, 0x04, None) == []
  {
    ShortField(0xA0, 0x0A, [1]);
    ShortField(0xA2, 0x04, [0xAA]);
    hide EncodeTlv;
  }

  lemma AnswerUnfolds(extras: seq<AnyElement>)
    requires WellTypedExtras(extras)
    ensures RespOctets(ANSWER, extras)
         == FieldOctets(0xA0, 0x0A, Some([1])) +
            (FieldOctets(0xA1, 0x06, None) +
             (FieldOctets(0xA2, 0x04, Some([0xAA])) + (FieldOctets(0xA3, 0x04, None) + ExtraOctets(extras))))
  {
    hide FieldOctets, ExtraOctets;
  }

  lemma AnswerFields(extras: seq<AnyElement>)
    requires WellTypedExtras(extras)
    ensures RespOctets(ANSWER, extras) == STATE_OCTETS + TOKEN_OCTETS + ExtraOctets(extras)
  {
    AnswerParts();
    AnswerUnfolds(extras);
    hide FieldOctets, ExtraOctets, RespOctets;
    Joined(STATE_OCTETS, TOKEN_OCTETS, ExtraOctets(extras));
  }

  lemma Joined(a: seq<Byte>, b: seq<Byte>, c: seq<Byte>)
    ensures a + ([] + (b + ([] + c))) == a + b + c
  {
  }

  /** Optional components behind each other, each under its explicit context tag, absent ones left out. */
  lemma RespToken()
    ensures NegotiationEncodable(NegResp(ANSWER), [])
    ensures EncodeNegotiation(NegResp(ANSWER), []) == [0xA1, 12, 0x30, 10] + (STATE_OCTETS + TOKEN_OCTETS)
  {
    AnswerFields([]);
    hide RespOctets;
    assert STATE_OCTETS + TOKEN_OCTETS + [] == STATE_OCTETS + TOKEN_OCTETS;
    ShortToken(NegResp(ANSWER), [], STATE_OCTETS + TOKEN_OCTETS);
  }

  /** An element tagged [4] behind the components of that response is skipped. */
  lemma TagFourSkipped(c: Byte, rest: seq<Byte>)
    ensures var s := [0xA1, 15, 0x30, 13] + (STATE_OCTETS + TOKEN_OCTETS + [0xA4, 1, c]);
            DecodeNegotiation(s + rest) == Ok(NegResp(ANSWER), 17)
  {
    var four := AnyElement(Identifier(5, 4), [c]);
    assert EncodeIdentifier(four.id) == [0xA4] && EncodeLength(1) == [1];
    assert [four][1..] == [];
    assert ExtraOctets([four]) == [0xA4, 1, c];
    AnswerFields([four]);
    hide RespOctets, ExtraOctets;
    ShortToken(NegResp(ANSWER), [four], STATE_OCTETS + TOKEN_OCTETS + [0xA4, 1, c]);
    NegotiationRoundTrip(NegResp(ANSWER), [four], rest);
  }
}
