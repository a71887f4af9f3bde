/** decoder.c: telling SPNEGO apart, parsing the two token layers, and the 2048-octet read. */
module Decoder {
  import opened Bytes
  import opened Oid
  import opened Wrappers
  import opened Asn1
  import opened Tokens
  import opened TokenProofs
  import HexDump

  /** 1.3.6.1.5.5.2, SPNEGO; 1.2.840.113554.1.2.2, Kerberos 5. */
  const SPNEGO: seq<nat> := [1, 3, 6, 1, 5, 5, 2]
  const KRB5: seq<nat> := [1, 2, 840, 113554, 1, 2, 2]

  // The mechanism table of utils.h
  const SPNEGO_MECH_OID: seq<Byte> := [0x2B, 0x06, 0x01, 0x05, 0x05, 0x02]
  const KRBV5_MECH_OID: seq<Byte> := [0x2A, 0x86, 0x48, 0x86, 0xF7, 0x12, 0x01, 0x02, 0x02]

  lemma SmallArc(n: nat)
    requires n < 128
    ensures EncodeArc(n) == [n]
  {
    assert Leading(0) == [];
  }

  lemma {:induction false} SmallArcs(arcs: seq<Byte>)
    requires forall i :: 0 <= i < |arcs| ==> arcs[i] < 128
    ensures EncodeArcs(arcs) == arcs
  {
    if arcs != [] {
      SmallArc(arcs[0]);
      SmallArcs(arcs[1..]);
    }
  }

  lemma SpnegoEntry()
    ensures EncodeOid(SPNEGO) == SPNEGO_MECH_OID
  {
    var ids: seq<Byte> := [43, 6, 1, 5, 5, 2];
    assert [40 * SPNEGO[0] + SPNEGO[1]] + SPNEGO[2..] == ids;
    SmallArcs(ids);
  }

  lemma KerberosArcs()
    ensures EncodeArc(840) == [0x86, 0x48] && EncodeArc(113554) == [0x86, 0xF7, 0x12]
  {
    assert Leading(6) == Leading(0) + [134] == [134];
    assert Leading(887) == Leading(6) + [0xF7];
  }

  lemma Krb5Arcs()
    ensures EncodeArcs([42] + ([840] + ([113554] + [1, 2, 2])))
         == [42] + ([0x86, 0x48] + ([0x86, 0xF7, 0x12] + [1, 2, 2]))
  {
    KerberosArcs();
    SmallArc(42);
    SmallArcs([1, 2, 2]);
    hide EncodeArc, EncodeArcs;
    EncodeArcsCons(113554, [1, 2, 2]);
    EncodeArcsCons(840, [113554] + [1, 2, 2]);
    EncodeArcsCons(42, [840] + ([113554] + [1, 2, 2]));
  }

  lemma Krb5Entry()
    ensures EncodeOid(KRB5) == KRBV5_MECH_OID
  {
    hide EncodeArcs;
    Krb5Arcs();
    assert [40 * KRB5[0] + KRB5[1]] + KRB5[2..] == [42] + ([840] + ([113554] + [1, 2, 2]));
    assert KRBV5_MECH_OID == [42] + ([0x86, 0x48] + ([0x86, 0xF7, 0x12] + [1, 2, 2]));
  }

  /** The table's entries are the DER contents of the identifiers they name. */
  lemma MechanismTable()
    ensures EncodeOid(SPNEGO) == SPNEGO_MECH_OID && DecodeOid(SPNEGO_MECH_OID) == Some(SPNEGO)
    ensures EncodeOid(KRB5) == KRBV5_MECH_OID && DecodeOid(KRBV5_MECH_OID) == Some(KRB5)
  {
    hide EncodeOid, DecodeOid;
    SpnegoEntry();
    OidRoundTrip(SPNEGO);
    Krb5Entry();
    OidRoundTrip(KRB5);
  }

  /** Only the six octets of the mechanism table mean SPNEGO. */
  lemma SpnegoOctets(oid: seq<Byte>)
    ensures DecodeOid(oid) == Some(SPNEGO) <==> oid == SPNEGO_MECH_OID
  {
    hide EncodeOid, DecodeOid;
    SpnegoEntry();
    OidRoundTrip(SPNEGO);
    if DecodeOid(oid) == Some(SPNEGO) {
      OidCanonical(oid);
    }
  }

  /** Compares with the six octets that stand for SPNEGO: 1 exactly when the identifier means SPNEGO. */
  method CheckIfSpnego(oid: seq<Byte>) returns (r: int)
    ensures r == 0 || r == 1
    ensures r == 1 <==> DecodeOid(oid) == Some(SPNEGO)
  {
    hide DecodeOid;
    SpnegoOctets(oid);
    var spnego: seq<Byte> := [43, 6, 1, 5, 5, 2];
    var size := 6;
    if |oid| != size {
      return 0;
    }
    var i := 0;
    while i < size
      invariant 0 <= i <= size
      invariant forall k :: 0 <= k < i ==> spnego[k] == oid[k]
    {
      if spnego[i] != oid[i] {
        return 0;
      }
      i := i + 1;
    }
    assert oid == spnego;
    return 1;
  }

  /** What the program prints. */
  datatype Item =
    | HexText(text: string)
    | SpnegoToken(token: NegotiationToken)
    | BrokenSpnego(wantsMore: bool)
    | GssToken(initial: InitialContextToken)
    | BrokenGss
    | Banner
    | Usage

  /** The verdict on a SPNEGO token as printed: the token, or which of the two failures it was. */
  function Reported(verdict: Verdict<NegotiationToken>): Item {
    match verdict
    case Ok(token, _) => SpnegoToken(token)
    case WMore => BrokenSpnego(true)
    case Fail => BrokenSpnego(false)
  }

  /** The program's exit code, after a dump of the octets it is about to decode. */
  method ParseSpnego(buffer: seq<Byte>) returns (exit: int, items: seq<Item>)
    ensures |items| == 2 && items[0].HexText? && HexDump.ReadDump(items[0].text) == Some(buffer)
    ensures exit == 0 <==> DecodeNegotiation(buffer).Ok?
    ensures exit == 0 || exit == 1
    ensures items[1] == Reported(DecodeNegotiation(buffer))
  {
    var text, _ := HexDump.PrintBytes(buffer);
    HexDump.DumpReadsBack(buffer);
    match DecodeNegotiation(buffer) {
      case Ok(token, _) => return 0, [HexText(text), SpnegoToken(token)];
      case WMore => return 1, [HexText(text), BrokenSpnego(true)];
      case Fail => return 1, [HexText(text), BrokenSpnego(false)];
    }
  }

  method ParseGssapi(buffer: seq<Byte>) returns (exit: int, items: seq<Item>)
    ensures exit == 0 || exit == 1
    ensures !DecodeInitialContext(buffer).Ok? ==> exit == 1 && items == [BrokenGss]
    ensures DecodeInitialContext(buffer).Ok? ==>
              var token := DecodeInitialContext(buffer).value;
              if token.thisMech != SPNEGO then exit == 0 && items == [GssToken(token)]
              else
                && |items| == 4 && items[..2] == [GssToken(token), Banner]
                && items[2].HexText? && HexDump.ReadDump(items[2].text) == Some(token.innerContextToken)
                && exit == (if DecodeNegotiation(token.innerContextToken).Ok? then 0 else 1)
                && items[3] == Reported(DecodeNegotiation(token.innerContextToken))
  {
    match DecodeInitialContext(buffer) {
      case Ok(token, _) =>
        // the structure holds the identifier's contents octets
        OidRoundTrip(token.thisMech);
        var spnego := CheckIfSpnego(EncodeOid(token.thisMech));
        exit, items := 0, [GssToken(token)];
        if spnego == 1 {
          var inner;
          exit, inner := ParseSpnego(token.innerContextToken);
          items := items + [Banner] + inner;
        }
      case _ => return 1, [BrokenGss];
    }
  }

  const BUFFER_SIZE := 2048

  /** What one fread into the fixed buffer brings in. */
  function FirstRead(file: seq<Byte>): (buff: seq<Byte>)
    ensures |buff| <= 2048 && buff <= file && (buff == file || |buff| == 2048)
  {
    if |file| < BUFFER_SIZE then file else file[..BUFFER_SIZE]
  }

  /** decoder.c, main: at most 2048 octets of the file are looked at. */
  method DecodeFile(file: seq<Byte>, mode: string) returns (exit: int, items: seq<Item>)
    ensures file == [] ==> exit == 1 && items == []
    // a file holding one initial token, whatever follows it
    ensures mode == "gssapi" ==>
              forall t, rest :: InitialContextEncodable(t) && file == EncodeInitialContext(t) + rest ==>
              if |EncodeInitialContext(t)| > BUFFER_SIZE then exit == 1 && items == [BrokenGss]
              else items != [] && items[0] == GssToken(t) && (t.thisMech != SPNEGO ==> exit == 0)
    // a SPNEGO token inside it is decoded as well
    ensures mode == "gssapi" ==> forall t, n, extras, rest ::
              && InitialContextEncodable(t) && file == EncodeInitialContext(t) + rest
              && |EncodeInitialContext(t)| <= BUFFER_SIZE && t.thisMech == SPNEGO
              && NegotiationEncodable(n, extras) && t.innerContextToken == EncodeNegotiation(n, extras) ==>
              exit == 0 && |items| == 4 && items[3] == SpnegoToken(n)
    // a file holding one SPNEGO token
    ensures mode == "spnego" ==> forall n, extras, rest ::
              NegotiationEncodable(n, extras) && file == EncodeNegotiation(n, extras) + rest ==>
              if |EncodeNegotiation(n, extras)| > BUFFER_SIZE
              then exit == 1 && |items| == 2 && items[1] == BrokenSpnego(true)
              else exit == 0 && |items| == 2 && items[1] == SpnegoToken(n)
    // whatever else the file holds: the verdict on its first 2048 octets
    ensures file != [] && mode == "spnego" ==>
              var verdict := DecodeNegotiation(FirstRead(file));
              |items| == 2 && items[1] == Reported(verdict) && exit == if verdict.Ok? then 0 else 1
    ensures file != [] && mode == "gssapi" ==>
              match DecodeInitialContext(FirstRead(file))
              case Ok(token, _) =>
                if token.thisMech != SPNEGO then exit == 0 && items == [GssToken(token)]
                else
                  var verdict := DecodeNegotiation(token.innerContextToken);
                  && exit == (if verdict.Ok? then 0 else 1)
                  && |items| == 4 && items[..2] == [GssToken(token), Banner] && items[3] == Reported(verdict)
              case _ => exit == 1 && items == [BrokenGss]
    ensures file != [] && mode != "gssapi" && mode != "spnego" ==> exit == 0 && items == [Usage]
  {
    hide InitialContextEncodable, EncodeInitialContext, DecodeInitialContext;
    hide NegotiationEncodable, EncodeNegotiation, DecodeNegotiation;
    var buff := FirstRead(file);
    forall t, rest | InitialContextEncodable(t) && file == EncodeInitialContext(t) + rest
      ensures if |EncodeInitialContext(t)| > BUFFER_SIZE then DecodeInitialContext(buff).WMore?
              else DecodeInitialContext(buff) == Ok(t, |EncodeInitialContext(t)|)
    {
      CutInitialContext(t, rest);
    }
    forall n, extras, rest | NegotiationEncodable(n, extras) && file == EncodeNegotiation(n, extras) + rest
      ensures if |EncodeNegotiation(n, extras)| > BUFFER_SIZE then DecodeNegotiation(buff).WMore?
              else DecodeNegotiation(buff) == Ok(n, |EncodeNegotiation(n, extras)|)
    {
      CutNegotiation(n, extras, rest);
    }
    forall n, extras | NegotiationEncodable(n, extras)
      ensures var s := EncodeNegotiation(n, extras);
              DecodeNegotiation(s) == Ok(n, |s|)
    {
      CutFree(n, extras);
    }
    if buff == [] {
      NothingDecoded();
      return 1, [];
    }
    if mode == "gssapi" {
      exit, items := ParseGssapi(buff);
    } else if mode == "spnego" {
      exit, items := ParseSpnego(buff);
    } else {
      return 0, [Usage];
    }
  }

  lemma NothingDecoded()
    ensures DecodeInitialContext([]).WMore? && DecodeNegotiation([]).WMore?
  {
  }

  lemma CutFree(n: NegotiationToken, extras: seq<AnyElement>)
    requires NegotiationEncodable(n, extras)
    ensures var s := EncodeNegotiation(n, extras);
            DecodeNegotiation(s) == Ok(n, |s|)
  {
    NegotiationRoundTrip(n, extras, []);
    assert EncodeNegotiation(n, extras) + [] == EncodeNegotiation(n, extras);
  }

  /** The first 2048 octets of a longer token always ask for more; of a shorter one they decode. */
  lemma CutInitialContext(t: InitialContextToken, rest: seq<Byte>)
    requires InitialContextEncodable(t)
    ensures var s := EncodeInitialContext(t);
            var buff := FirstRead(s + rest);
            if |s| > BUFFER_SIZE then DecodeInitialContext(buff).WMore? else DecodeInitialContext(buff) == Ok(t, |s|)
  {
    var s := EncodeInitialContext(t);
    var file := s + rest;
    if |s| > BUFFER_SIZE {
      InitialContextPrefix(t, BUFFER_SIZE);
      assert file[..BUFFER_SIZE] == s[..BUFFER_SIZE];
    } else {
      var kept := if |file| < BUFFER_SIZE then rest else rest[..BUFFER_SIZE - |s|];
      InitialContextRoundTrip(t, kept);
      assert (if |file| < BUFFER_SIZE then file else file[..BUFFER_SIZE]) == s + kept;
    }
  }

  lemma CutNegotiation(n: NegotiationToken, extras: seq<AnyElement>, rest: seq<Byte>)
    requires NegotiationEncodable(n, extras)
    ensures var s := EncodeNegotiation(n, extras);
            var buff := FirstRead(s + rest);
            if |s| > BUFFER_SIZE then DecodeNegotiation(buff).WMore? else DecodeNegotiation(buff) == Ok(n, |s|)
  {
    var s := EncodeNegotiation(n, extras);
    var file := s + rest;
    if |s| > BUFFER_SIZE {
      NegotiationPrefix(n, extras, BUFFER_SIZE);
      assert file[..BUFFER_SIZE] == s[..BUFFER_SIZE];
    } else {
      var kept := if |file| < BUFFER_SIZE then rest else rest[..BUFFER_SIZE - |s|];
      NegotiationRoundTrip(n, extras, kept);
      assert (if |file| < BUFFER_SIZE then file else file[..BUFFER_SIZE]) == s + kept;
    }
  }
}
