/**
  * The token grammar: InitialContextToken (section 3.1 of RFC 2743) and NegotiationToken
  * (sections 4.2.1 and 4.2.2 of RFC 4178), as grammar terms and as typed values.
  */
module Tokens {
  import opened Bytes
  import opened Oid
  import opened Wrappers
  import opened Asn1
  import opened Asn1Proofs

  // The grammar

  const MECH_TYPE := Tagged(0x06, Primitive(ObjectId))
  const OCTETS := Tagged(0x04, Primitive(OctetString))
  const MECH_TYPE_LIST := Tagged(0x30, SequenceOf(MECH_TYPE))
  const CONTEXT_FLAGS := Tagged(0x03, Primitive(FlagBits))
  const NEG_STATE := Tagged(0x0A, Primitive(Enumerated(4)))

  /** Context tags [0] to [3], constructed; both SEQUENCEs use these four. */
  const KNOWN: set<Byte> := {0xA0, 0xA1, 0xA2, 0xA3}

  const INIT_TAIL := Optional(Tagged(0xA2, Explicit(OCTETS)),
                              Optional(Tagged(0xA3, Explicit(OCTETS)), Extensible(KNOWN)))

  const INIT_FIELDS :=
    Required(Tagged(0xA0, Explicit(MECH_TYPE_LIST)),
      Optional(Tagged(0xA1, Explicit(CONTEXT_FLAGS)), INIT_TAIL))

  const RESP_FIELDS :=
    Optional(Tagged(0xA0, Explicit(NEG_STATE)),
      Optional(Tagged(0xA1, Explicit(MECH_TYPE)), INIT_TAIL))

  const NEGOTIATION_TOKEN :=
    Choice(0xA0, Explicit(Tagged(0x30, Sequence(INIT_FIELDS))),
      Tagged(0xA1, Explicit(Tagged(0x30, Sequence(RESP_FIELDS)))))

  /** IMPLICIT: the application tag replaces the SEQUENCE tag. */
  const INITIAL_CONTEXT_TOKEN := Tagged(0x60, Sequence(Required(MECH_TYPE, Opaque)))

  // Typed values

  datatype NegState = AcceptCompleted | AcceptIncomplete | Reject | RequestMic

  datatype NegTokenInit = NegTokenInit(
    mechTypes: seq<seq<nat>>, reqFlags: Option<seq<Byte>>,
    mechToken: Option<seq<Byte>>, mechListMic: Option<seq<Byte>>)

  datatype NegTokenResp = NegTokenResp(
    negState: Option<NegState>, supportedMech: Option<seq<nat>>,
    responseToken: Option<seq<Byte>>, mechListMic: Option<seq<Byte>>)

  datatype NegotiationToken = NegInit(init: NegTokenInit) | NegResp(resp: NegTokenResp)

  datatype InitialContextToken = InitialContextToken(thisMech: seq<nat>, innerContextToken: seq<Byte>)

  /** Object identifiers are valid and flags have 32 bits; everything else is free. */
  predicate WellTyped(t: NegotiationToken) {
    match t
    case NegInit(i) =>
      && (forall m :: m in i.mechTypes ==> ValidOid(m))
      && (i.reqFlags.Some? ==> |i.reqFlags.value| == 4)
    case NegResp(r) => r.supportedMech.Some? ==> ValidOid(r.supportedMech.value)
  }

  /** Extension elements that a later version of the protocol may append: any tags but the known ones. */
  predicate WellTypedExtras(extras: seq<AnyElement>) {
    forall x :: x in extras ==> ValidIdentifier(x.id) && EncodeIdentifier(x.id)[0] !in KNOWN
  }

  // Typed values as grammar values

  function StateNumber(s: NegState): (n: nat)
    ensures n < 4
  {
    match s
    case AcceptCompleted => 0
    case AcceptIncomplete => 1
    case Reject => 2
    case RequestMic => 3
  }

  function NumberState(n: nat): NegState {
    if n == 0 then AcceptCompleted else if n == 1 then AcceptIncomplete else if n == 2 then Reject else RequestMic
  }

  function ListValue(mechs: seq<seq<nat>>): Value {
    if mechs == [] then Nil else Cons(Arcs(mechs[0]), ListValue(mechs[1..]))
  }

  function ExtrasValue(extras: seq<AnyElement>): Value {
    if extras == [] then Nil else Extra(extras[0].id, extras[0].contents, ExtrasValue(extras[1..]))
  }

  function OptionalValue(o: Option<Value>, tail: Value): Value {
    if o.Some? then Cons(o.value, tail) else Absent(tail)
  }

  function OctetsOption(o: Option<seq<Byte>>): Option<Value> {
    if o.Some? then Some(Octets(o.value)) else None
  }

  function TailValue(token: Option<seq<Byte>>, mic: Option<seq<Byte>>, extras: seq<AnyElement>): Value {
    OptionalValue(OctetsOption(token), OptionalValue(OctetsOption(mic), ExtrasValue(extras)))
  }

  function InitValue(i: NegTokenInit, extras: seq<AnyElement>): Value {
    Cons(ListValue(i.mechTypes),
         OptionalValue(if i.reqFlags.Some? then Some(Flags(i.reqFlags.value)) else None,
                       TailValue(i.mechToken, i.mechListMic, extras)))
  }

  function RespValue(r: NegTokenResp, extras: seq<AnyElement>): Value {
    OptionalValue(if r.negState.Some? then Some(Ordinal(StateNumber(r.negState.value))) else None,
                  OptionalValue(if r.supportedMech.Some? then Some(Arcs(r.supportedMech.value)) else None,
                                TailValue(r.responseToken, r.mechListMic, extras)))
  }

  function NegotiationValue(t: NegotiationToken, extras: seq<AnyElement>): Value {
    match t
    case NegInit(i) => First(InitValue(i, extras))
    case NegResp(r) => Other(RespValue(r, extras))
  }

  // The shape of the grammar's values

  predicate OctetsOrAbsent(v: Value) {
    v.Absent? || (v.Cons? && v.head.Octets?)
  }

  predicate TailShape(v: Value) {
    OctetsOrAbsent(v) && OctetsOrAbsent(v.tail) && IsExtras(KNOWN, v.tail.tail)
  }

  predicate InitShape(v: Value) {
    && v.Cons? && IsList(MECH_TYPE, v.head)
    && (v.tail.Absent? || (v.tail.Cons? && v.tail.head.Flags? && |v.tail.head.flags| == 4))
    && TailShape(v.tail.tail)
  }

  predicate RespShape(v: Value) {
    && (v.Absent? || (v.Cons? && v.head.Ordinal? && v.head.ordinal < 4))
    && (v.tail.Absent? || (v.tail.Cons? && v.tail.head.Arcs? && ValidOid(v.tail.head.arcs)))
    && TailShape(v.tail.tail)
  }

  predicate NegotiationShape(v: Value) {
    (v.First? && InitShape(v.value)) || (v.Other? && RespShape(v.value))
  }

  lemma TaggedLeaf(tag: Byte, leaf: Leaf, v: Value)
    ensures IsElem(Tagged(tag, Primitive(leaf)), v) == ValidLeaf(leaf, v)
  {
    assert IsBody(Primitive(leaf), v) == ValidLeaf(leaf, v);
  }

  lemma ExplicitElem(tag: Byte, e: Elem, v: Value)
    ensures IsElem(Tagged(tag, Explicit(e)), v) == IsElem(e, v)
  {
    assert IsBody(Explicit(e), v) == IsElem(e, v);
  }

  lemma ExplicitLeaf(tag: Byte, inner: Byte, leaf: Leaf, v: Value)
    ensures IsElem(Tagged(tag, Explicit(Tagged(inner, Primitive(leaf)))), v) == ValidLeaf(leaf, v)
  {
    ExplicitElem(tag, Tagged(inner, Primitive(leaf)), v);
    TaggedLeaf(inner, leaf, v);
  }

  lemma TailIsShape(v: Value)
    ensures IsFields(INIT_TAIL, v) == TailShape(v)
  {
    if v.Absent? || v.Cons? {
      if v.Cons? {
        ExplicitLeaf(0xA2, 0x04, OctetString, v.head);
      }
      if v.tail.Cons? {
        ExplicitLeaf(0xA3, 0x04, OctetString, v.tail.head);
      }
    }
  }

  lemma InitIsShape(v: Value)
    ensures IsFields(INIT_FIELDS, v) == InitShape(v)
  {
    if v.Cons? {
      ExplicitElem(0xA0, MECH_TYPE_LIST, v.head);
      assert IsElem(MECH_TYPE_LIST, v.head) == IsBody(SequenceOf(MECH_TYPE), v.head) == IsList(MECH_TYPE, v.head);
      if v.tail.Cons? {
        ExplicitLeaf(0xA1, 0x03, FlagBits, v.tail.head);
      }
      if v.tail.Cons? || v.tail.Absent? {
        TailIsShape(v.tail.tail);
      }
      hide IsElem;
    }
  }

  lemma RespIsShape(v: Value)
    ensures IsFields(RESP_FIELDS, v) == RespShape(v)
  {
    if v.Cons? || v.Absent? {
      if v.Cons? {
        ExplicitLeaf(0xA0, 0x0A, Enumerated(4), v.head);
      }
      if v.tail.Cons? {
        ExplicitLeaf(0xA1, 0x06, ObjectId, v.tail.head);
      }
      if v.tail.Cons? || v.tail.Absent? {
        TailIsShape(v.tail.tail);
      }
      hide IsElem;
    }
  }

  lemma NegotiationIsShape(v: Value)
    ensures IsElem(NEGOTIATION_TOKEN, v) == NegotiationShape(v)
  {
    if v.First? {
      InitIsShape(v.value);
      var sequence := Tagged(0x30, Sequence(INIT_FIELDS));
      assert IsBody(Explicit(sequence), v.value) == IsElem(sequence, v.value) == IsBody(Sequence(INIT_FIELDS), v.value);
    } else if v.Other? {
      RespIsShape(v.value);
      var sequence := Tagged(0x30, Sequence(RESP_FIELDS));
      ExplicitElem(0xA1, sequence, v.value);
      assert IsElem(sequence, v.value) == IsBody(Sequence(RESP_FIELDS), v.value);
    }
  }

  // Reading the typed value back; extension elements go to the second component

  function ListOf(v: Value): seq<seq<nat>>
    requires IsList(MECH_TYPE, v)
    decreases v
  {
    if v.Nil? then []
    else
      TaggedLeaf(0x06, ObjectId, v.head);
      [v.head.arcs] + ListOf(v.tail)
  }

  function ExtrasOf(v: Value): seq<AnyElement>
    requires IsExtras(KNOWN, v)
    decreases v
  {
    if v.Nil? then [] else [AnyElement(v.id, v.contents)] + ExtrasOf(v.tail)
  }

  function OctetsField(v: Value): Option<seq<Byte>>
    requires OctetsOrAbsent(v)
  {
    if v.Absent? then None else Some(v.head.octets)
  }

  function InitOf(v: Value): (NegTokenInit, seq<AnyElement>)
    requires InitShape(v)
  {
    var flags, token := v.tail, v.tail.tail;
    (NegTokenInit(ListOf(v.head), if flags.Absent? then None else Some(flags.head.flags),
                  OctetsField(token), OctetsField(token.tail)),
     ExtrasOf(token.tail.tail))
  }

  function RespOf(v: Value): (NegTokenResp, seq<AnyElement>)
    requires RespShape(v)
  {
    var mech, token := v.tail, v.tail.tail;
    (NegTokenResp(if v.Absent? then None else Some(NumberState(v.head.ordinal)),
                  if mech.Absent? then None else Some(mech.head.arcs),
                  OctetsField(token), OctetsField(token.tail)),
     ExtrasOf(token.tail.tail))
  }

  function NegotiationOf(v: Value): (NegotiationToken, seq<AnyElement>)
    requires NegotiationShape(v)
  {
    if v.First? then
      var (i, x) := InitOf(v.value); (NegInit(i), x)
    else
      var (r, x) := RespOf(v.value); (NegResp(r), x)
  }

  // What the decoder returns: the known components; extension elements are dropped

  function DecodeNegotiation(s: seq<Byte>): (r: Verdict<NegotiationToken>)
    ensures r.Ok? ==> r.consumed <= |s|
  {
    match DecodeElem(NEGOTIATION_TOKEN, s)
    case Ok(v, n) => ElemCanonical(NEGOTIATION_TOKEN, s); NegotiationIsShape(v); Ok(NegotiationOf(v).0, n)
    case WMore => WMore
    case Fail => Fail
  }

  function DecodeInitialContext(s: seq<Byte>): (r: Verdict<InitialContextToken>)
    ensures r.Ok? ==> r.consumed <= |s| && ValidOid(r.value.thisMech)
  {
    match DecodeElem(INITIAL_CONTEXT_TOKEN, s)
    case Ok(v, n) =>
      ElemCanonical(INITIAL_CONTEXT_TOKEN, s);
      InitialContextShape(v);
      Ok(InitialContextToken(v.head.arcs, v.tail.octets), n)
    case WMore => WMore
    case Fail => Fail
  }

  lemma InitialContextShape(v: Value)
    requires IsElem(INITIAL_CONTEXT_TOKEN, v)
    ensures v.Cons? && v.head.Arcs? && ValidOid(v.head.arcs) && v.tail.Octets?
  {
    assert IsBody(Sequence(Required(MECH_TYPE, Opaque)), v);
    assert IsFields(Required(MECH_TYPE, Opaque), v);
    TaggedLeaf(0x06, ObjectId, v.head);
  }

  /** The token can be encoded: it is well typed and its outermost length has a form. */
  predicate NegotiationEncodable(t: NegotiationToken, extras: seq<AnyElement>) {
    WellTyped(t) && WellTypedExtras(extras) && Encodable(NEGOTIATION_TOKEN, NegotiationValue(t, extras))
  }

  function EncodeNegotiation(t: NegotiationToken, extras: seq<AnyElement>): seq<Byte>
    requires NegotiationEncodable(t, extras)
  {
    EncodeElem(NEGOTIATION_TOKEN, NegotiationValue(t, extras))
  }

  function InitialContextValue(t: InitialContextToken): Value {
    Cons(Arcs(t.thisMech), Octets(t.innerContextToken))
  }

  predicate InitialContextEncodable(t: InitialContextToken) {
    ValidOid(t.thisMech) && Encodable(INITIAL_CONTEXT_TOKEN, InitialContextValue(t))
  }

  function EncodeInitialContext(t: InitialContextToken): seq<Byte>
    requires InitialContextEncodable(t)
  {
    EncodeElem(INITIAL_CONTEXT_TOKEN, InitialContextValue(t))
  }

  // The typed view and the grammar view agree

  lemma {:induction false} ListValueTyped(mechs: seq<seq<nat>>)
    requires forall m :: m in mechs ==> ValidOid(m)
    ensures IsList(MECH_TYPE, ListValue(mechs)) && ListOf(ListValue(mechs)) == mechs
  {
    if mechs != [] {
      ListValueTyped(mechs[1..]);
      TaggedLeaf(0x06, ObjectId, Arcs(mechs[0]));
    }
  }

  lemma {:induction false} ListOfTyped(v: Value)
    requires IsList(MECH_TYPE, v)
    ensures ListValue(ListOf(v)) == v && forall m :: m in ListOf(v) ==> ValidOid(m)
    decreases v
  {
    if v.Cons? {
      ListOfTyped(v.tail);
      TaggedLeaf(0x06, ObjectId, v.head);
    }
  }

  lemma {:induction false} ExtrasValueTyped(extras: seq<AnyElement>)
    requires WellTypedExtras(extras)
    ensures IsExtras(KNOWN, ExtrasValue(extras)) && ExtrasOf(ExtrasValue(extras)) == extras
  {
    if extras != [] {
      assert extras[0] in extras;
      assert WellTypedExtras(extras[1..]);
      ExtrasValueTyped(extras[1..]);
    }
  }

  lemma {:induction false} ExtrasOfTyped(v: Value)
    requires IsExtras(KNOWN, v)
    ensures ExtrasValue(ExtrasOf(v)) == v && WellTypedExtras(ExtrasOf(v))
    decreases v
  {
    if v.Extra? {
      ExtrasOfTyped(v.tail);
    }
  }

  lemma InitTyped(i: NegTokenInit, extras: seq<AnyElement>)
    requires WellTyped(NegInit(i)) && WellTypedExtras(extras)
    ensures var v := InitValue(i, extras);
            InitShape(v) && InitOf(v) == (i, extras)
  {
    ListValueTyped(i.mechTypes);
    ExtrasValueTyped(extras);
    hide IsList, ListOf, ListValue, IsExtras, ExtrasOf, ExtrasValue;
  }

  lemma RespTyped(r: NegTokenResp, extras: seq<AnyElement>)
    requires WellTyped(NegResp(r)) && WellTypedExtras(extras)
    ensures var v := RespValue(r, extras);
            RespShape(v) && RespOf(v) == (r, extras)
  {
    ExtrasValueTyped(extras);
    hide IsExtras, ExtrasOf, ExtrasValue;
  }

  lemma NegotiationTyped(t: NegotiationToken, extras: seq<AnyElement>)
    requires WellTyped(t) && WellTypedExtras(extras)
    ensures var v := NegotiationValue(t, extras);
            IsElem(NEGOTIATION_TOKEN, v) && NegotiationShape(v) && NegotiationOf(v) == (t, extras)
  {
    hide IsElem, InitShape, RespShape;
    if t.NegInit? {
      InitTyped(t.init, extras);
    } else {
      RespTyped(t.resp, extras);
    }
    NegotiationIsShape(NegotiationValue(t, extras));
  }

  lemma NegotiationOfTyped(v: Value)
    requires NegotiationShape(v)
    ensures var (t, extras) := NegotiationOf(v);
            WellTyped(t) && WellTypedExtras(extras) && NegotiationValue(t, extras) == v
  {
    hide IsElem;
    ExtrasOfTyped(v.value.tail.tail.tail.tail);
    if v.First? {
      ListOfTyped(v.value.head);
    }
  }
}
