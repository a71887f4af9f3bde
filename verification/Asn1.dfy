/**
  * The ASN.1 constructs that the token grammar uses, as data, and their DER meaning: an encoder
  * and an incremental decoder that answers "ok", "more octets wanted" or "failed".
  *
  * A grammar is an Elem: a choice between tagged elements. Lengths follow X.690 sections 8.1.3
  * and 10.1, identifier octets section 8.1.2.
  */
module Asn1 {
  import opened Bytes
  import opened Oid
  import opened Wrappers

  // Grammars

  datatype Leaf = OctetString | ObjectId | FlagBits | Enumerated(count: nat)

  /** One element: its identifier octet and what its contents are, or a CHOICE of several. */
  datatype Elem = Tagged(tag: Byte, body: Body) | Choice(tag: Byte, body: Body, other: Elem)

  datatype Body =
    | Primitive(leaf: Leaf)
    | Explicit(inner: Elem)   // an explicit tag: the contents are one whole element
    | SequenceOf(item: Elem)
    | Sequence(fields: Fields)

  /** The components of a SEQUENCE. Extensible is the "..." marker; Opaque is "the rest of the contents". */
  datatype Fields =
    | End
    | Extensible(known: set<Byte>)
    | Opaque
    | Required(elem: Elem, next: Fields)
    | Optional(elem: Elem, next: Fields)

  /** Values of a grammar. Extra is an extension element that the grammar does not know. */
  datatype Value =
    | Octets(octets: seq<Byte>)
    | Arcs(arcs: seq<nat>)
    | Flags(flags: seq<Byte>)
    | Ordinal(ordinal: nat)
    | First(value: Value)
    | Other(value: Value)
    | Nil
    | Cons(head: Value, tail: Value)
    | Absent(tail: Value)
    | Extra(id: Identifier, contents: seq<Byte>, tail: Value)

  /** Identifier octets: class and constructed bit in `top`, and a tag number of any size. */
  datatype Identifier = Identifier(top: nat, number: nat)

  // Lengths

  /** X.690 section 8.1.3.5: at most 126 length octets. */
  predicate LengthFits(n: nat) {
    |Big(n)| <= 126
  }

  /** The shortest length form; a length that does not fit has none. */
  function EncodeLength(n: nat): (s: seq<Byte>) {
    if n < 128 then [n]
    else if !LengthFits(n) then []
    else [128 + |Big(n)|] + Big(n)
  }

  function DecodeLength(s: seq<Byte>): (r: Verdict<nat>)
    ensures r.Ok? ==> 1 <= r.consumed <= |s|
  {
    if s == [] then WMore
    else if s[0] < 128 then Ok(s[0], 1)
    else if s[0] == 128 || s[0] == 255 then Fail // indefinite, reserved
    else LongForm(s[0] - 128, s[1..])
  }

  /** k octets of length, s being what follows their count. */
  function LongForm(k: nat, s: seq<Byte>): (r: Verdict<nat>)
    ensures r.Ok? ==> 1 <= r.consumed <= |s| + 1
  {
    if s != [] && (s[0] == 0 || (k == 1 && s[0] < 128)) then Fail // not the shortest form
    else if |s| < k then WMore
    else Ok(FromBig(s[..k]), 1 + k)
  }

  lemma LengthFitsDown(m: nat, n: nat)
    requires m <= n && LengthFits(n)
    ensures LengthFits(m) && |EncodeLength(m)| <= |EncodeLength(n)|
  {
    BigMonotone(m, n);
  }

  lemma LongFormReads(ds: seq<Byte>, t: seq<Byte>)
    requires ds != [] && ds[0] > 0 && (|ds| == 1 ==> ds[0] >= 128)
    ensures LongForm(|ds|, ds + t) == Ok(FromBig(ds), 1 + |ds|)
  {
    hide FromBig;
    assert (ds + t)[..|ds|] == ds;
  }

  lemma LengthRoundTrip(n: nat, t: seq<Byte>)
    requires LengthFits(n)
    ensures DecodeLength(EncodeLength(n) + t) == Ok(n, |EncodeLength(n)|)
  {
    hide Big, FromBig, LongForm;
    if n < 128 {
      assert (EncodeLength(n) + t)[0] == n;
    } else {
      BigRoundTrip(n);
      LongFormReads(Big(n), t);
      var s := EncodeLength(n) + t;
      assert s[0] == 128 + |Big(n)| && s[1..] == Big(n) + t;
    }
  }

  lemma LengthCanonical(s: seq<Byte>)
    requires DecodeLength(s).Ok?
    ensures LengthFits(DecodeLength(s).value)
    ensures EncodeLength(DecodeLength(s).value) == s[..DecodeLength(s).consumed]
  {
    if s[0] >= 128 {
      var k := s[0] - 128;
      var ds := s[1..][..k];
      BigCanonical(ds);
      hide Big, FromBig;
      BigSmall(FromBig(ds));
      assert s[..1 + k] == [s[0]] + ds;
    } else {
      BigSmall(s[0]);
    }
  }

  lemma BigSmall(n: nat)
    ensures n < 256 ==> Big(n) == if n == 0 then [] else [n]
  {
    assert Big(0) == [];
  }

  lemma LengthStable(s: seq<Byte>, s': seq<Byte>)
    requires s <= s' && !DecodeLength(s).WMore?
    ensures DecodeLength(s') == DecodeLength(s)
  {
    if s[0] > 128 && DecodeLength(s).Ok? {
      var k := s[0] - 128;
      assert s'[1..][..k] == s[1..][..k];
    }
  }

  // Identifier octets

  /** Universal tag 0 is reserved for end-of-contents octets, which DER never uses. */
  predicate ValidIdentifier(id: Identifier) {
    id.top < 8 && !(id.top == 0 && id.number == 0)
  }

  function EncodeIdentifier(id: Identifier): (s: seq<Byte>)
    requires ValidIdentifier(id)
    ensures s != []
  {
    if id.number < 31 then [32 * id.top + id.number] else [32 * id.top + 31] + EncodeArc(id.number)
  }

  function DecodeIdentifier(s: seq<Byte>): (r: Verdict<Identifier>)
    ensures r.Ok? ==> 1 <= r.consumed <= |s|
  {
    if s == [] then WMore
    else if s[0] == 0 then Fail
    else if s[0] % 32 != 31 then Ok(Identifier(s[0] / 32, s[0] % 32), 1)
    else
      match DecodeArc(s[1..])
      case Ok(n, k) => if n < 31 then Fail else Ok(Identifier(s[0] / 32, n), 1 + k)
      case WMore => WMore
      case Fail => Fail
  }

  lemma IdentifierRoundTrip(id: Identifier, t: seq<Byte>)
    requires ValidIdentifier(id)
    ensures DecodeIdentifier(EncodeIdentifier(id) + t) == Ok(id, |EncodeIdentifier(id)|)
  {
    hide DecodeArc, EncodeArc;
    var s := EncodeIdentifier(id) + t;
    if id.number >= 31 {
      ArcRoundTrip(id.number, t);
      assert s[1..] == EncodeArc(id.number) + t;
    }
  }

  lemma IdentifierCanonical(s: seq<Byte>)
    requires DecodeIdentifier(s).Ok?
    ensures ValidIdentifier(DecodeIdentifier(s).value)
    ensures EncodeIdentifier(DecodeIdentifier(s).value) == s[..DecodeIdentifier(s).consumed]
  {
    hide DecodeArc, EncodeArc;
    if s[0] % 32 == 31 {
      ArcCanonical(s[1..]);
    }
  }

  lemma IdentifierStable(s: seq<Byte>, s': seq<Byte>)
    requires s <= s' && !DecodeIdentifier(s).WMore?
    ensures DecodeIdentifier(s') == DecodeIdentifier(s)
  {
    if s[0] != 0 && s[0] % 32 == 31 {
      ArcStable(s[1..], s'[1..]);
    }
  }

  // Leaves

  function TrailingZeros(b: nat): (u: nat)
    requires 0 < b < 256
    ensures u < 8
  {
    if b % 2 == 1 then 0
    else if b % 4 == 2 then 1
    else if b % 8 == 4 then 2
    else if b % 16 == 8 then 3
    else if b % 32 == 16 then 4
    else if b % 64 == 32 then 5
    else if b % 128 == 64 then 6
    else 7
  }

  function StripZeros(s: seq<Byte>): (r: seq<Byte>)
    ensures |r| <= |s|
    ensures r != [] ==> r[|r| - 1] != 0
    ensures r + seq(|s| - |r|, _ => 0) == s
  {
    if s != [] && s[|s| - 1] == 0 then
      var r := StripZeros(s[..|s| - 1]);
      assert s == s[..|s| - 1] + [0];
      assert seq(|s| - |r|, _ => 0) == seq(|s| - 1 - |r|, _ => 0) + [0];
      r
    else s
  }

  lemma {:induction false} StripPadded(r: seq<Byte>, k: nat)
    requires r != [] ==> r[|r| - 1] != 0
    ensures StripZeros(r + seq(k, _ => 0)) == r
  {
    var s := r + seq(k, _ => 0);
    if k == 0 {
      assert s == r;
    } else {
      assert s[..|s| - 1] == r + seq(k - 1, _ => 0);
      StripPadded(r, k - 1);
    }
  }

  predicate ValidLeaf(leaf: Leaf, v: Value) {
    match leaf
    case OctetString => v.Octets?
    case ObjectId => v.Arcs? && ValidOid(v.arcs)
    case FlagBits => v.Flags? && |v.flags| == 4
    case Enumerated(count) => v.Ordinal? && v.ordinal < count && v.ordinal < 128
  }

  /** Contents octets. A BIT STRING with named bits loses its trailing zero bits (X.690 section 11.2.2). */
  function EncodeLeaf(leaf: Leaf, v: Value): (s: seq<Byte>)
    requires ValidLeaf(leaf, v)
  {
    match leaf
    case OctetString => v.octets
    case ObjectId => EncodeOid(v.arcs)
    case FlagBits =>
      var bits := StripZeros(v.flags);
      if bits == [] then [0] else [TrailingZeros(bits[|bits| - 1])] + bits
    case Enumerated(_) => [v.ordinal]
  }

  function DecodeLeaf(leaf: Leaf, s: seq<Byte>): (r: Option<Value>) {
    match leaf
    case OctetString => Some(Octets(s))
    case ObjectId =>
      (match DecodeOid(s)
       case Some(arcs) => Some(Arcs(arcs))
       case None => None)
    case FlagBits =>
      if 1 <= |s| <= 5 && (if |s| == 1 then s[0] == 0 else s[|s| - 1] != 0 && s[0] == TrailingZeros(s[|s| - 1]))
      then Some(Flags(s[1..] + seq(5 - |s|, _ => 0)))
      else None
    case Enumerated(count) =>
      if |s| == 1 && s[0] < count && s[0] < 128 then Some(Ordinal(s[0])) else None
  }

  lemma LeafRoundTrip(leaf: Leaf, v: Value)
    requires ValidLeaf(leaf, v)
    ensures DecodeLeaf(leaf, EncodeLeaf(leaf, v)) == Some(v)
  {
    match leaf
    case OctetString =>
    case ObjectId => OidRoundTrip(v.arcs);
    case FlagBits =>
      var bits := StripZeros(v.flags);
      assert EncodeLeaf(leaf, v)[1..] == bits;
    case Enumerated(_) =>
  }

  lemma LeafCanonical(leaf: Leaf, s: seq<Byte>)
    requires DecodeLeaf(leaf, s).Some?
    ensures ValidLeaf(leaf, DecodeLeaf(leaf, s).value)
    ensures EncodeLeaf(leaf, DecodeLeaf(leaf, s).value) == s
  {
    match leaf
    case OctetString =>
    case ObjectId => OidCanonical(s);
    case FlagBits =>
      StripPadded(s[1..], 5 - |s|);
    case Enumerated(_) =>
  }

  // Encoding

  function EncodeTlv(tag: Byte, contents: seq<Byte>): (s: seq<Byte>)
    ensures s != []
  {
    [tag] + EncodeLength(|contents|) + contents
  }

  function EncodeElem(e: Elem, v: Value): (s: seq<Byte>)
    requires IsElem(e, v)
    ensures s != [] && s[0] in FirstOctets(e)
    decreases e, 1
  {
    match e
    case Tagged(tag, body) => EncodeTlv(tag, EncodeBody(body, v))
    case Choice(tag, body, other) =>
      if v.First? then EncodeTlv(tag, EncodeBody(body, v.value)) else EncodeElem(other, v.value)
  }

  /** The contents octets of an element. */
  function Contents(e: Elem, v: Value): (s: seq<Byte>)
    requires IsElem(e, v)
    ensures |s| < |EncodeElem(e, v)|
    decreases e, 2
  {
    match e
    case Tagged(tag, body) => EncodeBody(body, v)
    case Choice(tag, body, other) => if v.First? then EncodeBody(body, v.value) else Contents(other, v.value)
  }

  /** A value has an encoding when it belongs to the grammar and its outermost length has a form. */
  predicate Encodable(e: Elem, v: Value) {
    IsElem(e, v) && LengthFits(|Contents(e, v)|)
  }

  function EncodeBody(b: Body, v: Value): (s: seq<Byte>)
    requires IsBody(b, v)
    decreases b, 1
  {
    match b
    case Primitive(leaf) => EncodeLeaf(leaf, v)
    case Explicit(inner) => EncodeElem(inner, v)
    case SequenceOf(item) => EncodeList(item, v)
    case Sequence(fields) => EncodeFields(fields, v)
  }

  function EncodeList(item: Elem, v: Value): (s: seq<Byte>)
    requires IsList(item, v)
    decreases item, 2, v
  {
    if v.Nil? then [] else EncodeElem(item, v.head) + EncodeList(item, v.tail)
  }

  function EncodeFields(f: Fields, v: Value): (s: seq<Byte>)
    requires IsFields(f, v)
    decreases f, 1
  {
    match f
    case End => []
    case Extensible(known) => EncodeExtras(known, v)
    case Opaque => v.octets
    case Required(e, next) => EncodeElem(e, v.head) + EncodeFields(next, v.tail)
    case Optional(e, next) =>
      if v.Absent? then EncodeFields(next, v.tail) else EncodeElem(e, v.head) + EncodeFields(next, v.tail)
  }

  function EncodeExtra(id: Identifier, contents: seq<Byte>): (s: seq<Byte>)
    requires ValidIdentifier(id)
    ensures s != [] && s[0] == EncodeIdentifier(id)[0] && |contents| <= |s|
  {
    EncodeIdentifier(id) + EncodeLength(|contents|) + contents
  }

  function EncodeExtras(known: set<Byte>, v: Value): (s: seq<Byte>)
    requires IsExtras(known, v)
    decreases v
  {
    if v.Nil? then [] else EncodeExtra(v.id, v.contents) + EncodeExtras(known, v.tail)
  }

  // Which values belong to a grammar

  function FirstOctets(e: Elem): set<Byte> {
    match e
    case Tagged(tag, _) => {tag}
    case Choice(tag, _, other) => {tag} + FirstOctets(other)
  }

  predicate IsElem(e: Elem, v: Value)
    decreases e, 0
  {
    match e
    case Tagged(_, body) => IsBody(body, v)
    case Choice(_, body, other) =>
      if v.First? then IsBody(body, v.value) else v.Other? && IsElem(other, v.value)
  }

  predicate IsBody(b: Body, v: Value)
    decreases b, 0
  {
    match b
    case Primitive(leaf) => ValidLeaf(leaf, v)
    case Explicit(inner) => IsElem(inner, v)
    case SequenceOf(item) => IsList(item, v)
    case Sequence(fields) => IsFields(fields, v)
  }

  predicate IsList(item: Elem, v: Value)
    decreases item, 1, v
  {
    v.Nil? || (v.Cons? && IsElem(item, v.head) && IsList(item, v.tail))
  }

  predicate IsFields(f: Fields, v: Value)
    decreases f, 0
  {
    match f
    case End => v.Nil?
    case Extensible(known) => IsExtras(known, v)
    case Opaque => v.Octets?
    case Required(e, next) => v.Cons? && IsElem(e, v.head) && IsFields(next, v.tail)
    case Optional(e, next) =>
      if v.Absent? then IsFields(next, v.tail)
      else v.Cons? && IsElem(e, v.head) && IsFields(next, v.tail)
  }

  /** Extension elements are well formed and start with an octet that no known component has. */
  predicate IsExtras(known: set<Byte>, v: Value)
    decreases v
  {
    || v.Nil?
    || (&& v.Extra?
        && ValidIdentifier(v.id)
        && EncodeIdentifier(v.id)[0] !in known
        && IsExtras(known, v.tail))
  }

  // Grammars whose alternatives and optional components can be told apart by their first octet

  predicate DistinctElem(e: Elem) {
    match e
    case Tagged(_, body) => DistinctBody(body)
    case Choice(tag, body, other) => tag !in FirstOctets(other) && DistinctBody(body) && DistinctElem(other)
  }

  predicate DistinctBody(b: Body) {
    match b
    case Primitive(_) => true
    case Explicit(inner) => DistinctElem(inner)
    case SequenceOf(item) => DistinctElem(item)
    case Sequence(fields) => DistinctFields(fields)
  }

  predicate DistinctFields(f: Fields) {
    match f
    case Required(e, next) => DistinctElem(e) && DistinctFields(next)
    case Optional(e, next) => DistinctElem(e) && DistinctFields(next) && CannotStart(next, FirstOctets(e))
    case _ => true
  }

  /** No value of f has an encoding that starts with one of these octets. */
  predicate CannotStart(f: Fields, octets: set<Byte>) {
    match f
    case End => true
    case Extensible(known) => octets <= known
    case Opaque => false
    case Required(e, _) => octets !! FirstOctets(e)
    case Optional(e, next) => octets !! FirstOctets(e) && CannotStart(next, octets)
  }

  // Incremental decoding

  /** Inside contents that are all there, wanting more octets is an error. */
  function Bounded<T>(r: Verdict<T>, complete: bool): Verdict<T> {
    if r.WMore? && complete then Fail else r
  }

  /** The octets of the contents that have arrived so far. */
  function Arrived(s: seq<Byte>, start: nat, len: nat): (a: seq<Byte>)
    requires start <= |s|
    ensures |a| <= len
  {
    if |s| < start + len then s[start..] else s[start..start + len]
  }

  function DecodeElem(e: Elem, s: seq<Byte>): (r: Verdict<Value>)
    ensures r.Ok? ==> 1 <= r.consumed <= |s|
    decreases e, 1
  {
    if s == [] then WMore
    else
      match e
      case Tagged(tag, body) => if s[0] == tag then DecodeTlv(body, s) else Fail
      case Choice(tag, body, other) =>
        if s[0] == tag then
          match DecodeTlv(body, s) {
            case Ok(v, n) => Ok(First(v), n)
            case WMore => WMore
            case Fail => Fail
          }
        else
          match DecodeElem(other, s) {
            case Ok(v, n) => Ok(Other(v), n)
            case WMore => WMore
            case Fail => Fail
          }
  }

  function DecodeTlv(b: Body, s: seq<Byte>): (r: Verdict<Value>)
    requires s != []
    ensures r.Ok? ==> 1 <= r.consumed <= |s|
    decreases b, 1
  {
    match DecodeLength(s[1..])
    case WMore => WMore
    case Fail => Fail
    case Ok(len, k) =>
      match DecodeBody(b, len, Arrived(s, 1 + k, len))
      case Ok(v, _) => Ok(v, 1 + k + len)
      case WMore => WMore
      case Fail => Fail
  }

  /** Decodes contents of `len` octets of which `s` has arrived; all of them must be used. */
  function DecodeBody(b: Body, len: nat, s: seq<Byte>): (r: Verdict<Value>)
    requires |s| <= len
    ensures r.Ok? ==> r.consumed == len == |s|
    ensures r.WMore? ==> |s| < len
    decreases b, 0
  {
    match b
    case Primitive(leaf) =>
      if |s| < len then WMore
      else (match DecodeLeaf(leaf, s)
            case Some(v) => Ok(v, len)
            case None => Fail)
    case Explicit(inner) =>
      (match Bounded(DecodeElem(inner, s), |s| == len)
       case Ok(v, n) => if n == len then Ok(v, n) else Fail
       case other => other)
    case SequenceOf(item) => DecodeList(item, len, s)
    case Sequence(fields) => DecodeFields(fields, len, s)
  }

  function DecodeList(item: Elem, len: nat, s: seq<Byte>): (r: Verdict<Value>)
    requires |s| <= len
    ensures r.Ok? ==> r.consumed == len == |s|
    ensures r.WMore? ==> |s| < len
    decreases item, 2, len
  {
    if len == 0 then Ok(Nil, 0)
    else
      match Bounded(DecodeElem(item, s), |s| == len)
      case Ok(v, n) => Prepend(v, len, DecodeList(item, len - n, s[n..]))
      case other => other
  }

  function Prepend(v: Value, len: nat, rest: Verdict<Value>): Verdict<Value> {
    match rest
    case Ok(vs, _) => Ok(Cons(v, vs), len)
    case other => other
  }

  function DecodeFields(f: Fields, len: nat, s: seq<Byte>): (r: Verdict<Value>)
    requires |s| <= len
    ensures r.Ok? ==> r.consumed == len == |s|
    ensures r.WMore? ==> |s| < len
    decreases f, 1
  {
    match f
    case End => if len == 0 then Ok(Nil, 0) else Fail
    case Extensible(known) => DecodeExtras(known, len, s)
    case Opaque => if |s| < len then WMore else Ok(Octets(s), len)
    case Required(_, _) => DecodeComponent(f, len, s)
    case Optional(e, next) =>
      if len > 0 && s == [] then WMore
      else if len > 0 && s[0] in FirstOctets(e) then DecodeComponent(f, len, s)
      else
        match DecodeFields(next, len, s)
        case Ok(vs, n) => Ok(Absent(vs), n)
        case other => other
  }

  function DecodeComponent(f: Fields, len: nat, s: seq<Byte>): (r: Verdict<Value>)
    requires f.Required? || f.Optional?
    requires |s| <= len
    ensures r.Ok? ==> r.consumed == len == |s|
    ensures r.WMore? ==> |s| < len
    decreases f, 0
  {
    match Bounded(DecodeElem(f.elem, s), |s| == len)
    case Ok(v, n) => Prepend(v, len, DecodeFields(f.next, len - n, s[n..]))
    case other => other
  }

  datatype AnyElement = AnyElement(id: Identifier, contents: seq<Byte>)

  /** One element of any tag, contents unread. */
  function DecodeAny(s: seq<Byte>): (r: Verdict<AnyElement>)
    ensures r.Ok? ==> 1 <= r.consumed <= |s|
  {
    match DecodeIdentifier(s)
    case WMore => WMore
    case Fail => Fail
    case Ok(id, i) =>
      match DecodeLength(s[i..])
      case WMore => WMore
      case Fail => Fail
      case Ok(len, k) =>
        if |s| < i + k + len then WMore else Ok(AnyElement(id, s[i + k..i + k + len]), i + k + len)
  }

  /** At the extension marker: elements with unknown tags are skipped, known tags are out of place. */
  function DecodeExtras(known: set<Byte>, len: nat, s: seq<Byte>): (r: Verdict<Value>)
    requires |s| <= len
    ensures r.Ok? ==> r.consumed == len == |s|
    ensures r.WMore? ==> |s| < len
    decreases len
  {
    if len == 0 then Ok(Nil, 0)
    else if s == [] then WMore
    else if s[0] in known then Fail
    else
      match Bounded(DecodeAny(s), |s| == len)
      case Ok(x, n) => PrependExtra(x, len, DecodeExtras(known, len - n, s[n..]))
      case WMore => WMore
      case Fail => Fail
  }

  function PrependExtra(x: AnyElement, len: nat, rest: Verdict<Value>): Verdict<Value> {
    match rest
    case Ok(vs, _) => Ok(Extra(x.id, x.contents, vs), len)
    case other => other
  }
}
