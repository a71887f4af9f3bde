/**
  * OBJECT IDENTIFIER contents (X.690 section 8.19): every arc in base 128, seven bits an octet,
  * the high bit set on all octets but the last; the first two arcs share one subidentifier.
  */
module Oid {
  import opened Bytes
  import opened Wrappers

  /** A decoder's answer: a value and how many octets it took, "more octets wanted", or an error. */
  datatype Verdict<+T> = Ok(value: T, consumed: nat) | WMore | Fail

  // One subidentifier

  /** The octets before the last one: base 128, continuation bit set, no leading zero digit. */
  function Leading(n: nat): (s: seq<Byte>) {
    if n == 0 then [] else Leading(n / 128) + [128 + n % 128]
  }

  function Low7(b: Byte): nat {
    if b < 128 then b else b - 128
  }

  function ArcValue(s: seq<Byte>): nat {
    if s == [] then 0 else ArcValue(s[..|s| - 1]) * 128 + Low7(s[|s| - 1])
  }

  /** Index of the first octet without the continuation bit; |s| when there is none. */
  function Terminator(s: seq<Byte>): (k: nat)
    ensures k <= |s|
    ensures k < |s| ==> s[k] < 128
    ensures forall i :: 0 <= i < k ==> s[i] >= 128
  {
    if s == [] || s[0] < 128 then 0 else 1 + Terminator(s[1..])
  }

  function EncodeArc(n: nat): (s: seq<Byte>) {
    Leading(n / 128) + [n % 128]
  }

  function DecodeArc(s: seq<Byte>): (r: Verdict<nat>)
    ensures r.Ok? ==> 1 <= r.consumed <= |s|
  {
    if s == [] then WMore
    else if s[0] == 128 then Fail // a leading zero digit
    else
      var k := Terminator(s);
      if k == |s| then WMore else Ok(ArcValue(s[..k + 1]), k + 1)
  }

  lemma TerminatorIs(s: seq<Byte>, k: nat)
    requires k < |s| && s[k] < 128 && forall i :: 0 <= i < k ==> s[i] >= 128
    ensures Terminator(s) == k
  {
  }

  lemma {:induction false} LeadingShape(n: nat)
    ensures forall i :: 0 <= i < |Leading(n)| ==> Leading(n)[i] >= 128
    ensures n > 0 ==> Leading(n) != [] && Leading(n)[0] > 128
  {
    if n > 0 {
      LeadingShape(n / 128);
    }
  }

  lemma {:induction false} LeadingRoundTrip(n: nat)
    ensures ArcValue(Leading(n)) == n
  {
    if n > 0 {
      var q, r := n / 128, n % 128;
      LeadingRoundTrip(q);
      ArcValueAppend(Leading(q), 128 + r);
    }
  }

  lemma ArcValueAppend(s: seq<Byte>, b: Byte)
    ensures ArcValue(s + [b]) == ArcValue(s) * 128 + Low7(b)
  {
    assert (s + [b])[..|s|] == s;
  }

  lemma {:induction false} LeadingCanonical(s: seq<Byte>)
    requires forall i :: 0 <= i < |s| ==> s[i] >= 128
    requires s != [] ==> s[0] > 128
    ensures Leading(ArcValue(s)) == s
    ensures s != [] ==> ArcValue(s) > 0
  {
    if s != [] {
      var init := s[..|s| - 1];
      LeadingCanonical(init);
      assert s == init + [s[|s| - 1]];
    }
  }

  lemma ArcRoundTrip(n: nat, t: seq<Byte>)
    ensures DecodeArc(EncodeArc(n) + t) == Ok(n, |EncodeArc(n)|)
  {
    var s := EncodeArc(n);
    LeadingRoundTrip(n / 128);
    LeadingShape(n / 128);
    TerminatorIs(s + t, |s| - 1);
    assert (s + t)[..|s|] == s;
    ArcValueAppend(Leading(n / 128), n % 128);
  }

  lemma ArcCanonical(s: seq<Byte>)
    requires DecodeArc(s).Ok?
    ensures EncodeArc(DecodeArc(s).value) == s[..DecodeArc(s).consumed]
  {
    var k := Terminator(s);
    LeadingCanonical(s[..k]);
    hide Terminator, Leading;
    assert s[..k + 1][..k] == s[..k];
    var n := ArcValue(s[..k]);
    var m := ArcValue(s[..k + 1]);
    assert m == n * 128 + s[k];
    hide ArcValue;
    assert m / 128 == n && m % 128 == s[k];
    assert s[..k + 1] == s[..k] + [s[k]];
  }

  lemma ArcStable(s: seq<Byte>, s': seq<Byte>)
    requires s <= s' && !DecodeArc(s).WMore?
    ensures DecodeArc(s') == DecodeArc(s)
  {
    if DecodeArc(s).Ok? {
      var k := Terminator(s);
      TerminatorIs(s', k);
      assert s'[..k + 1] == s[..k + 1];
    }
  }

  // Arc lists

  /** X.660: the first arc is 0, 1 or 2, and under 0 and 1 the second is below 40. */
  predicate ValidOid(arcs: seq<nat>) {
    |arcs| >= 2 && arcs[0] <= 2 && (arcs[0] < 2 ==> arcs[1] < 40)
  }

  function EncodeArcs(arcs: seq<nat>): (s: seq<Byte>) {
    if arcs == [] then [] else EncodeArc(arcs[0]) + EncodeArcs(arcs[1..])
  }

  function DecodeArcs(s: seq<Byte>): (r: Option<seq<nat>>) {
    if s == [] then Some([])
    else
      match DecodeArc(s)
      case Ok(n, k) =>
        (match DecodeArcs(s[k..])
         case Some(rest) => Some([n] + rest)
         case None => None)
      case _ => None
  }

  function EncodeOid(arcs: seq<nat>): (s: seq<Byte>)
    requires ValidOid(arcs)
  {
    EncodeArcs([40 * arcs[0] + arcs[1]] + arcs[2..])
  }

  function DecodeOid(s: seq<Byte>): (r: Option<seq<nat>>)
    ensures r.Some? ==> ValidOid(r.value)
  {
    match DecodeArcs(s)
    case None => None
    case Some(ids) =>
      if ids == [] then None
      else
        var first := if ids[0] < 40 then 0 else if ids[0] < 80 then 1 else 2;
        Some([first, ids[0] - 40 * first] + ids[1..])
  }

  lemma EncodeArcsCons(n: nat, rest: seq<nat>)
    ensures EncodeArcs([n] + rest) == EncodeArc(n) + EncodeArcs(rest)
  {
    assert ([n] + rest)[1..] == rest;
  }

  lemma {:induction false} ArcsRoundTrip(arcs: seq<nat>)
    ensures DecodeArcs(EncodeArcs(arcs)) == Some(arcs)
  {
    if arcs != [] {
      ArcRoundTrip(arcs[0], EncodeArcs(arcs[1..]));
      ArcsRoundTrip(arcs[1..]);
      var s := EncodeArcs(arcs);
      assert s[|EncodeArc(arcs[0])|..] == EncodeArcs(arcs[1..]);
      assert [arcs[0]] + arcs[1..] == arcs;
    }
  }

  lemma DecodeArcsCons(s: seq<Byte>)
    requires s != [] && DecodeArcs(s).Some?
    ensures var r := DecodeArc(s);
            && r.Ok?
            && DecodeArcs(s[r.consumed..]).Some?
            && DecodeArcs(s).value == [r.value] + DecodeArcs(s[r.consumed..]).value
  {
  }

  lemma {:induction false} ArcsCanonical(s: seq<Byte>, arcs: seq<nat>)
    requires DecodeArcs(s) == Some(arcs)
    ensures EncodeArcs(arcs) == s
    decreases |s|
  {
    hide DecodeArc, EncodeArc;
    if s != [] {
      DecodeArcsCons(s);
      var k := DecodeArc(s).consumed;
      ArcCanonical(s);
      ArcsCanonical(s[k..], arcs[1..]);
      assert s == s[..k] + s[k..];
    }
  }

  /** Decoding undoes encoding, for arcs of any size. */
  lemma OidRoundTrip(arcs: seq<nat>)
    requires ValidOid(arcs)
    ensures DecodeOid(EncodeOid(arcs)) == Some(arcs)
  {
    var ids := [40 * arcs[0] + arcs[1]] + arcs[2..];
    ArcsRoundTrip(ids);
    hide EncodeArcs, DecodeArcs;
    var r := DecodeOid(EncodeOid(arcs)).value;
    assert ids[1..] == arcs[2..];
    assert r[0] == arcs[0] && r[1] == arcs[1];
    assert r[2..] == arcs[2..];
    assert r == [r[0], r[1]] + r[2..];
    assert arcs == [arcs[0], arcs[1]] + arcs[2..];
  }

  /** Every accepted octet string is the encoding of the arcs read from it. */
  lemma OidCanonical(s: seq<Byte>)
    requires DecodeOid(s).Some?
    ensures EncodeOid(DecodeOid(s).value) == s
  {
    var ids := DecodeArcs(s).value;
    var arcs := DecodeOid(s).value;
    ArcsCanonical(s, ids);
    assert arcs[2..] == ids[1..];
    assert [40 * arcs[0] + arcs[1]] + arcs[2..] == ids;
  }

  /** Encoding is injective on arc lists, decoding on octet strings. */
  lemma OidInjective(a: seq<nat>, b: seq<nat>, s: seq<Byte>, t: seq<Byte>)
    requires ValidOid(a) && ValidOid(b)
    ensures EncodeOid(a) == EncodeOid(b) ==> a == b
    ensures DecodeOid(s).Some? && DecodeOid(s) == DecodeOid(t) ==> s == t
  {
    OidRoundTrip(a);
    OidRoundTrip(b);
    if DecodeOid(s).Some? && DecodeOid(s) == DecodeOid(t) {
      OidCanonical(s);
      OidCanonical(t);
    }
  }
}
