/** The canonical form of descriptors: derived fields are stripped at every depth before hashing
    (runtime_lab/descriptors/canonical.py). */
module Canonical {
  import opened Json
  import opened HashChain

  const DERIVED_FIELDS: set<string> := {"descriptor_id", "canonical_hash", "descriptor_hash"}

  /** `_strip_derived` */
  function Strip(j: Json): Json {
    match j
    case Obj(fields) => Obj(map k | k in fields && k !in DERIVED_FIELDS :: Strip(fields[k]))
    case List(items) => List(seq(|items|, i requires 0 <= i < |items| => Strip(items[i])))
    case _ => j
  }

  /** `canonical_payload` */
  function CanonicalPayload(payload: Object): Object {
    Strip(Obj(payload)).fields
  }

  /** `canonical_hash` */
  function CanonicalHash(payload: Object, hash: Hash): string {
    hash(CanonicalPayload(payload))
  }

  /** The two values differ at most in derived fields, at whatever depth. */
  ghost predicate SameUpToDerived(a: Json, b: Json) {
    match (a, b)
    case (Obj(f), Obj(g)) =>
      && f.Keys - DERIVED_FIELDS == g.Keys - DERIVED_FIELDS
      && forall k :: k in f && k in g && k !in DERIVED_FIELDS ==> SameUpToDerived(f[k], g[k])
    case (List(xs), List(ys)) =>
      |xs| == |ys| && forall i :: 0 <= i < |xs| ==> i < |ys| && SameUpToDerived(xs[i], ys[i])
    case _ => a == b
  }

  /** Stripping is idempotent on every nested value. */
  lemma {:induction false} StripIdempotent(j: Json)
    ensures Strip(Strip(j)) == Strip(j)
  {
    match j
    case Obj(fields) =>
      forall k | k in fields && k !in DERIVED_FIELDS ensures Strip(Strip(fields[k])) == Strip(fields[k]) {
        StripIdempotent(fields[k]);
      }
      assert Strip(Strip(j)).fields == Strip(j).fields;
    case List(items) =>
      forall i | 0 <= i < |items| ensures Strip(Strip(items[i])) == Strip(items[i]) {
        StripIdempotent(items[i]);
      }
      assert Strip(Strip(j)).items == Strip(j).items;
    case _ =>
  }

  /** Nothing derived survives stripping. */
  ghost predicate NoDerived(j: Json) {
    match j
    case Obj(fields) => fields.Keys !! DERIVED_FIELDS && forall k :: k in fields ==> NoDerived(fields[k])
    case List(items) => forall i :: 0 <= i < |items| ==> NoDerived(items[i])
    case _ => true
  }

  lemma {:induction false} StripLeavesNoneDerived(j: Json)
    ensures NoDerived(Strip(j))
    ensures NoDerived(j) ==> Strip(j) == j
  {
    match j
    case Obj(fields) =>
      forall k | k in fields ensures NoDerived(Strip(fields[k])) &&
          (NoDerived(fields[k]) ==> Strip(fields[k]) == fields[k]) {
        StripLeavesNoneDerived(fields[k]);
      }
    case List(items) =>
      forall i | 0 <= i < |items| ensures NoDerived(Strip(items[i])) &&
          (NoDerived(items[i]) ==> Strip(items[i]) == items[i]) {
        StripLeavesNoneDerived(items[i]);
      }
    case _ =>
  }

  /** Two values have the same stripped form exactly when they differ only in derived fields. */
  lemma {:induction false} SameStrippedIff(a: Json, b: Json)
    ensures Strip(a) == Strip(b) <==> SameUpToDerived(a, b)
  {
    match (a, b)
    case (Obj(f), Obj(g)) =>
      forall k | k in f && k in g ensures Strip(f[k]) == Strip(g[k]) <==> SameUpToDerived(f[k], g[k]) {
        SameStrippedIff(f[k], g[k]);
      }
      SameFieldsIff(f, g);
    case (List(xs), List(ys)) =>
      forall i | 0 <= i < |xs| && i < |ys| ensures Strip(xs[i]) == Strip(ys[i]) <==> SameUpToDerived(xs[i], ys[i]) {
        SameStrippedIff(xs[i], ys[i]);
      }
      SameItemsIff(xs, ys);
    case _ =>
  }

  lemma {:induction false} SameFieldsIff(f: Object, g: Object)
    ensures Strip(Obj(f)) == Strip(Obj(g)) <==>
      && f.Keys - DERIVED_FIELDS == g.Keys - DERIVED_FIELDS
      && forall k :: k in f && k in g && k !in DERIVED_FIELDS ==> Strip(f[k]) == Strip(g[k])
  {
    var x, y := Strip(Obj(f)).fields, Strip(Obj(g)).fields;
    assert x.Keys == f.Keys - DERIVED_FIELDS && y.Keys == g.Keys - DERIVED_FIELDS;
    if Strip(Obj(f)) == Strip(Obj(g)) {
      forall k | k in f && k in g && k !in DERIVED_FIELDS ensures Strip(f[k]) == Strip(g[k]) {
        assert x[k] == y[k];
      }
    }
  }

  lemma {:induction false} SameItemsIff(xs: seq<Json>, ys: seq<Json>)
    ensures Strip(List(xs)) == Strip(List(ys)) <==>
      |xs| == |ys| && forall i :: 0 <= i < |xs| ==> i < |ys| && Strip(xs[i]) == Strip(ys[i])
  {
    var x, y := Strip(List(xs)).items, Strip(List(ys)).items;
    assert |x| == |xs| && |y| == |ys|;
    if Strip(List(xs)) == Strip(List(ys)) {
      forall i | 0 <= i < |xs| ensures Strip(xs[i]) == Strip(ys[i]) {
        assert x[i] == y[i];
      }
    }
  }

  /** The descriptor hash sees everything but the derived fields, and nothing else. */
  lemma {:induction false} HashSeesAllButDerived(a: Object, b: Object, hash: Hash)
    requires TellsApart(hash, CanonicalPayload(a), CanonicalPayload(b))
    ensures CanonicalHash(a, hash) == CanonicalHash(b, hash) <==> SameUpToDerived(Obj(a), Obj(b))
  {
    SameStrippedIff(Obj(a), Obj(b));
  }

  /** `payload | {...}`: what validation returns. */
  function Validated(payload: Object, hash: Hash): Object {
    var h := CanonicalHash(payload, hash);
    payload["canonical_hash" := Str(h)]["descriptor_hash" := Str(h)]
      ["descriptor_id" := Str(DescriptorId(payload, hash))]
  }

  function DescriptorId(payload: Object, hash: Hash): string {
    var h := CanonicalHash(payload, hash);
    "b1-desc-" + (if |h| <= 12 then h else h[..12])
  }

  /** Re-hashing a validated descriptor reproduces the hash and the id stored in it. */
  lemma {:induction false} RehashReproduces(payload: Object, hash: Hash)
    ensures var v := Validated(payload, hash);
      && CanonicalPayload(v) == CanonicalPayload(payload)
      && v["canonical_hash"] == Str(CanonicalHash(v, hash)) && v["descriptor_hash"] == Str(CanonicalHash(v, hash))
      && v["descriptor_id"] == Str(DescriptorId(v, hash))
      && (|CanonicalHash(v, hash)| >= 12 ==> v["descriptor_id"] == Str("b1-desc-" + CanonicalHash(v, hash)[..12]))
  {
    var v := Validated(payload, hash);
    assert Strip(Obj(v)).fields == Strip(Obj(payload)).fields;
  }

  /** What the hash does not see: the three fields, and no other, can be set or dropped without a trace. */
  lemma {:induction false} OnlyDerivedAreUnseen(payload: Object, field: string, value: Json)
    ensures CanonicalPayload(payload[field := value]) == CanonicalPayload(payload - {field}) <==>
      field == "descriptor_hash" || field == "canonical_hash" || field == "descriptor_id"
  {
    var with, dropped := payload[field := value], payload - {field};
    var a, b := CanonicalPayload(with), CanonicalPayload(dropped);
    assert a.Keys == with.Keys - DERIVED_FIELDS && b.Keys == dropped.Keys - DERIVED_FIELDS;
    if field in DERIVED_FIELDS {
      forall k | k in a ensures k in b && a[k] == b[k] {
        assert with[k] == dropped[k];
      }
      assert a.Keys == b.Keys;
      assert a == b;
    } else {
      assert field in a && field !in b;
    }
  }
}
