/** `compare` / `compareObject`, present word for word in the server and the
    client: the structural equality that decides whether two subscriptions are
    "the same". Reproduced with its quirks: the `"array"` case of the switch is
    unreachable, so arrays (and every other non-plain object) are compared by
    their `String` rendering; a key missing from `b` reads as `undefined`; and
    the relation is not symmetric. */
module Equality {
  import opened Values

  /** `compare(a, b)` */
  function Compare(a: Value, b: Value): bool
    decreases a, 1
  {
    if TypeOf(a) != TypeOf(b) then false
    else match a
      case Null => b.Null?
      case Obj(_) => !b.Null? && IsPlainObject(b) && CompareObject(a, b)
      case Arr(_) => !b.Null? && Render(a) == Render(b)
      case Opaque(_) => !b.Null? && Render(a) == Render(b)
      case _ => a == b
  }

  /** `compareObject(a, b)`: same number of keys, and every key of `a`
      compares equal to `b[k]`. */
  function CompareObject(a: Value, b: Value): bool
    requires a.Obj? && b.Obj?
    decreases a, 0
  {
    && |a.fields| == |b.fields|
    && forall i | 0 <= i < |a.fields| :: Compare(a.fields[i].val, Lookup(b.fields, a.fields[i].key))
  }

  /** `compareArray(a, b)`: element-wise comparison. The source defines it but
      never calls it. */
  function CompareArray(a: seq<Value>, b: seq<Value>): bool {
    |a| == |b| && forall i | 0 <= i < |a| :: Compare(a[i], b[i])
  }

  /** The keys of a plain object, as a set. */
  function KeySet(fs: seq<Field>): set<string> {
    set i | 0 <= i < |fs| :: fs[i].key
  }

  /** Values on which `Compare` behaves as an equivalence: no plain object
      holds an explicit `undefined`, and no array or other non-plain object
      renders as `"[object Object]"`. */
  predicate Tame(v: Value) {
    match v
    case Arr(_) => Render(v) != ObjectTag
    case Opaque(_) => Render(v) != ObjectTag
    case Obj(fs) => DistinctKeys(fs) && forall i | 0 <= i < |fs| :: !fs[i].val.Undefined? && Tame(fs[i].val)
    case _ => true
  }

  // ---------------------------------------------------------------------
  // Lookup facts

  lemma {:induction false} LookupFinds(fs: seq<Field>, i: nat)
    requires DistinctKeys(fs) && i < |fs|
    ensures Lookup(fs, fs[i].key) == fs[i].val
  {
    if i > 0 {
      assert fs[0].key != fs[i].key;
      LookupFinds(fs[1..], i - 1);
    }
  }

  lemma {:induction false} LookupIndex(fs: seq<Field>, k: string) returns (j: nat)
    requires k in KeySet(fs)
    ensures j < |fs| && fs[j].key == k && Lookup(fs, k) == fs[j].val
  {
    if fs[0].key == k {
      j := 0;
    } else {
      assert k in KeySet(fs[1..]) by {
        var i :| 0 <= i < |fs| && fs[i].key == k;
        assert fs[1..][i - 1].key == k;
      }
      var j' := LookupIndex(fs[1..], k);
      j := j' + 1;
    }
  }

  lemma LookupMissing(fs: seq<Field>, k: string)
    requires k !in KeySet(fs)
    ensures Lookup(fs, k) == Undefined
  {
    forall i | 0 <= i < |fs| ensures fs[i].key != k {
      assert fs[i].key in KeySet(fs);
    }
  }

  /** Distinct keys: the key set has exactly one key per field. */
  lemma {:induction false} KeySetSize(fs: seq<Field>)
    requires DistinctKeys(fs)
    ensures |KeySet(fs)| == |fs|
  {
    if |fs| > 0 {
      var rest := fs[1..];
      KeySetSize(rest);
      assert KeySet(fs) == KeySet(rest) + {fs[0].key} by {
        forall k | k in KeySet(fs) ensures k in KeySet(rest) + {fs[0].key} {
          var i :| 0 <= i < |fs| && fs[i].key == k;
          if i > 0 { assert rest[i - 1].key == k; }
        }
        forall k | k in KeySet(rest) ensures k in KeySet(fs) {
          var i :| 0 <= i < |rest| && rest[i].key == k;
          assert fs[i + 1].key == k;
        }
      }
      assert fs[0].key !in KeySet(rest) by {
        forall i | 0 <= i < |rest| ensures rest[i].key != fs[0].key {
          assert rest[i] == fs[i + 1];
        }
      }
    }
  }

  lemma SubsetOfSameSize(x: set<string>, y: set<string>)
    requires x <= y && |x| == |y|
    ensures x == y
  {
    assert y == x + (y - x);
    assert x * (y - x) == {};
    assert |y - x| == 0;
  }

  // ---------------------------------------------------------------------
  // Properties of Compare

  /** The rules the comparator starts with: different `typeof` never
      compares equal, and `null` equals only `null`. */
  lemma CompareKindRules(a: Value, b: Value)
    ensures TypeOf(a) != TypeOf(b) ==> !Compare(a, b)
    ensures Compare(Null, b) <==> b.Null?
    ensures Compare(a, Null) <==> a.Null?
  {
  }

  /** Every well-formed value equals itself. */
  lemma {:induction false} CompareReflexive(a: Value)
    requires WellFormed(a)
    ensures Compare(a, a)
    decreases a
  {
    match a
    case Obj(fs) =>
      forall i | 0 <= i < |fs| ensures Compare(fs[i].val, Lookup(fs, fs[i].key)) {
        LookupFinds(fs, i);
        CompareReflexive(fs[i].val);
      }
    case _ =>
  }

  /** On tame plain objects `compareObject` means: the same key set, and
      equal values under every key. */
  lemma ObjectsEqualIffSameKeys(a: Value, b: Value)
    requires a.Obj? && b.Obj? && Tame(a) && Tame(b)
    ensures Compare(a, b) <==> SameKeysEqualValues(a.fields, b.fields)
  {
    if Compare(a, b) {
      EqualObjectsHaveSameKeys(a, b);
    }
    if SameKeysEqualValues(a.fields, b.fields) {
      SameKeysMakeEqualObjects(a, b);
    }
  }

  ghost predicate SameKeysEqualValues(af: seq<Field>, bf: seq<Field>) {
    && KeySet(af) == KeySet(bf)
    && forall k | k in KeySet(af) :: Compare(Lookup(af, k), Lookup(bf, k))
  }

  lemma EqualObjectsHaveSameKeys(a: Value, b: Value)
    requires a.Obj? && b.Obj? && Tame(a) && Tame(b)
    requires Compare(a, b)
    ensures SameKeysEqualValues(a.fields, b.fields)
  {
    var af, bf := a.fields, b.fields;
    assert CompareObject(a, b);
    KeySetSize(af);
    KeySetSize(bf);
    forall k | k in KeySet(af) ensures k in KeySet(bf) && Compare(Lookup(af, k), Lookup(bf, k)) {
      var j := LookupIndex(af, k);
      assert Compare(af[j].val, Lookup(bf, af[j].key));
      assert !af[j].val.Undefined?;
      if k !in KeySet(bf) {
        LookupMissing(bf, k);
      }
    }
    SubsetOfSameSize(KeySet(af), KeySet(bf));
  }

  lemma SameKeysMakeEqualObjects(a: Value, b: Value)
    requires a.Obj? && b.Obj? && Tame(a) && Tame(b)
    requires SameKeysEqualValues(a.fields, b.fields)
    ensures Compare(a, b)
  {
    var af, bf := a.fields, b.fields;
    KeySetSize(af);
    KeySetSize(bf);
    forall i | 0 <= i < |af| ensures Compare(af[i].val, Lookup(bf, af[i].key)) {
      assert af[i].key in KeySet(af);
      LookupFinds(af, i);
    }
    assert CompareObject(a, b);
  }

  /** On tame values `Compare` is symmetric. */
  lemma {:induction false} CompareSymmetric(a: Value, b: Value)
    requires Tame(a) && Tame(b)
    ensures Compare(a, b) == Compare(b, a)
    decreases a
  {
    if a.Obj? && b.Obj? {
      var af, bf := a.fields, b.fields;
      ObjectsEqualIffSameKeys(a, b);
      ObjectsEqualIffSameKeys(b, a);
      if KeySet(af) == KeySet(bf) {
        forall k | k in KeySet(af)
          ensures Compare(Lookup(af, k), Lookup(bf, k)) == Compare(Lookup(bf, k), Lookup(af, k))
        {
          var i := LookupIndex(af, k);
          var j := LookupIndex(bf, k);
          CompareSymmetric(af[i].val, bf[j].val);
        }
      }
    }
  }

  /** On tame values `Compare` is transitive. */
  lemma {:induction false} CompareTransitive(a: Value, b: Value, c: Value)
    requires Tame(a) && Tame(b) && Tame(c)
    requires Compare(a, b) && Compare(b, c)
    ensures Compare(a, c)
    decreases a
  {
    if a.Obj? {
      var af, bf, cf := a.fields, b.fields, c.fields;
      ObjectsEqualIffSameKeys(a, b);
      ObjectsEqualIffSameKeys(b, c);
      ObjectsEqualIffSameKeys(a, c);
      forall k | k in KeySet(af) ensures Compare(Lookup(af, k), Lookup(cf, k)) {
        var i := LookupIndex(af, k);
        var j := LookupIndex(bf, k);
        var l := LookupIndex(cf, k);
        CompareTransitive(af[i].val, bf[j].val, cf[l].val);
      }
    }
  }

  /** Two plain objects holding the same key/value pairs in a different
      insertion order compare equal. */
  lemma FieldOrderIrrelevant(af: seq<Field>, bf: seq<Field>)
    requires WellFormed(Obj(af)) && DistinctKeys(bf)
    requires multiset(af) == multiset(bf)
    ensures Compare(Obj(af), Obj(bf))
  {
    assert |af| == |multiset(af)| == |multiset(bf)| == |bf|;
    forall i | 0 <= i < |af| ensures Compare(af[i].val, Lookup(bf, af[i].key)) {
      assert af[i] in multiset(bf);
      var j :| 0 <= j < |bf| && bf[j] == af[i];
      LookupFinds(bf, j);
      CompareReflexive(af[i].val);
    }
  }

  /** Arrays are never compared element by element: two arrays are equal
      exactly when their `String` renderings are. */
  lemma ArraysCompareByRendering(x: seq<Value>, y: seq<Value>)
    ensures Compare(Arr(x), Arr(y)) <==> Render(Arr(x)) == Render(Arr(y))
    ensures Compare(Arr(x), Opaque(Render(Arr(x))))
  {
  }

  /** `[1, 2]` equals `["1", "2"]`, which the unused `compareArray` would
      have rejected. */
  lemma ArrayRenderingQuirk()
    ensures Compare(Arr([Num(1), Num(2)]), Arr([Str("1"), Str("2")]))
    ensures !CompareArray([Num(1), Num(2)], [Str("1"), Str("2")])
  {
    assert IntToDecimal(1) == "1" && IntToDecimal(2) == "2";
    assert Join(["1", "2"]) == "1,2";
    var xs, ys := [Num(1), Num(2)], [Str("1"), Str("2")];
    assert seq(|xs|, i requires 0 <= i < |xs| => if xs[i].Null? || xs[i].Undefined? then "" else Render(xs[i])) == ["1", "2"];
    assert seq(|ys|, i requires 0 <= i < |ys| => if ys[i].Null? || ys[i].Undefined? then "" else Render(ys[i])) == ["1", "2"];
    assert !Compare(Num(1), Str("1"));
  }

  /** A key missing from `b` reads as `undefined`, so `{x: undefined}`
      equals `{y: 1}` in one direction only. */
  lemma MissingKeyReadsUndefined()
    ensures Compare(Obj([Field("x", Undefined)]), Obj([Field("y", Num(1))]))
    ensures !Compare(Obj([Field("y", Num(1))]), Obj([Field("x", Undefined)]))
  {
    assert Lookup([Field("x", Undefined)], "y") == Undefined;
  }

  /** A non-plain object whose rendering is `"[object Object]"` equals every
      plain object, but no plain object equals it. */
  lemma NotSymmetric(fs: seq<Field>)
    ensures Compare(Arr([Obj([])]), Obj(fs))
    ensures !Compare(Obj(fs), Arr([Obj([])]))
    ensures Compare(Opaque(ObjectTag), Obj(fs)) && !Compare(Obj(fs), Opaque(ObjectTag))
  {
    assert Render(Arr([Obj([])])) == ObjectTag;
  }
}
