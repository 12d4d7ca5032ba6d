/** `filtersToMatch` and the pipeline `Stream.start` builds from a stream's
    filters: every key that is not a query operator (does not start with `$`)
    is rewritten to address the change event's `fullDocument`, recursively
    through plain-object values; arrays and scalars pass through untouched. */
module Filters {
  import opened Values

  const FullDocumentPrefix: string := "fullDocument."

  /** `key[0] === "$"`; the empty key has no first character. */
  predicate IsOperator(k: string) {
    |k| > 0 && k[0] == '$'
  }

  /** The key `filtersToMatch` writes for the filter key `k`. */
  function MatchKey(k: string): string {
    if IsOperator(k) then k else FullDocumentPrefix + k
  }

  /** `match[k] = v` on a plain object: a present key keeps its position and
      takes the new value, an absent key is appended. */
  function Put(fs: seq<Field>, k: string, v: Value): (r: seq<Field>)
    ensures (forall i | 0 <= i < |fs| :: fs[i].key != k) ==> r == fs + [Field(k, v)]
  {
    if |fs| == 0 then [Field(k, v)]
    else if fs[0].key == k then [Field(k, v)] + fs[1..]
    else [fs[0]] + Put(fs[1..], k, v)
  }

  /** `filtersToMatch(obj)` for a plain object `obj`: each entry is
      translated and written into the match object, in key order. */
  function MatchOf(obj: Value): seq<Field>
    requires obj.Obj?
    decreases obj, 1
  {
    PutAll(seq(|obj.fields|, i requires 0 <= i < |obj.fields| => Translated(obj.fields[i])))
  }

  /** Writing `entries` one after the other into an empty object. */
  function PutAll(entries: seq<Field>): seq<Field> {
    if |entries| == 0 then []
    else
      var last := entries[|entries| - 1];
      Put(PutAll(entries[..|entries| - 1]), last.key, last.val)
  }

  /** `filtersToMatch(filters)` on whatever value a stream was given:
      `Object.keys` of an array or a string enumerates its indices. */
  function FiltersToMatch(filters: Value): seq<Field> {
    MatchOf(Obj(OwnEntries(filters)))
  }

  /** The pipeline `Stream.start` hands to the change-stream API: empty when
      the filters have no keys, otherwise one `$match` stage. */
  function Pipeline(filters: Value): (p: seq<Value>)
    ensures |p| == 0 <==> |OwnEntries(filters)| == 0
    ensures |p| != 0 ==> p == [Obj([Field("$match", Obj(FiltersToMatch(filters)))])]
  {
    if |OwnEntries(filters)| != 0 then [Obj([Field("$match", Obj(FiltersToMatch(filters)))])] else []
  }

  /** What one filter entry becomes in the match object. */
  function Translated(f: Field): Field
    decreases f, 0
  {
    Field(MatchKey(f.key), if IsPlainObject(f.val) then Obj(MatchOf(f.val)) else f.val)
  }

  // ---------------------------------------------------------------------
  // Inverse: recovering the filters from a match object

  /** Undoes `MatchKey`. */
  function FilterKey(k: string): string {
    if IsOperator(k) then k
    else if |k| >= |FullDocumentPrefix| && k[..|FullDocumentPrefix|] == FullDocumentPrefix then k[|FullDocumentPrefix|..]
    else k
  }

  /** Undoes `filtersToMatch` on a plain object: strips the prefix from every
      rewritten key, recursively. */
  function MatchToFilters(m: Value): Value
    decreases m
  {
    match m
    case Obj(fs) => Obj(seq(|fs|, i requires 0 <= i < |fs| => Field(FilterKey(fs[i].key), MatchToFilters(fs[i].val))))
    case _ => m
  }

  // ---------------------------------------------------------------------
  // Lemmas

  lemma FilterKeyInverts(k: string)
    ensures FilterKey(MatchKey(k)) == k
  {
    if !IsOperator(k) {
      assert (FullDocumentPrefix + k)[..|FullDocumentPrefix|] == FullDocumentPrefix;
      assert (FullDocumentPrefix + k)[|FullDocumentPrefix|..] == k;
    }
  }

  /** Distinct filter keys give distinct match keys. */
  lemma MatchKeyInjective(a: string, b: string)
    requires MatchKey(a) == MatchKey(b)
    ensures a == b
  {
    FilterKeyInverts(a);
    FilterKeyInverts(b);
  }

  /** Writing entries whose keys are all distinct only ever appends. */
  lemma {:induction false} PutAllAppends(entries: seq<Field>)
    requires DistinctKeys(entries)
    ensures PutAll(entries) == entries
    decreases |entries|
  {
    if |entries| > 0 {
      var n := |entries| - 1;
      var prev := entries[..n];
      assert DistinctKeys(prev);
      PutAllAppends(prev);
      assert forall i | 0 <= i < |prev| :: prev[i].key != entries[n].key;
      assert prev + [Field(entries[n].key, entries[n].val)] == entries;
    }
  }

  /** The four behaviours of `filtersToMatch` on a plain object: operator
      keys are kept, other keys gain the `fullDocument.` prefix, plain-object
      values are translated recursively, all other values pass through, and
      the number of keys is unchanged. */
  lemma MatchOfShape(obj: Value)
    requires obj.Obj? && DistinctKeys(obj.fields)
    ensures |MatchOf(obj)| == |obj.fields|
    ensures forall i | 0 <= i < |obj.fields| ::
      && (IsOperator(obj.fields[i].key) ==> MatchOf(obj)[i].key == obj.fields[i].key)
      && (!IsOperator(obj.fields[i].key) ==> MatchOf(obj)[i].key == FullDocumentPrefix + obj.fields[i].key)
      && (IsPlainObject(obj.fields[i].val) ==> MatchOf(obj)[i].val == Obj(MatchOf(obj.fields[i].val)))
      && (!IsPlainObject(obj.fields[i].val) ==> MatchOf(obj)[i].val == obj.fields[i].val)
    ensures DistinctKeys(MatchOf(obj))
  {
    var ts := seq(|obj.fields|, i requires 0 <= i < |obj.fields| => Translated(obj.fields[i]));
    forall i, j | 0 <= i < j < |ts| ensures ts[i].key != ts[j].key {
      if ts[i].key == ts[j].key {
        MatchKeyInjective(obj.fields[i].key, obj.fields[j].key);
      }
    }
    PutAllAppends(ts);
  }

  /** Translating a well-formed plain object and stripping the prefixes
      again gives back the original filters. */
  lemma {:induction false} MatchRoundTrip(obj: Value)
    requires obj.Obj? && WellFormed(obj)
    ensures MatchToFilters(Obj(MatchOf(obj))) == obj
    decreases obj
  {
    var fs := obj.fields;
    MatchOfShape(obj);
    var r := MatchOf(obj);
    var back := MatchToFilters(Obj(r));
    assert back.fields == fs by {
      forall i | 0 <= i < |fs| ensures back.fields[i] == fs[i] {
        FilterKeyInverts(fs[i].key);
        if IsPlainObject(fs[i].val) {
          MatchRoundTrip(fs[i].val);
        } else {
          assert MatchToFilters(fs[i].val) == fs[i].val;
        }
      }
    }
  }

  /** The translation of a well-formed plain object is well formed at every
      depth: no two keys of any nested match object collide. */
  lemma {:induction false} MatchPreservesWellFormed(obj: Value)
    requires obj.Obj? && WellFormed(obj)
    ensures WellFormed(Obj(MatchOf(obj)))
    decreases obj
  {
    var fs := obj.fields;
    MatchOfShape(obj);
    var r := MatchOf(obj);
    forall i | 0 <= i < |r| ensures WellFormed(r[i].val) {
      if IsPlainObject(fs[i].val) {
        MatchPreservesWellFormed(fs[i].val);
      }
    }
  }

  /** `{status: "open"}` becomes `{"fullDocument.status": "open"}`;
      `{$and: [..]}` keeps its operator key and passes the array through,
      including any plain objects inside it. */
  lemma TranslationExamples(conds: seq<Value>)
    ensures FiltersToMatch(Obj([Field("status", Str("open"))])) == [Field("fullDocument.status", Str("open"))]
    ensures FiltersToMatch(Obj([Field("$and", Arr(conds))])) == [Field("$and", Arr(conds))]
    ensures Pipeline(Obj([])) == []
  {
    var a := Obj([Field("status", Str("open"))]);
    assert MatchKey("status") == "fullDocument.status";
    assert MatchOf(a) == PutAll([Field("fullDocument.status", Str("open"))]);
    var b := Obj([Field("$and", Arr(conds))]);
    assert IsOperator("$and");
    assert MatchOf(b) == PutAll([Field("$and", Arr(conds))]);
  }
}
