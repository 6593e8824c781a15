/** The merge behind partial updates of tenant settings. Settings are JSON objects; two objects
  * are merged key by key, everything else, arrays included, is replaced as a whole. */
module DeepMerge {
  import opened Wrappers

  datatype Json =
    | Null
    | Bool(flag: bool)
    | Number(value: int)
    | Text(text: string)
    | Array(elements: seq<Json>)
    | Object(fields: map<string, Json>)

  type Fields = map<string, Json>
  type Path = seq<string>

  /** What `target` and `source` come to, as a whole. */
  function Merge(target: Fields, source: Fields): Fields
    decreases Object(source)
  {
    map key | key in target.Keys + source.Keys ::
      if key !in source then target[key]
      else if source[key].Object? && key in target && target[key].Object?
      then Object(Merge(target[key].fields, source[key].fields))
      else source[key]
  }

  function Lookup(m: Fields, key: string): Option<Json> {
    if key in m then Some(m[key]) else None
  }

  function MergeValue(target: Option<Json>, source: Json): Json {
    if target.Some? && target.value.Object? && source.Object? then Object(Merge(target.value.fields, source.fields))
    else source
  }

  function MergeOption(target: Option<Json>, source: Option<Json>): Option<Json> {
    if source.None? then target else Some(MergeValue(target, source.value))
  }

  lemma LookupMerge(t: Fields, s: Fields, key: string)
    ensures Lookup(Merge(t, s), key) == MergeOption(Lookup(t, key), Lookup(s, key))
  {
  }

  lemma EqualIffSameLookups(m: Fields, n: Fields)
    ensures m == n <==> forall key :: Lookup(m, key) == Lookup(n, key)
  {
    if forall key :: Lookup(m, key) == Lookup(n, key) {
      forall key: string
        ensures key in m <==> key in n
        ensures key in m ==> m[key] == n[key]
      {
        assert Lookup(m, key) == Lookup(n, key);
      }
    }
  }

  /** The copy of the target, filled key by key. */
  method DeepMerge(target: Fields, source: Fields) returns (result: Fields)
    ensures result == Merge(target, source)
    decreases Object(source)
  {
    result := target;
    var keys := source.Keys;
    while keys != {}
      invariant keys <= source.Keys
      invariant forall key :: Lookup(result, key) ==
                  if key in keys then Lookup(target, key) else MergeOption(Lookup(target, key), Lookup(source, key))
      decreases |keys|
    {
      var key :| key in keys;
      var sourceVal := source[key];
      if sourceVal.Object? && key in target && target[key].Object? {
        var merged := DeepMerge(target[key].fields, sourceVal.fields);
        result := result[key := Object(merged)];
      } else {
        result := result[key := sourceVal];
      }
      keys := keys - {key};
    }
    forall key: string
      ensures Lookup(result, key) == Lookup(Merge(target, source), key)
    {
      LookupMerge(target, source, key);
    }
    EqualIffSameLookups(result, Merge(target, source));
  }

  class TenantRepository {
    var settings: map<nat, Option<Fields>>

    constructor ()
      ensures settings == map[]
    {
      settings := map[];
    }

    method UpdateSettings(id: nat, changes: Fields) returns (updated: Option<Fields>)
      modifies this
      ensures id !in old(settings) ==> updated == None && settings == old(settings)
      ensures id in old(settings) ==>
                && updated == Some(Merge(if old(settings)[id].Some? then old(settings)[id].value else map[], changes))
                && settings == old(settings)[id := updated]
    {
      if id !in settings {
        return None;
      }
      var currentSettings := if settings[id].Some? then settings[id].value else map[];
      var mergedSettings := DeepMerge(currentSettings, changes);
      updated := Some(mergedSettings);
      settings := settings[id := updated];
    }
  }

  // ----- what is found along a path -------------------------------------------------

  function Get(j: Json, p: Path): Option<Json> {
    if p == [] then Some(j)
    else if j.Object? && p[0] in j.fields then Get(j.fields[p[0]], p[1..])
    else None
  }

  /** On its way down `p` the value runs into something that is not an object. */
  predicate Blocked(j: Json, p: Path) {
    p != [] && (j.Object? ==> p[0] in j.fields && Blocked(j.fields[p[0]], p[1..]))
  }

  /** The merge along any path. Where the source has a leaf, the leaf wins; where it has an object,
    * that object is merged with the target's if there is one; where it has nothing, the target is
    * kept, unless the source put a leaf higher up. */
  lemma {:induction false} MergeAtPath(t: Fields, s: Fields, p: Path)
    ensures Get(Object(Merge(t, s)), p) ==
            match Get(Object(s), p)
            case Some(v) => Some(MergeValue(Get(Object(t), p), v))
            case None => if Blocked(Object(s), p) then None else Get(Object(t), p)
    decreases |p|
  {
    if p != [] && p[0] in s && p[0] in t && s[p[0]].Object? && t[p[0]].Object? {
      MergeAtPath(t[p[0]].fields, s[p[0]].fields, p[1..]);
    }
  }

  /** Sending the same settings again changes nothing. */
  lemma {:induction false} MergeTwice(t: Fields, s: Fields)
    ensures Merge(Merge(t, s), s) == Merge(t, s)
    decreases Object(s)
  {
    forall key | key in s && s[key].Object? && key in t && t[key].Object?
      ensures Merge(Merge(t[key].fields, s[key].fields), s[key].fields) == Merge(t[key].fields, s[key].fields)
    {
      MergeTwice(t[key].fields, s[key].fields);
    }
    forall key | key in s && s[key].Object?
      ensures Merge(s[key].fields, s[key].fields) == s[key].fields
    {
      MergeSelf(s[key].fields);
    }
  }

  lemma {:induction false} MergeSelf(s: Fields)
    ensures Merge(s, s) == s
    decreases Object(s)
  {
    forall key | key in s && s[key].Object?
      ensures Merge(s[key].fields, s[key].fields) == s[key].fields
    {
      MergeSelf(s[key].fields);
    }
  }

  // ----- associativity --------------------------------------------------------------

  /** `c` mentions everything `a` does, as deep as both are objects. */
  predicate Covers(c: Fields, a: Fields)
    decreases Object(a)
  {
    forall key :: key in a ==> key in c && (a[key].Object? && c[key].Object? ==> Covers(c[key].fields, a[key].fields))
  }

  lemma {:induction false} AbsorbsIffCovers(a: Fields, c: Fields)
    ensures Merge(a, c) == c <==> Covers(c, a)
    decreases Object(a)
  {
    forall key | key in a && key in c && a[key].Object? && c[key].Object?
      ensures Merge(a[key].fields, c[key].fields) == c[key].fields <==> Covers(c[key].fields, a[key].fields)
    {
      AbsorbsIffCovers(a[key].fields, c[key].fields);
    }
    if Covers(c, a) {
      assert Merge(a, c).Keys == c.Keys;
    } else {
      var key :| key in a && !(key in c && (a[key].Object? && c[key].Object? ==> Covers(c[key].fields, a[key].fields)));
      assert key in Merge(a, c);
      if key in c {
        assert Merge(a, c)[key] == Object(Merge(a[key].fields, c[key].fields));
      }
    }
  }

  /** Along `p` an object was replaced by something else and then by an object again, and the
    * first object holds something the last one does not. */
  ghost predicate Clash(a: Json, b: Json, c: Json, p: Path) {
    && Get(a, p).Some? && Get(a, p).value.Object?
    && Get(b, p).Some? && !Get(b, p).value.Object?
    && Get(c, p).Some? && Get(c, p).value.Object?
    && !Covers(Get(c, p).value.fields, Get(a, p).value.fields)
  }

  /** No path clashes, told key by key. */
  predicate Compatible(a: Fields, b: Fields, c: Fields)
    decreases Object(a), 0
  {
    forall key :: key in a && key in b && key in c ==> CompatibleValue(a[key], b[key], c[key])
  }

  predicate CompatibleValue(x: Json, y: Json, z: Json)
    decreases x, 1
  {
    x.Object? && z.Object? ==>
      if y.Object? then Compatible(x.fields, y.fields, z.fields) else Covers(z.fields, x.fields)
  }

  lemma {:induction false} CompatibleHasNoClash(x: Json, y: Json, z: Json, p: Path)
    requires CompatibleValue(x, y, z)
    ensures !Clash(x, y, z, p)
    decreases |p|
  {
    if p != [] && x.Object? && y.Object? && z.Object? && p[0] in x.fields && p[0] in y.fields && p[0] in z.fields {
      CompatibleHasNoClash(x.fields[p[0]], y.fields[p[0]], z.fields[p[0]], p[1..]);
    }
  }

  lemma {:induction false} IncompatibleHasClash(x: Json, y: Json, z: Json) returns (p: Path)
    requires !CompatibleValue(x, y, z)
    ensures Clash(x, y, z, p)
    decreases x
  {
    if y.Object? {
      var key :| key in x.fields && key in y.fields && key in z.fields
                 && !CompatibleValue(x.fields[key], y.fields[key], z.fields[key]);
      var rest := IncompatibleHasClash(x.fields[key], y.fields[key], z.fields[key]);
      p := [key] + rest;
      assert p[1..] == rest;
    } else {
      p := [];
    }
  }

  lemma {:induction false} ValueAssociative(x: Json, y: Json, z: Json)
    ensures MergeValue(Some(MergeValue(Some(x), y)), z) == MergeValue(Some(x), MergeValue(Some(y), z))
            <==> CompatibleValue(x, y, z)
    decreases x, 1
  {
    if x.Object? && z.Object? {
      if y.Object? {
        AssociativeIffCompatible(x.fields, y.fields, z.fields);
      } else {
        AbsorbsIffCovers(x.fields, z.fields);
      }
    }
  }

  lemma KeyAssociative(a: Fields, b: Fields, c: Fields, key: string)
    ensures Lookup(Merge(Merge(a, b), c), key)
         == MergeOption(MergeOption(Lookup(a, key), Lookup(b, key)), Lookup(c, key))
    ensures Lookup(Merge(a, Merge(b, c)), key)
         == MergeOption(Lookup(a, key), MergeOption(Lookup(b, key), Lookup(c, key)))
  {
    LookupMerge(Merge(a, b), c, key);
    LookupMerge(a, b, key);
    LookupMerge(a, Merge(b, c), key);
    LookupMerge(b, c, key);
  }

  lemma {:induction false} AssociativeIffCompatible(a: Fields, b: Fields, c: Fields)
    ensures Merge(Merge(a, b), c) == Merge(a, Merge(b, c)) <==> Compatible(a, b, c)
    decreases Object(a), 0
  {
    var left, right := Merge(Merge(a, b), c), Merge(a, Merge(b, c));
    forall key: string
      ensures Lookup(left, key) == Lookup(right, key) <==>
              (key in a && key in b && key in c ==> CompatibleValue(a[key], b[key], c[key]))
    {
      KeyAssociative(a, b, c, key);
      if key in a && key in b && key in c {
        ValueAssociative(a[key], b[key], c[key]);
      }
    }
    EqualIffSameLookups(left, right);
  }

  /** Three updates can be merged in either grouping exactly if no path clashes; in particular
    * whenever no path holds an object, then a non-object, then an object. */
  lemma AssociativeIffNoClash(a: Fields, b: Fields, c: Fields)
    ensures Merge(Merge(a, b), c) == Merge(a, Merge(b, c)) <==> !exists p: Path :: Clash(Object(a), Object(b), Object(c), p)
  {
    AssociativeIffCompatible(a, b, c);
    if Compatible(a, b, c) {
      forall p: Path
        ensures !Clash(Object(a), Object(b), Object(c), p)
      {
        CompatibleHasNoClash(Object(a), Object(b), Object(c), p);
      }
    } else {
      var p := IncompatibleHasClash(Object(a), Object(b), Object(c));
    }
  }

  /** Such a path does occur: an entry `key: {inner: v}` set to null and then to `{}`. */
  lemma NotAssociative(key: string, inner: string, v: Json)
    ensures var a: Fields, b: Fields, c: Fields :=
        map[key := Object(map[inner := v])], map[key := Null], map[key := Object(map[])];
      Merge(Merge(a, b), c) != Merge(a, Merge(b, c))
  {
    var a: Fields, b: Fields, c: Fields :=
      map[key := Object(map[inner := v])], map[key := Null], map[key := Object(map[])];
    assert inner in a[key].fields;
    assert !Covers(c[key].fields, a[key].fields);
    assert !CompatibleValue(a[key], b[key], c[key]);
    AssociativeIffCompatible(a, b, c);
  }
}
