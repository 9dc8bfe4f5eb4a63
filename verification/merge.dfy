/** `deepMerge(target, source)` of novaCoin.js: backfills a loaded save
    (`target`) with the default save structure (`source`).

    The JavaScript mutates `target` in place and may throw half-way; its only
    caller discards the whole result when it throws, so the model splits the
    call into a total function `Merge` (the tree left behind when nothing is
    thrown) and a predicate `Throws` (the call raises a TypeError). Keys are
    processed independently of each other, so the iteration order of
    `for (const key in source)` does not matter. */
module DeepMerge {
  import opened Wrappers
  import opened Json

  /** What `deepMerge` recurses into at `key` of an object target when the
      default at `key` is an object: a missing or falsy value is first
      replaced by `{}`, anything truthy is kept. */
  function ChildTarget(tm: map<string, Json>, key: string): (c: Json)
    ensures Truthy(c)
    ensures c.Obj? || (key in tm && c == tm[key])
    ensures key in tm && Truthy(tm[key]) ==> c == tm[key]
  {
    if key in tm && Truthy(tm[key]) then tm[key] else Empty
  }

  /** `deepMerge(target, source)` throws a TypeError. Reading a property of
      `null` or `undefined` throws. Reading a default key of any other
      primitive yields `undefined`, and writing a property of a primitive is
      dropped (non-strict script), so a primitive target only throws where the
      recursion then reaches `deepMerge(undefined, d)` with a non-empty `d`. */
  predicate Throws(target: Json, source: Json): (b: bool)
    requires source.Obj?
    decreases source
    // only a save that lacks some object of the defaults can throw
    ensures b ==> !HasShape(target, source)
  {
    match target
    case Null => source.fields != map[]
    case Obj(tm) =>
      exists key :: key in source.fields && source.fields[key].Obj? &&
                    Throws(ChildTarget(tm, key), source.fields[key])
    case _ =>
      exists key :: key in source.fields && source.fields[key].Obj? &&
                    source.fields[key].fields != map[]
  }

  /** The tree `deepMerge(target, source)` leaves behind. */
  function Merge(target: Json, source: Json): (r: Json)
    requires source.Obj?
    decreases source
    // a primitive target cannot be written to
    ensures !target.Obj? ==> r == target
    // every default key ends up in the save, and no saved key is dropped
    ensures target.Obj? ==> r.Obj? && r.fields.Keys == target.fields.Keys + source.fields.Keys
    // keys only the save has are kept
    ensures target.Obj? ==> forall key :: key in target.fields && key !in source.fields ==>
                                         r.fields[key] == target.fields[key]
    // a leaf default is copied only where the save has no value at all
    ensures target.Obj? ==> forall key :: key in source.fields && !source.fields[key].Obj? ==>
                                         r.fields[key] == (if key in target.fields then target.fields[key]
                                                           else source.fields[key])
    // an object default yields an object, unless the save holds a truthy
    // non-object there, which then survives unchanged
    ensures target.Obj? ==> forall key :: key in source.fields && source.fields[key].Obj? ==>
                                         (r.fields[key].Obj? <==> ChildTarget(target.fields, key).Obj?) &&
                                         (!r.fields[key].Obj? ==> r.fields[key] == target.fields[key])
  {
    match target
    case Obj(tm) =>
      Obj(map key | key in tm.Keys + source.fields.Keys ::
            if key !in source.fields then tm[key]
            else if source.fields[key].Obj? then Merge(ChildTarget(tm, key), source.fields[key])
            else if key in tm then tm[key]
            else source.fields[key])
    case _ => target
  }

  /** Every object of `d` is matched by an object, key for key, in `t`. */
  predicate HasShape(t: Json, d: Json)
    decreases d
  {
    d.Obj? ==> t.Obj? && forall key :: key in d.fields ==> key in t.fields && HasShape(t.fields[key], d.fields[key])
  }

  /** No truthy non-object sits where `d` holds an object. */
  predicate Compatible(t: Json, d: Json)
    requires d.Obj?
    decreases d
  {
    t.Obj? && forall key :: key in d.fields && d.fields[key].Obj? ==>
                              Compatible(ChildTarget(t.fields, key), d.fields[key])
  }

  /** Merging the same defaults a second time changes nothing. */
  lemma {:induction false} MergeIdempotent(t: Json, d: Json)
    requires d.Obj?
    ensures Merge(Merge(t, d), d) == Merge(t, d)
    decreases d
  {
    if t.Obj? {
      var r := Merge(t, d);
      var r2 := Merge(r, d);
      forall key | key in d.fields && d.fields[key].Obj?
        ensures r2.fields[key] == r.fields[key]
      {
        var c := ChildTarget(t.fields, key);
        assert ChildTarget(r.fields, key) == r.fields[key];
        MergeIdempotent(c, d.fields[key]);
      }
      assert r2.fields == r.fields;
    }
  }

  /** A merge that did not throw leaves a tree that does not throw either. */
  lemma {:induction false} MergeKeepsNoThrow(t: Json, d: Json)
    requires d.Obj?
    requires !Throws(t, d)
    ensures !Throws(Merge(t, d), d)
    decreases d
  {
    if t.Obj? {
      var r := Merge(t, d);
      forall key | key in d.fields && d.fields[key].Obj?
        ensures !Throws(ChildTarget(r.fields, key), d.fields[key])
      {
        assert ChildTarget(r.fields, key) == Merge(ChildTarget(t.fields, key), d.fields[key]);
        MergeKeepsNoThrow(ChildTarget(t.fields, key), d.fields[key]);
      }
    }
  }

  /** A tree that already has the shape of the defaults is a fixed point of
      the merge, and merging into it does not throw. */
  lemma {:induction false} ShapedIsFixedPoint(t: Json, d: Json)
    requires d.Obj?
    requires HasShape(t, d)
    ensures !Throws(t, d)
    ensures Merge(t, d) == t
    decreases d
  {
    var r := Merge(t, d);
    forall key | key in d.fields && d.fields[key].Obj?
      ensures !Throws(ChildTarget(t.fields, key), d.fields[key])
      ensures r.fields[key] == t.fields[key]
    {
      assert ChildTarget(t.fields, key) == t.fields[key];
      ShapedIsFixedPoint(t.fields[key], d.fields[key]);
    }
    assert r.fields == t.fields;
  }

  /** Where no truthy non-object blocks it, the merge does not throw and puts
      every key of the defaults, at every depth, into the save. */
  lemma {:induction false} CompatibleMergeCovers(t: Json, d: Json)
    requires d.Obj?
    requires Compatible(t, d)
    ensures !Throws(t, d)
    ensures HasShape(Merge(t, d), d)
    decreases d
  {
    var r := Merge(t, d);
    forall key | key in d.fields && d.fields[key].Obj?
      ensures !Throws(ChildTarget(t.fields, key), d.fields[key])
      ensures HasShape(r.fields[key], d.fields[key])
    {
      CompatibleMergeCovers(ChildTarget(t.fields, key), d.fields[key]);
    }
  }

  /** Merging the defaults into `{}` yields a copy of the defaults. */
  lemma {:induction false} MergeIntoEmpty(d: Json)
    requires d.Obj?
    ensures !Throws(Empty, d)
    ensures Merge(Empty, d) == d
    decreases d
  {
    var r := Merge(Empty, d);
    forall key | key in d.fields && d.fields[key].Obj?
      ensures !Throws(ChildTarget(map[], key), d.fields[key])
      ensures r.fields[key] == d.fields[key]
    {
      MergeIntoEmpty(d.fields[key]);
    }
    assert r.fields == d.fields;
  }

  /** Where the defaults hold an object at `path`. */
  predicate ObjectAt(d: Json, path: seq<string>) {
    Lookup(d, path).Some? && Lookup(d, path).value.Obj?
  }

  /** A non-object value the save holds, at any depth, survives the merge:
      a leaf default never overwrites it, null, 0 and false included. The one
      exception is a falsy value where the defaults hold an object, which is
      replaced by `{}` and then filled. */
  lemma {:induction false} MergeKeepsSavedLeaf(t: Json, d: Json, path: seq<string>)
    requires d.Obj?
    requires Lookup(t, path).Some? && !Lookup(t, path).value.Obj?
    requires Truthy(Lookup(t, path).value) || !ObjectAt(d, path)
    ensures Lookup(Merge(t, d), path) == Lookup(t, path)
    decreases |path|
  {
    if path != [] {
      var k := path[0];
      if k in d.fields && d.fields[k].Obj? && Truthy(t.fields[k]) {
        MergeKeepsSavedLeaf(t.fields[k], d.fields[k], path[1..]);
      }
    }
  }

  /** Where nothing blocks the merge, a default at any depth, leaf or
      section, that the save has no value for comes back as the default. */
  lemma {:induction false} MergeFillsMissing(t: Json, d: Json, path: seq<string>)
    requires d.Obj? && Compatible(t, d)
    requires Lookup(d, path).Some?
    requires Lookup(t, path) == None
    ensures Lookup(Merge(t, d), path) == Lookup(d, path)
    decreases |path|
  {
    var k := path[0];
    if d.fields[k].Obj? {
      if |path| == 1 {
        MergeIntoEmpty(d.fields[k]);
      } else {
        MergeFillsMissing(ChildTarget(t.fields, k), d.fields[k], path[1..]);
      }
    }
  }

  /** A section the save lacks, or holds as a falsy value, is merged from
      `{}` and so comes back as exactly the default section. */
  lemma {:induction false} MergeFillsMissingSection(t: Json, d: Json, key: string)
    requires d.Obj? && t.Obj?
    requires key in d.fields && d.fields[key].Obj?
    requires !(key in t.fields && Truthy(t.fields[key]))
    ensures !Throws(ChildTarget(t.fields, key), d.fields[key])
    ensures Merge(t, d).fields[key] == d.fields[key]
  {
    MergeIntoEmpty(d.fields[key]);
  }
}
