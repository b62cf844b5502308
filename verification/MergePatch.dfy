/** JSON Merge Patch (RFC 7386). */
module MergePatch {
  import opened JsonValue

  /**
   * MergePatch(Target, Patch) of section 2 of RFC 7386, member by member and
   * without an order. `None` is an absent target.
   */
  function Merged(target: Option<Json>, patch: Json): Json
    decreases patch
  {
    match patch
    case Obj(p) =>
      var base := Base(target);
      Obj(map k | k in base.Keys + p.Keys && !(k in p && p[k].Null?) ::
            if k in p then Merged(Member(base, k), p[k]) else base[k])
    case _ => patch
  }

  /** The members merged into: those of an object target, none otherwise. */
  function Base(target: Option<Json>): map<Text, Json> {
    if target.Some? && target.value.Obj? then target.value.members else map[]
  }

  function Member(members: map<Text, Json>, key: Text): Option<Json> {
    if key in members then Some(members[key]) else None
  }

  /** The result object once the patch members outside `pending` have been dealt with. */
  ghost predicate MergedSoFar(result: map<Text, Json>, target: Option<Json>, patch: Json, pending: set<Text>)
    requires patch.Obj?
  {
    forall k :: Member(result, k) ==
                if k in patch.members && k !in pending then Member(Merged(target, patch).members, k)
                else Member(Base(target), k)
  }

  lemma MergeOneMember(result: map<Text, Json>, next: map<Text, Json>, target: Option<Json>, patch: Json,
                       pending: set<Text>, key: Text)
    requires patch.Obj? && key in pending && key in patch.members
    requires MergedSoFar(result, target, patch, pending)
    requires var p := patch.members[key];
             next == if p.Null? then result - {key} else result[key := Merged(Member(result, key), p)]
    ensures MergedSoFar(next, target, patch, pending - {key})
  {
    forall k
      ensures Member(next, k) == if k in patch.members && k !in pending - {key} then
                                   Member(Merged(target, patch).members, k)
                                 else Member(Base(target), k)
    {
      MergedMembers(target, patch, k);
      assert Member(result, key) == Member(Base(target), key);
      if k != key {
        assert Member(next, k) == Member(result, k);
      }
    }
  }

  lemma MergeDone(result: map<Text, Json>, target: Option<Json>, patch: Json)
    requires patch.Obj?
    requires MergedSoFar(result, target, patch, {})
    ensures Obj(result) == Merged(target, patch)
  {
    var full := Merged(target, patch).members;
    forall k
      ensures Member(result, k) == Member(full, k)
    {
      MergedMembers(target, patch, k);
    }
    SameMembers(result, full);
  }

  /** The loop: edits one result object in the (arbitrary) order of the patch's members. */
  method MergeValues(target: Option<Json>, patch: Json) returns (r: Json)
    ensures r == Merged(target, patch)
    decreases patch
  {
    if !patch.Obj? {
      return patch;
    }
    var result: map<Text, Json> := map[];
    if target.Some? && target.value.Obj? {
      result := target.value.members;
    }
    var pending := patch.members.Keys;
    while pending != {}
      invariant pending <= patch.members.Keys
      invariant MergedSoFar(result, target, patch, pending)
      decreases |pending|
    {
      var key :| key in pending;
      var p := patch.members[key];
      ghost var before := result;
      if p.Null? {
        result := result - {key};
      } else {
        var merged := MergeValues(Member(result, key), p);
        result := result[key := merged];
      }
      MergeOneMember(before, result, target, patch, pending, key);
      pending := pending - {key};
    }
    MergeDone(result, target, patch);
    r := Obj(result);
  }

  lemma SameMembers(a: map<Text, Json>, b: map<Text, Json>)
    requires forall k :: Member(a, k) == Member(b, k)
    ensures a == b
  {
    assert forall k :: k in a <==> Member(a, k).Some?;
    assert forall k :: k in b <==> Member(b, k).Some?;
    assert forall k :: k in a ==> a[k] == Member(a, k).value;
    assert forall k :: k in b ==> b[k] == Member(b, k).value;
  }

  /** The public entry point: an Undefined patch counts as null. */
  method Merge(target: Option<Json>, patch: Option<Json>) returns (r: Json)
    ensures r == if patch.Some? then Merged(target, patch.value) else Null
  {
    if patch.None? {
      return Null;
    }
    r := MergeValues(target, patch.value);
  }

  /** Applying a merge patch twice is applying it once. */
  lemma {:induction false} MergeIdempotent(target: Option<Json>, patch: Json)
    ensures Merged(Some(Merged(target, patch)), patch) == Merged(target, patch)
    decreases patch
  {
    if patch.Obj? {
      var once := Merged(target, patch).members;
      var twice := Merged(Some(Merged(target, patch)), patch).members;
      var base := Base(target);
      forall k
        ensures Member(once, k) == Member(twice, k)
      {
        if k in patch.members && !patch.members[k].Null? {
          MergeIdempotent(Member(base, k), patch.members[k]);
        }
      }
      SameMembers(once, twice);
    }
  }

  /** What becomes of every member: unnamed ones are kept, null removes, anything else is merged in. */
  lemma MergedMembers(target: Option<Json>, patch: Json, key: Text)
    requires patch.Obj?
    ensures Merged(target, patch).Obj?
    ensures var before := Member(Base(target), key);
            Member(Merged(target, patch).members, key) ==
            if key !in patch.members then before
            else if patch.members[key].Null? then None
            else Some(Merged(before, patch.members[key]))
  {
  }

  /** The value at a path of member names. */
  function At(j: Json, path: seq<Text>): Option<Json> {
    if path == [] then Some(j)
    else if j.Obj? && path[0] in j.members then At(j.members[path[0]], path[1..])
    else None
  }

  /** Somewhere along the path the patch no longer names the next member. */
  predicate Leaves(patch: Json, path: seq<Text>) {
    path != [] && patch.Obj? && (path[0] in patch.members ==> Leaves(patch.members[path[0]], path[1..]))
  }

  /** At any depth, what the patch does not name is there exactly if it was there before, and unchanged. */
  lemma {:induction false} MergeFrame(target: Option<Json>, patch: Json, path: seq<Text>)
    requires Leaves(patch, path)
    ensures At(Merged(target, patch), path) == if target.Some? then At(target.value, path) else None
    decreases patch
  {
    var key := path[0];
    var before := Member(Base(target), key);
    MergedMembers(target, patch, key);
    if key in patch.members {
      MergeFrame(before, patch.members[key], path[1..]);
    }
  }

  /**
   * What the patch names is there as the patch has it, whatever the target: a
   * value that is no object takes the place, null leaves nothing (but as the
   * whole patch), and an object gives an object.
   */
  lemma {:induction false} MergeSets(target: Option<Json>, patch: Json, path: seq<Text>)
    requires At(patch, path).Some?
    ensures var named, result := At(patch, path).value, At(Merged(target, patch), path);
            if named.Obj? then result.Some? && result.value.Obj?
            else if named.Null? && path != [] then result == None
            else result == Some(named)
    decreases patch
  {
    if path != [] {
      var key := path[0];
      MergedMembers(target, patch, key);
      if !patch.members[key].Null? {
        MergeSets(Member(Base(target), key), patch.members[key], path[1..]);
      }
    }
  }

  /** No object member in the value is null, at any depth reached through objects. */
  ghost predicate NullFree(j: Json) {
    j.Obj? ==> forall k :: k in j.members ==> !j.members[k].Null? && NullFree(j.members[k])
  }

  /** A null-free patch applied to nothing builds exactly the patch; any patch builds a null-free object. */
  lemma {:induction false} MergeIntoNothing(patch: Json)
    ensures NullFree(Merged(None, patch))
    ensures Merged(None, patch) == patch <==> NullFree(patch)
    decreases patch
  {
    if patch.Obj? {
      var built := Merged(None, patch).members;
      forall k | k in patch.members
        ensures NullFree(Merged(None, patch.members[k]))
        ensures Merged(None, patch.members[k]) == patch.members[k] <==> NullFree(patch.members[k])
      {
        MergeIntoNothing(patch.members[k]);
      }
      if NullFree(patch) {
        forall k
          ensures Member(built, k) == Member(patch.members, k)
        {
        }
        SameMembers(built, patch.members);
      }
      if built == patch.members {
        forall k | k in patch.members
          ensures !patch.members[k].Null? && NullFree(patch.members[k])
        {
          assert k in built;
        }
      }
    }
  }
}
