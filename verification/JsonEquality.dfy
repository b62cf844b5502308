/** Value equality of the patch "test" operation (section 4.6 of RFC 6902). */
module JsonEquality {
  import opened JsonValue

  ghost predicate DeepEqual(a: Json, b: Json) {
    match (a, b)
    case (Num(m), Num(n)) => m.ToDouble() == n.ToDouble()
    case (Obj(m), Obj(n)) => |m| == |n| && forall k :: k in m ==> k in n && DeepEqual(m[k], n[k])
    case (Arr(xs), Arr(ys)) => |xs| == |ys| && forall i :: 0 <= i < |xs| ==> DeepEqual(xs[i], ys[i])
    case _ => a == b
  }

  method JsonDeepEquals(a: Json, b: Json) returns (equal: bool)
    ensures equal <==> DeepEqual(a, b)
    decreases a
  {
    if a.Num? && b.Num? {
      return a.n.ToDouble() == b.n.ToDouble();
    }
    if a.Obj? {
      if !b.Obj? || |a.members| != |b.members| {
        return false;
      }
      var pending := a.members.Keys;
      while pending != {}
        invariant pending <= a.members.Keys
        invariant forall k :: k in a.members && k !in pending ==>
                    k in b.members && DeepEqual(a.members[k], b.members[k])
        decreases |pending|
      {
        var key :| key in pending;
        if key !in b.members {
          return false;
        }
        var same := JsonDeepEquals(a.members[key], b.members[key]);
        if !same {
          return false;
        }
        pending := pending - {key};
      }
      return true;
    }
    if a.Arr? {
      if !b.Arr? || |a.items| != |b.items| {
        return false;
      }
      var i := 0;
      while i < |a.items|
        invariant 0 <= i <= |a.items|
        invariant forall k :: 0 <= k < i ==> DeepEqual(a.items[k], b.items[k])
      {
        var same := JsonDeepEquals(a.items[i], b.items[i]);
        if !same {
          return false;
        }
        i := i + 1;
      }
      return true;
    }
    return a == b;
  }

  /** The same document with every number in floating-point storage. */
  function Normalised(j: Json): Json {
    match j
    case Num(n) => Num(Double(n.ToDouble()))
    case Arr(xs) => Arr(seq(|xs|, i requires 0 <= i < |xs| => Normalised(xs[i])))
    case Obj(m) => Obj(map k | k in m :: Normalised(m[k]))
    case _ => j
  }

  lemma {:induction false} SubsetOfSameSize<T>(a: set<T>, b: set<T>)
    requires a <= b && |a| == |b|
    ensures a == b
  {
    if b != {} {
      var x :| x in b;
      if x in a {
        SubsetOfSameSize(a - {x}, b - {x});
      } else {
        SizeOfSubset(a, b - {x});
      }
    }
  }

  lemma {:induction false} SizeOfSubset<T>(a: set<T>, b: set<T>)
    requires a <= b
    ensures |a| <= |b|
  {
    if a != {} {
      var x :| x in a;
      SizeOfSubset(a - {x}, b - {x});
    }
  }

  /** Deep equality is structural equality once number storage is forgotten. */
  lemma {:induction false} DeepEqualIsStructural(a: Json, b: Json)
    ensures DeepEqual(a, b) <==> Normalised(a) == Normalised(b)
    decreases a
  {
    match (a, b) {
      case (Obj(m), Obj(n)) =>
        forall k | k in m && k in n
          ensures DeepEqual(m[k], n[k]) <==> Normalised(m[k]) == Normalised(n[k])
        {
          DeepEqualIsStructural(m[k], n[k]);
        }
        var m', n' := Normalised(a).members, Normalised(b).members;
        if DeepEqual(a, b) {
          assert m.Keys <= n.Keys;
          SubsetOfSameSize(m.Keys, n.Keys);
          assert m' == n';
        }
        if m' == n' {
          assert m.Keys == m'.Keys == n'.Keys == n.Keys;
          assert |m| == |m.Keys| == |n.Keys| == |n|;
          forall k | k in m
            ensures k in n && DeepEqual(m[k], n[k])
          {
            assert m'[k] == n'[k];
          }
        }
      case (Arr(xs), Arr(ys)) =>
        forall i | 0 <= i < |xs| && i < |ys|
          ensures DeepEqual(xs[i], ys[i]) <==> Normalised(xs[i]) == Normalised(ys[i])
        {
          DeepEqualIsStructural(xs[i], ys[i]);
        }
        var xs', ys' := Normalised(a).items, Normalised(b).items;
        if DeepEqual(a, b) {
          assert xs' == ys';
        }
        if xs' == ys' {
          assert |xs| == |xs'| == |ys'| == |ys|;
          forall i | 0 <= i < |xs|
            ensures DeepEqual(xs[i], ys[i])
          {
            assert xs'[i] == ys'[i];
          }
        }
      case _ =>
    }
  }

  lemma DeepEqualIsEquivalence(a: Json, b: Json, c: Json)
    ensures DeepEqual(a, a)
    ensures DeepEqual(a, b) <==> DeepEqual(b, a)
    ensures DeepEqual(a, b) && DeepEqual(b, c) ==> DeepEqual(a, c)
  {
    DeepEqualIsStructural(a, a);
    DeepEqualIsStructural(a, b);
    DeepEqualIsStructural(b, a);
    DeepEqualIsStructural(b, c);
    DeepEqualIsStructural(a, c);
  }
}
