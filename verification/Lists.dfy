/** Order-preserving list operations shared by the other modules. */
module Lists {

  /** lo.Filter */
  function Filter<T(!new)>(s: seq<T>, keep: T -> bool): (r: seq<T>)
    ensures forall x :: x in r <==> x in s && keep(x)
    ensures |r| <= |s|
  {
    if s == [] then []
    else
      var rest := Filter(s[..|s| - 1], keep);
      assert s == s[..|s| - 1] + [s[|s| - 1]];
      if keep(s[|s| - 1]) then rest + [s[|s| - 1]] else rest
  }

  /** lo.Uniq: keeps the first occurrence of every element */
  function Uniq<T(==, !new)>(s: seq<T>): (r: seq<T>)
    ensures forall x :: x in r <==> x in s
    ensures Distinct(r)
  {
    if s == [] then []
    else
      var rest := Uniq(s[..|s| - 1]);
      assert s == s[..|s| - 1] + [s[|s| - 1]];
      if s[|s| - 1] in rest then rest else rest + [s[|s| - 1]]
  }

  function Map<T, U>(s: seq<T>, f: T -> U): (r: seq<U>)
    ensures |r| == |s| && forall i | 0 <= i < |s| :: r[i] == f(s[i])
  {
    seq(|s|, i requires 0 <= i < |s| => f(s[i]))
  }

  lemma MapConcat<T, U>(a: seq<T>, b: seq<T>, f: T -> U)
    ensures Map(a + b, f) == Map(a, f) + Map(b, f)
  {
  }

  lemma MapSource<T, U>(s: seq<T>, f: T -> U, y: U) returns (x: T)
    requires y in Map(s, f)
    ensures x in s && f(x) == y
  {
    var i :| 0 <= i < |s| && Map(s, f)[i] == y;
    x := s[i];
  }

  lemma MapMember<T, U>(s: seq<T>, f: T -> U, x: T)
    requires x in s
    ensures f(x) in Map(s, f)
  {
    var i :| 0 <= i < |s| && s[i] == x;
    assert Map(s, f)[i] == f(x);
  }

  lemma InConcat<T>(a: seq<T>, b: seq<T>, x: T)
    ensures x in a + b <==> x in a || x in b
  {
  }

  lemma ConcatEnds<T>(a: seq<T>, b: seq<T>)
    requires a != [] && b != []
    ensures (a + b)[0] == a[0] && (a + b)[|a + b| - 1] == b[|b| - 1]
  {
  }

  ghost predicate Distinct<T>(s: seq<T>) {
    forall i, j | 0 <= i < j < |s| :: s[i] != s[j]
  }

  lemma Reassociate<T>(a: seq<T>, b: seq<T>, c: seq<T>)
    ensures a + (b + c) == a + b + c
  {
  }

  lemma LastSplits<T>(s: seq<T>, x: T)
    ensures (s + [x])[..|s + [x]| - 1] == s && (s + [x])[|s + [x]| - 1] == x
  {
  }

  lemma TakeStep<T>(s: seq<T>, i: nat)
    requires i < |s|
    ensures s[..i + 1] == s[..i] + [s[i]]
  {
  }

  lemma FilterAppend<T(!new)>(s: seq<T>, x: T, keep: T -> bool)
    ensures Filter(s + [x], keep) == if keep(x) then Filter(s, keep) + [x] else Filter(s, keep)
  {
    LastSplits(s, x);
  }

  lemma {:induction false} FilterConcat<T(!new)>(a: seq<T>, b: seq<T>, keep: T -> bool)
    ensures Filter(a + b, keep) == Filter(a, keep) + Filter(b, keep)
  {
    if b == [] {
      assert a + b == a;
    } else {
      var init, x := b[..|b| - 1], b[|b| - 1];
      assert b == init + [x];
      FilterConcat(a, init, keep);
      Reassociate(a, init, [x]);
      FilterAppend(a + init, x, keep);
      FilterAppend(init, x, keep);
      Reassociate(Filter(a, keep), Filter(init, keep), [x]);
    }
  }

  lemma {:induction false} FilterKeepsDistinct<T(!new)>(s: seq<T>, keep: T -> bool)
    requires Distinct(s)
    ensures Distinct(Filter(s, keep))
  {
    if s != [] {
      FilterKeepsDistinct(s[..|s| - 1], keep);
    }
  }

  lemma {:induction false} FilterAll<T(!new)>(s: seq<T>, keep: T -> bool)
    requires forall x | x in s :: keep(x)
    ensures Filter(s, keep) == s
  {
    if s != [] {
      var init := s[..|s| - 1];
      assert forall x | x in init :: x in s;
      FilterAll(init, keep);
      assert s == init + [s[|s| - 1]];
    }
  }

  lemma {:induction false} UniqOfDistinct<T(!new)>(s: seq<T>)
    requires Distinct(s)
    ensures Uniq(s) == s
  {
    if s != [] {
      UniqOfDistinct(s[..|s| - 1]);
      assert s == s[..|s| - 1] + [s[|s| - 1]];
    }
  }

  lemma UniqAppend<T(!new)>(s: seq<T>, x: T)
    ensures Uniq(s + [x]) == if x in s then Uniq(s) else Uniq(s) + [x]
  {
    LastSplits(s, x);
  }

  /** Deduplicating a part early changes nothing. */
  lemma {:induction false} UniqConcat<T(!new)>(a: seq<T>, b: seq<T>)
    ensures Uniq(Uniq(a) + Uniq(b)) == Uniq(a + b)
  {
    if b == [] {
      assert a + b == a && Uniq(a) + Uniq(b) == Uniq(a);
      UniqOfDistinct(Uniq(a));
    } else {
      var init, x := b[..|b| - 1], b[|b| - 1];
      assert b == init + [x];
      UniqConcat(a, init);
      Reassociate(a, init, [x]);
      UniqAppend(a + init, x);
      UniqAppend(init, x);
      Reassociate(Uniq(a), Uniq(init), [x]);
      UniqAppend(Uniq(a) + Uniq(init), x);
    }
  }

  lemma UniqFilterConcat<T(!new)>(a: seq<T>, b: seq<T>, keep: T -> bool)
    ensures Uniq(Filter(a + b, keep)) == Uniq(Uniq(Filter(a, keep)) + Uniq(Filter(b, keep)))
  {
    FilterConcat(a, b, keep);
    UniqConcat(Filter(a, keep), Filter(b, keep));
  }

  lemma UniqTake<T(!new)>(base: seq<T>, extra: seq<T>, i: nat)
    requires i < |extra|
    ensures var before := Uniq(base + extra[..i]);
            Uniq(base + extra[..i + 1]) == if extra[i] in before then before else before + [extra[i]]
  {
    UniqAppend(base + extra[..i], extra[i]);
    TakeStep(extra, i);
    Reassociate(base, extra[..i], [extra[i]]);
  }

  lemma DistinctConcat<T(!new)>(a: seq<T>, b: seq<T>)
    requires Distinct(a) && Distinct(b) && forall x | x in b :: x !in a
    ensures Distinct(a + b)
    ensures forall x :: x in a + b <==> x in a || x in b
  {
    assert forall i | 0 <= i < |b| :: b[i] in b;
  }

  lemma SomeMember<T(!new)>(s: seq<T>)
    requires s != []
    ensures exists x :: x in s
  {
    assert s[0] in s;
  }

  lemma NoMembers<T(!new)>(s: seq<T>)
    requires forall x :: x !in s
    ensures s == []
  {
    if s != [] {
      SomeMember(s);
    }
  }

  lemma Pick<T>(s: set<T>) returns (e: T)
    requires s != {}
    ensures e in s
  {
    e :| e in s;
  }

  lemma OneElement<T(!new)>(a: T)
    ensures Distinct([a]) && forall x :: x in [a] <==> x == a
  {
  }

  lemma TwoElements<T(!new)>(a: T, b: T)
    requires a != b
    ensures Distinct([a, b]) && forall x :: x in [a, b] <==> x == a || x == b
  {
    assert [a, b][0] == a && [a, b][1] == b;
  }

  lemma FirstIn<T>(s: seq<T>)
    requires s != []
    ensures s[0] in s
  {
  }

  function Take<T>(s: seq<T>, count: nat): seq<T> {
    if count < |s| then s[..count] else s
  }

  function SetOf<T>(s: seq<T>): set<T> { set x | x in s }

  // ---------- Ascending order ----------

  lemma {:induction false} MinimumExists(s: set<int>)
    requires s != {}
    ensures exists m :: m in s && forall x | x in s :: m <= x
  {
    var e := Pick(s);
    var rest := s - {e};
    if rest != {} {
      MinimumExists(rest);
      var m :| m in rest && forall x | x in rest :: m <= x;
      var least := if e < m then e else m;
      forall x | x in s ensures least <= x {
        assert x == e || x in rest;
      }
      assert least in s;
    } else {
      assert forall x | x in s :: x == e || x in rest;
    }
  }

  function Minimum(s: set<int>): (m: int)
    requires s != {}
    ensures m in s && forall x | x in s :: m <= x
  {
    MinimumExists(s);
    var m :| m in s && forall x | x in s :: m <= x;
    m
  }

  ghost predicate Increasing(s: seq<int>) {
    forall i, j | 0 <= i < j < |s| :: s[i] < s[j]
  }

  /** The elements in ascending order. */
  function Ascending(s: set<int>): seq<int> {
    if s == {} then [] else [Minimum(s)] + Ascending(s - {Minimum(s)})
  }

  lemma {:induction false} AscendingLists(s: set<int>)
    ensures Increasing(Ascending(s))
    ensures forall x :: x in Ascending(s) <==> x in s
  {
    if s != {} {
      var m, rest := Minimum(s), Ascending(s - {Minimum(s)});
      AscendingLists(s - {m});
      assert forall i | 0 <= i < |rest| :: rest[i] in rest;
    }
  }

  lemma {:induction false} IncreasingUnique(a: seq<int>, b: seq<int>)
    requires Increasing(a) && Increasing(b) && forall x :: x in a <==> x in b
    ensures a == b
  {
    if a == [] {
      if b != [] {
        FirstIn(b);
      }
    } else if b == [] {
      FirstIn(a);
    } else {
      assert a[0] in b && b[0] in a;
      forall x ensures x in a[1..] <==> x in b[1..] {
        assert x in a[1..] ==> x in a && x != a[0];
        assert x in b[1..] ==> x in b && x != b[0];
      }
      IncreasingUnique(a[1..], b[1..]);
      assert a == [a[0]] + a[1..] && b == [b[0]] + b[1..];
    }
  }
}
