/** Identifiers, instants, and the few facts about sorting and summing that every other module uses. */
module Basics {

  datatype Option<+T> = None | Some(value: T)

  /** A UUID read as a number. Module Text proves that the order of the numbers is the order of the canonical
      texts, so sorting by number is sorting by text. */
  type Id = nat

  /** UUIDs have 128 bits. */
  const UUID_LIMIT: nat := 0x1_0000_0000_0000_0000_0000_0000_0000_0000

  /** The all-zero UUID. */
  const NIL: Id := 0

  /** A 64-bit signed integer; every operation on it is proved not to leave the range. */
  newtype Int64 = x: int | -0x8000_0000_0000_0000 <= x < 0x8000_0000_0000_0000

  const MAX_INT64: int := 0x7fff_ffff_ffff_ffff

  /** Nanoseconds since 0001-01-01T00:00:00Z; zero is the zero time. */
  type Instant = nat

  /** Sums `f` over `xs`. */
  function SumOf<T>(xs: seq<T>, f: T -> nat): nat {
    if xs == [] then 0 else SumOf(xs[..|xs| - 1], f) + f(xs[|xs| - 1])
  }

  lemma {:induction false} SumConcat<T>(xs: seq<T>, ys: seq<T>, f: T -> nat)
    ensures SumOf(xs + ys, f) == SumOf(xs, f) + SumOf(ys, f)
  {
    if ys == [] {
      assert xs + ys == xs;
    } else {
      assert (xs + ys)[..|xs + ys| - 1] == xs + ys[..|ys| - 1];
      SumConcat(xs, ys[..|ys| - 1], f);
    }
  }

  /** A sum does not depend on the order of its terms. */
  lemma {:induction false} SumPermutation<T>(xs: seq<T>, ys: seq<T>, f: T -> nat)
    requires multiset(xs) == multiset(ys)
    ensures SumOf(xs, f) == SumOf(ys, f)
  {
    if xs == [] {
      assert |multiset(ys)| == 0;
    } else {
      var last := xs[|xs| - 1];
      assert xs == xs[..|xs| - 1] + [last];
      assert last in multiset(ys);
      var i :| 0 <= i < |ys| && ys[i] == last;
      assert ys == ys[..i] + [ys[i]] + ys[i + 1..];
      assert multiset(ys[..i] + ys[i + 1..]) == multiset(ys) - multiset{last};
      SumPermutation(xs[..|xs| - 1], ys[..i] + ys[i + 1..], f);
      SumConcat(ys[..i] + [ys[i]], ys[i + 1..], f);
      SumConcat(ys[..i], [ys[i]], f);
      SumConcat(ys[..i], ys[i + 1..], f);
    }
  }

  ghost predicate Increasing(xs: seq<nat>) {
    forall i, j :: 0 <= i < j < |xs| ==> xs[i] < xs[j]
  }

  ghost function Elements<T>(xs: seq<T>): set<T> {
    set x | x in xs
  }

  ghost predicate IsLeast(s: set<nat>, m: nat) {
    m in s && forall x :: x in s ==> m <= x
  }

  lemma {:induction false} LeastExists(s: set<nat>)
    requires s != {}
    ensures exists m :: IsLeast(s, m)
    decreases |s|
  {
    var y :| y in s;
    var rest := s - {y};
    if rest == {} {
      assert forall x :: x in s ==> x == y || x in rest;
      assert IsLeast(s, y);
    } else {
      LeastExists(rest);
      var m :| IsLeast(rest, m);
      LeastOfTwo(s, y, m);
    }
  }

  lemma LeastOfTwo(s: set<nat>, y: nat, m: nat)
    requires y in s && IsLeast(s - {y}, m)
    ensures IsLeast(s, if y < m then y else m)
  {
    assert forall x :: x in s ==> x == y || x in s - {y};
  }

  function Least(s: set<nat>): (m: nat)
    requires s != {}
    ensures m in s && forall x :: x in s ==> m <= x
  {
    LeastExists(s);
    var m :| m in s && forall x :: x in s ==> m <= x;
    m
  }

  /** What the library sort returns for a collection of distinct identifiers. */
  function Sorted(s: set<nat>): (xs: seq<nat>)
    decreases |s|
  {
    if s == {} then [] else [Least(s)] + Sorted(s - {Least(s)})
  }

  lemma {:induction false} SortedIsIncreasing(s: set<nat>)
    ensures Increasing(Sorted(s)) && Elements(Sorted(s)) == s && |Sorted(s)| == |s|
    decreases |s|
  {
    if s != {} {
      var m, rest := Least(s), Sorted(s - {Least(s)});
      SortedIsIncreasing(s - {m});
      forall i | 0 <= i < |rest|
        ensures m < rest[i]
      {
        assert rest[i] in Elements(rest);
      }
      forall x
        ensures x in Elements([m] + rest) <==> x in s
      {
        assert x in [m] + rest <==> x == m || x in rest;
        assert x in rest <==> x in Elements(rest);
      }
    }
  }

  lemma SortedHas(s: set<nat>, x: nat)
    ensures x in Sorted(s) <==> x in s
  {
    SortedIsIncreasing(s);
    assert x in Sorted(s) <==> x in Elements(Sorted(s));
  }

  /** An increasing sequence is fixed by its elements. */
  lemma {:induction false} IncreasingIsUnique(xs: seq<nat>, ys: seq<nat>)
    requires Increasing(xs) && Increasing(ys)
    requires forall x :: x in xs <==> x in ys
    ensures xs == ys
  {
    assert xs != [] ==> xs[0] in ys;
    assert ys != [] ==> ys[0] in xs;
    if xs != [] {
      assert xs[0] == ys[0];
      forall x
        ensures x in xs[1..] <==> x in ys[1..]
      {
        assert x in xs[1..] <==> x in xs && x != xs[0];
        assert x in ys[1..] <==> x in ys && x != ys[0];
      }
      IncreasingIsUnique(xs[1..], ys[1..]);
    }
  }

  lemma CardinalityOfSubset<T>(small: set<T>, big: set<T>)
    requires small <= big
    ensures |small| <= |big|
  {
    assert big == small + (big - small);
  }

  ghost predicate NoRepeats<T>(xs: seq<T>) {
    forall i, j :: 0 <= i < j < |xs| ==> xs[i] != xs[j]
  }

  lemma {:induction false} OccursAtMostOnce<T>(xs: seq<T>, x: T)
    requires NoRepeats(xs)
    ensures multiset(xs)[x] <= 1
  {
    if xs != [] {
      var rest, last := xs[..|xs| - 1], xs[|xs| - 1];
      assert xs == rest + [last];
      OccursAtMostOnce(rest, x);
      if x == last {
        assert last !in rest;
        assert last !in multiset(rest);
      }
    }
  }

  /** Two lists without repetitions and with the same elements are permutations of each other. */
  lemma SameElementsSameBag<T>(xs: seq<T>, ys: seq<T>)
    requires NoRepeats(xs) && NoRepeats(ys)
    requires forall x :: x in xs <==> x in ys
    ensures multiset(xs) == multiset(ys)
  {
    forall x
      ensures multiset(xs)[x] == multiset(ys)[x]
    {
      OccursAtMostOnce(xs, x);
      OccursAtMostOnce(ys, x);
      assert x in multiset(xs) <==> x in xs;
      assert x in multiset(ys) <==> x in ys;
    }
  }

  lemma {:induction false} NoRepeatsCount<T>(xs: seq<T>)
    requires NoRepeats(xs)
    ensures |Elements(xs)| == |xs|
  {
    if xs != [] {
      var init, last := xs[..|xs| - 1], xs[|xs| - 1];
      NoRepeatsCount(init);
      assert xs == init + [last];
      assert Elements(xs) == Elements(init) + {last};
    } else {
      assert Elements(xs) == {};
    }
  }
}
