/** Facts about sequences used as membership lists: duplicate-freedom, inclusion
    of one list in another, and what inclusion implies about their lengths.
    The round engine compares the length of the paid list with the length of the
    member list; these lemmas say what that comparison means. */
module Distinct {

  /** No element occurs twice in `s`. */
  predicate NoDup<T(==)>(s: seq<T>) {
    forall i, j :: 0 <= i < j < |s| ==> s[i] != s[j]
  }

  /** Every element of `p` occurs somewhere in `m`. */
  predicate SubsetOf<T(==)>(p: seq<T>, m: seq<T>) {
    forall x :: x in p ==> x in m
  }

  /** `s` with the first occurrence of `x` taken out. */
  ghost function RemoveFirst<T>(s: seq<T>, x: T): (r: seq<T>)
    requires x in s
    ensures |r| == |s| - 1
    ensures multiset(r) == multiset(s) - multiset{x}
  {
    assert s == [s[0]] + s[1..];
    if s[0] == x then s[1..] else [s[0]] + RemoveFirst(s[1..], x)
  }

  /** Appending an element that is not yet present keeps a list duplicate-free. */
  lemma AppendNoDup<T>(s: seq<T>, x: T)
    requires NoDup(s) && x !in s
    ensures NoDup(s + [x])
  {
  }

  /** A duplicate-free list drawn from `m` is no longer than `m`. */
  lemma {:induction false} DistinctSubsetLength<T>(p: seq<T>, m: seq<T>)
    requires NoDup(p) && SubsetOf(p, m)
    ensures |p| <= |m|
  {
    if p != [] {
      var x := p[0];
      var rest := p[1..];
      var m' := RemoveFirst(m, x);
      forall y | y in rest ensures y in m' {
        var k :| 0 <= k < |rest| && rest[k] == y;
        assert p[k + 1] == y && p[0] == x;
        assert y != x && y in p;
        assert y in multiset(m);
        assert multiset(m')[y] == multiset(m)[y];
      }
      assert NoDup(rest) by {
        forall i, j | 0 <= i < j < |rest| ensures rest[i] != rest[j] {
          assert rest[i] == p[i + 1] && rest[j] == p[j + 1];
        }
      }
      DistinctSubsetLength(rest, m');
    }
  }

  /** When a duplicate-free list drawn from `m` is as long as `m`, it covers `m`. */
  lemma FullCovers<T>(p: seq<T>, m: seq<T>)
    requires NoDup(p) && SubsetOf(p, m) && |p| == |m|
    ensures SubsetOf(m, p)
  {
    forall y | y in m ensures y in p {
      if y !in p {
        var m' := RemoveFirst(m, y);
        forall z | z in p ensures z in m' {
          assert z != y && z in multiset(m);
          assert multiset(m')[z] == multiset(m)[z];
        }
        DistinctSubsetLength(p, m');
        assert false;
      }
    }
  }

  /** Conversely, over a duplicate-free `m`, a duplicate-free list that covers
      `m` and is drawn from it is exactly as long as `m`. */
  lemma CoverIsFull<T>(p: seq<T>, m: seq<T>)
    requires NoDup(p) && SubsetOf(p, m)
    requires NoDup(m) && SubsetOf(m, p)
    ensures |p| == |m|
  {
    DistinctSubsetLength(p, m);
    DistinctSubsetLength(m, p);
  }

  /** If `m` holds a duplicate, no duplicate-free list drawn from `m` reaches its length. */
  lemma DuplicatesNeverFull<T>(p: seq<T>, m: seq<T>)
    requires NoDup(p) && SubsetOf(p, m)
    requires !NoDup(m)
    ensures |p| < |m|
  {
    var i, j :| 0 <= i < j < |m| && m[i] == m[j];
    var x := m[i];
    assert multiset(m)[x] >= 2 by {
      assert m == m[..j] + [m[j]] + m[j + 1..];
      assert x in m[..j];
      assert multiset(m) == multiset(m[..j]) + multiset{x} + multiset(m[j + 1..]);
    }
    var m' := RemoveFirst(m, x);
    forall z | z in p ensures z in m' {
      assert z in multiset(m);
      assert multiset(m')[z] >= 1;
    }
    DistinctSubsetLength(p, m');
  }
}
