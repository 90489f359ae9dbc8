/** Python list idioms the core uses: `pop(index(x))`, `x in s`, `list(set(s))`. */
module Seqs {

  /** The index of the first occurrence of `x`; `s.index(x)`. */
  function FirstIndex<T(==)>(s: seq<T>, x: T): (k: nat)
    requires x in s
    ensures k < |s| && s[k] == x
    ensures forall j :: 0 <= j < k ==> s[j] != x
  {
    if s[0] == x then 0 else 1 + FirstIndex(s[1..], x)
  }

  /** `s.pop(s.index(x))` guarded by `x in s`: only the first occurrence goes. */
  function RemoveFirst<T(==)>(s: seq<T>, x: T): (r: seq<T>)
    ensures x !in s ==> r == s
    ensures x in s ==> r == s[..FirstIndex(s, x)] + s[FirstIndex(s, x) + 1..]
    ensures x in s ==> multiset(r) == multiset(s) - multiset{x}
  {
    if x in s then
      var k := FirstIndex(s, x);
      assert s == s[..k] + [s[k]] + s[k + 1..];
      s[..k] + s[k + 1..]
    else s
  }

  predicate NoDuplicates<T(==)>(s: seq<T>) {
    forall i, j :: 0 <= i < j < |s| ==> s[i] != s[j]
  }

  /** One copy of each element, in first-seen order. */
  function Dedup<T(==,!new)>(s: seq<T>): (r: seq<T>)
    ensures NoDuplicates(r)
    ensures forall x :: x in r <==> x in s
  {
    DedupFrom(s, [])
  }

  function DedupFrom<T(==,!new)>(s: seq<T>, acc: seq<T>): (r: seq<T>)
    requires NoDuplicates(acc)
    ensures NoDuplicates(r)
    ensures forall x :: x in r <==> x in s || x in acc
    ensures |acc| <= |r| && r[..|acc|] == acc
    decreases |s|
  {
    if |s| == 0 then acc
    else if s[0] in acc then DedupFrom(s[1..], acc)
    else DedupFrom(s[1..], acc + [s[0]])
  }

  /** `s` with every element of `ex` filtered out, order kept. */
  function Without<T(==)>(s: seq<T>, ex: set<T>): (r: seq<T>)
    decreases |s|
  {
    if |s| == 0 then []
    else (if s[0] in ex then [] else [s[0]]) + Without(s[1..], ex)
  }

  lemma {:induction false} WithoutConcat<T>(a: seq<T>, b: seq<T>, ex: set<T>)
    ensures Without(a + b, ex) == Without(a, ex) + Without(b, ex)
    decreases |a|
  {
    if |a| == 0 {
      assert a + b == b;
    } else {
      assert (a + b)[0] == a[0];
      assert (a + b)[1..] == a[1..] + b;
      WithoutConcat(a[1..], b, ex);
    }
  }

  lemma WithoutOne<T>(x: T, ex: set<T>)
    requires x in ex
    ensures Without([x], ex) == []
  {
    assert [x][1..] == [];
  }

  /** Removing a filtered element leaves the filtered list alone. */
  lemma {:induction false} WithoutRemoveFirst<T>(s: seq<T>, x: T, ex: set<T>)
    requires x in ex
    ensures Without(RemoveFirst(s, x), ex) == Without(s, ex)
  {
    if x in s {
      var k := FirstIndex(s, x);
      var a, b := s[..k], s[k + 1..];
      assert s == a + ([x] + b);
      assert RemoveFirst(s, x) == a + b;
      WithoutOne(x, ex);
      WithoutConcat(a, [x] + b, ex);
      WithoutConcat([x], b, ex);
      WithoutConcat(a, b, ex);
      assert Without([x] + b, ex) == Without(b, ex);
    }
  }

  /** So does appending one. */
  lemma {:induction false} WithoutAppend<T>(s: seq<T>, y: T, ex: set<T>)
    requires y in ex
    ensures Without(s + [y], ex) == Without(s, ex)
  {
    WithoutConcat(s, [y], ex);
  }

  /** Filtering keeps exactly the elements outside the filter. */
  lemma {:induction false} WithoutMembership<T>(s: seq<T>, ex: set<T>, t: T)
    ensures t in Without(s, ex) <==> t in s && t !in ex
    decreases |s|
  {
    if |s| > 0 {
      WithoutMembership(s[1..], ex, t);
      assert s == [s[0]] + s[1..];
    }
  }

  /** Filtering drops every element of the filter. */
  lemma {:induction false} WithoutExcludes<T>(s: seq<T>, ex: set<T>, t: T)
    requires t in ex
    ensures t !in Without(s, ex)
    decreases |s|
  {
    if |s| > 0 {
      WithoutExcludes(s[1..], ex, t);
    }
  }

  /** Filtering twice by the same set is filtering once. */
  lemma {:induction false} WithoutIdempotent<T>(s: seq<T>, ex: set<T>)
    ensures Without(Without(s, ex), ex) == Without(s, ex)
    decreases |s|
  {
    if |s| > 0 {
      WithoutIdempotent(s[1..], ex);
      var head := if s[0] in ex then [] else [s[0]];
      WithoutConcat(head, Without(s[1..], ex), ex);
      if s[0] !in ex {
        assert [s[0]][1..] == [];
      }
    }
  }

  /** Without duplicates every element occurs once. */
  lemma {:induction false} NoDuplicatesCount<T>(s: seq<T>, x: T)
    requires NoDuplicates(s)
    ensures multiset(s)[x] == if x in s then 1 else 0
    decreases |s|
  {
    if |s| > 0 {
      assert s == [s[0]] + s[1..];
      assert NoDuplicates(s[1..]) by {
        forall i, j | 0 <= i < j < |s[1..]| ensures s[1..][i] != s[1..][j] {
          assert s[1..][i] == s[i + 1] && s[1..][j] == s[j + 1];
        }
      }
      NoDuplicatesCount(s[1..], x);
      assert s[0] !in s[1..] by {
        forall i | 0 <= i < |s[1..]| ensures s[1..][i] != s[0] {
          assert s[1..][i] == s[i + 1];
        }
      }
    }
  }

  /** Two duplicate-free lists of the same elements are rearrangements of each other. */
  lemma SameElementsSameMultiset<T>(a: seq<T>, b: seq<T>)
    requires NoDuplicates(a) && NoDuplicates(b)
    requires forall x :: x in a <==> x in b
    ensures multiset(a) == multiset(b)
  {
    forall x ensures multiset(a)[x] == multiset(b)[x] {
      NoDuplicatesCount(a, x);
      NoDuplicatesCount(b, x);
    }
  }
}
