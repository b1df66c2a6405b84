/**
 * List helpers behind the plugins' list operations: duplicate freedom,
 * `[u for u in s if u != x]`, `[u for u in s if u not in xs]` and
 * `list.remove`.
 */
module Seqs {

  /** Splitting a sequence at any point and joining the halves gives it back. */
  lemma SplitJoin<T>(s: seq<T>, j: nat)
    requires j <= |s|
    ensures s[..j] + s[j..] == s
  {
  }

  /** Concatenation is associative. */
  lemma AppendAssoc<T>(a: seq<T>, b: seq<T>, c: seq<T>)
    ensures a + (b + c) == a + b + c
  {
  }

  /** A non-empty slice is its first element and the rest. */
  lemma SliceCons<T>(s: seq<T>, i: nat, j: nat)
    requires i < j <= |s|
    ensures s[i..j] == [s[i]] + s[i + 1..j]
  {
  }

  /** A prefix one longer is the prefix and the next element. */
  lemma TakeNext<T>(s: seq<T>, i: nat)
    requires i < |s|
    ensures s[..i + 1] == s[..i] + [s[i]]
  {
  }

  /** No element occurs twice. */
  predicate NoDup<T(==,!new)>(s: seq<T>)
  {
    forall i, j :: 0 <= i < j < |s| ==> s[i] != s[j]
  }

  /** A sequence with one more element in front is duplicate-free exactly when the tail is and lacks it. */
  lemma NoDupCons<T(!new)>(x: T, s: seq<T>)
    ensures NoDup([x] + s) <==> x !in s && NoDup(s)
  {
    var t := [x] + s;
    if NoDup(t) {
      forall i, j | 0 <= i < j < |s| ensures s[i] != s[j] {
        assert s[i] == t[i + 1] && s[j] == t[j + 1];
      }
      forall k | 0 <= k < |s| ensures s[k] != x {
        assert t[0] == x && t[k + 1] == s[k];
      }
    }
    if x !in s && NoDup(s) {
      forall i, j | 0 <= i < j < |t| ensures t[i] != t[j] {
        if i == 0 {
          assert t[j] == s[j - 1];
        } else {
          assert t[i] == s[i - 1] && t[j] == s[j - 1];
        }
      }
    }
  }

  /** `[u for u in s if u != x]`. */
  function Without<T(==,!new)>(s: seq<T>, x: T): (r: seq<T>)
    ensures forall u :: u in r <==> u in s && u != x
    ensures |r| <= |s|
    ensures x !in s ==> r == s
  {
    if s == [] then []
    else if s[0] == x then Without(s[1..], x)
    else [s[0]] + Without(s[1..], x)
  }

  /** `[u for u in s if u not in xs]`. */
  function Excluding<T(==,!new)>(s: seq<T>, xs: seq<T>): (r: seq<T>)
    ensures forall u :: u in r <==> u in s && u !in xs
    ensures |r| <= |s|
  {
    if s == [] then []
    else if s[0] in xs then Excluding(s[1..], xs)
    else [s[0]] + Excluding(s[1..], xs)
  }

  /** `s.remove(x)` when `x` is in `s`: drop its first occurrence. */
  function RemoveFirst<T(==,!new)>(s: seq<T>, x: T): (r: seq<T>)
    ensures |r| == if x in s then |s| - 1 else |s|
    ensures forall u :: u != x ==> (u in r <==> u in s)
  {
    if s == [] then []
    else if s[0] == x then s[1..]
    else [s[0]] + RemoveFirst(s[1..], x)
  }

  /** In a duplicate-free list, dropping the first occurrence drops every occurrence. */
  lemma {:induction false} RemoveFirstNoDup<T(!new)>(s: seq<T>, x: T)
    requires NoDup(s)
    ensures RemoveFirst(s, x) == Without(s, x)
  {
    if s != [] {
      if s[0] == x {
        assert x !in s[1..];
      } else {
        RemoveFirstNoDup(s[1..], x);
      }
    }
  }

  lemma {:induction false} WithoutNoDup<T(!new)>(s: seq<T>, x: T)
    requires NoDup(s)
    ensures NoDup(Without(s, x))
  {
    if s != [] {
      WithoutNoDup(s[1..], x);
      if s[0] != x {
        assert s[0] !in s[1..];
        assert s[0] !in Without(s[1..], x);
      }
    }
  }

  lemma {:induction false} ExcludingNoDup<T(!new)>(s: seq<T>, xs: seq<T>)
    requires NoDup(s)
    ensures NoDup(Excluding(s, xs))
  {
    if s != [] {
      ExcludingNoDup(s[1..], xs);
      if s[0] !in xs {
        assert s[0] !in s[1..];
        assert s[0] !in Excluding(s[1..], xs);
      }
    }
  }

  /** Removing an element that was just appended gives back the original list. */
  lemma {:induction false} WithoutAppended<T(!new)>(s: seq<T>, x: T)
    requires x !in s
    ensures Without(s + [x], x) == s
  {
    if s == [] {
      assert Without([x], x) == Without([x][1..], x);
    } else {
      assert (s + [x])[1..] == s[1..] + [x];
      WithoutAppended(s[1..], x);
    }
  }

  /** `list.remove(x)` right after appending an absent `x` gives back the list. */
  lemma {:induction false} RemoveFirstAppended<T(!new)>(s: seq<T>, x: T)
    requires x !in s
    ensures RemoveFirst(s + [x], x) == s
  {
    if s == [] {
      assert [x][1..] == [];
    } else {
      assert (s + [x])[1..] == s[1..] + [x];
      RemoveFirstAppended(s[1..], x);
    }
  }

  /** A duplicate-free list has as many distinct elements as entries. */
  lemma {:induction false} NoDupCardinality<T(!new)>(s: seq<T>)
    requires NoDup(s)
    ensures |set u | u in s| == |s|
  {
    if s != [] {
      NoDupCardinality(s[1..]);
      assert (set u | u in s) == (set u | u in s[1..]) + {s[0]};
      assert s[0] !in s[1..];
    }
  }

  /**
   * A duplicate-free list drawn from the elements of a duplicate-free list
   * `b` is no longer than `b`, and as long exactly when it has all of them.
   */
  lemma SubsetLength(a: seq<int>, b: seq<int>)
    requires NoDup(a) && NoDup(b)
    requires forall u :: u in a ==> u in b
    ensures |a| <= |b|
    ensures |a| == |b| <==> forall u :: u in b ==> u in a
  {
    NoDupCardinality(a);
    NoDupCardinality(b);
    var sa := set u | u in a;
    var sb := set u | u in b;
    assert sb == sa + (sb - sa);
    assert |sb| == |sa| + |sb - sa|;
    if forall u :: u in b ==> u in a {
      assert sb - sa == {};
    } else {
      var w :| w in b && w !in a;
      assert w in sb - sa;
    }
  }

  /** Dropping one entry of a duplicate-free list leaves it duplicate-free and without that entry. */
  lemma NoDupRemovedAt<T(!new)>(s: seq<T>, k: nat)
    requires k < |s| && NoDup(s)
    ensures NoDup(s[..k] + s[k + 1..])
    ensures s[k] !in s[..k] + s[k + 1..]
  {
    var left := s[..k] + s[k + 1..];
    forall i, j | 0 <= i < j < |left| ensures left[i] != left[j] {
      var i' := if i < k then i else i + 1;
      var j' := if j < k then j else j + 1;
      assert left[i] == s[i'] && left[j] == s[j'];
    }
    forall i | 0 <= i < |left| ensures left[i] != s[k] {
      var i' := if i < k then i else i + 1;
      assert left[i] == s[i'];
    }
  }

  /** In a duplicate-free list, `list.remove(x)` leaves no `x` and no duplicate. */
  lemma RemoveFirstFacts<T(!new)>(s: seq<T>, x: T)
    ensures NoDup(s) ==> x !in RemoveFirst(s, x) && NoDup(RemoveFirst(s, x))
  {
    if NoDup(s) {
      RemoveFirstNoDup(s, x);
      WithoutNoDup(s, x);
    }
  }

  /** A set that is not empty has an element to pick. */
  lemma Pick<T>(s: set<T>) returns (x: T)
    requires s != {}
    ensures x in s
  {
    if forall y :: y !in s {
      assert false;
    }
    x :| x in s;
  }
}
