/**
 * Integer-sequence helpers that stand for the JavaScript array operations the
 * sampler uses: `Array.from({length}, (_, i) => i + min)`, `splice(index, 1)`
 * and `sort((a, b) => a - b)`.
 */
module Sequences {

  predicate Distinct(s: seq<int>) {
    forall i, j | 0 <= i < j < |s| :: s[i] != s[j]
  }

  predicate Ascending(s: seq<int>) {
    forall i, j | 0 <= i < j < |s| :: s[i] <= s[j]
  }

  predicate StrictlyAscending(s: seq<int>) {
    forall i, j | 0 <= i < j < |s| :: s[i] < s[j]
  }

  /** The pool `Array.from({ length: max - min + 1 }, (_, i) => i + min)`; empty when min > max. */
  function Range(min: int, max: int): (r: seq<int>)
    ensures |r| == if min <= max then max - min + 1 else 0
    ensures forall x :: x in r <==> min <= x <= max
    ensures StrictlyAscending(r)
  {
    if min > max then []
    else
      var r := seq(max - min + 1, i requires 0 <= i < max - min + 1 => min + i);
      assert forall x :: x in r <==> min <= x <= max by {
        forall x | min <= x <= max ensures x in r { assert r[x - min] == x; }
      }
      r
  }

  /** `s.splice(i, 1)`: drops position i and keeps the order of the rest. */
  function RemoveAt(s: seq<int>, i: nat): (r: seq<int>)
    requires i < |s|
    ensures |r| == |s| - 1
  {
    s[..i] + s[i + 1..]
  }

  /** Position k of `RemoveAt(s, i)` holds `s[k]` before i and `s[k + 1]` from i on. */
  lemma RemoveAtIndex(s: seq<int>, i: nat)
    requires i < |s|
    ensures forall k | 0 <= k < |s| - 1 :: RemoveAt(s, i)[k] == if k < i then s[k] else s[k + 1]
  {
    var r := RemoveAt(s, i);
    forall k | 0 <= k < |s| - 1 ensures r[k] == if k < i then s[k] else s[k + 1] {
      if k < i {
        assert r[k] == s[..i][k];
      } else {
        assert r[k] == s[i + 1..][k - i];
      }
    }
  }

  lemma RemoveAtKeepsDistinct(s: seq<int>, i: nat)
    requires i < |s| && Distinct(s)
    ensures Distinct(RemoveAt(s, i)) && s[i] !in RemoveAt(s, i)
  {
    var r := RemoveAt(s, i);
    RemoveAtIndex(s, i);
    forall p, q | 0 <= p < q < |r| ensures r[p] != r[q] {
      var p' := if p < i then p else p + 1;
      var q' := if q < i then q else q + 1;
      assert r[p] == s[p'] && r[q] == s[q'] && p' < q';
    }
    forall k | 0 <= k < |r| ensures r[k] != s[i] {
      var k' := if k < i then k else k + 1;
      assert r[k] == s[k'] && k' != i;
    }
  }

  lemma RemoveAtKeepsStrictOrder(s: seq<int>, i: nat)
    requires i < |s| && StrictlyAscending(s)
    ensures StrictlyAscending(RemoveAt(s, i))
  {
    var r := RemoveAt(s, i);
    RemoveAtIndex(s, i);
    forall p, q | 0 <= p < q < |r| ensures r[p] < r[q] {
      var p' := if p < i then p else p + 1;
      var q' := if q < i then q else q + 1;
      assert r[p] == s[p'] && r[q] == s[q'] && p' < q';
    }
  }

  /**
   * Removing a position takes exactly that one value out of the multiset and
   * keeps distinctness and ascending order.
   */
  lemma RemoveAtTakesOne(s: seq<int>, i: nat)
    requires i < |s|
    ensures multiset(RemoveAt(s, i)) + multiset{s[i]} == multiset(s)
    ensures forall x :: x in RemoveAt(s, i) ==> x in s
    ensures Distinct(s) ==> Distinct(RemoveAt(s, i)) && s[i] !in RemoveAt(s, i)
    ensures StrictlyAscending(s) ==> StrictlyAscending(RemoveAt(s, i))
  {
    var r := RemoveAt(s, i);
    assert s == s[..i] + [s[i]] + s[i + 1..];
    assert multiset(r) == multiset(s[..i]) + multiset(s[i + 1..]);
    forall x | x in r ensures x in s {
      assert x in multiset(r);
    }
    if Distinct(s) {
      RemoveAtKeepsDistinct(s, i);
    }
    if StrictlyAscending(s) {
      RemoveAtKeepsStrictOrder(s, i);
    }
  }

  /** Inserts x before the first element not smaller than it. */
  function Insert(x: int, s: seq<int>): (r: seq<int>)
  {
    if s == [] || x <= s[0] then [x] + s else [s[0]] + Insert(x, s[1..])
  }

  lemma {:induction false} InsertAddsOne(x: int, s: seq<int>)
    ensures multiset(Insert(x, s)) == multiset(s) + multiset{x}
  {
    if s == [] || x <= s[0] {
    } else {
      InsertAddsOne(x, s[1..]);
      assert s == [s[0]] + s[1..];
    }
  }

  /** Prepending a value no larger than any element keeps a sequence ascending. */
  lemma PrependKeepsOrder(a: int, t: seq<int>)
    requires Ascending(t) && forall k | 0 <= k < |t| :: a <= t[k]
    ensures Ascending([a] + t)
  {
    var r := [a] + t;
    forall i, j | 0 <= i < j < |r| ensures r[i] <= r[j] {
      assert r[j] == t[j - 1];
      if i > 0 { assert r[i] == t[i - 1]; }
    }
  }

  /** Prepending a value smaller than every element keeps a sequence strictly ascending. */
  lemma PrependKeepsStrictOrder(a: int, t: seq<int>)
    requires StrictlyAscending(t) && forall k | 0 <= k < |t| :: a < t[k]
    ensures StrictlyAscending([a] + t)
  {
    var r := [a] + t;
    forall i, j | 0 <= i < j < |r| ensures r[i] < r[j] {
      assert r[j] == t[j - 1];
      if i > 0 { assert r[i] == t[i - 1]; }
    }
  }

  /** A lower bound of x and of every element of s bounds every element of Insert(x, s). */
  lemma {:induction false} InsertKeepsLowerBound(a: int, x: int, s: seq<int>)
    requires a <= x && forall k | 0 <= k < |s| :: a <= s[k]
    ensures forall k | 0 <= k < |Insert(x, s)| :: a <= Insert(x, s)[k]
    ensures a < x && (forall k | 0 <= k < |s| :: a < s[k]) ==>
      forall k | 0 <= k < |Insert(x, s)| :: a < Insert(x, s)[k]
  {
    if s != [] && x > s[0] {
      InsertKeepsLowerBound(a, x, s[1..]);
      assert Insert(x, s) == [s[0]] + Insert(x, s[1..]);
    }
  }

  lemma {:induction false} InsertKeepsOrder(x: int, s: seq<int>)
    requires Ascending(s)
    ensures Ascending(Insert(x, s))
  {
    if s == [] || x <= s[0] {
      PrependKeepsOrder(x, s);
    } else {
      var tail := s[1..];
      assert Ascending(tail) by {
        forall i, j | 0 <= i < j < |tail| ensures tail[i] <= tail[j] {
          assert tail[i] == s[i + 1] && tail[j] == s[j + 1];
        }
      }
      assert forall k | 0 <= k < |tail| :: s[0] <= tail[k] by {
        forall k | 0 <= k < |tail| ensures s[0] <= tail[k] { assert tail[k] == s[k + 1]; }
      }
      InsertKeepsOrder(x, tail);
      InsertKeepsLowerBound(s[0], x, tail);
      PrependKeepsOrder(s[0], Insert(x, tail));
    }
  }

  lemma {:induction false} InsertKeepsStrictOrder(x: int, s: seq<int>)
    requires StrictlyAscending(s) && x !in s
    ensures StrictlyAscending(Insert(x, s))
  {
    if s == [] || x <= s[0] {
      assert s != [] ==> x != s[0];
      PrependKeepsStrictOrder(x, s);
    } else {
      var tail := s[1..];
      assert StrictlyAscending(tail) by {
        forall i, j | 0 <= i < j < |tail| ensures tail[i] < tail[j] {
          assert tail[i] == s[i + 1] && tail[j] == s[j + 1];
        }
      }
      assert forall k | 0 <= k < |tail| :: s[0] < tail[k] by {
        forall k | 0 <= k < |tail| ensures s[0] < tail[k] { assert tail[k] == s[k + 1]; }
      }
      assert x !in tail;
      InsertKeepsStrictOrder(x, tail);
      InsertKeepsLowerBound(s[0], x, tail);
      PrependKeepsStrictOrder(s[0], Insert(x, tail));
    }
  }

  /** `numbers.sort((a, b) => a - b)`: the ascending arrangement of the same values. */
  function SortAsc(s: seq<int>): (r: seq<int>)
  {
    if s == [] then [] else Insert(s[0], SortAsc(s[1..]))
  }

  lemma {:induction false} SortAscSorts(s: seq<int>)
    ensures Ascending(SortAsc(s))
    ensures multiset(SortAsc(s)) == multiset(s)
    ensures Distinct(s) ==> StrictlyAscending(SortAsc(s))
  {
    if s != [] {
      var t := SortAsc(s[1..]);
      SortAscSorts(s[1..]);
      InsertKeepsOrder(s[0], t);
      InsertAddsOne(s[0], t);
      assert s == [s[0]] + s[1..];
      if Distinct(s) {
        DistinctTail(s);
        assert s[0] !in multiset(t);
        InsertKeepsStrictOrder(s[0], t);
      }
    }
  }

  /** The tail of a distinct sequence is distinct and lacks the head. */
  lemma DistinctTail(s: seq<int>)
    requires s != [] && Distinct(s)
    ensures Distinct(s[1..]) && s[0] !in s[1..]
  {
    var tail := s[1..];
    forall k | 0 <= k < |tail| ensures tail[k] != s[0] { assert tail[k] == s[k + 1]; }
    forall i, j | 0 <= i < j < |tail| ensures tail[i] != tail[j] {
      assert tail[i] == s[i + 1] && tail[j] == s[j + 1];
    }
  }

  lemma SortAscKeepsMembers(s: seq<int>)
    ensures forall x :: x in SortAsc(s) <==> x in s
  {
    SortAscSorts(s);
    forall x ensures x in SortAsc(s) <==> x in s {
      assert x in SortAsc(s) <==> x in multiset(SortAsc(s));
    }
  }

  /**
   * A strictly ascending sequence of max - min + 1 values taken from [min, max]
   * is the whole range in order.
   */
  lemma {:induction false} StrictlyAscendingFillsRange(t: seq<int>, min: int, max: int)
    requires min <= max && |t| == max - min + 1
    requires StrictlyAscending(t)
    requires forall x :: x in t ==> min <= x <= max
    ensures t == Range(min, max)
  {
    forall k | 0 <= k < |t| ensures t[k] == min + k {
      GapAtLeastDistance(t, 0, k);
      GapAtLeastDistance(t, k, |t| - 1);
      assert t[0] in t && t[|t| - 1] in t;
    }
  }

  lemma {:induction false} GapAtLeastDistance(t: seq<int>, i: nat, j: nat)
    requires i <= j < |t| && StrictlyAscending(t)
    ensures t[j] - t[i] >= j - i
    decreases j - i
  {
    if i < j {
      GapAtLeastDistance(t, i + 1, j);
    }
  }
}
