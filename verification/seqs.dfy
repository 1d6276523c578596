/** Sequence combinators the source uses through `Array.prototype`:
    `filter`, `map`, index replacement, index removal, and a stable sort by an
    integer key (the comparator `(a, b) => key(a) - key(b)`). */
module Seqs {

  /** `s.filter(p)`: keeps, in order, the elements satisfying `p`. */
  function Filter<T>(s: seq<T>, p: T -> bool): (r: seq<T>)
    ensures |r| <= |s|
    ensures forall i :: 0 <= i < |r| ==> p(r[i])
    ensures forall i :: 0 <= i < |r| ==> r[i] in s
    ensures forall i :: 0 <= i < |s| ==> (s[i] in r <==> p(s[i]))
  {
    if |s| == 0 then []
    else
      assert s == [s[0]] + s[1..];
      if p(s[0]) then [s[0]] + Filter(s[1..], p)
      else Filter(s[1..], p)
  }

  /** Filtering distributes over concatenation, so it keeps relative order. */
  lemma {:induction false} FilterAppend<T>(a: seq<T>, b: seq<T>, p: T -> bool)
    ensures Filter(a + b, p) == Filter(a, p) + Filter(b, p)
  {
    if |a| == 0 {
      assert a + b == b;
    } else {
      assert (a + b)[1..] == a[1..] + b;
      FilterAppend(a[1..], b, p);
    }
  }

  /** A filter that every element passes is the identity. */
  lemma {:induction false} FilterAll<T>(s: seq<T>, p: T -> bool)
    requires forall i :: 0 <= i < |s| ==> p(s[i])
    ensures Filter(s, p) == s
  {
    if |s| > 0 {
      FilterAll(s[1..], p);
    }
  }

  /** A filter that no element passes is empty. */
  lemma {:induction false} FilterNone<T>(s: seq<T>, p: T -> bool)
    requires forall i :: 0 <= i < |s| ==> !p(s[i])
    ensures Filter(s, p) == []
  {
    if |s| > 0 {
      FilterNone(s[1..], p);
    }
  }

  /** Filtering by `p` and by `q`, where exactly one of them holds of each
      element, splits the sequence: the two results together are a permutation
      of the input. */
  lemma {:induction false} FilterPartition<T>(s: seq<T>, p: T -> bool, q: T -> bool)
    requires forall i :: 0 <= i < |s| ==> (p(s[i]) <==> !q(s[i]))
    ensures |Filter(s, p)| + |Filter(s, q)| == |s|
    ensures multiset(Filter(s, p)) + multiset(Filter(s, q)) == multiset(s)
  {
    if |s| > 0 {
      var t := s[1..];
      ComplementTail(s, p, q);
      FilterPartition(t, p, q);
      PartitionStep(s, p, q);
      ConsMultiset(s);
      AddBack(multiset(Filter(s, p)) + multiset(Filter(s, q)), multiset(Filter(t, p)) + multiset(Filter(t, q)),
              multiset(s), multiset(t), s[0]);
    }
  }

  /** Reorderings of a group whose elements satisfy `p` and of one whose
      elements do not, put side by side: an element satisfies `p` exactly
      when it lies in the first part. */
  lemma GroupsSideBySide<T>(first: seq<T>, second: seq<T>, a: seq<T>, b: seq<T>, p: T -> bool)
    requires multiset(first) == multiset(a) && multiset(second) == multiset(b)
    requires forall i :: 0 <= i < |a| ==> p(a[i])
    requires forall i :: 0 <= i < |b| ==> !p(b[i])
    ensures var r := first + second;
      && multiset(r) == multiset(a) + multiset(b)
      && r[..|first|] == first && r[|first|..] == second
      && forall i :: 0 <= i < |r| ==> (p(r[i]) <==> i < |first|)
  {
    var r := first + second;
    assert r[..|first|] == first && r[|first|..] == second;
    forall i | 0 <= i < |r|
      ensures p(r[i]) <==> i < |first|
    {
      if i < |first| {
        assert r[i] in multiset(a);
      } else {
        assert r[i] == second[i - |first|];
        assert r[i] in multiset(b);
      }
    }
  }

  /** A non-empty sequence's multiset is its head's plus its tail's. */
  lemma ConsMultiset<T>(s: seq<T>)
    requires |s| > 0
    ensures multiset(s) == multiset{s[0]} + multiset(s[1..])
  {
    assert s == [s[0]] + s[1..];
  }

  /** Adding the same element to equal multisets keeps them equal. */
  lemma AddBack<T>(whole: multiset<T>, rest: multiset<T>, s: multiset<T>, t: multiset<T>, x: T)
    requires whole == multiset{x} + rest && rest == t && s == multiset{x} + t
    ensures whole == s
  {
  }

  /** Complementary predicates stay complementary on the tail. */
  lemma ComplementTail<T>(s: seq<T>, p: T -> bool, q: T -> bool)
    requires |s| > 0
    requires forall i :: 0 <= i < |s| ==> (p(s[i]) <==> !q(s[i]))
    ensures forall i :: 0 <= i < |s[1..]| ==> (p(s[1..][i]) <==> !q(s[1..][i]))
    ensures p(s[0]) <==> !q(s[0])
  {
    assert forall i :: 0 <= i < |s[1..]| ==> s[1..][i] == s[i + 1];
  }

  /** The head of the sequence goes to exactly one of the two filters. */
  lemma PartitionStep<T>(s: seq<T>, p: T -> bool, q: T -> bool)
    requires |s| > 0 && (p(s[0]) <==> !q(s[0]))
    ensures |Filter(s, p)| + |Filter(s, q)| == 1 + |Filter(s[1..], p)| + |Filter(s[1..], q)|
    ensures multiset(Filter(s, p)) + multiset(Filter(s, q))
         == multiset{s[0]} + multiset(Filter(s[1..], p)) + multiset(Filter(s[1..], q))
  {
    if p(s[0]) {
      FilterConsMultiset(s, p);
      FilterConsSkip(s, q);
    } else {
      FilterConsSkip(s, p);
      FilterConsMultiset(s, q);
    }
  }

  /** Filtering a sequence whose head passes adds the head to the filtered tail. */
  lemma FilterConsMultiset<T>(s: seq<T>, p: T -> bool)
    requires |s| > 0 && p(s[0])
    ensures |Filter(s, p)| == 1 + |Filter(s[1..], p)|
    ensures multiset(Filter(s, p)) == multiset{s[0]} + multiset(Filter(s[1..], p))
  {
    assert Filter(s, p) == [s[0]] + Filter(s[1..], p);
  }

  /** Filtering a sequence whose head fails is filtering its tail. */
  lemma FilterConsSkip<T>(s: seq<T>, p: T -> bool)
    requires |s| > 0 && !p(s[0])
    ensures Filter(s, p) == Filter(s[1..], p)
  {
  }

  /** Number of elements satisfying `p` (`s.filter(p).length`). */
  function Count<T>(s: seq<T>, p: T -> bool): (n: nat)
    ensures n <= |s|
    ensures n == 0 <==> forall i :: 0 <= i < |s| ==> !p(s[i])
    ensures n == |s| <==> forall i :: 0 <= i < |s| ==> p(s[i])
  {
    if |s| == 0 then 0
    else (if p(s[0]) then 1 else 0) + Count(s[1..], p)
  }

  /** Counting is additive over concatenation. */
  lemma {:induction false} CountAppend<T>(a: seq<T>, b: seq<T>, p: T -> bool)
    ensures Count(a + b, p) == Count(a, p) + Count(b, p)
  {
    if |a| == 0 {
      assert a + b == b;
    } else {
      assert (a + b)[1..] == a[1..] + b;
      CountAppend(a[1..], b, p);
    }
  }

  /** `s.map(f)`. */
  function Map<T, U>(s: seq<T>, f: T -> U): (r: seq<U>)
    ensures |r| == |s|
    ensures forall i :: 0 <= i < |s| ==> r[i] == f(s[i])
  {
    seq(|s|, i requires 0 <= i < |s| => f(s[i]))
  }

  /** `s.filter((_, j) => j !== i)`: drops position `i`; any other index
      leaves the sequence unchanged. */
  function RemoveAt<T>(s: seq<T>, i: int): (r: seq<T>)
    ensures 0 <= i < |s| ==> |r| == |s| - 1
    ensures 0 <= i < |s| ==> forall j :: 0 <= j < i ==> r[j] == s[j]
    ensures 0 <= i < |s| ==> forall j :: i <= j < |r| ==> r[j] == s[j + 1]
    ensures !(0 <= i < |s|) ==> r == s
  {
    if 0 <= i < |s| then s[..i] + s[i + 1..] else s
  }

  /** A query snapshot's documents in answer order, each made into a value
      together with its document id (`docs.map(d => ({ ...d.data(), id: d.id }))`). */
  function Snapshot<D, M>(docs: map<string, D>, ids: seq<string>, mk: (string, D) -> M): (r: seq<M>)
    requires forall i :: 0 <= i < |ids| ==> ids[i] in docs
    ensures |r| == |ids|
    ensures forall i :: 0 <= i < |ids| ==> r[i] == mk(ids[i], docs[ids[i]])
  {
    seq(|ids|, i requires 0 <= i < |ids| => mk(ids[i], docs[ids[i]]))
  }

  /** `s.findIndex(p)`: the first position satisfying `p`, or -1. */
  function FindIndex<T>(s: seq<T>, p: T -> bool): (k: int)
    ensures -1 <= k < |s|
    ensures k == -1 <==> forall i :: 0 <= i < |s| ==> !p(s[i])
    ensures 0 <= k ==> p(s[k]) && forall i :: 0 <= i < k ==> !p(s[i])
  {
    if |s| == 0 then -1
    else if p(s[0]) then 0
    else
      var k := FindIndex(s[1..], p);
      if k == -1 then -1 else k + 1
  }

  // ---------------------------------------------------------------------------
  // Stable sort by an integer key
  // ---------------------------------------------------------------------------

  ghost predicate SortedBy<T>(s: seq<T>, key: T -> int)
  {
    forall i, j :: 0 <= i < j < |s| ==> key(s[i]) <= key(s[j])
  }

  /** Inserts `x` after every element whose key is at most `key(x)`. */
  function InsertBy<T>(x: T, s: seq<T>, key: T -> int): (r: seq<T>)
    requires SortedBy(s, key)
    ensures SortedBy(r, key)
    ensures |r| == |s| + 1
    ensures multiset(r) == multiset(s) + multiset{x}
    ensures forall i :: 0 <= i < |r| ==> r[i] == x || r[i] in s
  {
    if |s| == 0 then [x]
    else if key(x) < key(s[0]) then
      InsertFront(x, s, key);
      [x] + s
    else
      var tail := InsertBy(x, s[1..], key);
      InsertBehind(x, s, tail, key);
      [s[0]] + tail
  }

  /** An element keyed below the head of a sorted sequence goes in front. */
  lemma InsertFront<T>(x: T, s: seq<T>, key: T -> int)
    requires SortedBy(s, key) && |s| > 0 && key(x) < key(s[0])
    ensures var r := [x] + s;
      && SortedBy(r, key) && multiset(r) == multiset(s) + multiset{x}
      && forall i :: 0 <= i < |r| ==> r[i] == x || r[i] in s
  {
    HeadBelow(s, key);
    SortedPrepend(x, s, key);
  }

  /** Otherwise the head stays in front of the tail with the element inserted. */
  lemma InsertBehind<T>(x: T, s: seq<T>, tail: seq<T>, key: T -> int)
    requires SortedBy(s, key) && |s| > 0 && key(s[0]) <= key(x)
    requires SortedBy(tail, key) && |tail| == |s|
    requires multiset(tail) == multiset(s[1..]) + multiset{x}
    requires forall i :: 0 <= i < |tail| ==> tail[i] == x || tail[i] in s[1..]
    ensures var r := [s[0]] + tail;
      && SortedBy(r, key) && multiset(r) == multiset(s) + multiset{x}
      && forall i :: 0 <= i < |r| ==> r[i] == x || r[i] in s
  {
    assert s == [s[0]] + s[1..];
    HeadBelow(s, key);
    assert forall i :: 0 <= i < |tail| ==> key(s[0]) <= key(tail[i]);
    SortedPrepend(s[0], tail, key);
  }

  /** The head of a sorted sequence has the least key. */
  lemma HeadBelow<T>(s: seq<T>, key: T -> int)
    requires SortedBy(s, key) && |s| > 0
    ensures forall y :: y in s ==> key(s[0]) <= key(y)
  {
  }

  /** An element keyed at most every key of a sorted sequence may precede it. */
  lemma SortedPrepend<T>(h: T, t: seq<T>, key: T -> int)
    requires SortedBy(t, key)
    requires forall i :: 0 <= i < |t| ==> key(h) <= key(t[i])
    ensures SortedBy([h] + t, key)
  {
  }

  /** `s.sort((a, b) => key(a) - key(b))` as an insertion sort; like the
      engine's sort it is stable. */
  function SortBy<T>(s: seq<T>, key: T -> int): (r: seq<T>)
    ensures SortedBy(r, key)
    ensures |r| == |s|
    ensures multiset(r) == multiset(s)
  {
    if |s| == 0 then []
    else
      var init := s[..|s| - 1];
      assert s == init + [s[|s| - 1]];
      InsertBy(s[|s| - 1], SortBy(init, key), key)
  }

  /** Inserting an element whose key is at least every key present appends it. */
  lemma {:induction false} InsertLast<T>(x: T, s: seq<T>, key: T -> int)
    requires SortedBy(s, key)
    requires forall i :: 0 <= i < |s| ==> key(s[i]) <= key(x)
    ensures InsertBy(x, s, key) == s + [x]
  {
    if |s| > 0 {
      InsertLast(x, s[1..], key);
      assert [s[0]] + (s[1..] + [x]) == s + [x];
    }
  }

  /** Sorting an already sorted sequence returns it unchanged. */
  lemma {:induction false} SortSorted<T>(s: seq<T>, key: T -> int)
    requires SortedBy(s, key)
    ensures SortBy(s, key) == s
  {
    if |s| > 0 {
      var init := s[..|s| - 1];
      assert SortedBy(init, key);
      SortSorted(init, key);
      InsertLast(s[|s| - 1], init, key);
      assert init + [s[|s| - 1]] == s;
    }
  }

  /** Two sequences with the same multiset have the same length and the
      same members. */
  lemma SameElements<T>(r: seq<T>, d: seq<T>)
    requires multiset(r) == multiset(d)
    ensures |r| == |d|
    ensures forall i :: 0 <= i < |r| ==> r[i] in d
    ensures forall k :: 0 <= k < |d| ==> d[k] in r
  {
    assert |multiset(r)| == |multiset(d)|;
    forall i | 0 <= i < |r|
      ensures r[i] in d
    {
      assert r[i] in multiset(r);
    }
    forall k | 0 <= k < |d|
      ensures d[k] in r
    {
      assert d[k] in multiset(d);
    }
  }

  /** In a sequence sorted by key, an element with a smaller key comes first. */
  lemma SortedBefore<T>(s: seq<T>, key: T -> int, i: int, j: int)
    requires SortedBy(s, key)
    requires 0 <= i < |s| && 0 <= j < |s|
    requires key(s[i]) < key(s[j])
    ensures i < j
  {
  }
}
