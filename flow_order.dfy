/**
 * The stable "top to bottom, then left to right" ordering that both the
 * automatic edge generator and the workflow details panel apply to a copy of
 * the node list: `[...nodes].sort((a, b) => a.y !== b.y ? a.y - b.y : a.x - b.x)`.
 *
 * `Array.prototype.sort` is stable, so the result is the unique permutation
 * that is ordered by (y, x) and keeps equal positions in their original
 * order. The model sorts (element, original index) pairs by (y, x, index).
 */
module FlowOrder {

  /** The comparator's key: (y, x). */
  type Key = (int, int)

  predicate KeyLess(a: Key, b: Key) {
    a.0 < b.0 || (a.0 == b.0 && a.1 < b.1)
  }

  /** An element paired with its index in the original sequence. */
  type Tagged<T> = (T, nat)

  predicate TagLess<T>(a: Tagged<T>, b: Tagged<T>, key: T -> Key) {
    KeyLess(key(a.0), key(b.0)) || (key(a.0) == key(b.0) && a.1 < b.1)
  }

  predicate StrictlyOrdered<T>(s: seq<Tagged<T>>, key: T -> Key) {
    forall i, j :: 0 <= i < j < |s| ==> TagLess(s[i], s[j], key)
  }

  function TagFrom<T>(s: seq<T>, from: nat): (r: seq<Tagged<T>>)
    ensures |r| == |s|
    ensures forall i :: 0 <= i < |s| ==> r[i] == (s[i], from + i)
    decreases |s|
  {
    if s == [] then [] else [(s[0], from)] + TagFrom(s[1..], from + 1)
  }

  function Untag<T>(s: seq<Tagged<T>>): (r: seq<T>)
    ensures |r| == |s|
    ensures forall i :: 0 <= i < |s| ==> r[i] == s[i].0
  {
    if s == [] then [] else [s[0].0] + Untag(s[1..])
  }

  /** Inserts `x` before the first element it precedes. */
  function Insert<T>(x: Tagged<T>, s: seq<Tagged<T>>, key: T -> Key): (r: seq<Tagged<T>>)
    ensures multiset(r) == multiset(s) + multiset{x}
    ensures |r| == |s| + 1
  {
    if s == [] || TagLess(x, s[0], key) then [x] + s
    else
      assert s == [s[0]] + s[1..];
      [s[0]] + Insert(x, s[1..], key)
  }

  function SortTagged<T>(s: seq<Tagged<T>>, key: T -> Key): (r: seq<Tagged<T>>)
    ensures multiset(r) == multiset(s)
    ensures |r| == |s|
  {
    if s == [] then []
    else
      assert s == [s[0]] + s[1..];
      Insert(s[0], SortTagged(s[1..], key), key)
  }

  /** The sorted copy. */
  function StableSort<T>(s: seq<T>, key: T -> Key): (r: seq<T>)
    ensures |r| == |s|
  {
    Untag(SortTagged(TagFrom(s, 0), key))
  }

  /** Different tags never compare equal, so `TagLess` is a strict total order on them. */
  lemma TagLessTotal<T>(a: Tagged<T>, b: Tagged<T>, key: T -> Key)
    requires a.1 != b.1
    ensures TagLess(a, b, key) || TagLess(b, a, key)
  {
  }

  lemma {:induction false} InsertOrdered<T>(x: Tagged<T>, s: seq<Tagged<T>>, key: T -> Key)
    requires StrictlyOrdered(s, key)
    requires forall i :: 0 <= i < |s| ==> s[i].1 != x.1
    ensures StrictlyOrdered(Insert(x, s, key), key)
  {
    if s == [] || TagLess(x, s[0], key) {
      var r := [x] + s;
      forall i, j | 0 <= i < j < |r| ensures TagLess(r[i], r[j], key) {
        if i == 0 && j > 1 {
          assert TagLess(s[0], s[j - 1], key);
        }
      }
    } else {
      TagLessTotal(x, s[0], key);
      InsertOrdered(x, s[1..], key);
      var rest := Insert(x, s[1..], key);
      var r := [s[0]] + rest;
      forall k | 0 <= k < |rest| ensures TagLess(s[0], rest[k], key) {
        assert rest[k] in multiset(rest);
        assert rest[k] == x || rest[k] in multiset(s[1..]);
        if rest[k] != x {
          var m :| 0 <= m < |s[1..]| && s[1..][m] == rest[k];
          assert TagLess(s[0], s[m + 1], key);
        }
      }
    }
  }

  predicate DistinctTags<T>(s: seq<Tagged<T>>) {
    forall i, j :: 0 <= i < j < |s| ==> s[i].1 != s[j].1
  }

  lemma {:induction false} SortOrdered<T>(s: seq<Tagged<T>>, key: T -> Key)
    requires DistinctTags(s)
    ensures StrictlyOrdered(SortTagged(s, key), key)
  {
    if s != [] {
      SortOrdered(s[1..], key);
      var rest := SortTagged(s[1..], key);
      forall i | 0 <= i < |rest| ensures rest[i].1 != s[0].1 {
        assert rest[i] in multiset(s[1..]);
        var m :| 0 <= m < |s[1..]| && s[1..][m] == rest[i];
        assert s[m + 1] == rest[i];
      }
      InsertOrdered(s[0], rest, key);
    }
  }

  /**
   * `t` arranges the positions of `s`: every entry is an element of `s` with
   * its original index, the entries are a permutation of the tagged input,
   * and they are strictly ordered by (y, x, original index).
   */
  ghost predicate StableArrangement<T>(s: seq<T>, t: seq<Tagged<T>>, key: T -> Key) {
    && |t| == |s|
    && StrictlyOrdered(t, key)
    && (forall i :: 0 <= i < |t| ==> t[i].1 < |s| && t[i].0 == s[t[i].1])
    && multiset(t) == multiset(TagFrom(s, 0))
  }

  /**
   * The result of `StableSort` is a permutation of its input and reads, in
   * order, the elements of a stable arrangement of the input: ordered by
   * position, with ties in their original order.
   */
  lemma StableSortSpec<T>(s: seq<T>, key: T -> Key)
    ensures multiset(StableSort(s, key)) == multiset(s)
    ensures exists t :: StableArrangement(s, t, key) && StableSort(s, key) == Untag(t)
  {
    var tagged := TagFrom(s, 0);
    var t := SortTagged(tagged, key);
    assert DistinctTags(tagged);
    SortOrdered(tagged, key);
    forall i | 0 <= i < |t| ensures t[i].1 < |s| && t[i].0 == s[t[i].1] {
      assert t[i] in multiset(tagged);
      assert t[i] in tagged;
      var m :| 0 <= m < |tagged| && tagged[m] == t[i];
    }
    assert StableArrangement(s, t, key);
    UntagSort(tagged, key);
    assert Untag(tagged) == s;
  }

  lemma {:induction false} UntagInsert<T>(x: Tagged<T>, s: seq<Tagged<T>>, key: T -> Key)
    ensures multiset(Untag(Insert(x, s, key))) == multiset(Untag(s)) + multiset{x.0}
  {
    if s != [] && !TagLess(x, s[0], key) {
      UntagInsert(x, s[1..], key);
      assert Untag(s) == [s[0].0] + Untag(s[1..]);
    }
  }

  lemma {:induction false} UntagSort<T>(s: seq<Tagged<T>>, key: T -> Key)
    ensures multiset(Untag(SortTagged(s, key))) == multiset(Untag(s))
  {
    if s != [] {
      UntagSort(s[1..], key);
      UntagInsert(s[0], SortTagged(s[1..], key), key);
      assert Untag(s) == [s[0].0] + Untag(s[1..]);
    }
  }
}
