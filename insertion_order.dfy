/**
 * The key order of a JavaScript `Map` or `Set`: keys come out in the order
 * they were first inserted, and inserting a key again keeps its place.
 */
module InsertionOrder {
  import opened AppGraph

  /** The keys of an insertion-ordered map after setting `keys` in turn. */
  function Order(keys: seq<string>): (r: seq<string>)
    ensures forall k :: k in r <==> k in keys
    ensures Distinct(r)
  {
    if keys == [] then []
    else
      var front := Order(keys[..|keys| - 1]);
      var last := keys[|keys| - 1];
      assert forall k :: k in keys <==> k in keys[..|keys| - 1] || k == last;
      if last in front then front
      else
        DistinctAppend(front, last);
        front + [last]
  }

  lemma OrderAppend(keys: seq<string>, k: string)
    ensures Order(keys + [k]) == if k in Order(keys) then Order(keys) else Order(keys) + [k]
  {
    assert (keys + [k])[..|keys|] == keys;
  }

  /** Keys first set later come after the keys already present, which keep their order. */
  lemma {:induction false} OrderPrefix(a: seq<string>, b: seq<string>)
    ensures |Order(a)| <= |Order(a + b)| && Order(a + b)[..|Order(a)|] == Order(a)
  {
    if b != [] {
      var n := |b| - 1;
      OrderPrefix(a, b[..n]);
      assert (a + b)[..|a + b| - 1] == a + b[..n];
    } else {
      assert a + b == a;
    }
  }

  /** The keys of several key lists set one list after another. */
  function Concat(lists: seq<seq<string>>): (r: seq<string>)
  {
    if lists == [] then [] else Concat(lists[..|lists| - 1]) + lists[|lists| - 1]
  }

  lemma {:induction false} ConcatHas(lists: seq<seq<string>>, k: string)
    ensures k in Concat(lists) <==> exists i :: 0 <= i < |lists| && k in lists[i]
  {
    if lists != [] {
      var m := |lists| - 1;
      var front := lists[..m];
      ConcatHas(front, k);
      if k in Concat(lists) && k !in lists[m] {
        var i :| 0 <= i < |front| && k in front[i];
        assert lists[i] == front[i];
      }
      if k !in Concat(lists) {
        forall i | 0 <= i < |lists|
          ensures k !in lists[i]
        {
          if i < m {
            assert front[i] == lists[i];
          }
        }
      }
    }
  }

  lemma {:induction false} ConcatSplit(lists: seq<seq<string>>, n: nat)
    requires n <= |lists|
    ensures Concat(lists) == Concat(lists[..n]) + Concat(lists[n..])
    decreases |lists|
  {
    if |lists| > n {
      var m := |lists| - 1;
      var front := lists[..m];
      var back := lists[n..];
      ConcatSplit(front, n);
      assert front[..n] == lists[..n];
      assert back[..|back| - 1] == front[n..];
    } else {
      assert lists[..n] == lists;
    }
  }

  /**
   * Setting the lists in turn gives each key of any list exactly once, and
   * the keys of the first `n` lists come before any key first set later.
   */
  lemma OrderConcat(lists: seq<seq<string>>, n: nat, k: string)
    requires n <= |lists|
    ensures k in Order(Concat(lists)) <==> exists i :: 0 <= i < |lists| && k in lists[i]
    ensures var early := Order(Concat(lists[..n]));
      |early| <= |Order(Concat(lists))| && Order(Concat(lists))[..|early|] == early
  {
    ConcatHas(lists, k);
    ConcatSplit(lists, n);
    OrderPrefix(Concat(lists[..n]), Concat(lists[n..]));
  }
}
