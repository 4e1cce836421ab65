/**
 * The message queue: messages kept in order of their due time `when`.
 * A send appends the new message and sorts the whole array by `when` with a
 * stable sort; a dispatch takes the head.
 */
module MessageQueue {
  import opened Types

  predicate SortedByWhen(q: seq<Message>)
  {
    forall i, j :: 0 <= i < j < |q| ==> q[i].when <= q[j].when
  }

  /** The total order of the queue: by due time, ties broken by id (submission order). */
  predicate Precedes(a: Message, b: Message)
  {
    a.when < b.when || (a.when == b.when && a.id < b.id)
  }

  predicate Ordered(q: seq<Message>)
  {
    forall i, j :: 0 <= i < j < |q| ==> Precedes(q[i], q[j])
  }

  predicate IdsBelow(q: seq<Message>, n: int)
  {
    forall i :: 0 <= i < |q| ==> q[i].id < n
  }

  /** Ids grow along the sequence: the order in which the messages were submitted. */
  predicate IdsIncreasing(s: seq<Message>)
  {
    forall i, j :: 0 <= i < j < |s| ==> s[i].id < s[j].id
  }

  lemma OrderedIsSorted(q: seq<Message>)
    requires Ordered(q)
    ensures SortedByWhen(q)
  {
  }

  /** The length of the leading run of messages due no later than `w`. */
  function InsertionPoint(q: seq<Message>, w: int): (k: nat)
    ensures k <= |q|
    ensures forall i :: 0 <= i < k ==> q[i].when <= w
    ensures k < |q| ==> q[k].when > w
  {
    if q == [] || q[0].when > w then 0 else 1 + InsertionPoint(q[1..], w)
  }

  /**
   * Stable insertion: the new message goes after every earlier message due
   * no later than it, and before the first one due later.
   */
  function Enqueue(q: seq<Message>, m: Message): (r: seq<Message>)
    ensures |r| == |q| + 1
    ensures r[InsertionPoint(q, m.when)] == m
  {
    var k := InsertionPoint(q, m.when);
    q[..k] + [m] + q[k..]
  }

  /** The queue after a send holds the old messages and the new one, nothing else. */
  lemma EnqueuePermutes(q: seq<Message>, m: Message)
    ensures multiset(Enqueue(q, m)) == multiset(q) + multiset{m}
  {
    var k := InsertionPoint(q, m.when);
    assert q == q[..k] + q[k..];
  }

  /** Taking the new message out again gives back the old queue, in its order. */
  lemma EnqueueRemove(q: seq<Message>, m: Message)
    ensures var k := InsertionPoint(q, m.when);
      Enqueue(q, m)[..k] + Enqueue(q, m)[k + 1..] == q
  {
    var k := InsertionPoint(q, m.when);
    var r := Enqueue(q, m);
    assert r[..k] == q[..k] && r[k + 1..] == q[k..];
    assert q == q[..k] + q[k..];
  }

  /** Where each old message ends up after the insertion. */
  lemma EnqueueAt(q: seq<Message>, m: Message, i: nat)
    requires i <= |q|
    ensures var k := InsertionPoint(q, m.when);
      Enqueue(q, m)[i] == (if i < k then q[i] else if i == k then m else q[i - 1])
  {
    var k := InsertionPoint(q, m.when);
    var left := q[..k] + [m];
    assert Enqueue(q, m) == left + q[k..];
    if i < k {
      assert left[i] == q[..k][i];
    } else if i > k {
      assert q[k..][i - k - 1] == q[i - 1];
    }
  }

  lemma EnqueueKeepsSorted(q: seq<Message>, m: Message)
    requires SortedByWhen(q)
    ensures SortedByWhen(Enqueue(q, m))
  {
    var k := InsertionPoint(q, m.when);
    var r := Enqueue(q, m);
    forall i, j | 0 <= i < j < |r|
      ensures r[i].when <= r[j].when
    {
      EnqueueAt(q, m, i);
      EnqueueAt(q, m, j);
      if i == k { assert q[k].when > m.when; }
    }
  }

  /**
   * `Array.prototype.sort` with the comparator `a.when - b.when`, which is
   * stable since ECMAScript 2019 (ECMA-262 10th edition, section 22.1.3.27):
   * insertion sort that places each element after the equal ones before it.
   */
  function SortByWhen(s: seq<Message>): (r: seq<Message>)
    ensures |r| == |s|
    decreases |s|
  {
    if s == [] then [] else Enqueue(SortByWhen(s[..|s| - 1]), s[|s| - 1])
  }

  /** The sort rearranges its input: same messages, same multiplicities. */
  lemma {:induction false} SortByWhenPermutes(s: seq<Message>)
    ensures multiset(SortByWhen(s)) == multiset(s)
    decreases |s|
  {
    if s != [] {
      var init, last := s[..|s| - 1], s[|s| - 1];
      SortByWhenPermutes(init);
      EnqueuePermutes(SortByWhen(init), last);
      assert s == init + [last];
    }
  }

  lemma {:induction false} SortByWhenSorted(s: seq<Message>)
    ensures SortedByWhen(SortByWhen(s))
    decreases |s|
  {
    if s != [] {
      SortByWhenSorted(s[..|s| - 1]);
      EnqueueKeepsSorted(SortByWhen(s[..|s| - 1]), s[|s| - 1]);
    }
  }

  /** Inserting a message with a fresh, larger id keeps the (when, id) order. */
  lemma EnqueueKeepsOrder(q: seq<Message>, m: Message)
    requires Ordered(q) && IdsBelow(q, m.id)
    ensures Ordered(Enqueue(q, m))
  {
    var k := InsertionPoint(q, m.when);
    var r := Enqueue(q, m);
    forall i, j | 0 <= i < j < |r|
      ensures Precedes(r[i], r[j])
    {
      EnqueueAt(q, m, i);
      EnqueueAt(q, m, j);
      if i == k { assert q[k].when > m.when; }
    }
  }

  /**
   * The sort is stable: when the input is in submission order (ids
   * increasing), the output is ordered by due time with ties in submission
   * order.
   */
  lemma {:induction false} SortIsStable(s: seq<Message>)
    requires IdsIncreasing(s)
    ensures Ordered(SortByWhen(s))
    decreases |s|
  {
    if s != [] {
      var init, last := s[..|s| - 1], s[|s| - 1];
      SortIsStable(init);
      SortByWhenPermutes(init);
      var sorted := SortByWhen(init);
      forall i | 0 <= i < |sorted|
        ensures sorted[i].id < last.id
      {
        assert sorted[i] in multiset(sorted);
        assert sorted[i] in multiset(init);
        var j :| 0 <= j < |init| && init[j] == sorted[i];
      }
      EnqueueKeepsOrder(sorted, last);
    }
  }

  /** The messages of `s` due exactly at `w`, in their order in `s`. */
  function DueAt(s: seq<Message>, w: int): seq<Message>
    decreases |s|
  {
    if s == [] then [] else (if s[0].when == w then [s[0]] else []) + DueAt(s[1..], w)
  }

  lemma {:induction false} DueAtAppend(a: seq<Message>, b: seq<Message>, w: int)
    ensures DueAt(a + b, w) == DueAt(a, w) + DueAt(b, w)
    decreases |a|
  {
    if a == [] {
      assert a + b == b;
    } else {
      var head := if a[0].when == w then [a[0]] else [];
      assert (a + b)[0] == a[0] && (a + b)[1..] == a[1..] + b;
      DueAtAppend(a[1..], b, w);
      assert DueAt(a + b, w) == head + DueAt(a[1..] + b, w);
      assert DueAt(a, w) == head + DueAt(a[1..], w);
    }
  }

  lemma {:induction false} DueAtLater(s: seq<Message>, w: int)
    requires forall i :: 0 <= i < |s| ==> s[i].when > w
    ensures DueAt(s, w) == []
    decreases |s|
  {
    if s != [] {
      DueAtLater(s[1..], w);
    }
  }

  lemma DueAtSingle(m: Message, w: int)
    ensures DueAt([m], w) == if m.when == w then [m] else []
  {
    assert [m][1..] == [];
  }

  /** On a sorted queue everything behind the insertion point is due later than the new message. */
  lemma BehindInsertionPoint(q: seq<Message>, w: int)
    requires SortedByWhen(q)
    ensures forall i :: InsertionPoint(q, w) <= i < |q| ==> q[i].when > w
  {
  }

  /** The messages due at `w` before the insertion point, then the new one if due at `w`, then the rest. */
  lemma EnqueueDueAtSplit(q: seq<Message>, m: Message, w: int)
    ensures var k := InsertionPoint(q, m.when);
      && DueAt(Enqueue(q, m), w) == DueAt(q[..k], w) + DueAt([m], w) + DueAt(q[k..], w)
      && DueAt(q, w) == DueAt(q[..k], w) + DueAt(q[k..], w)
  {
    var k := InsertionPoint(q, m.when);
    var front, back := q[..k], q[k..];
    DueAtAppend(front + [m], back, w);
    DueAtAppend(front, [m], w);
    assert q == front + back;
    DueAtAppend(front, back, w);
  }

  /** On a sorted queue, the inserted message comes after every queued message due at the same time. */
  lemma EnqueueDueAt(q: seq<Message>, m: Message, w: int)
    requires SortedByWhen(q)
    ensures DueAt(Enqueue(q, m), w) == DueAt(q, w) + (if m.when == w then [m] else [])
  {
    var k := InsertionPoint(q, m.when);
    EnqueueDueAtSplit(q, m, w);
    DueAtSingle(m, w);
    if m.when == w {
      BehindInsertionPoint(q, m.when);
      var back := q[k..];
      forall i | 0 <= i < |back| ensures back[i].when > w {
        assert back[i] == q[k + i];
      }
      DueAtLater(back, w);
    }
  }

  /**
   * The sort is stable for any input: for every due time, the messages due
   * at that time come out in the order they went in.
   */
  lemma {:induction false} SortKeepsTieOrder(s: seq<Message>, w: int)
    ensures DueAt(SortByWhen(s), w) == DueAt(s, w)
    decreases |s|
  {
    if s != [] {
      var init, last := s[..|s| - 1], s[|s| - 1];
      var sorted := SortByWhen(init);
      calc {
        DueAt(SortByWhen(s), w);
        DueAt(Enqueue(sorted, last), w);
        { SortByWhenSorted(init); EnqueueDueAt(sorted, last, w); DueAtSingle(last, w); }
        DueAt(sorted, w) + DueAt([last], w);
        { SortKeepsTieOrder(init, w); }
        DueAt(init, w) + DueAt([last], w);
        { DueAtAppend(init, [last], w); }
        DueAt(init + [last], w);
        { assert s == init + [last]; }
        DueAt(s, w);
      }
    }
  }

  /** Sorting an already sorted queue leaves it as it is. */
  lemma SortedPrefix(q: seq<Message>, n: nat)
    requires SortedByWhen(q) && n <= |q|
    ensures SortedByWhen(q[..n])
  {
    forall i, j | 0 <= i < j < n ensures q[..n][i].when <= q[..n][j].when {
      assert q[..n][i] == q[i] && q[..n][j] == q[j];
    }
  }

  /** A message due no earlier than everything queued goes to the back. */
  lemma EnqueueLatest(q: seq<Message>, m: Message)
    requires forall i :: 0 <= i < |q| ==> q[i].when <= m.when
    ensures Enqueue(q, m) == q + [m]
  {
    var k := InsertionPoint(q, m.when);
    assert k == |q|;
    assert q[..k] == q && q[k..] == [];
  }

  lemma LastIsLatest(q: seq<Message>, init: seq<Message>)
    requires SortedByWhen(q) && q != [] && init == q[..|q| - 1]
    ensures forall i :: 0 <= i < |init| ==> init[i].when <= q[|q| - 1].when
  {
  }

  lemma {:induction false} SortSortedIsIdentity(q: seq<Message>)
    requires SortedByWhen(q)
    ensures SortByWhen(q) == q
    decreases |q|
  {
    if q != [] {
      var n := |q| - 1;
      var init, last := q[..n], q[n];
      SortedPrefix(q, n);
      SortSortedIsIdentity(init);
      LastIsLatest(q, init);
      EnqueueLatest(init, last);
      calc {
        SortByWhen(q);
        Enqueue(SortByWhen(init), last);
        Enqueue(init, last);
        init + [last];
        { assert q == init + [last]; }
        q;
      }
    }
  }

  /** On a sorted queue, append-then-sort is exactly the stable insertion. */
  lemma {:induction false} SortAppendIsEnqueue(q: seq<Message>, m: Message)
    requires SortedByWhen(q)
    ensures SortByWhen(q + [m]) == Enqueue(q, m)
  {
    var s := q + [m];
    assert s[..|s| - 1] == q && s[|s| - 1] == m;
    SortSortedIsIdentity(q);
  }

  /** Removing the head (`slice(1)`) keeps the order; the head precedes every rest element. */
  lemma HeadPrecedesRest(q: seq<Message>)
    requires Ordered(q) && q != []
    ensures Ordered(q[1..])
    ensures forall i :: 1 <= i < |q| ==> Precedes(q[0], q[i])
  {
  }
}
