/** The two payoff orders: `[...debts].sort((a, b) => a.balance - b.balance)` (snowball,
    smallest balance first) and `[...debts].sort((a, b) => b.rate - a.rate)` (avalanche,
    highest rate first). Array.prototype.sort is stable, so debts that tie keep their
    entered order; the model sorts with an insertion sort proved sorted, a permutation of
    its input and stable. */
module DebtOrdering {
  import opened DebtSimulation

  datatype Order = ByBalance | ByRateDescending

  /** The number the comparator compares: ascending balance, or ascending negated rate. */
  function Key(order: Order, d: Debt): real
  {
    match order
    case ByBalance => d.balance
    case ByRateDescending => -d.rate
  }

  predicate Sorted(order: Order, s: seq<Debt>)
  {
    forall i, j :: 0 <= i < j < |s| ==> Key(order, s[i]) <= Key(order, s[j])
  }

  /** Places d after every entry whose key is at most d's. */
  function Insert(order: Order, t: seq<Debt>, d: Debt): seq<Debt>
  {
    if t == [] then [d]
    else if Key(order, d) < Key(order, t[0]) then [d] + t
    else [t[0]] + Insert(order, t[1..], d)
  }

  /** Stable sort by key: each debt in entered order is placed after its equals. */
  function SortDebts(order: Order, s: seq<Debt>): seq<Debt>
  {
    if s == [] then [] else Insert(order, SortDebts(order, s[..|s| - 1]), s[|s| - 1])
  }

  /** The entries with a given key, in their order. */
  function WithKey(order: Order, s: seq<Debt>, k: real): seq<Debt>
  {
    if s == [] then []
    else (if Key(order, s[0]) == k then [s[0]] else []) + WithKey(order, s[1..], k)
  }

  lemma {:induction false} InsertPermutes(order: Order, t: seq<Debt>, d: Debt)
    ensures multiset(Insert(order, t, d)) == multiset(t) + multiset{d}
    ensures |Insert(order, t, d)| == |t| + 1
  {
    if t != [] && Key(order, d) >= Key(order, t[0]) {
      InsertPermutes(order, t[1..], d);
      assert t == [t[0]] + t[1..];
    }
  }

  /** Inserting keeps every key at or above a common lower bound. */
  lemma {:induction false} InsertLowerBound(order: Order, t: seq<Debt>, d: Debt, lo: real)
    requires forall i :: 0 <= i < |t| ==> lo <= Key(order, t[i])
    requires lo <= Key(order, d)
    ensures forall i :: 0 <= i < |Insert(order, t, d)| ==> lo <= Key(order, Insert(order, t, d)[i])
  {
    if t != [] && Key(order, d) >= Key(order, t[0]) {
      InsertLowerBound(order, t[1..], d, lo);
    }
  }

  /** A key placed in front of a sorted list of keys no smaller keeps it sorted. */
  lemma ConsSorted(order: Order, x: Debt, r: seq<Debt>)
    requires Sorted(order, r)
    requires forall i :: 0 <= i < |r| ==> Key(order, x) <= Key(order, r[i])
    ensures Sorted(order, [x] + r)
  {
    forall i, j | 0 <= i < j < |[x] + r|
      ensures Key(order, ([x] + r)[i]) <= Key(order, ([x] + r)[j])
    {
      assert ([x] + r)[j] == r[j - 1];
      if i > 0 {
        assert ([x] + r)[i] == r[i - 1];
      }
    }
  }

  lemma {:induction false} InsertSorted(order: Order, t: seq<Debt>, d: Debt)
    requires Sorted(order, t)
    ensures Sorted(order, Insert(order, t, d))
  {
    if t == [] {
    } else if Key(order, d) < Key(order, t[0]) {
      ConsSorted(order, d, t);
    } else {
      var rest := t[1..];
      assert Sorted(order, rest);
      InsertSorted(order, rest, d);
      assert forall i :: 0 <= i < |rest| ==> Key(order, t[0]) <= Key(order, rest[i]) by {
        forall i | 0 <= i < |rest|
          ensures Key(order, t[0]) <= Key(order, rest[i])
        {
          assert rest[i] == t[i + 1];
        }
      }
      InsertLowerBound(order, rest, d, Key(order, t[0]));
      ConsSorted(order, t[0], Insert(order, rest, d));
    }
  }

  /** The sort lists the same debts, each as often. */
  lemma {:induction false} SortPermutes(order: Order, s: seq<Debt>)
    ensures multiset(SortDebts(order, s)) == multiset(s)
    ensures |SortDebts(order, s)| == |s|
  {
    if s != [] {
      SortPermutes(order, s[..|s| - 1]);
      InsertPermutes(order, SortDebts(order, s[..|s| - 1]), s[|s| - 1]);
      assert s == s[..|s| - 1] + [s[|s| - 1]];
    }
  }

  /** The sort puts the keys in ascending order. */
  lemma {:induction false} SortSorts(order: Order, s: seq<Debt>)
    ensures Sorted(order, SortDebts(order, s))
  {
    if s != [] {
      SortSorts(order, s[..|s| - 1]);
      InsertSorted(order, SortDebts(order, s[..|s| - 1]), s[|s| - 1]);
    }
  }

  lemma {:induction false} WithKeyAppend(order: Order, a: seq<Debt>, b: seq<Debt>, k: real)
    ensures WithKey(order, a + b, k) == WithKey(order, a, k) + WithKey(order, b, k)
  {
    if a != [] {
      WithKeyAppend(order, a[1..], b, k);
      assert (a + b)[1..] == a[1..] + b;
    } else {
      assert a + b == b;
    }
  }

  /** In a sorted list, nothing after an entry of larger key has key k. */
  lemma {:induction false} WithKeyAbove(order: Order, t: seq<Debt>, k: real)
    requires Sorted(order, t) && (t != [] ==> k < Key(order, t[0]))
    ensures WithKey(order, t, k) == []
  {
    if t != [] {
      WithKeyAbove(order, t[1..], k);
    }
  }

  lemma {:induction false} InsertKeepsTies(order: Order, t: seq<Debt>, d: Debt, k: real)
    requires Sorted(order, t)
    ensures WithKey(order, Insert(order, t, d), k) == WithKey(order, t, k) + WithKey(order, [d], k)
  {
    if t == [] {
    } else if Key(order, d) < Key(order, t[0]) {
      if Key(order, d) == k {
        WithKeyAbove(order, t, k);
      }
      WithKeyAppend(order, [d], t, k);
    } else {
      InsertKeepsTies(order, t[1..], d, k);
      assert WithKey(order, Insert(order, t, d), k)
          == (if Key(order, t[0]) == k then [t[0]] else []) + WithKey(order, Insert(order, t[1..], d), k);
    }
  }

  /** Stability: for every key, the debts with that key appear in the sorted list exactly
      as they appear in the entered list. */
  lemma {:induction false} SortStable(order: Order, s: seq<Debt>, k: real)
    ensures WithKey(order, SortDebts(order, s), k) == WithKey(order, s, k)
  {
    if s != [] {
      var init, last := s[..|s| - 1], s[|s| - 1];
      SortStable(order, init, k);
      SortSorts(order, init);
      InsertKeepsTies(order, SortDebts(order, init), last, k);
      assert s == init + [last];
      WithKeyAppend(order, init, [last], k);
    }
  }
}
