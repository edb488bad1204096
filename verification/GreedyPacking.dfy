/** Greedy choice among items that compete for resources: walk the items in order of
    falling worth and keep each one that clashes with nothing kept before it. */
module GreedyPacking {

  datatype Item<R> = Item(uses: set<R>, worth: real)

  predicate Clash<R>(a: Item<R>, b: Item<R>) {
    a.uses * b.uses != {}
  }

  ghost predicate Descending<R>(items: seq<Item<R>>) {
    && (forall i :: 0 <= i < |items| ==> items[i].worth >= 0.0)
    && (forall i, j :: 0 <= i < j < |items| ==> items[j].worth <= items[i].worth)
  }

  /** The item at position i is kept exactly when it clashes with no kept item before it. */
  ghost predicate KeptAt<R>(items: seq<Item<R>>, i: nat)
    requires i < |items|
  {
    forall j :: 0 <= j < i && KeptAt(items, j) ==> !Clash(items[j], items[i])
  }

  ghost predicate ClashFree<R>(items: seq<Item<R>>, chosen: set<nat>) {
    && (forall i :: i in chosen ==> i < |items|)
    && (forall i, j :: i in chosen && j in chosen && i != j ==> !Clash(items[i], items[j]))
  }

  ghost function Kept<R>(items: seq<Item<R>>): set<nat> {
    set i: nat | i < |items| && KeptAt(items, i)
  }

  /** Kept items are themselves a clash-free choice, so the bound below compares like with like. */
  lemma KeptIsClashFree<R>(items: seq<Item<R>>)
    ensures ClashFree(items, Kept(items))
  {
    forall i, j | i in Kept(items) && j in Kept(items) && i < j
      ensures !Clash(items[i], items[j]) && !Clash(items[j], items[i])
    {
      assert items[i].uses * items[j].uses == items[j].uses * items[i].uses;
    }
  }

  /** The worth of the chosen positions below n. */
  ghost function Total<R>(items: seq<Item<R>>, chosen: set<nat>, n: nat): real
    requires n <= |items|
  {
    if n == 0 then 0.0
    else Total(items, chosen, n - 1) + (if n - 1 in chosen then items[n - 1].worth else 0.0)
  }

  /** k times x, as repeated addition; TimesIsProduct says so. */
  ghost function Times(k: nat, x: real): real {
    if k == 0 then 0.0 else Times(k - 1, x) + x
  }

  lemma {:induction false} TimesMonotone(j: nat, k: nat, x: real)
    requires j <= k && x >= 0.0
    ensures Times(j, x) <= Times(k, x)
  {
    if j == k {
    } else {
      TimesMonotone(j, k - 1, x);
    }
  }

  lemma {:induction false} TimesAdds(k: nat, x: real, y: real)
    ensures Times(k, x + y) == Times(k, x) + Times(k, y)
  {
    if k == 0 {
    } else {
      TimesAdds(k - 1, x, y);
    }
  }

  lemma {:induction false} TimesIsProduct(k: nat, x: real)
    ensures Times(k, x) == k as real * x
  {
    if k == 0 {
    } else {
      TimesIsProduct(k - 1, x);
      var j := (k - 1) as real;
      assert (j + 1.0) * x == j * x + x;
    }
  }

  lemma WithinProduct(a: real, k: nat, x: real)
    requires a <= Times(k, x)
    ensures a <= k as real * x
  {
    TimesIsProduct(k, x);
  }

  lemma {:induction false} TotalSplit<R>(items: seq<Item<R>>, x: set<nat>, y: set<nat>, n: nat)
    requires n <= |items| && x !! y
    ensures Total(items, x + y, n) == Total(items, x, n) + Total(items, y, n)
  {
    if n == 0 {
    } else {
      TotalSplit(items, x, y, n - 1);
    }
  }

  lemma {:induction false} TotalOfNone<R>(items: seq<Item<R>>, n: nat)
    requires n <= |items|
    ensures Total(items, {}, n) == 0.0
  {
    if n == 0 {
    } else {
      TotalOfNone(items, n - 1);
    }
  }

  lemma {:induction false} TotalOfOne<R>(items: seq<Item<R>>, i: nat, n: nat)
    requires n <= |items|
    ensures Total(items, {i}, n) == if i < n then items[i].worth else 0.0
  {
    if n == 0 {
    } else {
      TotalOfOne(items, i, n - 1);
    }
  }

  lemma {:induction false} TotalAtMost<R>(items: seq<Item<R>>, x: set<nat>, cap: real)
    requires cap >= 0.0 && forall i :: i in x ==> i < |items| && items[i].worth <= cap
    ensures Total(items, x, |items|) <= Times(|x|, cap)
    decreases |x|
  {
    if x == {} {
      TotalOfNone(items, |items|);
    } else {
      var i :| i in x;
      var y := x - {i};
      TotalAtMost(items, y, cap);
      TotalSplit(items, y, {i}, |items|);
      TotalOfOne(items, i, |items|);
      assert y + {i} == x && |x| == |y| + 1;
    }
  }

  /** Clash-free items that each use something of r are at most |r| many. */
  lemma {:induction false} AtMostOnePerResource<R>(items: seq<Item<R>>, chosen: set<nat>, r: set<R>)
    requires ClashFree(items, chosen)
    requires forall i :: i in chosen ==> items[i].uses * r != {}
    ensures |chosen| <= |r|
    decreases |chosen|
  {
    if chosen != {} {
      var o :| o in chosen;
      var x :| x in items[o].uses * r;
      var rest := chosen - {o};
      forall i | i in rest ensures items[i].uses * (r - {x}) != {} {
        assert !Clash(items[i], items[o]);
        assert x !in items[i].uses * items[o].uses;
        var y :| y in items[i].uses * r;
        assert y in items[i].uses * (r - {x});
      }
      AtMostOnePerResource(items, rest, r - {x});
      assert |chosen| == |rest| + 1 && |r| == |r - {x}| + 1;
    }
  }

  /** The kept item that accounts for position o: o itself, or one of at least its worth that clashes with it. */
  ghost predicate Accounts<R>(items: seq<Item<R>>, a: nat, o: nat) {
    && a <= o < |items|
    && KeptAt(items, a)
    && items[o].worth <= items[a].worth
    && (a == o || Clash(items[a], items[o]))
  }

  lemma AccountFor<R>(items: seq<Item<R>>, o: nat) returns (a: nat)
    requires Descending(items) && o < |items|
    ensures Accounts(items, a, o)
  {
    if KeptAt(items, o) {
      a := o;
    } else {
      a :| 0 <= a < o && KeptAt(items, a) && Clash(items[a], items[o]);
    }
  }

  ghost predicate Accounting<R>(items: seq<Item<R>>, chosen: set<nat>, account: map<nat, nat>) {
    account.Keys == chosen && forall o :: o in chosen ==> Accounts(items, account[o], o)
  }

  lemma {:induction false} AccountForAll<R>(items: seq<Item<R>>, chosen: set<nat>) returns (account: map<nat, nat>)
    requires Descending(items) && forall o :: o in chosen ==> o < |items|
    ensures Accounting(items, chosen, account)
    decreases |chosen|
  {
    account := map[];
    if chosen != {} {
      var o :| o in chosen;
      account := AccountForAll(items, chosen - {o});
      var a := AccountFor(items, o);
      account := account[o := a];
    }
  }

  ghost function AccountedTo(chosen: set<nat>, account: map<nat, nat>, a: nat): set<nat>
    requires account.Keys == chosen
  {
    set o | o in chosen && account[o] == a
  }

  lemma AccountedToOne<R>(items: seq<Item<R>>, chosen: set<nat>, account: map<nat, nat>, a: nat, k: nat)
    requires Descending(items) && ClashFree(items, chosen) && Accounting(items, chosen, account)
    requires a < |items| && k >= 1 && |items[a].uses| <= k
    ensures |AccountedTo(chosen, account, a)| <= k
  {
    var c := AccountedTo(chosen, account, a);
    forall o | o in c ensures Accounts(items, a, o) {}
    if a in c {
      assert forall o :: o in c ==> o == a;
      assert c <= {a};
      assert c == {a};
    } else {
      forall o | o in c ensures items[o].uses * items[a].uses != {} {
        assert items[o].uses * items[a].uses == items[a].uses * items[o].uses;
      }
      assert ClashFree(items, c);
      AtMostOnePerResource(items, c, items[a].uses);
    }
  }

  ghost function AccountedBelow(chosen: set<nat>, account: map<nat, nat>, n: nat): set<nat>
    requires account.Keys == chosen
  {
    set o | o in chosen && account[o] < n
  }

  /** What is accounted to one kept item is worth at most k times that item. */
  lemma AccountedToBound<R>(items: seq<Item<R>>, chosen: set<nat>, account: map<nat, nat>, a: nat, k: nat)
    requires Descending(items) && ClashFree(items, chosen) && Accounting(items, chosen, account)
    requires a < |items| && k >= 1 && |items[a].uses| <= k
    ensures KeptAt(items, a) ==> Total(items, AccountedTo(chosen, account, a), |items|) <= Times(k, items[a].worth)
    ensures !KeptAt(items, a) ==> AccountedTo(chosen, account, a) == {}
  {
    var here := AccountedTo(chosen, account, a);
    forall o | o in here ensures Accounts(items, a, o) {}
    if KeptAt(items, a) {
      AccountedToOne(items, chosen, account, a, k);
      TotalAtMost(items, here, items[a].worth);
      TimesMonotone(|here|, k, items[a].worth);
    }
  }

  lemma {:induction false} AccountedBelowBound<R>(
      items: seq<Item<R>>, chosen: set<nat>, account: map<nat, nat>, n: nat, k: nat)
    requires Descending(items) && ClashFree(items, chosen) && Accounting(items, chosen, account)
    requires n <= |items| && k >= 1 && forall i :: 0 <= i < |items| ==> |items[i].uses| <= k
    ensures Total(items, AccountedBelow(chosen, account, n), |items|) <= Times(k, Total(items, Kept(items), n))
  {
    if n == 0 {
      assert AccountedBelow(chosen, account, 0) == {};
      TotalOfNone(items, |items|);
      TimesMonotone(0, k, 0.0);
    } else {
      var a := n - 1;
      var less, here := AccountedBelow(chosen, account, a), AccountedTo(chosen, account, a);
      AccountedBelowBound(items, chosen, account, a, k);
      assert AccountedBelow(chosen, account, n) == less + here;
      TotalSplit(items, less, here, |items|);
      AccountedToBound(items, chosen, account, a, k);
      TotalOfNone(items, |items|);
      TimesAdds(k, Total(items, Kept(items), a), items[a].worth);
    }
  }

  lemma KeptWithinTimes<R>(items: seq<Item<R>>, chosen: set<nat>, k: nat)
    requires Descending(items) && ClashFree(items, chosen)
    requires k >= 1 && forall i :: 0 <= i < |items| ==> |items[i].uses| <= k
    ensures Total(items, chosen, |items|) <= Times(k, Total(items, Kept(items), |items|))
  {
    var account := AccountForAll(items, chosen);
    AccountedBelowBound(items, chosen, account, |items|, k);
    assert AccountedBelow(chosen, account, |items|) == chosen;
  }

  /** No clash-free choice is worth more than k times what is kept. */
  lemma KeptWithinFactor<R>(items: seq<Item<R>>, chosen: set<nat>, k: nat)
    requires Descending(items) && ClashFree(items, chosen)
    requires k >= 1 && forall i :: 0 <= i < |items| ==> |items[i].uses| <= k
    ensures Total(items, chosen, |items|) <= k as real * Total(items, Kept(items), |items|)
  {
    KeptWithinTimes(items, chosen, k);
    WithinProduct(Total(items, chosen, |items|), k, Total(items, Kept(items), |items|));
  }
}
