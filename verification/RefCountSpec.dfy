/** The arithmetic of reference counts: what a count should be, given who holds an
    item directly and which items list it. Items are numbered by creation. */
module RefCountSpec {
  /** How often `y` is listed. */
  function Mult(list: seq<nat>, y: nat): nat {
    if list == [] then 0 else (if list[0] == y then 1 else 0) + Mult(list[1..], y)
  }

  /** References to `y` through the items listing it: each parent's count times
      how often it lists `y`. */
  function Through(count: seq<int>, lists: seq<seq<nat>>, y: nat): int
    requires |count| == |lists|
  {
    if count == [] then 0
    else
      var n := |count| - 1;
      Through(count[..n], lists[..n], y) + count[n] * Mult(lists[n], y)
  }

  /** Every count is its direct holders plus what comes through its parents. */
  ghost predicate Balanced(count: seq<int>, lists: seq<seq<nat>>, holders: seq<int>) {
    && |count| == |lists| == |holders|
    && forall y :: 0 <= y < |count| ==> count[y] == holders[y] + Through(count, lists, y)
  }

  /** Every entry ranks below `r`. */
  ghost predicate Under(list: seq<nat>, rank: seq<nat>, r: nat) {
    forall i :: 0 <= i < |list| ==> list[i] < |rank| && rank[list[i]] < r
  }

  /** Parents rank above what they list. */
  ghost predicate Ordered(lists: seq<seq<nat>>, rank: seq<nat>) {
    && |rank| == |lists|
    && forall p :: 0 <= p < |lists| ==> Under(lists[p], rank, rank[p])
  }

  ghost predicate AllAlive(list: seq<nat>, alive: seq<bool>) {
    forall i :: 0 <= i < |list| ==> list[i] < |alive| && alive[list[i]]
  }

  /** What is there lists only what is there. */
  ghost predicate Closed(lists: seq<seq<nat>>, alive: seq<bool>) {
    && |alive| == |lists|
    && forall p :: 0 <= p < |lists| && alive[p] ==> AllAlive(lists[p], alive)
  }

  /** Holders plus `k` per entry of a list. */
  ghost function Plus(holders: seq<int>, list: seq<nat>, k: int): (r: seq<int>)
    ensures |r| == |holders|
    ensures forall y :: 0 <= y < |r| ==> r[y] == holders[y] + k * Mult(list, y)
  {
    seq(|holders|, y requires 0 <= y < |holders| => holders[y] + k * Mult(list, y))
  }

  lemma {:induction false} MultIn(list: seq<nat>, y: nat)
    ensures Mult(list, y) > 0 <==> y in list
  {
    if list != [] {
      MultIn(list[1..], y);
    }
  }

  lemma {:induction false} ThroughBump(count: seq<int>, lists: seq<seq<nat>>, x: nat, d: int, y: nat)
    requires |count| == |lists| && x < |count|
    ensures Through(count[x := count[x] + d], lists, y) == Through(count, lists, y) + d * Mult(lists[x], y)
    decreases |count|
  {
    var n := |count| - 1;
    var bumped := count[x := count[x] + d];
    if x == n {
      assert bumped[..n] == count[..n];
      assert (count[n] + d) * Mult(lists[n], y) == count[n] * Mult(lists[n], y) + d * Mult(lists[n], y);
    } else {
      assert bumped[..n] == count[..n][x := count[..n][x] + d];
      ThroughBump(count[..n], lists[..n], x, d, y);
    }
  }

  lemma {:induction false} ThroughRelist(count: seq<int>, lists: seq<seq<nat>>, x: nat, list: seq<nat>, y: nat)
    requires |count| == |lists| && x < |count|
    ensures Through(count, lists[x := list], y)
         == Through(count, lists, y) + count[x] * Mult(list, y) - count[x] * Mult(lists[x], y)
    decreases |count|
  {
    var n := |count| - 1;
    if x == n {
      assert lists[x := list][..n] == lists[..n];
    } else {
      assert lists[x := list][..n] == lists[..n][x := list];
      ThroughRelist(count[..n], lists[..n], x, list, y);
    }
  }

  lemma {:induction false} ThroughAtLeast(count: seq<int>, lists: seq<seq<nat>>, y: nat)
    requires |count| == |lists| && forall p :: 0 <= p < |count| ==> count[p] >= 0
    ensures Through(count, lists, y) >= 0
    ensures forall p :: 0 <= p < |count| ==> Through(count, lists, y) >= count[p] * Mult(lists[p], y)
  {
    if count != [] {
      var n := |count| - 1;
      ThroughAtLeast(count[..n], lists[..n], y);
      NonNegativeProduct(count[n], Mult(lists[n], y));
    }
  }

  lemma NonNegativeProduct(a: int, b: nat)
    requires a >= 0
    ensures a * b >= 0 && (b > 0 ==> a * b >= a)
  {
  }

  lemma {:induction false} ThroughNothing(count: seq<int>, lists: seq<seq<nat>>, y: nat)
    requires |count| == |lists|
    requires forall p :: 0 <= p < |count| && y in lists[p] ==> count[p] == 0
    ensures Through(count, lists, y) == 0
  {
    if count != [] {
      var n := |count| - 1;
      MultIn(lists[n], y);
      ThroughNothing(count[..n], lists[..n], y);
    }
  }

  /** One more on `x` alone leaves its list owed, or one less leaves it in excess. */
  lemma BumpBalance(count: seq<int>, lists: seq<seq<nat>>, holders: seq<int>, x: nat, d: int)
    requires Balanced(count, lists, holders) && x < |count|
    ensures Balanced(count[x := count[x] + d], lists, Plus(holders[x := holders[x] + d], lists[x], -d))
  {
    hide Through, Mult;
    var bumped, held := count[x := count[x] + d], holders[x := holders[x] + d];
    var owed := Plus(held, lists[x], -d);
    forall y: nat | y < |bumped|
      ensures bumped[y] == owed[y] + Through(bumped, lists, y)
    {
      ThroughBump(count, lists, x, d, y);
      var m := Mult(lists[x], y);
      assert owed[y] == held[y] + -d * m;
      assert count[y] == holders[y] + Through(count, lists, y);
      Opposite(d, m);
    }
  }

  lemma Opposite(k: int, m: int)
    ensures -k * m == -(k * m)
  {
  }

  /** A new list on `x` trades `count[x]` holders per entry. */
  lemma RelistBalance(count: seq<int>, lists: seq<seq<nat>>, holders: seq<int>, x: nat, list: seq<nat>)
    requires Balanced(count, lists, holders) && x < |count|
    ensures Balanced(count, lists[x := list], Plus(Plus(holders, lists[x], count[x]), list, -count[x]))
  {
    hide Through, Mult;
    var relisted, freed := lists[x := list], Plus(holders, lists[x], count[x]);
    var traded := Plus(freed, list, -count[x]);
    forall y: nat | y < |count|
      ensures count[y] == traded[y] + Through(count, relisted, y)
    {
      ThroughRelist(count, lists, x, list, y);
      assert count[y] == holders[y] + Through(count, lists, y);
      assert freed[y] == holders[y] + count[x] * Mult(lists[x], y);
      assert traded[y] == freed[y] + -count[x] * Mult(list, y);
      Opposite(count[x], Mult(list, y));
    }
  }

  /** The first entry of a list, settled. */
  lemma PlusSettle(holders: seq<int>, list: seq<nat>, k: int)
    requires list != [] && list[0] < |holders|
    ensures var p := Plus(holders, list, k); p[list[0] := p[list[0]] - k] == Plus(holders, list[1..], k)
  {
    var p := Plus(holders, list, k);
    forall y | 0 <= y < |holders|
      ensures p[list[0] := p[list[0]] - k][y] == Plus(holders, list[1..], k)[y]
    {
      assert Mult(list, y) == (if list[0] == y then 1 else 0) + Mult(list[1..], y);
      Distribute(k, if list[0] == y then 1 else 0, Mult(list[1..], y));
    }
  }

  lemma Distribute(k: int, a: int, b: int)
    ensures k * (a + b) == k * a + k * b
  {
  }

  lemma PlusNothing(holders: seq<int>, k: int)
    ensures Plus(holders, [], k) == holders
  {
  }

  /** Counts fix the holders. */
  lemma HoldersUnique(count: seq<int>, lists: seq<seq<nat>>, a: seq<int>, b: seq<int>)
    requires Balanced(count, lists, a)
    ensures Balanced(count, lists, b) <==> a == b
  {
    if Balanced(count, lists, b) {
      forall y | 0 <= y < |a|
        ensures a[y] == b[y]
      {
        assert count[y] == a[y] + Through(count, lists, y);
        assert count[y] == b[y] + Through(count, lists, y);
      }
    }
  }

  ghost predicate NonNegative(s: seq<int>) {
    forall y :: 0 <= y < |s| ==> s[y] >= 0
  }

  /** A new item with one holder leaves the rest as they were. */
  lemma NewBalance(count: seq<int>, lists: seq<seq<nat>>, holders: seq<int>, rank: seq<nat>)
    requires Balanced(count, lists, holders) && Ordered(lists, rank)
    ensures Balanced(count + [1], lists + [[]], holders + [1])
  {
    var n := |count|;
    assert (count + [1])[..n] == count && (lists + [[]])[..n] == lists;
    forall y: nat | y < n + 1
      ensures (count + [1])[y] == (holders + [1])[y] + Through(count + [1], lists + [[]], y)
    {
      assert Through(count + [1], lists + [[]], y) == Through(count, lists, y);
      if y == n {
        NotListed(lists, rank);
        ThroughNothing(count, lists, n);
      }
    }
  }

  /** The list of an item without holders may be dropped. */
  lemma NothingListed(count: seq<int>, lists: seq<seq<nat>>, holders: seq<int>, x: nat)
    requires Balanced(count, lists, holders) && x < |count| && count[x] == 0
    ensures Balanced(count, lists[x := []], holders)
  {
    hide Through, Mult;
    forall y: nat | y < |count|
      ensures count[y] == holders[y] + Through(count, lists[x := []], y)
    {
      ThroughRelist(count, lists, x, [], y);
    }
  }

  lemma NotListed(lists: seq<seq<nat>>, rank: seq<nat>)
    requires Ordered(lists, rank)
    ensures forall p :: 0 <= p < |lists| ==> |lists| !in lists[p]
  {
    forall p | 0 <= p < |lists|
      ensures |lists| !in lists[p]
    {
      assert Under(lists[p], rank, rank[p]);
    }
  }

  lemma Below(lists: seq<seq<nat>>, rank: seq<nat>, p: nat, c: nat)
    requires Ordered(lists, rank) && p < |lists| && c in lists[p]
    ensures c < |lists| && rank[c] < rank[p]
  {
    assert Under(lists[p], rank, rank[p]);
  }

  /** A count is at least its direct holders. */
  lemma CountsHolders(count: seq<int>, lists: seq<seq<nat>>, holders: seq<int>, x: nat)
    requires Balanced(count, lists, holders) && NonNegative(count) && x < |count|
    ensures count[x] >= holders[x]
  {
    ThroughAtLeast(count, lists, x);
  }

  /** A list entry whose holders were raised by one per entry has a holder. */
  lemma ListedIsHeld(holders: seq<int>, list: seq<nat>)
    requires NonNegative(holders)
    ensures NonNegative(Plus(holders, list, 1))
    ensures forall c :: c in list && c < |holders| ==> Plus(holders, list, 1)[c] >= 1
  {
    forall c | c in list && c < |holders|
      ensures Plus(holders, list, 1)[c] >= 1
    {
      MultIn(list, c);
    }
  }

  /** An order outlives dropping a list and adding an item. */
  lemma OrderedKept(lists: seq<seq<nat>>, rank: seq<nat>, x: nat)
    requires Ordered(lists, rank)
    ensures x < |lists| ==> Ordered(lists[x := []], rank)
    ensures Ordered(lists + [[]], rank + [0])
  {
    forall p | 0 <= p < |lists|
      ensures Under(lists[p], rank + [0], rank[p])
    {
      assert Under(lists[p], rank, rank[p]);
    }
  }

  /** Dropping lists keeps an order. */
  lemma OrderedShrinks(lists: seq<seq<nat>>, fewer: seq<seq<nat>>, rank: seq<nat>)
    requires Ordered(lists, rank) && |fewer| == |lists|
    requires forall p :: 0 <= p < |fewer| ==> fewer[p] == lists[p] || fewer[p] == []
    ensures Ordered(fewer, rank)
  {
    forall p | 0 <= p < |fewer|
      ensures Under(fewer[p], rank, rank[p])
    {
      assert Under(lists[p], rank, rank[p]);
    }
  }

  /** Entries that are counted are there, so a new list of them may be given. */
  lemma ClosedWithCounted(
      count: seq<int>, lists: seq<seq<nat>>, holders: seq<int>, rank: seq<nat>, alive: seq<bool>, x: nat,
      list: seq<nat>)
    requires Balanced(count, lists, holders) && NonNegative(holders) && NonNegative(count) && Ordered(lists, rank)
    requires |alive| == |count| && forall p :: 0 <= p < |count| ==> alive[p] == (count[p] > 0)
    requires x < |lists|
    requires forall i :: 0 <= i < |list| ==> list[i] < |count| && count[list[i]] > 0
    ensures Closed(lists[x := list], alive)
  {
    CountedIsClosed(count, lists, holders, rank, alive);
  }

  lemma PlusPlus(holders: seq<int>, list: seq<nat>, a: int, b: int)
    ensures Plus(Plus(holders, list, a), list, b) == Plus(holders, list, a + b)
  {
    forall y | 0 <= y < |holders|
      ensures Plus(Plus(holders, list, a), list, b)[y] == Plus(holders, list, a + b)[y]
    {
      Distribute(Mult(list, y), a, b);
    }
  }

  lemma PlusAtLeast(holders: seq<int>, list: seq<nat>, k: int)
    requires k >= 0
    ensures forall y :: 0 <= y < |holders| ==> Plus(holders, list, k)[y] >= holders[y]
  {
    forall y | 0 <= y < |holders|
      ensures Plus(holders, list, k)[y] >= holders[y]
    {
      NonNegativeProduct(k, Mult(list, y));
    }
  }

  /** When exactly the counted items are there, whatever they list is too. */
  lemma CountedIsClosed(count: seq<int>, lists: seq<seq<nat>>, holders: seq<int>, rank: seq<nat>, alive: seq<bool>)
    requires Balanced(count, lists, holders) && NonNegative(holders) && NonNegative(count) && Ordered(lists, rank)
    requires |alive| == |count| && forall p :: 0 <= p < |count| ==> alive[p] == (count[p] > 0)
    ensures Closed(lists, alive)
  {
    forall p, i | 0 <= p < |lists| && alive[p] && 0 <= i < |lists[p]|
      ensures lists[p][i] < |alive| && alive[lists[p][i]]
    {
      Below(lists, rank, p, lists[p][i]);
      ListedCounts(count, lists, holders, p, lists[p][i]);
    }
  }

  /** An item counts at least as much as any item listing it. */
  lemma ListedCounts(count: seq<int>, lists: seq<seq<nat>>, holders: seq<int>, p: nat, c: nat)
    requires Balanced(count, lists, holders) && NonNegative(holders) && NonNegative(count)
    requires p < |lists| && c in lists[p] && c < |lists|
    ensures count[c] >= count[p]
  {
    ThroughAtLeast(count, lists, c);
    MultIn(lists[p], c);
    NonNegativeProduct(count[p], Mult(lists[p], c));
  }

  /** A way through the lists from a directly held item to `y`. */
  ghost predicate HeldVia(lists: seq<seq<nat>>, holders: seq<int>, path: seq<nat>, y: nat) {
    && |holders| == |lists| && path != []
    && (forall i :: 0 <= i < |path| ==> path[i] < |lists|)
    && (forall i :: 0 < i < |path| ==> path[i] in lists[path[i - 1]])
    && holders[path[0]] > 0
    && path[|path| - 1] == y
  }

  /** Some direct holder reaches `y`. */
  ghost predicate ReachedBy(lists: seq<seq<nat>>, holders: seq<int>, y: nat) {
    exists path :: HeldVia(lists, holders, path, y)
  }

  lemma {:induction false} CountAlong(count: seq<int>, lists: seq<seq<nat>>, holders: seq<int>, path: seq<nat>, y: nat)
    requires Balanced(count, lists, holders) && NonNegative(holders) && NonNegative(count)
    requires HeldVia(lists, holders, path, y)
    ensures count[y] > 0
    decreases |path|
  {
    var n := |path| - 1;
    if n == 0 {
      CountsHolders(count, lists, holders, y);
    } else {
      CountAlong(count, lists, holders, path[..n], path[n - 1]);
      ListedCounts(count, lists, holders, path[n - 1], y);
    }
  }

  /** What a holder reached before some items were destroyed is still there, if the items
      still there kept their lists. */
  lemma {:induction false} Survives(
      count: seq<int>, lists: seq<seq<nat>>, holders: seq<int>, was: seq<seq<nat>>, path: seq<nat>, y: nat)
    requires Balanced(count, lists, holders) && NonNegative(holders) && NonNegative(count)
    requires HeldVia(was, holders, path, y) && |was| == |lists|
    requires forall p :: 0 <= p < |lists| && count[p] > 0 ==> lists[p] == was[p]
    ensures count[y] > 0
    decreases |path|
  {
    hide Balanced;
    BalancedSizes(count, lists, holders);
    var n := |path| - 1;
    if n == 0 {
      CountsHolders(count, lists, holders, y);
    } else {
      Survives(count, lists, holders, was, path[..n], path[n - 1]);
      ListedCounts(count, lists, holders, path[n - 1], y);
    }
  }

  lemma BalancedSizes(count: seq<int>, lists: seq<seq<nat>>, holders: seq<int>)
    requires Balanced(count, lists, holders)
    ensures |count| == |lists| == |holders|
  {
  }

  lemma {:induction false} HolderOf(
      count: seq<int>, lists: seq<seq<nat>>, holders: seq<int>, rank: seq<nat>, top: nat, y: nat)
    returns (path: seq<nat>)
    requires Balanced(count, lists, holders) && NonNegative(holders) && NonNegative(count) && Ordered(lists, rank)
    requires y < |count| && count[y] > 0
    requires forall p :: 0 <= p < |rank| ==> rank[p] <= top
    ensures HeldVia(lists, holders, path, y)
    decreases top - rank[y]
  {
    if holders[y] > 0 {
      path := [y];
    } else {
      assert Through(count, lists, y) != 0;
      if forall p :: 0 <= p < |count| && y in lists[p] ==> count[p] == 0 {
        ThroughNothing(count, lists, y);
      }
      var p: nat :| p < |count| && y in lists[p] && count[p] != 0;
      Below(lists, rank, p, y);
      path := HolderOf(count, lists, holders, rank, top, p);
      path := path + [y];
    }
  }

  ghost function Top(rank: seq<nat>): (top: nat)
    ensures forall p :: 0 <= p < |rank| ==> rank[p] <= top
  {
    if rank == [] then 0
    else
      var n := |rank| - 1;
      var rest := Top(rank[..n]);
      if rank[n] > rest then rank[n] else rest
  }

  /** An item is counted exactly when some holder reaches it: nothing reachable is
      destroyed, and what no holder reaches has been. */
  lemma CountedExactlyWhenHeld(count: seq<int>, lists: seq<seq<nat>>, holders: seq<int>, rank: seq<nat>, y: nat)
    requires Balanced(count, lists, holders) && NonNegative(holders) && NonNegative(count) && Ordered(lists, rank)
    requires y < |count|
    ensures count[y] > 0 <==> ReachedBy(lists, holders, y)
  {
    if count[y] > 0 {
      var path := HolderOf(count, lists, holders, rank, Top(rank), y);
    }
    if path :| HeldVia(lists, holders, path, y) {
      CountAlong(count, lists, holders, path, y);
    }
  }

  ghost predicate SameEntries(a: seq<nat>, b: seq<nat>, n: nat) {
    forall y: nat :: y < n ==> Mult(a, y) == Mult(b, y)
  }

  /** After a new list was given to an item counted `k` times, counts agree with the
      true holders exactly when `k` was one or the lists hold the same entries. */
  lemma AssociationAgrees(
      count: seq<int>, lists: seq<seq<nat>>, holders: seq<int>, k: int, was: seq<nat>, list: seq<nat>)
    requires Balanced(count, lists, Plus(Plus(holders, was, k - 1), list, 1 - k))
    ensures Balanced(count, lists, holders) <==> k == 1 || SameEntries(was, list, |holders|)
  {
    var drift := Plus(Plus(holders, was, k - 1), list, 1 - k);
    HoldersUnique(count, lists, drift, holders);
    DriftVanishes(holders, was, list, k);
  }

  lemma DriftVanishes(holders: seq<int>, was: seq<nat>, list: seq<nat>, k: int)
    ensures Plus(Plus(holders, was, k - 1), list, 1 - k) == holders <==> k == 1 || SameEntries(was, list, |holders|)
  {
    hide Mult;
    var freed := Plus(holders, was, k - 1);
    var drift := Plus(freed, list, 1 - k);
    forall y | 0 <= y < |holders|
      ensures drift[y] == holders[y] <==> k == 1 || Mult(was, y) == Mult(list, y)
    {
      assert drift[y] == freed[y] + (1 - k) * Mult(list, y);
      Drift(k - 1, Mult(was, y), Mult(list, y));
    }
    if k == 1 || SameEntries(was, list, |holders|) {
      assert drift == holders;
    } else {
      var y: nat :| y < |holders| && Mult(was, y) != Mult(list, y);
      assert drift[y] != holders[y];
    }
  }

  lemma NoDrift(holders: seq<int>, was: seq<nat>, list: seq<nat>)
    ensures Plus(Plus(holders, was, 0), list, 0) == holders
  {
  }

  lemma Drift(k: int, a: int, b: int)
    ensures k * a + -k * b == 0 <==> k == 0 || a == b
  {
    assert k * a + -k * b == k * (a - b);
  }
}
