/** Reference-counted values that may list other such values. An item is named by
    its position in order of creation; parents pass every retain and release of
    themselves on to the items they list. */
module RefCount {
  import opened RefCountSpec

  /** What one item holds, and whether its memory is still there. */
  class Heap {
    var count: seq<int>
    var lists: seq<seq<nat>>
    var alive: seq<bool>
    ghost var rank: seq<nat>

    constructor ()
      ensures Sound([])
    {
      count, lists, alive, rank := [], [], [], [];
    }

    /** No cycles, and a destroyed item holds nothing. */
    ghost predicate Shape()
      reads this
    {
      && |count| == |lists| == |alive|
      && Ordered(lists, rank)
      && forall p :: 0 <= p < |count| && !alive[p] ==> count[p] == 0 && lists[p] == []
    }

    /** Counts agree with the direct holders, and exactly the counted are there. */
    ghost predicate Sound(holders: seq<int>)
      reads this
    {
      && Shape()
      && Balanced(count, lists, holders)
      && NonNegative(holders)
      && NonNegative(count)
      && forall p :: 0 <= p < |count| ==> alive[p] == (count[p] > 0)
    }

    method New(ghost holders: seq<int>) returns (x: nat)
      requires Sound(holders)
      modifies this
      ensures x == old(|count|) && Sound(holders + [1])
      ensures count == old(count) + [1] && lists == old(lists) + [[]]
    {
      hide Through, Mult, Balanced;
      x := |count|;
      OrderedKept(lists, rank, x);
      NewBalance(count, lists, holders, rank);
      count, lists, alive, rank := count + [1], lists + [[]], alive + [true], rank + [0];
    }

    /** One more holder of `x`. */
    method Retain(x: nat, ghost holders: seq<int>)
      requires Shape() && Closed(lists, alive) && Balanced(count, lists, holders)
      requires x < |count| && alive[x] && NonNegative(count)
      modifies this`count
      ensures Shape() && Balanced(count, lists, holders[x := holders[x] + 1])
      ensures forall p :: 0 <= p < |count| ==> count[p] >= old(count)[p]
      ensures old(Sound(holders)) ==> Sound(holders[x := holders[x] + 1])
      decreases rank[x], 1
    {
      hide Through, Mult, Plus;
      BumpBalance(count, lists, holders, x, 1);
      count := count[x := count[x] + 1];
      RetainAssociated(x, holders[x := holders[x] + 1]);
    }

    /** One more holder of each entry of the list of `x`. */
    method RetainAssociated(x: nat, ghost holders: seq<int>)
      requires Shape() && Closed(lists, alive) && x < |count| == |holders| && alive[x] && NonNegative(count)
      requires Balanced(count, lists, Plus(holders, lists[x], -1))
      modifies this`count
      ensures Shape() && Balanced(count, lists, holders)
      ensures forall p :: 0 <= p < |count| ==> count[p] >= old(count)[p]
      decreases rank[x], 0
    {
      hide Through, Mult, Plus, Balanced;
      var list, i := lists[x], 0;
      assert list[0..] == list;
      while i < |list|
        invariant 0 <= i <= |list|
        invariant Shape() && Balanced(count, lists, Plus(holders, list[i..], -1))
        invariant NonNegative(count)
        invariant forall p :: 0 <= p < |count| ==> count[p] >= old(count)[p]
      {
        Below(lists, rank, x, list[i]);
        PlusSettle(holders, list[i..], -1);
        assert list[i..][1..] == list[i + 1..];
        Retain(list[i], Plus(holders, list[i..], -1));
        i := i + 1;
      }
      assert list[i..] == [];
      PlusNothing(holders, -1);
    }

    /** One holder of `x` less; at none it is destroyed, after its list is released. */
    method Release(x: nat, ghost holders: seq<int>)
      requires Shape() && Balanced(count, lists, holders) && x < |count|
      requires NonNegative(count) && NonNegative(holders) && holders[x] >= 1
      modifies this`count, this`lists, this`alive
      ensures Shape() && Balanced(count, lists, holders[x := holders[x] - 1]) && NonNegative(count)
      ensures SameAbove(old(count), old(lists), old(alive), rank[x])
      ensures OnlyDestroys(old(count), old(lists), old(alive))
      ensures old(Sound(holders)) ==> Sound(holders[x := holders[x] - 1])
      decreases rank[x], 1
    {
      hide Through, Mult, Plus;
      ghost var left := holders[x := holders[x] - 1];
      CountsHolders(count, lists, holders, x);
      assert alive[x];
      BumpBalance(count, lists, holders, x, -1);
      count := count[x := count[x] - 1];
      ReleaseAssociated(x, lists[x], left);
      if count[x] == 0 {
        NothingListed(count, lists, left, x);
        OrderedKept(lists, rank, x);
        alive, lists := alive[x := false], lists[x := []];
      }
    }

    /** One holder less of each entry of a list of `x`. */
    method ReleaseAssociated(x: nat, list: seq<nat>, ghost holders: seq<int>)
      requires Shape() && x < |count| == |holders| && NonNegative(count) && NonNegative(holders)
      requires Under(list, rank, rank[x])
      requires Balanced(count, lists, Plus(holders, list, 1))
      modifies this`count, this`lists, this`alive
      ensures Shape() && Balanced(count, lists, holders) && NonNegative(count)
      ensures SameFrom(old(count), old(lists), old(alive), rank[x])
      ensures OnlyDestroys(old(count), old(lists), old(alive))
      ensures old(Sound(Plus(holders, list, 1))) ==> Sound(holders)
      decreases rank[x], 0
    {
      hide Through, Mult, Plus, Balanced;
      var i := 0;
      assert list[0..] == list;
      while i < |list|
        invariant 0 <= i <= |list|
        invariant Shape() && Balanced(count, lists, Plus(holders, list[i..], 1))
        invariant NonNegative(count)
        invariant SameFrom(old(count), old(lists), old(alive), rank[x])
        invariant OnlyDestroys(old(count), old(lists), old(alive))
      {
        PlusSettle(holders, list[i..], 1);
        ListedIsHeld(holders, list[i..]);
        assert list[i..][1..] == list[i + 1..];
        Release(list[i], Plus(holders, list[i..], 1));
        i := i + 1;
      }
      assert list[i..] == [];
      PlusNothing(holders, 1);
    }

    /** Gives `x` a list in place of the one it has: the old entries are released and
        the new ones retained, once each. Counts then owe the holders `count[x] - 1`
        per old entry, and the new entries that much to the holders. The old list is
        taken away before its entries are released, which no release of them sees. */
    method Associate(x: nat, list: seq<nat>, ghost holders: seq<int>, ghost order: seq<nat>)
      requires Sound(holders) && x < |count| && alive[x]
      requires forall i :: 0 <= i < |list| ==> Outlives(x, list[i], holders)
      requires Ordered(lists[x := list], order)
      modifies this
      ensures Shape() && |count| == old(|count|) && lists[x] == list
      ensures Balanced(count, lists, Plus(Plus(holders, old(lists)[x], old(count)[x] - 1), list, 1 - old(count)[x]))
      ensures old(count)[x] == 1 ==> Sound(holders)
      ensures forall p :: 0 <= p < |lists| && p != x ==> lists[p] == old(lists)[p] || lists[p] == []
    {
      hide Through, Mult, Plus, Balanced;
      ghost var k := count[x];
      var was := lists[x];
      ghost var freed, relisted := Plus(holders, was, k - 1), lists[x := list];
      Detach(x, holders);
      PlusPlus(holders, was, k - 1, 1);
      PlusAtLeast(holders, was, k);
      PlusAtLeast(holders, was, k - 1);
      OrderedKept(lists, rank, x);
      lists := lists[x := []];
      ghost var detached := lists;
      assert Sound(Plus(freed, was, 1));
      ReleaseAssociated(x, was, freed);
      assert count[x] == k && lists[x] == [];
      AllOutlive(x, list, freed, detached);
      ClosedWithCounted(count, lists, freed, rank, alive, x, list);
      RelistBalance(count, lists, freed, x, list);
      PlusNothing(freed, k);
      PlusPlus(freed, list, 1 - k, -1);
      OrderedShrinks(relisted, lists[x := list], order);
      lists, rank := lists[x := list], order;
      RetainAssociated(x, Plus(freed, list, 1 - k));
      NoDrift(holders, was, list);
    }

    /** Whether an item will still be reached once `x` has let go of its list. */
    ghost predicate Outlives(x: nat, y: nat, holders: seq<int>)
      reads this
    {
      && x < |lists| && x < |count| && y < |count|
      && ReachedBy(lists[x := []], Plus(holders, lists[x], count[x] - 1), y)
    }

    lemma AllOutlive(x: nat, list: seq<nat>, freed: seq<int>, was: seq<seq<nat>>)
      requires Sound(freed) && |was| == |lists|
      requires forall p :: 0 <= p < |lists| && alive[p] ==> lists[p] == was[p]
      requires forall i :: 0 <= i < |list| ==> ReachedBy(was, freed, list[i])
      ensures forall i :: 0 <= i < |list| ==> list[i] < |count| && count[list[i]] > 0
    {
      hide Balanced;
      forall i | 0 <= i < |list|
        ensures list[i] < |count| && count[list[i]] > 0
      {
        var path :| HeldVia(was, freed, path, list[i]);
        Survives(count, lists, freed, was, path, list[i]);
      }
    }

    /** What some direct holder reaches is there, and nothing else is. */
    lemma AliveExactlyWhenHeld(y: nat, holders: seq<int>)
      requires Sound(holders) && y < |count|
      ensures alive[y] <==> ReachedBy(lists, holders, y)
    {
      CountedExactlyWhenHeld(count, lists, holders, rank, y);
    }

    /** Once nobody holds anything directly, everything is gone. */
    lemma AllReleased(y: nat, holders: seq<int>)
      requires Sound(holders) && y < |count|
      requires forall x :: 0 <= x < |holders| ==> holders[x] == 0
      ensures !alive[y]
    {
      AliveExactlyWhenHeld(y, holders);
    }

    /** Taking the list of `x` away leaves its entries held `count[x]` times more. */
    lemma Detach(x: nat, holders: seq<int>)
      requires Sound(holders) && x < |count|
      ensures Balanced(count, lists[x := []], Plus(holders, lists[x], count[x]))
      ensures |holders| == |count|
    {
      hide Through, Mult, Plus;
      RelistBalance(count, lists, holders, x, []);
      PlusNothing(Plus(holders, lists[x], count[x]), -count[x]);
    }

    /** Nothing of rank `r` or more has changed. */
    ghost predicate SameFrom(count0: seq<int>, lists0: seq<seq<nat>>, alive0: seq<bool>, r: nat)
      reads this
    {
      && |count| == |lists| == |alive| == |rank| == |count0| == |lists0| == |alive0|
      && forall p :: 0 <= p < |count| && rank[p] >= r ==>
           count[p] == count0[p] && lists[p] == lists0[p] && alive[p] == alive0[p]
    }

    ghost predicate SameAbove(count0: seq<int>, lists0: seq<seq<nat>>, alive0: seq<bool>, r: nat)
      reads this
    {
      SameFrom(count0, lists0, alive0, r + 1)
    }

    /** Items may have been destroyed, at a count of none and not otherwise; the rest
        kept their lists. */
    ghost predicate OnlyDestroys(count0: seq<int>, lists0: seq<seq<nat>>, alive0: seq<bool>)
      reads this
    {
      && |count| == |lists| == |alive| == |count0| == |lists0| == |alive0|
      && forall p :: 0 <= p < |count| ==>
           && (alive[p] ==> alive0[p] && lists[p] == lists0[p])
           && (alive[p] && count[p] == 0 ==> count0[p] == 0)
    }
  }

  // ------------------------------------------------------------- runs

  datatype Call = NewCall | RetainCall(x: nat) | ReleaseCall(x: nat) | AssociateCall(x: nat, list: seq<nat>)

  /** Items list only items made before them. */
  ghost predicate Older(lists: seq<seq<nat>>) {
    forall p :: 0 <= p < |lists| ==> AllOlder(lists[p], p)
  }

  predicate AllOlder(list: seq<nat>, x: nat) {
    forall i :: 0 <= i < |list| ==> list[i] < x
  }

  predicate AllHeld(list: seq<nat>, holders: seq<int>) {
    forall i :: 0 <= i < |list| ==> list[i] < |holders| && holders[list[i]] >= 1
  }

  /** What callers may ask for: to keep or let go what they hold, and to give a new list
      of older items they hold to an item counted once. */
  predicate Allowed(h: Heap, call: Call, holders: seq<int>)
    reads h
  {
    match call
    case NewCall => true
    case RetainCall(x) => x < |holders| && holders[x] >= 1
    case ReleaseCall(x) => x < |holders| && holders[x] >= 1
    case AssociateCall(x, list) =>
      && x < |holders| && x < |h.count| && holders[x] >= 1 && h.count[x] == 1
      && AllHeld(list, holders) && AllOlder(list, x)
  }

  /** Who holds what after a call: lists change no direct holder. */
  function HoldersOf(holders: seq<int>, call: Call): seq<int> {
    match call
    case NewCall => holders + [1]
    case RetainCall(x) => if x < |holders| then holders[x := holders[x] + 1] else holders
    case ReleaseCall(x) => if x < |holders| then holders[x := holders[x] - 1] else holders
    case AssociateCall(_, _) => holders
  }

  /** Who holds what after the calls of a run that were taken. */
  function HoldersAfter(start: seq<int>, calls: seq<Call>, taken: seq<bool>): seq<int>
    requires |calls| == |taken|
  {
    if calls == [] then start
    else
      var n := |calls| - 1;
      var before := HoldersAfter(start, calls[..n], taken[..n]);
      if taken[n] then HoldersOf(before, calls[n]) else before
  }

  /** Any run of calls, those not allowed left out: in every state counts agree with what
      the callers took and let go, so an item is there exactly while a holder reaches it. */
  method Run(h: Heap, calls: seq<Call>, start: seq<int>) returns (holders: seq<int>, taken: seq<bool>)
    requires h.Sound(start) && Older(h.lists)
    modifies h
    ensures |taken| == |calls| && holders == HoldersAfter(start, calls, taken)
    ensures h.Sound(holders) && Older(h.lists)
    ensures forall y :: 0 <= y < |h.alive| ==> (h.alive[y] <==> ReachedBy(h.lists, holders, y))
  {
    hide Heap.Sound, Older, HoldersOf, AllHeld, AllOlder;
    holders, taken := start, [];
    for i := 0 to |calls|
      invariant |taken| == i && holders == HoldersAfter(start, calls[..i], taken)
      invariant h.Sound(holders) && Older(h.lists)
    {
      var allowed := Allowed(h, calls[i], holders);
      assert calls[..i + 1][..i] == calls[..i] && (taken + [allowed])[..i] == taken;
      taken := taken + [allowed];
      if allowed {
        holders := Perform(h, calls[i], holders);
      }
    }
    assert calls[..|calls|] == calls;
    AllAlive(h, holders);
  }

  lemma AllAlive(h: Heap, holders: seq<int>)
    requires h.Sound(holders)
    ensures forall y :: 0 <= y < |h.alive| ==> (h.alive[y] <==> ReachedBy(h.lists, holders, y))
  {
    forall y | 0 <= y < |h.alive|
      ensures h.alive[y] <==> ReachedBy(h.lists, holders, y)
    {
      h.AliveExactlyWhenHeld(y, holders);
    }
  }

  method Perform(h: Heap, call: Call, holders: seq<int>) returns (after: seq<int>)
    requires h.Sound(holders) && Older(h.lists) && Allowed(h, call, holders)
    modifies h
    ensures after == HoldersOf(holders, call) && h.Sound(after) && Older(h.lists)
  {
    hide Balanced, Ordered, Plus, Older, AllOlder;
    SoundFacts(h, holders);
    ghost var was := h.lists;
    match call {
    case NewCall =>
      var x := h.New(holders);
      after := holders + [1];
    case RetainCall(x) =>
      h.Retain(x, holders);
      after := holders[x := holders[x] + 1];
    case ReleaseCall(x) =>
      h.Release(x, holders);
      after := holders[x := holders[x] - 1];
    case AssociateCall(x, list) =>
      HeldOutlive(h, x, list, holders);
      OlderKept(was, h.lists[x := list]);
      OlderIsOrdered(h.lists[x := list]);
      h.Associate(x, list, holders, seq(|h.lists|, i => i));
      after := holders;
    }
    OlderKept(was, h.lists);
  }

  /** Dropping lists and giving one of older items keeps what is listed older. */
  lemma OlderKept(was: seq<seq<nat>>, lists: seq<seq<nat>>)
    requires Older(was) && |was| <= |lists|
    requires forall p :: 0 <= p < |lists| ==>
      lists[p] == [] || (p < |was| && lists[p] == was[p]) || AllOlder(lists[p], p)
    ensures Older(lists)
  {
    forall p | 0 <= p < |lists|
      ensures AllOlder(lists[p], p)
    {
      assert p < |was| ==> AllOlder(was[p], p);
    }
  }

  lemma SoundFacts(h: Heap, holders: seq<int>)
    requires h.Sound(holders)
    ensures |holders| == |h.count| == |h.lists| == |h.alive| && Closed(h.lists, h.alive)
    ensures forall x :: 0 <= x < |holders| && holders[x] >= 1 ==> h.alive[x]
  {
    CountedIsClosed(h.count, h.lists, holders, h.rank, h.alive);
    forall x | 0 <= x < |holders| && holders[x] >= 1
      ensures h.alive[x]
    {
      CountsHolders(h.count, h.lists, holders, x);
    }
  }

  lemma HeldOutlive(h: Heap, x: nat, list: seq<nat>, holders: seq<int>)
    requires h.Sound(holders) && x < |h.count| && h.count[x] >= 1 && AllHeld(list, holders)
    ensures forall i :: 0 <= i < |list| ==> h.Outlives(x, list[i], holders)
  {
    SoundFacts(h, holders);
    PlusAtLeast(holders, h.lists[x], h.count[x] - 1);
    forall i | 0 <= i < |list|
      ensures h.Outlives(x, list[i], holders)
    {
      assert HeldVia(h.lists[x := []], Plus(holders, h.lists[x], h.count[x] - 1), [list[i]], list[i]);
    }
  }

  lemma OlderIsOrdered(lists: seq<seq<nat>>)
    requires Older(lists)
    ensures Ordered(lists, seq(|lists|, i => i))
  {
    var rank: seq<nat> := seq(|lists|, i => i);
    forall p | 0 <= p < |lists|
      ensures Under(lists[p], rank, rank[p])
    {
      assert AllOlder(lists[p], p);
    }
  }

  /** Giving a list to an item counted twice breaks the counts: the child is counted once
      for its parent, who will let go of it twice. */
  method CountedTwiceBreaks() returns (h: Heap)
    ensures |h.count| == 2 && h.lists == [[], [0]]
    ensures !Balanced(h.count, h.lists, [1, 2])
  {
    hide Through, Mult, Balanced, Plus, Ordered, SameEntries;
    h := HeldTwice();
    HeldOutlive(h, 1, [0], [1, 2]);
    assert h.lists[1 := [0]] == [[], [0]];
    assert AllOlder([], 0) && AllOlder([0], 1) && Older([[], [0]]);
    OlderIsOrdered([[], [0]]);
    h.Associate(1, [0], [1, 2], seq(2, i => i));
    AssociationAgrees(h.count, h.lists, [1, 2], 2, [], [0]);
    OnceMore();
  }

  /** Two items without lists, the second held twice. */
  method HeldTwice() returns (h: Heap)
    ensures fresh(h) && h.Sound([1, 2]) && h.lists == [[], []] && Older(h.lists)
    ensures |h.count| == |h.alive| == 2 && h.count[1] == 2
  {
    hide Through, Mult, Balanced, Plus, Ordered, Closed;
    h := HeldOnce();
    SoundFacts(h, [1, 1]);
    h.Retain(1, [1, 1]);
    assert [1, 1][1 := 2] == [1, 2];
    SoundFacts(h, [1, 2]);
    CountOfAlone(h.count, h.lists, [1, 2], 1);
  }

  method HeldOnce() returns (h: Heap)
    ensures fresh(h) && h.Sound([1, 1]) && h.lists == [[], []]
  {
    hide Heap.Sound;
    h := new Heap();
    EmptyLists(h);
    ghost var none: seq<int> := [];
    var child := h.New(none);
    assert none + [1] == [1];
    var parent := h.New([1]);
    assert [1] + [1] == [1, 1];
  }

  lemma EmptyLists(h: Heap)
    requires h.Sound([])
    ensures h.lists == []
  {
  }

  lemma OnceMore()
    ensures !SameEntries([], [0], 2)
  {
    assert Mult([0], 0) == 1 + Mult([0][1..], 0) && Mult([], 0) == 0;
  }

  /** An item nobody lists counts its holders. */
  lemma CountOfAlone(count: seq<int>, lists: seq<seq<nat>>, holders: seq<int>, x: nat)
    requires Balanced(count, lists, holders) && x < |count| && forall p :: 0 <= p < |lists| ==> lists[p] == []
    ensures count[x] == holders[x]
  {
    ThroughNothing(count, lists, x);
  }
}
