/** What the user-key cache remembers: the most recent distinct keys. */
module LruSpec {
  datatype Status = New | Existed

  function Without<K(==,!new)>(keys: seq<K>, key: K): (r: seq<K>)
    ensures key !in r
    ensures forall k :: k in r <==> k in keys && k != key
  {
    if keys == [] then []
    else if keys[0] == key then Without(keys[1..], key)
    else [keys[0]] + Without(keys[1..], key)
  }

  function Take<K(==,!new)>(keys: seq<K>, n: nat): seq<K> { if |keys| <= n then keys else keys[..n] }

  predicate Distinct<K(==,!new)>(keys: seq<K>) { forall i, j :: 0 <= i < j < |keys| ==> keys[i] != keys[j] }

  /** One insertion into the keys held, newest first. */
  function Insert<K(==,!new)>(capacity: nat, keys: seq<K>, key: K): (seq<K>, Status) {
    if capacity == 0 then (keys, New)
    else if key in keys then ([key] + Without(keys, key), Existed)
    else ([key] + Take(keys, capacity - 1), New)
  }

  /** The keys held after a history of insertions since the last clear. */
  function Held<K(==,!new)>(capacity: nat, history: seq<K>): seq<K> {
    if history == [] then []
    else Insert(capacity, Held(capacity, history[..|history| - 1]), history[|history| - 1]).0
  }

  /** Distinct keys of a history, the most recently inserted first. */
  function Recent<K(==,!new)>(history: seq<K>): (r: seq<K>)
    ensures forall k :: k in r <==> k in history
  {
    if history == [] then []
    else
      var last := history[|history| - 1];
      assert forall k :: k in history <==> k == last || k in history[..|history| - 1];
      [last] + Without(Recent(history[..|history| - 1]), last)
  }

  lemma {:induction false} WithoutAbsent<K(!new)>(keys: seq<K>, key: K)
    requires key !in keys
    ensures Without(keys, key) == keys
  {
    if keys != [] {
      WithoutAbsent(keys[1..], key);
    }
  }

  lemma {:induction false} WithoutAt<K(!new)>(keys: seq<K>, k: nat)
    requires Distinct(keys) && k < |keys|
    ensures Without(keys, keys[k]) == keys[..k] + keys[k + 1..]
    decreases |keys|
  {
    if k == 0 {
      WithoutAbsent(keys[1..], keys[0]);
    } else {
      WithoutAt(keys[1..], k - 1);
      assert [keys[0]] + (keys[1..][..k - 1] + keys[1..][k..]) == keys[..k] + keys[k + 1..];
    }
  }

  lemma {:induction false} RecentIsDistinct<K(!new)>(history: seq<K>)
    ensures Distinct(Recent(history))
    decreases |history|
  {
    if history != [] {
      var last := history[|history| - 1];
      RecentIsDistinct(history[..|history| - 1]);
      WithoutDistinct(Recent(history[..|history| - 1]), last);
    }
  }

  lemma {:induction false} WithoutDistinct<K(!new)>(keys: seq<K>, key: K)
    requires Distinct(keys)
    ensures Distinct(Without(keys, key))
  {
    if keys != [] {
      assert keys[0] !in keys[1..];
      WithoutDistinct(keys[1..], key);
    }
  }

  lemma TakeOfInsert<K(!new)>(capacity: nat, keys: seq<K>, key: K)
    requires capacity > 0 && Distinct(keys)
    ensures Insert(capacity, Take(keys, capacity), key).0 == Take([key] + Without(keys, key), capacity)
  {
    hide Without, Take, Distinct;
    var held := Take(keys, capacity);
    TakeFacts(keys, capacity);
    if key in keys {
      var k :| 0 <= k < |keys| && keys[k] == key;
      WithoutAt(keys, k);
      if k < capacity {
        assert held[k] == key;
        WithoutAt(held, k);
        TakeKeepingPlace(keys, k, capacity);
      } else {
        TakeBeyond(keys, k, capacity);
      }
    } else {
      WithoutAbsent(keys, key);
      TakeAbsent(keys, key, capacity);
    }
  }

  lemma TakeFacts<K(!new)>(keys: seq<K>, n: nat)
    requires Distinct(keys)
    ensures Distinct(Take(keys, n)) && |Take(keys, n)| == if |keys| <= n then |keys| else n
    ensures forall i :: 0 <= i < |Take(keys, n)| ==> Take(keys, n)[i] == keys[i]
  {
  }

  lemma TakeKeepingPlace<K(!new)>(keys: seq<K>, k: nat, n: nat)
    requires k < n && k < |keys|
    ensures var held := Take(keys, n);
      k < |held| && [keys[k]] + (held[..k] + held[k + 1..]) == Take([keys[k]] + (keys[..k] + keys[k + 1..]), n)
  {
  }

  lemma TakeBeyond<K(!new)>(keys: seq<K>, k: nat, n: nat)
    requires 0 < n <= k < |keys| && Distinct(keys)
    ensures keys[k] !in Take(keys, n)
    ensures [keys[k]] + Take(Take(keys, n), n - 1) == Take([keys[k]] + (keys[..k] + keys[k + 1..]), n)
  {
    assert Take(keys, n) == keys[..n] && forall i :: 0 <= i < n ==> keys[i] != keys[k];
    assert (keys[..k] + keys[k + 1..])[..n - 1] == keys[..n - 1];
  }

  lemma TakeAbsent<K(!new)>(keys: seq<K>, key: K, n: nat)
    requires n > 0 && key !in keys
    ensures key !in Take(keys, n) && [key] + Take(Take(keys, n), n - 1) == Take([key] + keys, n)
  {
  }

  /** The cache holds exactly the `capacity` most recent distinct keys. */
  lemma {:induction false} HeldIsRecent<K(!new)>(capacity: nat, history: seq<K>)
    ensures Held(capacity, history) == Take(Recent(history), capacity)
    decreases |history|
  {
    if history != [] {
      var front := history[..|history| - 1];
      HeldIsRecent(capacity, front);
      RecentIsDistinct(front);
      if capacity > 0 {
        TakeOfInsert(capacity, Recent(front), history[|history| - 1]);
      }
    }
  }

  function Elements<K(==,!new)>(keys: seq<K>): set<K> { set k | k in keys }

  /** `key` was inserted at `j`, and not since. */
  ghost predicate LastAt<K(!new)>(history: seq<K>, key: K, j: nat) {
    j < |history| && history[j] == key && key !in history[j + 1..]
  }

  /** A key's place among the recent ones is the number of distinct keys inserted
      after its last insertion. */
  lemma {:induction false} RecentPlace<K(!new)>(history: seq<K>, key: K, j: nat)
    requires LastAt(history, key, j)
    ensures
      var place := |Elements(history[j + 1..])|;
      place < |Recent(history)| && Recent(history)[place] == key
        && Elements(Recent(history)[..place]) == Elements(history[j + 1..])
    decreases |history|
  {
    hide Recent, Without, Elements, Distinct;
    var n := |history| - 1;
    var front, last := history[..n], history[n];
    RecentIsDistinct(front);
    RecentUnfolds(history);
    if j == n {
      assert history[j + 1..] == [];
      NoElements<K>();
      assert Recent(history)[..0] == [];
    } else {
      assert front[j + 1..] == history[j + 1..][..n - j - 1];
      assert history[j + 1..] == front[j + 1..] + [last];
      RecentPlace(front, key, j);
      ElementsGrow(front[j + 1..], last);
      RecentStep(Recent(front), key, Elements(front[j + 1..]), last);
    }
  }

  lemma RecentUnfolds<K(!new)>(history: seq<K>)
    requires history != []
    ensures
      var last := history[|history| - 1];
      Recent(history) == [last] + Without(Recent(history[..|history| - 1]), last)
  {
  }

  lemma NoElements<K(!new)>()
    ensures Elements<K>([]) == {}
  {
  }

  lemma ElementsGrow<K(!new)>(keys: seq<K>, last: K)
    ensures Elements(keys + [last]) == Elements(keys) + {last}
  {
  }

  lemma RecentStep<K(!new)>(keys: seq<K>, key: K, before: set<K>, last: K)
    requires Distinct(keys) && |before| < |keys| && keys[|before|] == key && last != key
    requires Elements(keys[..|before|]) == before
    ensures
      var moved := [last] + Without(keys, last);
      var now := |before + {last}|;
      now < |moved| && moved[now] == key && Elements(moved[..now]) == before + {last}
  {
    MovedPlace(keys, key, |before|, last);
    assert last in keys[..|before|] <==> last in before;
    if last in before {
      assert before + {last} == before;
    }
  }

  /** Moving `last` to the front shifts a key by one unless `last` stood before it. */
  lemma MovedPlace<K(!new)>(keys: seq<K>, key: K, place: nat, last: K)
    requires Distinct(keys) && place < |keys| && keys[place] == key && last != key
    ensures
      var moved := [last] + Without(keys, last);
      var now := if last in keys[..place] then place else place + 1;
      now < |moved| && moved[now] == key && Elements(moved[..now]) == Elements(keys[..place]) + {last}
  {
    hide Without, Elements;
    if last in keys {
      var k :| 0 <= k < |keys| && keys[k] == last;
      WithoutAt(keys, k);
      MovedFrom(keys, place, k);
    } else {
      WithoutAbsent(keys, last);
      assert ([last] + keys)[..place + 1] == [last] + keys[..place];
      ElementsOfFront(last, keys[..place]);
    }
  }

  lemma MovedFrom<K(!new)>(keys: seq<K>, place: nat, k: nat)
    requires Distinct(keys) && place < |keys| && k < |keys| && k != place
    ensures
      var moved := [keys[k]] + (keys[..k] + keys[k + 1..]);
      var now := if keys[k] in keys[..place] then place else place + 1;
      && (keys[k] in keys[..place] <==> k < place)
      && now < |moved| && moved[now] == keys[place] && Elements(moved[..now]) == Elements(keys[..place]) + {keys[k]}
  {
    hide Elements;
    var moved := [keys[k]] + (keys[..k] + keys[k + 1..]);
    if k < place {
      assert keys[..place][k] == keys[k];
      assert moved[..place] == [keys[k]] + (keys[..k] + keys[k + 1..place]);
      assert keys[..place] == keys[..k] + [keys[k]] + keys[k + 1..place];
      ElementsMoved(keys[..k], keys[k], keys[k + 1..place]);
    } else {
      assert moved[..place + 1] == [keys[k]] + keys[..place];
      ElementsOfFront(keys[k], keys[..place]);
    }
  }

  lemma ElementsOfFront<K(!new)>(key: K, keys: seq<K>)
    ensures Elements([key] + keys) == Elements(keys) + {key}
  {
  }

  lemma ElementsMoved<K(!new)>(a: seq<K>, key: K, b: seq<K>)
    ensures Elements([key] + (a + b)) == Elements(a + [key] + b) + {key}
  {
  }

  /** An insertion finds its key exactly when fewer than `capacity` distinct keys
      were inserted after the key's last insertion since the clear. */
  lemma ExistedExactlyWhenRecent<K(!new)>(capacity: nat, history: seq<K>, key: K)
    ensures Insert(capacity, Held(capacity, history), key).1 == Existed
       <==> exists j: nat :: LastAt(history, key, j) && |Elements(history[j + 1..])| < capacity
  {
    HeldIsRecent(capacity, history);
    RecentIsDistinct(history);
    var held := Held(capacity, history);
    if j: nat :| LastAt(history, key, j) {
      RecentPlace(history, key, j);
      var place := |Elements(history[j + 1..])|;
      if place < capacity {
        assert held[place] == key;
      } else {
        assert key !in held;
      }
      forall i: nat | LastAt(history, key, i)
        ensures i == j
      {
        OneLast(history, key, i, j);
      }
    } else {
      NeverInserted(history, key);
    }
  }

  lemma LastIsThere<K(!new)>(history: seq<K>, key: K, i: nat)
    requires LastAt(history, key, i)
    ensures i < |history| && history[i] == key
  {
  }

  lemma NotLast<K(!new)>(history: seq<K>, key: K, i: nat, j: nat)
    requires i < j < |history| && history[j] == key
    ensures !LastAt(history, key, i)
  {
    assert history[i + 1..][j - i - 1] == key;
  }

  lemma OneLast<K(!new)>(history: seq<K>, key: K, i: nat, j: nat)
    requires LastAt(history, key, i) && LastAt(history, key, j)
    ensures i == j
  {
    hide LastAt;
    LastIsThere(history, key, i);
    LastIsThere(history, key, j);
    if i < j {
      NotLast(history, key, i, j);
    } else if j < i {
      NotLast(history, key, j, i);
    }
  }

  lemma {:induction false} NeverInserted<K(!new)>(history: seq<K>, key: K)
    requires forall j: nat :: !LastAt(history, key, j)
    ensures key !in history
    decreases |history|
  {
    if history != [] {
      var n := |history| - 1;
      assert !LastAt(history, key, n);
      forall j: nat
        ensures !LastAt(history[..n], key, j)
      {
        if j < n {
          assert !LastAt(history, key, j);
          assert history[j + 1..] == history[..n][j + 1..] + [history[n]];
        }
      }
      NeverInserted(history[..n], key);
      assert history == history[..n] + [history[n]];
    }
  }
}
