/** For which flags evaluation returns. */
module EvaluateEnds {
  import opened Wrappers
  import opened JsonTree
  import opened FlagSchema
  import opened Matching
  import opened Evaluate
  import opened EvaluateSpec

  /** The entry at `n` names a stored flag, and those before it are met. */
  ghost predicate Comes(lib: Library, store: Store, entries: seq<Json>, user: User, to: string, n: nat) {
    && n < |entries| && PrereqKey(entries[n]) == Some(to) && store.Get(Flag, to).Item?
    && forall i :: 0 <= i < n ==> Met(lib, store, entries[i], user)
  }

  /** Evaluating the flag evaluates this prerequisite. */
  ghost predicate Examines(lib: Library, store: Store, flag: Json, user: User, to: string) {
    && Early(flag).None? && to in store.flags
    && exists n: nat :: Comes(lib, store, Prerequisites(flag), user, to, n)
  }

  /** A chain of flags each examined for the one before it. */
  ghost predicate Visits(lib: Library, store: Store, flag: Json, user: User, path: seq<string>)
    decreases |path|
  {
    path == [] || (Examines(lib, store, flag, user, path[0])
                   && Visits(lib, store, store.flags[path[0]], user, path[1..]))
  }

  ghost predicate NoRepeat(path: seq<string>) {
    forall i, j :: 0 <= i < j < |path| ==> path[i] != path[j]
  }

  // ------------------------------------------------------------- too little room shows a chain

  lemma {:induction false} CutOffAt(
    lib: Library, store: Store, flag: Json, entries: seq<Json>, user: User, depth: nat) returns (to: string, n: nat)
    requires BoundedCheck(lib, store, flag, entries, user, depth).None?
    ensures Comes(lib, store, entries, user, to, n)
    ensures Bounded(lib, store, store.flags[to], user, depth).None?
    decreases |entries|
  {
    hide Bounded, Judge, PrereqKey, Met, EvaluateFlag;
    to := PrereqKey(entries[0]).value;
    n := 0;
    if Bounded(lib, store, store.flags[to], user, depth).Some? {
      EvaluatedAt(lib, store, store.flags[to], user, depth);
      MetIsJudged(lib, store, flag, entries[0], user);
      to, n := CutOffAt(lib, store, flag, entries[1..], user, depth);
      ComesLater(lib, store, entries, user, to, n);
      n := n + 1;
    }
  }

  lemma ComesLater(lib: Library, store: Store, entries: seq<Json>, user: User, to: string, n: nat)
    requires entries != [] && Met(lib, store, entries[0], user) && Comes(lib, store, entries[1..], user, to, n)
    ensures Comes(lib, store, entries, user, to, n + 1)
  {
    hide Met, PrereqKey;
    assert forall i :: 1 <= i < |entries| ==> entries[i] == entries[1..][i - 1];
  }

  lemma {:induction false} CutOffVisits(
    lib: Library, store: Store, flag: Json, user: User, depth: nat) returns (path: seq<string>)
    requires Bounded(lib, store, flag, user, depth).None?
    ensures |path| == depth && Visits(lib, store, flag, user, path)
    decreases depth
  {
    hide BoundedCheck, Early, Conclude, Comes, Prerequisites;
    path := [];
    if depth > 0 {
      var to, n := CutOffAt(lib, store, flag, Prerequisites(flag), user, depth - 1);
      ComesStored(lib, store, Prerequisites(flag), user, to, n);
      assert Examines(lib, store, flag, user, to);
      var rest := CutOffVisits(lib, store, store.flags[to], user, depth - 1);
      path := [to] + rest;
      assert path[1..] == rest;
    }
  }

  lemma ComesStored(lib: Library, store: Store, entries: seq<Json>, user: User, to: string, n: nat)
    requires Comes(lib, store, entries, user, to, n)
    ensures to in store.flags
  {
  }

  // ------------------------------------------------------------- a chain uses room up

  lemma {:induction false} CheckExamines(
    lib: Library, store: Store, flag: Json, entries: seq<Json>, user: User, to: string, n: nat, depth: nat)
    requires Comes(lib, store, entries, user, to, n)
    requires BoundedCheck(lib, store, flag, entries, user, depth).Some?
    ensures Bounded(lib, store, store.flags[to], user, depth).Some?
    decreases n
  {
    hide Bounded, Judge, PrereqKey, Met, EvaluateFlag;
    if n > 0 {
      MetIsStored(lib, store, entries[0], user);
      EvaluatedAt(lib, store, store.flags[PrereqKey(entries[0]).value], user, depth);
      MetIsJudged(lib, store, flag, entries[0], user);
      assert Comes(lib, store, entries[1..], user, to, n - 1);
      CheckExamines(lib, store, flag, entries[1..], user, to, n - 1, depth);
    }
  }

  lemma ExaminedEnds(lib: Library, store: Store, flag: Json, user: User, to: string, depth: nat)
    requires Examines(lib, store, flag, user, to) && Bounded(lib, store, flag, user, depth).Some?
    ensures depth > 0 && Bounded(lib, store, store.flags[to], user, depth - 1).Some?
  {
    hide BoundedCheck, Early, Conclude, Comes, Prerequisites;
    var n: nat :| Comes(lib, store, Prerequisites(flag), user, to, n);
    CheckExamines(lib, store, flag, Prerequisites(flag), user, to, n, depth - 1);
  }

  /** Every flag of a chain takes one level of the room. */
  lemma {:induction false} VisitedEnds(
    lib: Library, store: Store, flag: Json, user: User, path: seq<string>, i: nat, depth: nat)
    requires Visits(lib, store, flag, user, path) && i < |path| && Bounded(lib, store, flag, user, depth).Some?
    ensures depth > i && path[i] in store.flags
    ensures Bounded(lib, store, store.flags[path[i]], user, depth - 1 - i).Some?
    ensures Visits(lib, store, store.flags[path[i]], user, path[i + 1..])
    decreases i
  {
    hide Bounded, Comes, Early, Prerequisites;
    ExaminedEnds(lib, store, flag, user, path[0], depth);
    if i > 0 {
      VisitedEnds(lib, store, store.flags[path[0]], user, path[1..], i - 1, depth - 1);
      assert path[1..][i..] == path[i + 1..];
    }
  }

  /** A flag that comes back to itself never has room enough. */
  lemma {:induction false} CircleNeverEnds(
    lib: Library, store: Store, key: string, user: User, path: seq<string>, i: nat, depth: nat)
    requires key in store.flags && Visits(lib, store, store.flags[key], user, path)
    requires i < |path| && path[i] == key
    ensures Bounded(lib, store, store.flags[key], user, depth).None?
    decreases depth
  {
    hide Bounded, Visits;
    if Bounded(lib, store, store.flags[key], user, depth).Some? {
      VisitedEnds(lib, store, store.flags[key], user, path, i, depth);
      CircleNeverEnds(lib, store, key, user, path, i, depth - 1 - i);
    }
  }

  // ------------------------------------------------------------- the condition

  /** Evaluation returns exactly when the flags examined one for another never come to
      a flag twice. */
  lemma EndsExactlyWhenNoRepeat(lib: Library, store: Store, flag: Json, user: User)
    ensures Ends(lib, store, flag, user)
       <==> forall path :: Visits(lib, store, flag, user, path) ==> NoRepeat(path)
  {
    hide Bounded, Visits;
    if Ends(lib, store, flag, user) {
      var depth: nat :| Bounded(lib, store, flag, user, depth).Some?;
      forall path, i, j | Visits(lib, store, flag, user, path) && 0 <= i < j < |path|
        ensures path[i] != path[j]
      {
        VisitedEnds(lib, store, flag, user, path, i, depth);
        if path[i] == path[j] {
          CircleNeverEnds(lib, store, path[i], user, path[i + 1..], j - i - 1, depth - 1 - i);
        }
      }
    } else {
      var path := CutOffVisits(lib, store, flag, user, |store.flags.Keys| + 1);
      VisitsStored(lib, store, flag, user, path);
      if NoRepeat(path) {
        DistinctFits(store.flags.Keys, path);
      }
    }
  }

  lemma {:induction false} VisitsStored(lib: Library, store: Store, flag: Json, user: User, path: seq<string>)
    requires Visits(lib, store, flag, user, path)
    ensures forall i :: 0 <= i < |path| ==> path[i] in store.flags.Keys
    decreases |path|
  {
    hide Comes, Early, Prerequisites;
    if path != [] {
      VisitsStored(lib, store, store.flags[path[0]], user, path[1..]);
      assert forall i :: 1 <= i < |path| ==> path[i] == path[1..][i - 1];
    }
  }

  lemma {:induction false} DistinctFits(keys: set<string>, path: seq<string>)
    requires NoRepeat(path) && forall i :: 0 <= i < |path| ==> path[i] in keys
    ensures |path| <= |keys|
    decreases |path|
  {
    if path != [] {
      DistinctFits(keys - {path[0]}, path[1..]);
    }
  }

  // ------------------------------------------------------------- a condition on the store alone

  /** A chain of stored flags, each named among the prerequisites of the one before it,
      which is on. */
  ghost predicate Chain(store: Store, flag: Json, path: seq<string>)
    decreases |path|
  {
    path == [] || (IsOn(flag) && path[0] in store.flags && Names(Prerequisites(flag), path[0])
                   && Chain(store, store.flags[path[0]], path[1..]))
  }

  ghost predicate Names(entries: seq<Json>, to: string) {
    exists e :: e in entries && PrereqKey(e) == Some(to)
  }

  /** Without a cycle among the prerequisites of flags that are on, evaluation returns for
      every user. */
  lemma EndsWithoutCycle(lib: Library, store: Store, flag: Json, user: User)
    requires forall path :: Chain(store, flag, path) ==> NoRepeat(path)
    ensures Ends(lib, store, flag, user)
  {
    hide Ends, Visits, Chain, NoRepeat;
    forall path | Visits(lib, store, flag, user, path)
      ensures NoRepeat(path)
    {
      VisitsChain(lib, store, flag, user, path);
    }
    EndsExactlyWhenNoRepeat(lib, store, flag, user);
  }

  lemma {:induction false} VisitsChain(lib: Library, store: Store, flag: Json, user: User, path: seq<string>)
    requires Visits(lib, store, flag, user, path)
    ensures Chain(store, flag, path)
    decreases |path|
  {
    hide Met, PrereqKey, Early, Prerequisites;
    if path != [] {
      var n: nat :| Comes(lib, store, Prerequisites(flag), user, path[0], n);
      assert Prerequisites(flag)[n] in Prerequisites(flag);
      VisitsChain(lib, store, store.flags[path[0]], user, path[1..]);
    }
  }

  /** Evaluation of a flag that is on and names itself as its first prerequisite never
      returns. */
  lemma NeedsItself(lib: Library, store: Store, flag: Json, key: string, user: User)
    requires store.Get(Flag, key) == Item(flag) && Early(flag).None?
    requires Prerequisites(flag) != [] && PrereqKey(Prerequisites(flag)[0]) == Some(key)
    ensures !Ends(lib, store, flag, user)
  {
    hide Bounded, Early, Prerequisites, PrereqKey;
    assert Comes(lib, store, Prerequisites(flag), user, key, 0);
    assert Visits(lib, store, flag, user, [key][1..]);
    forall depth: nat
      ensures Bounded(lib, store, flag, user, depth).None?
    {
      CircleNeverEnds(lib, store, key, user, [key], 0, depth);
    }
  }
}
