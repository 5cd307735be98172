/** The Redis backend: any number of connections sending commands one at a time to
    one server, in any interleaving.

    An operation holds its connection alone until it ends. A connection given back
    keeps what the server knows of it, so a key watched and not released stays
    watched. */
module Redis {
  import opened Wrappers
  import opened JsonTree
  import opened Matching
  import opened StoreData
  import opened CacheSpec
  import opened Backend

  datatype Command = Del(kind: Kind) | HSet(kind: Kind, key: string, item: Json)

  /** What an operation is about. */
  datatype Work = UpsertWork(kind: Kind, key: string, item: Json) | InitWork(data: seq<(Kind, seq<Member>)>)

  datatype Phase =
    | Idle
    | Begin(work: Work)
    | Watching(work: Work)
    | Decided(work: Work)
    | Sending(work: Work)
    | Closed

  /** A connection as the server sees it, and where its operation stands. A watched kind
      goes with how long the log was when it was watched. */
  datatype Conn = Conn(watch: map<Kind, nat>, dirty: bool, queue: seq<Command>, phase: Phase, op: nat)

  /** An operation that took effect, and the kinds it touched; none if it found that it
      need not write. */
  datatype Commit = Commit(op: nat, work: Work, touched: set<Kind>)

  datatype End = End(at: nat, ok: bool)

  /** An operation asked for: how long the log was when it began and when it ended, and
      whether its caller was told of success. */
  datatype Op = Op(work: Work, begun: nat, ended: Option<End>)

  datatype State = State(items: Items, conns: seq<Conn>, log: seq<Commit>, ops: seq<Op>)

  /** One command of one connection. The reply to a last command may be `lost`. */
  datatype Step =
    | Connect
    | Start(c: nat, work: Work)
    | Watch(c: nat)
    | HGet(c: nat)
    | Multi(c: nat)
    | Send(c: nat)
    | Exec(c: nat, lost: bool)
    | Break(c: nat)

  /** The commands of one transaction; a put also marks the store as initialized,
      which touches no kind. */
  function Commands(work: Work): seq<Command> {
    match work
    case UpsertWork(kind, key, item) => [HSet(kind, key, item)]
    case InitWork(data) => PutCommands(data)
  }

  function PutCommands(data: seq<(Kind, seq<Member>)>): seq<Command> {
    if data == [] then []
    else
      var n := |data| - 1;
      PutCommands(data[..n]) + [Del(data[n].0)] + SetCommands(data[n].0, data[n].1)
  }

  function SetCommands(kind: Kind, members: seq<Member>): seq<Command> {
    if members == [] then []
    else
      var n := |members| - 1;
      SetCommands(kind, members[..n]) + [HSet(kind, members[n].key, members[n].value)]
  }

  function Execute(items: Items, queue: seq<Command>): Items {
    if queue == [] then items
    else
      var n := |queue| - 1;
      Perform(Execute(items, queue[..n]), queue[n])
  }

  function Perform(items: Items, command: Command): Items {
    match command
    case Del(kind) => Cleared(items, kind)
    case HSet(kind, key, item) => items[(kind, key) := item]
  }

  /** The kinds a queue touches; deleting a kind with no items touches nothing. */
  function Touched(items: Items, queue: seq<Command>): set<Kind> {
    if queue == [] then {}
    else
      var n := |queue| - 1;
      var before := Execute(items, queue[..n]);
      Touched(items, queue[..n]) +
      match queue[n]
      case Del(kind) => if exists k :: k in before && k.0 == kind then {kind} else {}
      case HSet(kind, _, _) => {kind}
  }

  /** Connections watching a touched kind can no longer commit. */
  function Spoil(conns: seq<Conn>, touched: set<Kind>): (r: seq<Conn>)
    ensures |r| == |conns|
    ensures forall i :: 0 <= i < |r| ==> r[i] == Spoilt(conns[i], touched)
  {
    seq(|conns|, i requires 0 <= i < |conns| => Spoilt(conns[i], touched))
  }

  function Spoilt(conn: Conn, touched: set<Kind>): Conn {
    conn.(dirty := conn.dirty || conn.watch.Keys * touched != {})
  }

  const NEW := Conn(map[], false, [], Idle, 0)
  const GONE := Conn(map[], false, [], Closed, 0)

  predicate Active(phase: Phase) {
    !phase.Idle? && !phase.Closed?
  }

  /** An operation ends with the log as long as `at`. */
  function Ended(ops: seq<Op>, n: nat, at: nat, ok: bool): seq<Op> {
    if n < |ops| then ops[n := ops[n].(ended := Some(End(at, ok)))] else ops
  }

  /** A step that is not due changes nothing. */
  function Next(s: State, step: Step): State {
    if step.Connect? then s.(conns := s.conns + [NEW])
    else if step.c >= |s.conns| then s
    else
      var c, conn := step.c, s.conns[step.c];
      match step
      case Start(_, work) =>
        if !conn.phase.Idle? then s
        else
          var first := if work.InitWork? then Decided(work) else Begin(work);
          s.(conns := s.conns[c := conn.(phase := first, op := |s.ops|)], ops := s.ops + [Op(work, |s.log|, None)])
      case Watch(_) =>
        if conn.phase.Begin? && conn.phase.work.UpsertWork?
        then s.(conns := s.conns[c := Watched(conn, |s.log|)])
        else s
      case HGet(_) =>
        if !conn.phase.Watching? || !conn.phase.work.UpsertWork? then s
        else if Wanted(s.items, conn.phase.work)
        then s.(conns := s.conns[c := conn.(phase := Decided(conn.phase.work))])
        else Refused(s, c)
      case Multi(_) =>
        if conn.phase.Decided?
        then s.(conns := s.conns[c := conn.(phase := Sending(conn.phase.work), queue := [])])
        else s
      case Send(_) =>
        if conn.phase.Sending? && |conn.queue| < |Commands(conn.phase.work)| then
          s.(conns := s.conns[c := conn.(queue := conn.queue + [Commands(conn.phase.work)[|conn.queue|]])])
        else s
      case Exec(_, lost) =>
        if !conn.phase.Sending? || |conn.queue| != |Commands(conn.phase.work)| then s
        else if conn.dirty then Aborted(s, c, lost)
        else Committed(s, c, lost)
      case Break(_) =>
        var ops := if Active(conn.phase) then Ended(s.ops, conn.op, |s.log|, false) else s.ops;
        State(s.items, s.conns[c := GONE], s.log, ops)
  }

  predicate Wanted(items: Items, work: Work)
    requires work.UpsertWork?
  {
    Writes(false, items, work.kind, work.key, work.item)
  }

  /** A kind watched already keeps its first watch. */
  function Watched(conn: Conn, now: nat): Conn
    requires conn.phase.Begin? && conn.phase.work.UpsertWork?
  {
    var kind := conn.phase.work.kind;
    var watch := if kind in conn.watch then conn.watch else conn.watch[kind := now];
    conn.(watch := watch, phase := Watching(conn.phase.work))
  }

  /** An item not wanted ends the operation in success, its kind still watched. */
  function Refused(s: State, c: nat): State
    requires c < |s.conns| && s.conns[c].phase.Watching?
  {
    var conn := s.conns[c];
    State(s.items, s.conns[c := conn.(phase := Idle)], s.log + [Commit(conn.op, conn.phase.work, {})],
          Ended(s.ops, conn.op, |s.log| + 1, true))
  }

  /** An upsert goes back to watching; a put gives up. */
  function Aborted(s: State, c: nat, lost: bool): State
    requires c < |s.conns| && s.conns[c].phase.Sending?
  {
    var conn := s.conns[c];
    if conn.phase.work.UpsertWork? && !lost then
      s.(conns := s.conns[c := Conn(map[], false, [], Begin(conn.phase.work), conn.op)])
    else
      s.(conns := s.conns[c := if lost then GONE else NEW], ops := Ended(s.ops, conn.op, |s.log|, false))
  }

  function Committed(s: State, c: nat, lost: bool): State
    requires c < |s.conns| && s.conns[c].phase.Sending?
  {
    var conn := s.conns[c];
    var touched := Touched(s.items, conn.queue);
    State(
      Execute(s.items, conn.queue),
      Spoil(s.conns[c := if lost then GONE else NEW], touched),
      s.log + [Commit(conn.op, conn.phase.work, touched)],
      Ended(s.ops, conn.op, |s.log| + 1, !lost))
  }

  function Run(s: State, steps: seq<Step>): State {
    if steps == [] then s else Next(Run(s, steps[..|steps| - 1]), steps[|steps| - 1])
  }

  /** Operations done one after the other, each at once: an upsert writes over
      nothing, over a deleted item and over an older one. */
  function Replay(items: Items, log: seq<Commit>): Items {
    if log == [] then items
    else
      var n := |log| - 1;
      Atomic(Replay(items, log[..n]), log[n].work)
  }

  function Atomic(items: Items, work: Work): Items {
    match work
    case UpsertWork(kind, key, item) => Upserted(false, items, kind, key, item)
    case InitWork(data) => PutAll(items, data)
  }

  /** A watched kind was touched since it was watched. */
  ghost predicate Spoiled(log: seq<Commit>, watch: map<Kind, nat>) {
    exists k, i :: TouchedSince(log, watch, k, i)
  }

  predicate TouchedSince(log: seq<Commit>, watch: map<Kind, nat>, k: Kind, i: nat) {
    k in watch && watch[k] <= i < |log| && k in log[i].touched
  }

  /** What holds of each connection, whatever the others do. */
  ghost predicate Steady(conn: Conn, items: Items, log: seq<Commit>) {
    && (forall k :: k in conn.watch ==> conn.watch[k] <= |log|)
    && (conn.dirty <==> Spoiled(log, conn.watch))
    && (conn.phase.Begin? || conn.phase.Watching? ==> conn.phase.work.UpsertWork?)
    && (conn.phase.Sending? ==> conn.queue <= Commands(conn.phase.work))
    && (conn.phase.Watching? ==> conn.phase.work.kind in conn.watch)
    && ((conn.phase.Decided? || conn.phase.Sending?) && conn.phase.work.UpsertWork? ==>
          conn.phase.work.kind in conn.watch && (conn.dirty || Wanted(items, conn.phase.work)))
  }

  ghost predicate Inv(initial: Items, s: State) {
    && s.items == Replay(initial, s.log)
    && forall c :: 0 <= c < |s.conns| ==> Steady(s.conns[c], s.items, s.log)
  }

  lemma ExecuteOne(items: Items, queue: seq<Command>, command: Command)
    ensures Execute(items, queue + [command]) == Perform(Execute(items, queue), command)
  {
    assert (queue + [command])[..|queue|] == queue;
  }

  lemma {:induction false} SetCommandsFill(items: Items, kind: Kind, members: seq<Member>, before: seq<Command>)
    ensures Execute(items, before + SetCommands(kind, members)) == Filled(Execute(items, before), kind, members)
    decreases |members|
  {
    hide Execute;
    if members == [] {
      assert before + SetCommands(kind, members) == before;
    } else {
      var n := |members| - 1;
      var command := HSet(kind, members[n].key, members[n].value);
      SetCommandsFill(items, kind, members[..n], before);
      ExecuteOne(items, before + SetCommands(kind, members[..n]), command);
      assert before + SetCommands(kind, members) == before + SetCommands(kind, members[..n]) + [command];
    }
  }

  /** The transaction of a put does what a backend's initialization does. */
  lemma {:induction false} PutCommandsPut(items: Items, data: seq<(Kind, seq<Member>)>)
    ensures Execute(items, PutCommands(data)) == PutAll(items, data)
    decreases |data|
  {
    if data != [] {
      var n := |data| - 1;
      PutCommandsPut(items, data[..n]);
      var before := PutCommands(data[..n]) + [Del(data[n].0)];
      assert before[..|before| - 1] == PutCommands(data[..n]);
      SetCommandsFill(items, data[n].0, data[n].1, before);
    }
  }

  /** What a queue does not touch, it leaves. */
  lemma {:induction false} UntouchedStays(items: Items, queue: seq<Command>, k: (Kind, string))
    ensures k.0 !in Touched(items, queue) ==>
      (k in Execute(items, queue) <==> k in items) && (k in items ==> Execute(items, queue)[k] == items[k])
    decreases |queue|
  {
    if queue != [] {
      var n := |queue| - 1;
      UntouchedStays(items, queue[..n], k);
    }
  }

  /** A committed transaction is its operation done at once. */
  lemma CommitIsAtomic(items: Items, work: Work)
    requires work.UpsertWork? ==> Wanted(items, work)
    ensures Execute(items, Commands(work)) == Atomic(items, work)
  {
    if work.UpsertWork? {
      var queue := Commands(work);
      assert Execute(items, queue[..0]) == items;
    } else {
      PutCommandsPut(items, work.data);
    }
  }

  /** A commit spoils exactly the connections watching what it touches. */
  lemma SpoiledMore(log: seq<Commit>, commit: Commit, watch: map<Kind, nat>)
    requires forall k :: k in watch ==> watch[k] <= |log|
    ensures Spoiled(log + [commit], watch) <==> Spoiled(log, watch) || watch.Keys * commit.touched != {}
  {
    var more := log + [commit];
    if k: Kind, i: nat :| TouchedSince(log, watch, k, i) {
      assert TouchedSince(more, watch, k, i);
    }
    if watch.Keys * commit.touched != {} {
      var k :| k in watch.Keys * commit.touched;
      assert TouchedSince(more, watch, k, |log|);
    }
    if k: Kind, i: nat :| TouchedSince(more, watch, k, i) {
      if i < |log| {
        assert TouchedSince(log, watch, k, i);
      } else {
        assert k in watch.Keys * commit.touched;
      }
    }
  }

  /** Another connection's commit keeps a connection steady: it is spoiled or its item
      is as it was. */
  lemma OtherSteady(conn: Conn, items: Items, log: seq<Commit>, op: nat, work: Work)
    requires Steady(conn, items, log)
    ensures
      var touched := Touched(items, Commands(work));
      Steady(Spoilt(conn, touched), Execute(items, Commands(work)), log + [Commit(op, work, touched)])
  {
    hide Wanted, Execute, Touched, Commands, Spoiled;
    var touched := Touched(items, Commands(work));
    SpoiledMore(log, Commit(op, work, touched), conn.watch);
    if (conn.phase.Decided? || conn.phase.Sending?) && conn.phase.work.UpsertWork? && conn.watch.Keys * touched == {} {
      var w := conn.phase.work;
      assert w.kind in conn.watch.Keys && w.kind !in conn.watch.Keys * touched;
      UntouchedStays(items, Commands(work), (w.kind, w.key));
      WantedSame(items, Execute(items, Commands(work)), w);
    }
  }

  lemma WantedSame(a: Items, b: Items, w: Work)
    requires w.UpsertWork? && Same(a, b, w.kind, w.key)
    ensures Wanted(a, w) == Wanted(b, w)
  {
    hide Shows, DataVersion;
  }

  /** A log entry that touches nothing keeps connections steady. */
  lemma LogSteady(conn: Conn, items: Items, log: seq<Commit>, commit: Commit)
    requires Steady(conn, items, log) && commit.touched == {}
    ensures Steady(conn, items, log + [commit])
  {
    hide Wanted, Commands, Spoiled;
    SpoiledMore(log, commit, conn.watch);
    assert conn.watch.Keys * {} == {};
  }

  lemma NothingWatched(log: seq<Commit>)
    ensures !Spoiled(log, map[])
  {
  }

  lemma ReplayGrows(initial: Items, log: seq<Commit>, commit: Commit)
    ensures Replay(initial, log + [commit]) == Atomic(Replay(initial, log), commit.work)
  {
    assert (log + [commit])[..|log|] == log;
  }

  /** Setting one connection keeps the rest. */
  lemma OneSteady(initial: Items, s: State, c: nat, conn: Conn, ops: seq<Op>)
    requires Inv(initial, s) && c < |s.conns| && Steady(conn, s.items, s.log)
    ensures Inv(initial, State(s.items, s.conns[c := conn], s.log, ops))
  {
    hide Steady, Replay;
  }

  lemma WatchSteady(conn: Conn, items: Items, log: seq<Commit>)
    requires Steady(conn, items, log) && conn.phase.Begin?
    ensures Steady(Watched(conn, |log|), items, log)
  {
    hide Wanted, Spoiled;
    var next := Watched(conn, |log|);
    if conn.phase.work.kind !in conn.watch {
      SpoiledLater(log, conn.watch, conn.phase.work.kind);
    }
  }

  lemma SpoiledLater(log: seq<Commit>, watch: map<Kind, nat>, kind: Kind)
    requires kind !in watch
    ensures Spoiled(log, watch[kind := |log|]) <==> Spoiled(log, watch)
  {
    var more := watch[kind := |log|];
    if k: Kind, i: nat :| TouchedSince(log, watch, k, i) {
      assert TouchedSince(log, more, k, i);
    }
    if k: Kind, i: nat :| TouchedSince(log, more, k, i) {
      assert TouchedSince(log, watch, k, i);
    }
  }

  lemma SendSteady(conn: Conn, items: Items, log: seq<Commit>)
    requires Steady(conn, items, log) && conn.phase.Sending? && |conn.queue| < |Commands(conn.phase.work)|
    ensures Steady(conn.(queue := conn.queue + [Commands(conn.phase.work)[|conn.queue|]]), items, log)
  {
    hide Wanted, Spoiled, Commands;
  }

  lemma RejectKeeps(initial: Items, s: State, c: nat)
    requires Inv(initial, s) && c < |s.conns| && s.conns[c].phase.Watching?
    requires var w := s.conns[c].phase.work; w.UpsertWork? && !Wanted(s.items, w)
    ensures Inv(initial, Refused(s, c))
  {
    hide Steady, Replay;
    var commit := Commit(s.conns[c].op, s.conns[c].phase.work, {});
    ReplayGrows(initial, s.log, commit);
    var next := Refused(s, c);
    IdleSteady(s.conns[c], s.items, s.log);
    forall d | 0 <= d < |next.conns|
      ensures Steady(next.conns[d], s.items, next.log)
    {
      LogSteady(if d == c then next.conns[c] else s.conns[d], s.items, s.log, commit);
    }
  }

  lemma IdleSteady(conn: Conn, items: Items, log: seq<Commit>)
    requires Steady(conn, items, log)
    ensures Steady(conn.(phase := Idle), items, log)
  {
    hide Wanted, Spoiled, Commands;
  }

  lemma CommitKeeps(initial: Items, s: State, c: nat, lost: bool)
    requires Inv(initial, s) && c < |s.conns| && s.conns[c].phase.Sending? && !s.conns[c].dirty
    requires s.conns[c].queue == Commands(s.conns[c].phase.work)
    ensures Inv(initial, Committed(s, c, lost))
  {
    hide Steady, Wanted, Replay, Execute, Touched, Commands;
    var work := s.conns[c].phase.work;
    var next := Committed(s, c, lost);
    SendingWanted(s.conns[c], s.items, s.log);
    CommitIsAtomic(s.items, work);
    ReplayGrows(initial, s.log, Commit(s.conns[c].op, work, Touched(s.items, Commands(work))));
    forall d | 0 <= d < |next.conns|
      ensures Steady(next.conns[d], next.items, next.log)
    {
      if d == c {
        UnwatchedSteady(if lost then Closed else Idle, 0, next.items, next.log);
        assert NEW.watch.Keys * Touched(s.items, Commands(work)) == {};
      } else {
        OtherSteady(s.conns[d], s.items, s.log, s.conns[c].op, work);
      }
    }
  }

  lemma SendingWanted(conn: Conn, items: Items, log: seq<Commit>)
    requires Steady(conn, items, log) && conn.phase.Sending? && !conn.dirty
    ensures conn.phase.work.UpsertWork? ==> Wanted(items, conn.phase.work)
  {
    hide Wanted, Commands, Spoiled;
  }

  lemma UnwatchedSteady(phase: Phase, op: nat, items: Items, log: seq<Commit>)
    requires phase.Idle? || phase.Closed? || (phase.Begin? && phase.work.UpsertWork?)
    ensures Steady(Conn(map[], false, [], phase, op), items, log)
  {
    NothingWatched(log);
  }

  /** Every step of every connection keeps the store equal to the log replayed, a
      transaction that can still commit one that is due, and one that cannot one whose
      watched kinds were touched. */
  lemma StepKeeps(initial: Items, s: State, step: Step)
    requires Inv(initial, s)
    ensures Inv(initial, Next(s, step))
  {
    hide Wanted, Replay, Execute, Touched, Commands, Spoiled, Ended, Refused, Committed;
    if step.Connect? {
      UnwatchedSteady(Idle, 0, s.items, s.log);
    } else if step.c < |s.conns| {
      var c, conn := step.c, s.conns[step.c];
      assert Steady(conn, s.items, s.log);
      match step
      case Start(_, work) =>
        if conn.phase.Idle? {
          var begun := conn.(phase := if work.InitWork? then Decided(work) else Begin(work), op := |s.ops|);
          OneSteady(initial, s, c, begun, s.ops + [Op(work, |s.log|, None)]);
        }
      case Watch(_) =>
        if conn.phase.Begin? {
          WatchSteady(conn, s.items, s.log);
          OneSteady(initial, s, c, Watched(conn, |s.log|), s.ops);
        }
      case HGet(_) =>
        if conn.phase.Watching? {
          if Wanted(s.items, conn.phase.work) {
            OneSteady(initial, s, c, conn.(phase := Decided(conn.phase.work)), s.ops);
          } else {
            RejectKeeps(initial, s, c);
          }
        }
      case Multi(_) =>
        if conn.phase.Decided? {
          OneSteady(initial, s, c, conn.(phase := Sending(conn.phase.work), queue := []), s.ops);
        }
      case Send(_) =>
        if conn.phase.Sending? && |conn.queue| < |Commands(conn.phase.work)| {
          SendSteady(conn, s.items, s.log);
          OneSteady(initial, s, c, conn.(queue := conn.queue + [Commands(conn.phase.work)[|conn.queue|]]), s.ops);
        }
      case Exec(_, lost) =>
        if conn.phase.Sending? && |conn.queue| == |Commands(conn.phase.work)| {
          if conn.dirty {
            AbortKeeps(initial, s, c, lost);
          } else {
            CommitKeeps(initial, s, c, lost);
          }
        }
      case Break(_) =>
        UnwatchedSteady(Closed, 0, s.items, s.log);
        OneSteady(initial, s, c, GONE, Next(s, step).ops);
    }
  }

  lemma AbortKeeps(initial: Items, s: State, c: nat, lost: bool)
    requires Inv(initial, s) && c < |s.conns| && s.conns[c].phase.Sending?
    ensures Inv(initial, Aborted(s, c, lost))
  {
    hide Replay, Steady, Ended;
    var conn, next := s.conns[c], Aborted(s, c, lost);
    UnwatchedSteady(Idle, 0, s.items, s.log);
    UnwatchedSteady(Closed, 0, s.items, s.log);
    if conn.phase.work.UpsertWork? {
      UnwatchedSteady(Begin(conn.phase.work), conn.op, s.items, s.log);
    }
    OneSteady(initial, s, c, next.conns[c], next.ops);
  }

  function Initial(items: Items): State { State(items, [], [], []) }

  /** In every interleaving the store is what the operations that took effect make
      of it one after the other. */
  lemma {:induction false} RunIsAtomic(initial: Items, steps: seq<Step>)
    ensures Inv(initial, Run(Initial(initial), steps))
    decreases |steps|
  {
    hide Inv, Next;
    if steps == [] {
      StartInv(initial);
    } else {
      var n := |steps| - 1;
      RunIsAtomic(initial, steps[..n]);
      StepKeeps(initial, Run(Initial(initial), steps[..n]), steps[n]);
    }
  }

  lemma StartInv(initial: Items)
    ensures Inv(initial, Initial(initial))
  {
  }

  predicate IsLive(items: Items, k: (Kind, string)) {
    k in items && Shows(items[k])
  }

  /** No step replaces a live item by one as old or older, except the commit of a put. */
  lemma LiveOnlyByNewer(initial: Items, s: State, step: Step, k: (Kind, string))
    requires Inv(initial, s) && IsLive(s.items, k)
    ensures var next := Next(s, step);
      || (k in next.items && next.items[k] == s.items[k])
      || (k in next.items && DataVersion(next.items[k]) > DataVersion(s.items[k]))
      || (step.Exec? && next.log != s.log && next.log[|s.log|].work.InitWork?)
  {
    hide DataVersion, Shows, Touched, PutAll, Spoiled, Execute, Ended;
    if step.Exec? && step.c < |s.conns| {
      var conn := s.conns[step.c];
      assert Steady(conn, s.items, s.log);
      if conn.phase.Sending? && conn.queue == Commands(conn.phase.work) && !conn.dirty {
        CommitIsAtomic(s.items, conn.phase.work);
      }
    }
  }

  /** A connection about to commit, all its commands sent. */
  predicate Ready(s: State, c: nat) {
    c < |s.conns| && s.conns[c].phase.Sending? && s.conns[c].queue == Commands(s.conns[c].phase.work)
  }

  /** A transaction ready to commit takes effect exactly when nothing it watches was
      touched since it was watched. */
  lemma CommitsExactlyWhenUnspoiled(initial: Items, s: State, c: nat, lost: bool)
    requires Inv(initial, s) && Ready(s, c)
    ensures
      var conn, next := s.conns[c], Next(s, Exec(c, lost));
      if Spoiled(s.log, conn.watch) then next.items == s.items && next.log == s.log
      else
        && next.items == Atomic(s.items, conn.phase.work)
        && next.log == s.log + [Commit(conn.op, conn.phase.work, Touched(s.items, conn.queue))]
  {
    hide Wanted, Replay, Execute, Touched, Commands, Spoiled, Ended, Atomic;
    assert Steady(s.conns[c], s.items, s.log);
    if !s.conns[c].dirty {
      SendingWanted(s.conns[c], s.items, s.log);
      CommitIsAtomic(s.items, s.conns[c].phase.work);
    }
  }

  /** A put ready to commit fails exactly when its connection was left watching a kind by
      an earlier operation and that kind was touched since; otherwise it replaces its
      kinds. On a connection that watches nothing it never fails. */
  lemma PutFailsExactlyWhenSpoiled(initial: Items, s: State, c: nat)
    requires Inv(initial, s) && Ready(s, c) && s.conns[c].phase.work.InitWork?
    ensures
      var conn, next := s.conns[c], Next(s, Exec(c, false));
      && (Spoiled(s.log, conn.watch) ==>
        next.items == s.items && next.log == s.log && next.ops == Ended(s.ops, conn.op, |s.log|, false))
      && (!Spoiled(s.log, conn.watch) ==>
            next.items == PutAll(s.items, conn.phase.work.data) && next.ops == Ended(s.ops, conn.op, |s.log| + 1, true))
      && (conn.watch == map[] ==> !Spoiled(s.log, conn.watch))
  {
    hide Wanted, Replay, Execute, Touched, Commands, Spoiled, Ended, PutAll;
    CommitsExactlyWhenUnspoiled(initial, s, c, false);
    assert Steady(s.conns[c], s.items, s.log);
    NothingWatched(s.log);
  }

  /** Whether a connection is in a put and watches nothing. */
  predicate CleanPut(s: State, c: nat, op: nat) {
    && c < |s.conns| && s.conns[c].op == op && s.conns[c].watch == map[]
    && (s.conns[c].phase.Decided? || s.conns[c].phase.Sending?) && s.conns[c].phase.work.InitWork?
  }

  /** A put begun on a connection that watches nothing stays so through every step, its
      own and others', until it commits or its connection is lost. */
  lemma CleanPutCommits(initial: Items, s: State, c: nat, op: nat, step: Step)
    requires Inv(initial, s) && CleanPut(s, c, op)
    ensures
      var next := Next(s, step);
      || CleanPut(next, c, op)
      || (step == Break(c))
      || (step.Exec? && step.c == c
          && next.log == s.log + [Commit(op, s.conns[c].phase.work, Touched(s.items, s.conns[c].queue))])
  {
    hide Wanted, Replay, Execute, Touched, Commands, Spoiled, Ended, PutAll, Atomic;
    assert Steady(s.conns[c], s.items, s.log);
    NothingWatched(s.log);
    assert forall t: set<Kind> :: s.conns[c].watch.Keys * t == {};
  }

  // ------------------------------------------------------------- operations and the log

  ghost predicate Logged(log: seq<Commit>, n: nat) {
    exists i :: 0 <= i < |log| && log[i].op == n
  }

  /** A log entry belongs to an operation and lies between its beginning and its end. */
  ghost predicate Placed(ops: seq<Op>, log: seq<Commit>, i: nat)
    requires i < |log|
  {
    && log[i].op < |ops|
    && var op := ops[log[i].op];
    && op.work == log[i].work && op.begun <= i
    && (op.ended.Some? ==> i < op.ended.value.at <= |log|)
  }

  ghost predicate OpOk(log: seq<Commit>, op: Op, n: nat) {
    && op.begun <= |log|
    && (op.ended.Some? ==> op.begun <= op.ended.value.at <= |log|)
    && (op.ended.Some? && op.ended.value.ok ==> Logged(log, n))
  }

  /** An operation under way has not taken effect and has not ended. */
  ghost predicate Underway(s: State, conn: Conn) {
    Active(conn.phase) ==>
      && conn.op < |s.ops| && s.ops[conn.op].ended.None? && s.ops[conn.op].work == conn.phase.work
      && !Logged(s.log, conn.op)
  }

  /** Every operation enters the log at most once and while it is under way; one that
      ended in success did. */
  ghost predicate Accounted(s: State) {
    && (forall i :: 0 <= i < |s.log| ==> Placed(s.ops, s.log, i))
    && (forall i, j :: 0 <= i < j < |s.log| ==> s.log[i].op != s.log[j].op)
    && (forall n :: 0 <= n < |s.ops| ==> OpOk(s.log, s.ops[n], n))
    && (forall c :: 0 <= c < |s.conns| ==> Underway(s, s.conns[c]))
    && (forall c, d :: 0 <= c < d < |s.conns| && Active(s.conns[c].phase) && Active(s.conns[d].phase) ==>
      s.conns[c].op != s.conns[d].op)
  }

  /** A connection moves on within its operation, or is idle or gone. */
  lemma MoveAccounts(s: State, c: nat, conn: Conn)
    requires Accounted(s) && c < |s.conns|
    requires Active(conn.phase) ==>
      Active(s.conns[c].phase) && conn.op == s.conns[c].op && conn.phase.work == s.conns[c].phase.work
    ensures Accounted(s.(conns := s.conns[c := conn]))
  {
    hide Placed, OpOk, Logged;
    var next := s.(conns := s.conns[c := conn]);
    forall d | 0 <= d < |next.conns|
      ensures Underway(next, next.conns[d])
    {
      assert Underway(s, s.conns[d]);
    }
  }

  /** An operation begins. */
  lemma BeginAccounts(s: State, c: nat, conn: Conn, work: Work)
    requires Accounted(s) && c < |s.conns| && !Active(s.conns[c].phase)
    requires conn.op == |s.ops| && Active(conn.phase) && conn.phase.work == work
    ensures Accounted(s.(conns := s.conns[c := conn], ops := s.ops + [Op(work, |s.log|, None)]))
  {
    var next := s.(conns := s.conns[c := conn], ops := s.ops + [Op(work, |s.log|, None)]);
    forall i | 0 <= i < |s.log|
      ensures Placed(next.ops, next.log, i) && s.log[i].op < |s.ops|
    {
      assert Placed(s.ops, s.log, i);
    }
    assert !Logged(s.log, |s.ops|);
    forall n | 0 <= n < |next.ops|
      ensures OpOk(next.log, next.ops[n], n)
    {
      assert n < |s.ops| ==> OpOk(s.log, s.ops[n], n);
    }
    forall d | 0 <= d < |next.conns|
      ensures Underway(next, next.conns[d]) && (d != c && Active(next.conns[d].phase) ==> next.conns[d].op < |s.ops|)
    {
      assert d != c ==> Underway(s, s.conns[d]);
    }
  }

  /** An operation ends without effect. */
  lemma EndAccounts(s: State, c: nat, conn: Conn)
    requires Accounted(s) && c < |s.conns| && Active(s.conns[c].phase) && !Active(conn.phase)
    ensures Accounted(s.(conns := s.conns[c := conn], ops := Ended(s.ops, s.conns[c].op, |s.log|, false)))
  {
    var n := s.conns[c].op;
    assert Underway(s, s.conns[c]);
    var next := s.(conns := s.conns[c := conn], ops := Ended(s.ops, n, |s.log|, false));
    forall i | 0 <= i < |s.log|
      ensures Placed(next.ops, next.log, i)
    {
      assert Placed(s.ops, s.log, i);
    }
    forall m | 0 <= m < |next.ops|
      ensures OpOk(next.log, next.ops[m], m)
    {
      assert OpOk(s.log, s.ops[m], m);
    }
    forall d | 0 <= d < |next.conns|
      ensures Underway(next, next.conns[d])
    {
      assert Underway(s, s.conns[d]);
    }
  }

  /** An operation takes effect and ends. */
  lemma LogAccounts(s: State, c: nat, conn: Conn, touched: set<Kind>, ok: bool, items: Items)
    requires Accounted(s) && c < |s.conns| && Active(s.conns[c].phase) && !Active(conn.phase)
    ensures Accounted(State(items, s.conns[c := conn], s.log + [Commit(s.conns[c].op, s.conns[c].phase.work, touched)],
                            Ended(s.ops, s.conns[c].op, |s.log| + 1, ok)))
  {
    hide Logged;
    var n := s.conns[c].op;
    assert Underway(s, s.conns[c]);
    var commit := Commit(n, s.conns[c].phase.work, touched);
    var next := State(items, s.conns[c := conn], s.log + [commit], Ended(s.ops, n, |s.log| + 1, ok));
    LoggedMore(s.log, commit);
    NotLogged(s.log, n);
    forall i | 0 <= i < |next.log|
      ensures Placed(next.ops, next.log, i)
    {
      assert i < |s.log| ==> Placed(s.ops, s.log, i);
    }
    forall m | 0 <= m < |next.ops|
      ensures OpOk(next.log, next.ops[m], m)
    {
      assert OpOk(s.log, s.ops[m], m);
    }
    forall d | 0 <= d < |next.conns|
      ensures Underway(next, next.conns[d])
    {
      assert Underway(s, s.conns[d]);
    }
  }

  lemma LoggedMore(log: seq<Commit>, commit: Commit)
    ensures forall m: nat :: Logged(log + [commit], m) <==> Logged(log, m) || m == commit.op
  {
    var more := log + [commit];
    forall m: nat
      ensures Logged(more, m) <==> Logged(log, m) || m == commit.op
    {
      if i :| 0 <= i < |log| && log[i].op == m {
        assert more[i].op == m;
      }
      assert more[|log|].op == commit.op;
    }
  }

  lemma NotLogged(log: seq<Commit>, n: nat)
    requires !Logged(log, n)
    ensures forall i :: 0 <= i < |log| ==> log[i].op != n
  {
  }

  /** Spoiling changes nobody's operation. */
  lemma SpoilAccounts(s: State, touched: set<Kind>)
    requires Accounted(s)
    ensures Accounted(s.(conns := Spoil(s.conns, touched)))
  {
    hide Placed, OpOk, Logged;
    var next := s.(conns := Spoil(s.conns, touched));
    forall d | 0 <= d < |next.conns|
      ensures Underway(next, next.conns[d])
    {
      assert Underway(s, s.conns[d]);
    }
  }

  lemma StepAccounts(s: State, step: Step)
    requires Accounted(s)
    ensures Accounted(Next(s, step))
  {
    hide Accounted, Ended, Wanted, Execute, Touched, Commands, Spoil;
    if step.Connect? {
      ConnectAccounts(s);
    } else if step.c < |s.conns| {
      var c, conn := step.c, s.conns[step.c];
      match step
      case Start(_, work) =>
        if conn.phase.Idle? {
          var first := if work.InitWork? then Decided(work) else Begin(work);
          BeginAccounts(s, c, conn.(phase := first, op := |s.ops|), work);
        }
      case Watch(_) =>
        if conn.phase.Begin? && conn.phase.work.UpsertWork? {
          MoveAccounts(s, c, Watched(conn, |s.log|));
        }
      case HGet(_) =>
        if conn.phase.Watching? && conn.phase.work.UpsertWork? {
          if Wanted(s.items, conn.phase.work) {
            MoveAccounts(s, c, conn.(phase := Decided(conn.phase.work)));
          } else {
            LogAccounts(s, c, conn.(phase := Idle), {}, true, s.items);
          }
        }
      case Multi(_) =>
        if conn.phase.Decided? {
          MoveAccounts(s, c, conn.(phase := Sending(conn.phase.work), queue := []));
        }
      case Send(_) =>
        if conn.phase.Sending? && |conn.queue| < |Commands(conn.phase.work)| {
          MoveAccounts(s, c, conn.(queue := conn.queue + [Commands(conn.phase.work)[|conn.queue|]]));
        }
      case Exec(_, lost) =>
        if conn.phase.Sending? && |conn.queue| == |Commands(conn.phase.work)| {
          ExecAccounts(s, c, lost);
        }
      case Break(_) =>
        if Active(conn.phase) {
          EndAccounts(s, c, GONE);
        } else {
          MoveAccounts(s, c, GONE);
        }
    }
  }

  lemma ExecAccounts(s: State, c: nat, lost: bool)
    requires Accounted(s) && c < |s.conns| && s.conns[c].phase.Sending?
    ensures Accounted(Aborted(s, c, lost)) && Accounted(Committed(s, c, lost))
  {
    hide Accounted, Ended, Execute, Touched, Spoil;
    var conn, rest := s.conns[c], if lost then GONE else NEW;
    if conn.phase.work.UpsertWork? && !lost {
      MoveAccounts(s, c, Conn(map[], false, [], Begin(conn.phase.work), conn.op));
    } else {
      EndAccounts(s, c, rest);
    }
    var touched := Touched(s.items, conn.queue);
    LogAccounts(s, c, rest, touched, !lost, Execute(s.items, conn.queue));
    var log := s.log + [Commit(conn.op, conn.phase.work, touched)];
    var ops := Ended(s.ops, conn.op, |s.log| + 1, !lost);
    SpoilAccounts(State(Execute(s.items, conn.queue), s.conns[c := rest], log, ops), touched);
  }

  lemma ConnectAccounts(s: State)
    requires Accounted(s)
    ensures Accounted(s.(conns := s.conns + [NEW]))
  {
    hide Placed, OpOk, Logged;
    var next := s.(conns := s.conns + [NEW]);
    forall d | 0 <= d < |next.conns|
      ensures Underway(next, next.conns[d])
    {
      assert d < |s.conns| ==> Underway(s, s.conns[d]);
    }
  }

  /** In every interleaving each operation takes effect at most once, between its
      beginning and its end, and exactly once if its caller was told of success. */
  lemma {:induction false} RunIsAccounted(items: Items, steps: seq<Step>)
    ensures Accounted(Run(Initial(items), steps))
    decreases |steps|
  {
    hide Accounted, Next;
    if steps == [] {
      assert Accounted(Initial(items)) by { NothingToAccount(items); }
    } else {
      var n := |steps| - 1;
      RunIsAccounted(items, steps[..n]);
      StepAccounts(Run(Initial(items), steps[..n]), steps[n]);
    }
  }

  lemma NothingToAccount(items: Items)
    ensures Accounted(Initial(items))
  {
  }

  lemma RunOne(s: State, steps: seq<Step>, step: Step)
    ensures Run(s, steps + [step]) == Next(Run(s, steps), step)
  {
    assert (steps + [step])[..|steps|] == steps;
  }

  lemma RunNothing(s: State)
    ensures Run(s, []) == s
  {
  }

  lemma {:induction false} RunMore(s: State, one: seq<Step>, two: seq<Step>)
    ensures Run(s, one + two) == Run(Run(s, one), two)
    decreases |two|
  {
    if two == [] {
      assert one + two == one;
    } else {
      var n := |two| - 1;
      RunMore(s, one, two[..n]);
      assert (one + two)[..|one + two| - 1] == one + two[..n];
    }
  }

  function With(s: State, c: nat, conn: Conn): State
    requires c < |s.conns|
  {
    s.(conns := s.conns[c := conn])
  }

  lemma Overwrite(s: State, c: nat, a: Conn, b: Conn)
    requires c < |s.conns|
    ensures With(With(s, c, a), c, b) == With(s, c, b)
  {
    assert s.conns[c := a][c := b] == s.conns[c := b];
  }

  /** A state with one more operation asked for. */
  function Asked(s: State, work: Work): State {
    s.(ops := s.ops + [Op(work, |s.log|, None)])
  }

  function Finished(s: State, work: Work): seq<Op> {
    s.ops + [Op(work, |s.log|, Some(End(|s.log| + 1, true)))]
  }

  lemma EndedLast(s: State, work: Work)
    ensures Ended(Asked(s, work).ops, |s.ops|, |s.log| + 1, true) == Finished(s, work)
  {
  }

  /** An upsert that has watched its kind and nothing else. */
  lemma WatchesAlone(s: State, c: nat, work: Work)
    requires c < |s.conns| && s.conns[c].phase.Idle? && s.conns[c].watch == map[] && work.UpsertWork?
    ensures Run(s, [Start(c, work)] + [Watch(c)]) ==
      With(Asked(s, work), c, s.conns[c].(watch := map[work.kind := |s.log|], phase := Watching(work), op := |s.ops|))
  {
    hide Run;
    RunNothing(s);
    assert [] + [Start(c, work)] == [Start(c, work)];
    var begun := s.conns[c].(phase := Begin(work), op := |s.ops|);
    var watched := begun.(watch := map[work.kind := |s.log|], phase := Watching(work));
    RunOne(s, [], Start(c, work));
    RunOne(s, [Start(c, work)], Watch(c));
    assert Next(s, Start(c, work)) == With(Asked(s, work), c, begun);
    assert Next(With(Asked(s, work), c, begun), Watch(c)) == With(With(Asked(s, work), c, begun), c, watched);
    Overwrite(Asked(s, work), c, begun, watched);
  }

  /** An upsert run alone: refused, and left watching. */
  lemma RefusedAlone(s: State, c: nat, work: Work) returns (steps: seq<Step>)
    requires c < |s.conns| && s.conns[c].phase.Idle? && s.conns[c].watch == map[]
    requires work.UpsertWork? && !Wanted(s.items, work)
    ensures Run(s, steps) ==
      State(s.items, s.conns[c := s.conns[c].(watch := map[work.kind := |s.log|], op := |s.ops|)],
            s.log + [Commit(|s.ops|, work, {})], Finished(s, work))
  {
    hide Wanted, Run, Ended;
    var watched := s.conns[c].(watch := map[work.kind := |s.log|], phase := Watching(work), op := |s.ops|);
    steps := [Start(c, work)] + [Watch(c)] + [HGet(c)];
    WatchesAlone(s, c, work);
    RunOne(s, [Start(c, work)] + [Watch(c)], HGet(c));
    Overwrite(s, c, watched, watched.(phase := Idle));
    EndedLast(s, work);
  }

  /** An upsert run alone: written. */
  lemma WrittenAlone(s: State, c: nat, work: Work) returns (steps: seq<Step>)
    requires c < |s.conns| && s.conns[c] == NEW
    requires work.UpsertWork? && Wanted(s.items, work)
    ensures Run(s, steps) ==
      State(s.items[(work.kind, work.key) := work.item], Spoil(s.conns, {work.kind}),
            s.log + [Commit(|s.ops|, work, {work.kind})], Finished(s, work))
  {
    hide Wanted, Run, Next, Committed, Execute, Touched, Spoil, Ended;
    var prefix := [Start(c, work)] + [Watch(c)];
    WatchesAlone(s, c, work);
    RunOne(s, prefix, HGet(c));
    RunOne(s, prefix + [HGet(c)], Multi(c));
    RunOne(s, prefix + [HGet(c)] + [Multi(c)], Send(c));
    RunOne(s, prefix + [HGet(c)] + [Multi(c)] + [Send(c)], Exec(c, false));
    steps := prefix + [HGet(c)] + [Multi(c)] + [Send(c)] + [Exec(c, false)];
    SendsAlone(Asked(s, work), c, work, |s.log|, |s.ops|);
    CommitsAlone(s, c, work);
  }

  lemma SendsAlone(s: State, c: nat, work: Work, at: nat, op: nat)
    requires c < |s.conns| && work.UpsertWork? && Wanted(s.items, work)
    ensures
      var watch := map[work.kind := at];
      Next(Next(Next(With(s, c, Conn(watch, false, [], Watching(work), op)), HGet(c)), Multi(c)), Send(c))
      == With(s, c, Conn(watch, false, Commands(work), Sending(work), op))
  {
    hide Wanted;
    var watched := Conn(map[work.kind := at], false, [], Watching(work), op);
    var decided, sending := watched.(phase := Decided(work)), watched.(phase := Sending(work));
    Overwrite(s, c, watched, decided);
    assert Next(With(s, c, watched), HGet(c)) == With(s, c, decided);
    Overwrite(s, c, decided, sending);
    assert Next(With(s, c, decided), Multi(c)) == With(s, c, sending);
    Overwrite(s, c, sending, sending.(queue := Commands(work)));
    assert [] + [Commands(work)[0]] == Commands(work);
  }

  lemma CommitsAlone(s: State, c: nat, work: Work)
    requires c < |s.conns| && s.conns[c] == NEW
    requires work.UpsertWork? && Wanted(s.items, work)
    ensures
      var full := Conn(map[work.kind := |s.log|], false, Commands(work), Sending(work), |s.ops|);
      Next(With(Asked(s, work), c, full), Exec(c, false))
      == State(s.items[(work.kind, work.key) := work.item], Spoil(s.conns, {work.kind}),
               s.log + [Commit(|s.ops|, work, {work.kind})], Finished(s, work))
  {
    hide Execute, Touched, Ended;
    var full := Conn(map[work.kind := |s.log|], false, Commands(work), Sending(work), |s.ops|);
    CommitIsAtomic(s.items, work);
    OneSetTouches(s.items, work);
    Overwrite(s, c, full, NEW);
    EndedLast(s, work);
    assert s.conns[c := NEW] == s.conns;
    assert With(Asked(s, work), c, full).conns[c := NEW] == s.conns;
  }

  lemma OneSetTouches(items: Items, work: Work)
    requires work.UpsertWork?
    ensures Touched(items, Commands(work)) == {work.kind}
  {
    assert Commands(work)[..0] == [];
  }

  /** How a put comes to fail: one connection finds its item outdated and is given back,
      another writes the kind, and the next put on the first will be thrown away. */
  lemma RefusedUpsertSpoilsNextPut(
      kind: Kind, key: string, stored: Json, older: Json, newer: Json, data: seq<(Kind, seq<Member>)>)
    returns (steps: seq<Step>)
    requires Shows(stored) && DataVersion(older) <= DataVersion(stored) < DataVersion(newer)
    ensures var s := Run(Initial(map[(kind, key) := stored]), steps);
      && 0 < |s.conns| && s.conns[0].phase == Decided(InitWork(data)) && Spoiled(s.log, s.conns[0].watch)
  {
    hide Wanted, DataVersion, Shows, Next, Run, Spoiled;
    var initial: Items := map[(kind, key) := stored];
    var s0 := Initial(initial);
    var up, down := UpsertWork(kind, key, newer), UpsertWork(kind, key, older);
    Opened(s0);
    var connects := [Connect] + [Connect];
    var s1 := s0.(conns := [NEW] + [NEW]);
    assert Run(s0, connects) == s1;
    WritesByVersion(initial, kind, key, older);
    WritesByVersion(initial, kind, key, newer);
    var refused := RefusedAlone(s1, 0, down);
    var s2 := Run(s1, refused);
    assert s2.conns[0] == NEW.(watch := map[kind := 0]) && s2.conns[1] == NEW;
    var written := WrittenAlone(s2, 1, up);
    var s3 := Run(s2, written);
    assert s3.conns[0].watch == map[kind := 0];
    SecondTouches(s3.log, kind);
    PutStarts(s3, data);
    RunMore(s0, connects, refused);
    RunMore(s0, connects + refused, written);
    RunOne(s0, connects + refused + written, Start(0, InitWork(data)));
    steps := connects + refused + written + [Start(0, InitWork(data))];
  }

  lemma SecondTouches(log: seq<Commit>, kind: Kind)
    requires |log| == 2 && log[1].touched == {kind}
    ensures Spoiled(log, map[kind := 0])
  {
    assert TouchedSince(log, map[kind := 0], kind, 1);
  }

  lemma Opened(s: State)
    ensures Run(s, [Connect] + [Connect]) == s.(conns := s.conns + [NEW] + [NEW])
  {
    RunOne(s, [], Connect);
    RunOne(s, [Connect], Connect);
  }

  lemma PutStarts(s: State, data: seq<(Kind, seq<Member>)>)
    requires 0 < |s.conns| && s.conns[0].phase.Idle?
    ensures
      var next := Next(s, Start(0, InitWork(data)));
      next.log == s.log && |next.conns| == |s.conns|
      && next.conns[0] == s.conns[0].(phase := Decided(InitWork(data)), op := |s.ops|)
  {
  }

  lemma WritesByVersion(items: Items, kind: Kind, key: string, item: Json)
    requires IsLive(items, (kind, key))
    ensures Wanted(items, UpsertWork(kind, key, item)) <==> DataVersion(items[(kind, key)]) < DataVersion(item)
  {
    hide DataVersion, Shows;
  }

  /** A deleted item stands in nobody's way: an older live one comes back. */
  lemma DeletedIsForgotten(items: Items, kind: Kind, key: string, item: Json)
    requires (kind, key) in items && !Shows(items[(kind, key)])
    ensures Atomic(items, UpsertWork(kind, key, item)) == items[(kind, key) := item]
  {
    hide Shows, DataVersion;
  }
}
