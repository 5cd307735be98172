/** What a summary tells of the evaluations it was gathered from. */
module SummaryMeaning {
  import opened Wrappers
  import opened JsonTree
  import opened JsonNumber
  import opened JsonText
  import opened EventSpec
  import opened FeatureEvents
  import opened SummaryJson
  import opened EventProcessor

  /** An evaluation as it was counted, and whether its flag was unknown. */
  datatype Counted = Counted(e: Evaluation, unknown: bool)

  function ShowAll(codec: NumberCodec, evals: seq<Counted>): (r: seq<Seen>)
    ensures |r| == |evals|
    ensures forall i :: 0 <= i < |r| ==> r[i] == Shown(codec, evals[i].e, evals[i].unknown)
  {
    seq(|evals|, i requires 0 <= i < |evals| => Shown(codec, evals[i].e, evals[i].unknown))
  }

  /** Same flag, variation and version. */
  predicate Alike(a: Evaluation, b: Evaluation) {
    a.key == b.key && a.variation == b.variation && FlagField(a.flag, "version") == FlagField(b.flag, "version")
  }

  function HowMany(evals: seq<Counted>, e: Evaluation): nat {
    if evals == [] then 0
    else
      var n := |evals| - 1;
      HowMany(evals[..n], e) + (if Alike(evals[n].e, e) then 1 else 0)
  }

  /** Variations and versions are numbers a double can hold. */
  predicate AllCountable(codec: NumberCodec, evals: seq<Counted>) {
    forall i :: 0 <= i < |evals| ==>
      Countable(codec, VariationOf(evals[i].e)) && Countable(codec, FlagField(evals[i].e.flag, "version"))
  }

  ghost predicate FirstAlike(evals: seq<Counted>, i: nat) {
    i < |evals| && forall j :: 0 <= j < i ==> !Alike(evals[j].e, evals[i].e)
  }

  ghost predicate FirstOfKey(evals: seq<Counted>, i: nat, flag: string) {
    i < |evals| && evals[i].e.key == flag && forall j :: 0 <= j < i ==> evals[j].e.key != flag
  }

  /** A line of the summary says what was served by the first evaluation it counts, and how
      many were alike. */
  ghost predicate LineMeans(line: Json, evals: seq<Counted>, flag: string, i: nat) {
    && FirstAlike(evals, i) && evals[i].e.key == flag
    && Lookup(line, "count") == Some(Number(HowMany(evals, evals[i].e) as real))
    && Lookup(line, "value") == NonNull(evals[i].e.value)
    && Lookup(line, "variation") == VariationOf(evals[i].e)
    && Lookup(line, "version") == FlagField(evals[i].e.flag, "version")
    && Lookup(line, "unknown") == (if evals[i].unknown then Some(Bool(true)) else None)
  }

  lemma LinesAlike(codec: NumberCodec, evals: seq<Counted>, i: nat, j: nat)
    requires AllCountable(codec, evals) && i < |evals| && j < |evals|
    ensures
      var seen := ShowAll(codec, evals);
      seen[i].flag == seen[j].flag && seen[i].line == seen[j].line <==> Alike(evals[i].e, evals[j].e)
  {
    hide Print, LineObject, FlagField, Countable;
    var a, b := evals[i].e, evals[j].e;
    LineNamesDiffer(codec, VariationOf(a), FlagField(a.flag, "version"), VariationOf(b), FlagField(b.flag, "version"));
  }

  lemma {:induction false} CountsAlike(codec: NumberCodec, evals: seq<Counted>, n: nat, i: nat)
    requires AllCountable(codec, evals) && i < |evals| && n <= |evals|
    ensures
      var seen := ShowAll(codec, evals);
      Occurrences(seen[..n], seen[i].flag, seen[i].line) == HowMany(evals[..n], evals[i].e)
    decreases n
  {
    hide Shown, Alike, AllCountable;
    if n > 0 {
      CountsAlike(codec, evals, n - 1, i);
      LinesAlike(codec, evals, n - 1, i);
      assert ShowAll(codec, evals)[..n][..n - 1] == ShowAll(codec, evals)[..n - 1];
      assert evals[..n][..n - 1] == evals[..n - 1];
    }
  }

  ghost predicate Meant(line: Json, evals: seq<Counted>, flag: string) {
    exists i: nat :: LineMeans(line, evals, flag, i)
  }

  /** Whoever reads a summary learns, for every flag evaluated, the fallback of its first
      evaluation and, for every variation and version served, the value first served with
      it, whether the flag was unknown then, and how often it was served. */
  lemma SummaryMeans(codec: NumberCodec, summary: Json, evals: seq<Counted>, flag: string)
    requires AllCountable(codec, evals) && Tells(codec, summary, ShowAll(codec, evals))
    ensures forall k :: 0 <= k < |ListFor(summary, flag)| ==> Meant(ListFor(summary, flag)[k], evals, flag)
    ensures FeatureFor(summary, flag).Some? <==> exists i: nat :: FirstOfKey(evals, i, flag)
    ensures forall i: nat :: FirstOfKey(evals, i, flag) ==>
      Lookup(FeatureFor(summary, flag).value, "default") == NonNull(evals[i].e.fallback)
  {
    hide Tally, Occurrences, ListFor, FeatureFor, Lookup, IsSummary, Described, Meant, AllCountable;
    hide FirstOfFlag, FirstOfKey;
    hide Print, LineObject;
    var seen := ShowAll(codec, evals);
    forall k | 0 <= k < |ListFor(summary, flag)|
      ensures Meant(ListFor(summary, flag)[k], evals, flag)
    {
      assert Described(summary, seen, flag, k);
      LineOfSummary(codec, summary, evals, flag, k);
    }
    assert Noted(summary, seen, flag);
    KeysAre(codec, evals, flag);
    FirstIsThere(evals, flag);
  }

  lemma FirstIsThere(evals: seq<Counted>, flag: string)
    ensures forall i: nat :: FirstOfKey(evals, i, flag) ==> i < |evals|
  {
  }

  lemma LineOfSummary(codec: NumberCodec, summary: Json, evals: seq<Counted>, flag: string, k: nat)
    requires AllCountable(codec, evals) && k < |ListFor(summary, flag)|
    requires Described(summary, ShowAll(codec, evals), flag, k)
    ensures Meant(ListFor(summary, flag)[k], evals, flag)
  {
    hide Occurrences, ListFor, Spells, LineMeans, AllCountable, FirstOf, Shown;
    var seen := ShowAll(codec, evals);
    var i: nat :|
      && i < |seen| && FirstOf(seen, i, flag, seen[i].line)
      && Spells(ListFor(summary, flag)[k], seen[i].first.(count := Occurrences(seen, flag, seen[i].line)));
    LineIs(codec, evals, flag, i, ListFor(summary, flag)[k]);
  }

  lemma LineIs(codec: NumberCodec, evals: seq<Counted>, flag: string, i: nat, line: Json)
    requires AllCountable(codec, evals) && i < |evals|
    requires
      var seen := ShowAll(codec, evals);
      FirstOf(seen, i, flag, seen[i].line)
      && Spells(line, seen[i].first.(count := Occurrences(seen, flag, seen[i].line)))
    ensures LineMeans(line, evals, flag, i)
  {
    hide Lookup, Occurrences, Alike, AllCountable, Print, LineObject;
    var seen := ShowAll(codec, evals);
    forall j | 0 <= j < i
      ensures !Alike(evals[j].e, evals[i].e)
    {
      LinesAlike(codec, evals, j, i);
    }
    CountsAlike(codec, evals, |evals|, i);
    assert seen[..|evals|] == seen && evals[..|evals|] == evals;
  }

  lemma KeysAre(codec: NumberCodec, evals: seq<Counted>, flag: string)
    ensures forall i: nat :: FirstOfKey(evals, i, flag) <==> FirstOfFlag(ShowAll(codec, evals), i, flag)
  {
    hide Print, LineObject;
  }

  /** What processing one result adds to the summary, in terms of the evaluations. */
  lemma AddedToSummary(codec: NumberCodec, before: seq<Counted>, e: Evaluation, made: seq<Made>)
    ensures
      var subs := seq(|made|, i requires 0 <= i < |made| => Counted(made[i].e, false));
      ShowAll(codec, before) + [Shown(codec, Told(e), e.flag.None?)] + AllShown(codec, made)
      == ShowAll(codec, before + [Counted(Told(e), e.flag.None?)] + subs)
  {
    hide Shown, Told;
  }

  /** The value told is the one served, or the fallback where that is missing or null;
      everything else is told as it was. */
  lemma ToldIs(e: Evaluation)
    ensures NonNull(Told(e).value) == (if NonNull(e.value).Some? then e.value else NonNull(e.fallback))
    ensures Told(e).prereqOf == None && Told(e).key == e.key && Told(e).user == e.user && Told(e).userJson == e.userJson
    ensures Told(e).variation == e.variation && Told(e).fallback == e.fallback && Told(e).flag == e.flag
    ensures Told(e).why == e.why
  {
  }

  /** A batch ends with a summary that means what was evaluated since the last one. */
  lemma BatchMeans(codec: NumberCodec, payload: Json, events: seq<Json>, evals: seq<Counted>, flag: string)
    requires Carries(codec, payload, events, ShowAll(codec, evals)) && AllCountable(codec, evals) && evals != []
    ensures |payload.items| == |events| + 1 && payload.items[..|events|] == events
    ensures var summary := payload.items[|events|];
      && IsSummary(summary)
      && (forall k :: 0 <= k < |ListFor(summary, flag)| ==> Meant(ListFor(summary, flag)[k], evals, flag))
      && (FeatureFor(summary, flag).Some? <==> exists i: nat :: FirstOfKey(evals, i, flag))
      && (forall i: nat :: FirstOfKey(evals, i, flag) ==>
            Lookup(FeatureFor(summary, flag).value, "default") == NonNull(evals[i].e.fallback))
  {
    hide Tally, Occurrences, ListFor, FeatureFor, Lookup, IsSummary, Described, Meant, AllCountable, FirstOfKey, Noted;
    SummaryMeans(codec, payload.items[|events|], evals, flag);
  }
}
