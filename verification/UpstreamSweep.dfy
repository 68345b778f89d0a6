/** The two "all channels" endpoints of controller/channel_upstream_update.go: each is the paged sweep of
    module Sweep with its own handler. */
module UpstreamSweep {
  import opened Lists
  import opened ModelNames
  import opened Options
  import opened Sweep
  import opened UpstreamUpdate

  const BATCH_SIZE := 100

  datatype Record = Record(enabled: bool, row: Row)

  type Table = map<int, Record>

  predicate IsEnabled(r: Record) { r.enabled }

  datatype Outcome =
    | AppliedTo(id: int, added: seq<string>, removed: seq<string>, remaining: seq<string>,
        remainingRemoves: seq<string>)
    | DetectedFor(id: int, adds: seq<string>, removes: seq<string>, lastCheck: int, autoAdded: int)
    | FailedFor(id: int)

  predicate Eligible(row: Row) {
    row.checkEnabled && (Normalize(row.detected) != [] || Normalize(row.removed) != [])
  }

  /** The inner loop body of ApplyAllChannelUpstreamModelUpdates */
  function ApplyVisit(id: int, r: Record, now: int): Visited<Record, Outcome> {
    if !Eligible(r.row) then Visited(r, [])
    else
      var a := ApplyRow(r.row, Selection(Normalize(r.row.detected), [], Normalize(r.row.removed), now));
      Visited(r.(row := a.row), [AppliedTo(id, a.added, a.removed, a.row.detected, a.row.removed)])
  }

  /** The inner loop body of DetectAllChannelUpstreamModelUpdates: a forced check without auto-sync */
  function DetectVisit(id: int, r: Record, upstream: Option<seq<string>>, now: int, rx: Regex): Visited<Record,
                       Outcome> {
    if !r.row.checkEnabled then Visited(r, [])
    else
      var c := CheckRow(r.row, Check(upstream, now, true, false, 0), rx);
      Visited(r.(row := c.row),
              if c.fetchFailed then [FailedFor(id)]
              else [DetectedFor(id, Normalize(c.row.detected), Normalize(c.row.removed), c.row.lastCheck, c.autoAdded)])
  }

  /** What each provider answers at the time of a sweep. */
  type Providers = int -> Option<seq<string>>

  function Applying(now: int): Visitor<int, Record, Outcome> {
    (id, r) => ApplyVisit(id, r, now)
  }

  function Detecting(upstream: Providers, now: int, rx: Regex): Visitor<int, Record, Outcome> {
    (id, r) => DetectVisit(id, r, upstream(id), now, rx)
  }

  function AfterApplyAll(t: Table, now: int): Table {
    VisitedTable(t, Applying(now), EnabledIds(t, IsEnabled))
  }

  function AfterDetectAll(t: Table, upstream: Providers, now: int, rx: Regex): Table {
    VisitedTable(t, Detecting(upstream, now, rx), EnabledIds(t, IsEnabled))
  }

  /** The totals of an answer: additions and removals, applied or detected. */
  datatype Totals = Totals(adds: nat, removes: nat)

  function Counted(o: Outcome): Totals {
    match o
    case AppliedTo(_, added, removed, _, _) => Totals(|added|, |removed|)
    case DetectedFor(_, adds, removes, _, _) => Totals(|adds|, |removes|)
    case FailedFor(_) => Totals(0, 0)
  }

  function Total(results: seq<Outcome>): Totals {
    if results == [] then Totals(0, 0)
    else
      var before, last := Total(results[..|results| - 1]), Counted(results[|results| - 1]);
      Totals(before.adds + last.adds, before.removes + last.removes)
  }

  method ApplyAll(store: ChannelStore<Record, Outcome>, now: int)
      returns (results: seq<Outcome>, totals: Totals)
    requires store.enabled == IsEnabled && forall id | id in store.table :: id > 0
    modifies store
    ensures store.table == AfterApplyAll(old(store.table), now)
    ensures forall id | id in Ascending(EnabledIds(old(store.table), IsEnabled)) :: id in old(store.table)
    ensures results == ResultsFor(old(store.table), Applying(now), Ascending(EnabledIds(old(store.table), IsEnabled)))
    ensures totals == Total(results)
  {
    results := store.SweepAll(Applying(now), BATCH_SIZE);
    totals := Total(results);
  }

  method DetectAll(store: ChannelStore<Record, Outcome>, upstream: Providers, now: int, rx: Regex)
      returns (results: seq<Outcome>, totals: Totals)
    requires store.enabled == IsEnabled && forall id | id in store.table :: id > 0
    modifies store
    ensures store.table == AfterDetectAll(old(store.table), upstream, now, rx)
    ensures forall id | id in Ascending(EnabledIds(old(store.table), IsEnabled)) :: id in old(store.table)
    ensures results == ResultsFor(old(store.table), Detecting(upstream, now, rx),
                                  Ascending(EnabledIds(old(store.table), IsEnabled)))
    ensures totals == Total(results)
  {
    results := store.SweepAll(Detecting(upstream, now, rx), BATCH_SIZE);
    totals := Total(results);
  }

  function DetectRow(row: Row, upstream: seq<string>, now: int, rx: Regex): Row {
    CheckRow(row, Forced(upstream, now), rx).row
  }

  function ApplyIfPending(row: Row, now: int): Row {
    if Eligible(row) then ApplyPending(row, now) else row
  }

  lemma NothingResurfaces(row: Row, upstream: seq<string>, rx: Regex)
    requires AddsFor(row, upstream, rx) == []
    ensures SuppressionSurvives(row, upstream, rx)
  {
    forall n ensures !Resurfaces(row, upstream, n, rx) {
      if p :| p in Normalize(row.ignored) && IgnoredBy(p, n, rx) {
        assert HeldBack(row, upstream, n, rx);
      }
    }
  }

  /** One round settles a channel, whether or not there was something to apply, exactly under the condition of the
      single channel. */
  lemma RoundSettlesRowIff(row: Row, upstream: seq<string>, now: int, rx: Regex)
    requires row.checkEnabled
    ensures var end := DetectRow(ApplyIfPending(DetectRow(row, upstream, now, rx), now), upstream, now, rx);
            end.detected == [] && end.removed == []
            <==> CommaFree(AddsFor(row, upstream, rx)) && SuppressionSurvives(row, upstream, rx)
  {
    var detected := DetectRow(row, upstream, now, rx);
    AddsAreFresh(row, upstream, rx);
    RemovesArePresent(row, upstream);
    CleanIsNormal(detected.detected);
    CleanIsNormal(detected.removed);
    if Eligible(detected) {
      SettlesIff(row, upstream, now, rx);
    } else {
      NothingResurfaces(row, upstream, rx);
    }
  }

  lemma DetectedRow(t: Table, upstream: Providers, now: int, rx: Regex, id: int)
    requires id in t && t[id].enabled && t[id].row.checkEnabled && upstream(id).Some?
    ensures var t' := AfterDetectAll(t, upstream, now, rx);
            id in t' && t'[id] == t[id].(row := DetectRow(t[id].row, upstream(id).value, now, rx))
  {
    assert id in EnabledIds(t, IsEnabled);
  }

  lemma AppliedRow(t: Table, now: int, id: int)
    requires id in t && t[id].enabled
    ensures var t' := AfterApplyAll(t, now);
            id in t' && t'[id] == t[id].(row := ApplyIfPending(t[id].row, now))
  {
    assert id in EnabledIds(t, IsEnabled);
  }

  /** One round over the whole table settles an enabled, checked channel whose provider answers, exactly when it
      proposes no name with a comma and no ignored name resurfaces. */
  lemma SweepsConvergeIff(t: Table, upstream: Providers, now: int, rx: Regex, id: int)
    requires id in t && t[id].enabled && t[id].row.checkEnabled && upstream(id).Some?
    ensures var end := AfterDetectAll(AfterApplyAll(AfterDetectAll(t, upstream, now, rx), now), upstream, now, rx);
            id in end
            && (end[id].row.detected == [] && end[id].row.removed == []
                <==> CommaFree(AddsFor(t[id].row, upstream(id).value, rx))
                     && SuppressionSurvives(t[id].row, upstream(id).value, rx))
  {
    var t1 := AfterDetectAll(t, upstream, now, rx);
    var t2 := AfterApplyAll(t1, now);
    DetectedRow(t, upstream, now, rx, id);
    AppliedRow(t1, now, id);
    DetectedRow(t2, upstream, now, rx, id);
    RoundSettlesRowIff(t[id].row, upstream(id).value, now, rx);
  }

  // ---------- What the sweeps report and keep ----------

  /** A round keeps a model of an enabled, checked channel whose provider answers exactly when the provider lists it or
      the mapping redirects it, and adds the comma-separated parts of what it proposes. */
  lemma SweepsKeepIff(t: Table, upstream: Providers, now: int, rx: Regex, id: int, n: string)
    requires id in t && t[id].enabled && t[id].row.checkEnabled && upstream(id).Some?
    ensures var row, end := t[id].row, AfterApplyAll(AfterDetectAll(t, upstream, now, rx), now);
            id in end
            && (n in end[id].row.Local()
                <==> FragmentOf(n, AddsFor(row, upstream(id).value, rx))
                     || (n in row.Local() && (n in Names(upstream(id).value) || n in row.mapping.Keys)))
  {
    var row, names := t[id].row, upstream(id).value;
    var detected := DetectRow(row, names, now, rx);
    DetectedRow(t, upstream, now, rx, id);
    AppliedRow(AfterDetectAll(t, upstream, now, rx), now, id);
    RoundKeepsIff(row, names, now, rx, n);
    DetectedNames(row, names, now, rx);
    if !Eligible(detected) {
      AddsAreFresh(row, names, rx);
      CleanIsNormal(AddsFor(row, names, rx));
      NoFragments(AddsFor(row, names, rx));
      NormalizeIsClean(detected.removed);
    }
  }

  lemma DetectingKeepsAlias(id: int, r: Record, upstream: Option<seq<string>>, now: int, rx: Regex, n: string)
    requires SafeAlias(r.row, n)
    ensures SafeAlias(DetectVisit(id, r, upstream, now, rx).row.row, n)
  {
    CheckKeepsAlias(r.row, Check(upstream, now, true, false, 0), rx, n);
  }

  lemma ApplyingKeepsAlias(id: int, r: Record, now: int, n: string)
    requires SafeAlias(r.row, n)
    ensures SafeAlias(ApplyVisit(id, r, now).row.row, n)
  {
    ApplyKeepsAlias(r.row, Selection(Normalize(r.row.detected), [], Normalize(r.row.removed), now), n);
  }

  lemma DetectedCell(t: Table, upstream: Providers, now: int, rx: Regex, id: int)
    requires id in t
    ensures var t' := AfterDetectAll(t, upstream, now, rx);
            id in t' && t'[id] == if t[id].enabled then DetectVisit(id, t[id], upstream(id), now, rx).row else t[id]
  {
  }

  lemma AppliedCell(t: Table, now: int, id: int)
    requires id in t
    ensures var t' := AfterApplyAll(t, now);
            id in t' && t'[id] == if t[id].enabled then ApplyVisit(id, t[id], now).row else t[id]
  {
  }

  /** A round over any table, with any providers, removes no alias of a model mapping from any channel. */
  lemma SweepsKeepAliases(t: Table, upstream: Providers, now: int, rx: Regex, id: int, n: string)
    requires id in t && SafeAlias(t[id].row, n)
    ensures var end := AfterApplyAll(AfterDetectAll(t, upstream, now, rx), now);
            id in end && SafeAlias(end[id].row, n)
  {
    DetectedCell(t, upstream, now, rx, id);
    DetectingKeepsAlias(id, t[id], upstream(id), now, rx, n);
    var t1 := AfterDetectAll(t, upstream, now, rx);
    AppliedCell(t1, now, id);
    ApplyingKeepsAlias(id, t1[id], now, n);
  }

  /** A channel is reported and touched exactly when checks are switched on for it and some name is pending. */
  lemma AppliedIffPending(id: int, r: Record, now: int)
    ensures var v := ApplyVisit(id, r, now);
            && (v.results == [] <==> !r.row.checkEnabled || (forall n :: n !in Names(r.row.detected + r.row.removed)))
            && (v.results == [] ==> v.row == r)
            && v.row.enabled == r.enabled
  {
    NormalizeIsClean(r.row.detected);
    NormalizeIsClean(r.row.removed);
    NamesOfConcat(r.row.detected, r.row.removed);
    EmptyIff(Normalize(r.row.detected));
    EmptyIff(Normalize(r.row.removed));
  }

  lemma EmptyIff(names: seq<string>)
    ensures names == [] <==> forall n :: n !in names
  {
    if names != [] {
      FirstIn(names);
    }
  }

  /** The report on a channel: every pending add is added and none remains, and every pending remove that is not also a
      pending add is removed, while the others remain. */
  lemma ReportsApplied(id: int, r: Record, now: int, n: string)
    requires ApplyVisit(id, r, now).results != []
    ensures var o := ApplyVisit(id, r, now).results[0];
            && ApplyVisit(id, r, now).results == [o] && o.AppliedTo? && o.id == id
            && (n in o.added <==> n in Names(r.row.detected)) && o.remaining == []
            && (n in o.removed <==> n in Names(r.row.removed) && n !in Names(r.row.detected))
            && (n in o.remainingRemoves <==> n in Names(r.row.removed) && n in Names(r.row.detected))
  {
    var s := Selection(Normalize(r.row.detected), [], Normalize(r.row.removed), now);
    SelectsAll(r.row, s);
  }

  lemma SelectsAll(row: Row, s: Selection)
    requires s.add == Normalize(row.detected) && s.ignore == [] && s.remove == Normalize(row.removed)
    ensures var a := ApplyRow(row, s);
            && (forall n :: n in a.added <==> n in Names(row.detected)) && a.row.detected == []
            && (forall n :: n in a.removed <==> n in Names(row.removed) && n !in Names(row.detected))
            && (forall n :: n in a.row.removed <==> n in Names(row.removed) && n in Names(row.detected))
  {
    var ignore := ListEffect(row, s);
    NormalizeIsClean(row.detected);
    NormalizeIsClean(row.removed);
    CleanIsNormal(s.add);
    CleanIsNormal(s.remove);
    EmptyNames(s.ignore);
    NoMembers(ApplyRow(row, s).row.detected);
  }

  lemma {:induction false} TotalAppend(a: seq<Outcome>, b: seq<Outcome>)
    ensures Total(a + b) == Totals(Total(a).adds + Total(b).adds, Total(a).removes + Total(b).removes)
  {
    if b == [] {
      assert a + b == a;
    } else {
      var init := b[..|b| - 1];
      assert (a + b)[..|a + b| - 1] == a + init;
      TotalAppend(a, init);
    }
  }

  lemma {:induction false} SizeOfDistinct<T(!new)>(s: seq<T>)
    requires Distinct(s)
    ensures |SetOf(s)| == |s|
  {
    if s == [] {
      assert SetOf(s) == {};
    } else {
      var init, last := s[..|s| - 1], s[|s| - 1];
      SizeOfDistinct(init);
      assert s == init + [last];
      assert SetOf(s) == SetOf(init) + {last};
    }
  }

  lemma SizeAfter<T(!new)>(after: seq<T>, local: seq<T>, added: seq<T>, removed: seq<T>)
    requires Distinct(after) && Distinct(local) && Distinct(added) && Distinct(removed)
    requires (forall x | x in added :: x !in local) && (forall x | x in removed :: x in local)
    requires forall x :: x in after <==> x in added || (x in local && x !in removed)
    ensures |after| == |local| + |added| - |removed|
  {
    SizeOfDistinct(after);
    SizeOfDistinct(local);
    SizeOfDistinct(added);
    SizeOfDistinct(removed);
    assert SetOf(after) == SetOf(added) + (SetOf(local) - SetOf(removed));
    assert SetOf(local) == (SetOf(local) - SetOf(removed)) + SetOf(removed);
  }

  /** A row between operations whose pending adds can be stored. */
  ghost predicate Storable(row: Row) { Consistent(row) && CommaFree(row.detected) }

  lemma AppliedSize(id: int, r: Record, now: int)
    requires Storable(r.row)
    ensures var v := ApplyVisit(id, r, now);
            |v.row.row.Local()| == |r.row.Local()| + Total(v.results).adds - Total(v.results).removes
  {
    if Eligible(r.row) {
      var s := Selection(Normalize(r.row.detected), [], Normalize(r.row.removed), now);
      var a := ApplyRow(r.row, s);
      var ignore := SelectedNames(r.row, s);
      SelectsAll(r.row, s);
      CleanIsNormal(r.row.detected);
      CleanIsNormal(r.row.removed);
      CommaFreeSubset(a.added, r.row.detected);
      PlainModelsEffect(r.row, s);
      LocalNames(r.row);
      LocalNames(a.row);
      SizeAfter(a.row.Local(), r.row.Local(), a.added, a.removed);
      OneOutcome(AppliedTo(id, a.added, a.removed, a.row.detected, a.row.removed));
    }
  }

  lemma OneOutcome(o: Outcome)
    ensures Total([o]) == Counted(o)
  {
    assert [o][..0] == [];
  }

  /** How many models the listed channels have. */
  ghost function LocalSize(t: Table, ids: seq<int>): nat
    requires forall id | id in ids :: id in t
  {
    if ids == [] then 0
    else
      var init, last := ids[..|ids| - 1], ids[|ids| - 1];
      assert forall id | id in init :: id in ids;
      LocalSize(t, init) + |t[last].row.Local()|
  }

  lemma LastSize(t: Table, now: int, id: int)
    requires id in t && t[id].enabled && Storable(t[id].row)
    ensures var totals := Total(Applying(now)(id, t[id]).results);
            && id in AfterApplyAll(t, now)
            && |AfterApplyAll(t, now)[id].row.Local()| == |t[id].row.Local()| + totals.adds - totals.removes
  {
    AppliedCell(t, now, id);
    AppliedSize(id, t[id], now);
  }

  lemma {:induction false} SizesAfter(t: Table, now: int, ids: seq<int>)
    requires forall id | id in ids :: id in t && t[id].enabled && Storable(t[id].row)
    ensures var totals := Total(ResultsFor(t, Applying(now), ids));
            LocalSize(AfterApplyAll(t, now), ids) == LocalSize(t, ids) + totals.adds - totals.removes
  {
    if ids != [] {
      var init, last := ids[..|ids| - 1], ids[|ids| - 1];
      assert forall id | id in init :: id in ids;
      SizesAfter(t, now, init);
      LastSize(t, now, last);
      TotalAppend(ResultsFor(t, Applying(now), init), Applying(now)(last, t[last]).results);
    }
  }

  /** Conservation: between consistent rows with storable pending adds, the models of the whole table grow by the
      additions that "apply all" reports less the removals that it reports. */
  lemma ApplyAllConserves(t: Table, now: int)
    requires forall id | id in t && t[id].enabled :: Storable(t[id].row)
    ensures var listed := Ascending(EnabledIds(t, IsEnabled));
            && (forall id | id in listed :: id in t)
            && (var totals := Total(ResultsFor(t, Applying(now), listed));
                LocalSize(AfterApplyAll(t, now), listed) == LocalSize(t, listed) + totals.adds - totals.removes)
  {
    AscendingLists(EnabledIds(t, IsEnabled));
    SizesAfter(t, now, Ascending(EnabledIds(t, IsEnabled)));
  }

  /** The report of a detection names exactly what the channel now has pending, and is missing exactly when checks are
      switched off. */
  lemma ReportsDetected(id: int, r: Record, upstream: Option<seq<string>>, now: int, rx: Regex, n: string)
    ensures var v := DetectVisit(id, r, upstream, now, rx);
            && (!r.row.checkEnabled ==> v == Visited(r, []))
            && (r.row.checkEnabled && upstream.None? ==>
                  v == Visited(r.(row := r.row.(lastCheck := now)), [FailedFor(id)]))
            && (r.row.checkEnabled && upstream.Some? ==>
                && |v.results| == 1 && v.results[0].DetectedFor?
                && var local := Names(GetModels(r.row.models));
                   var o := v.results[0];
                   && o.id == id && o.lastCheck == now && o.autoAdded == 0 && v.row.row.models == r.row.models
                   && (n in o.removes <==> n in local && n !in Names(upstream.value) && n !in r.row.mapping.Keys)
                   && (n in o.adds <==> n in Names(upstream.value) && n !in local && n !in r.row.mapping.Values
                                        && !HeldOff(r.row.ignored, n, rx))
                   && Total(v.results) == Totals(|v.row.row.detected|, |v.row.row.removed|))
  {
    var c := Check(upstream, now, true, false, 0);
    if r.row.checkEnabled && upstream.Some? {
      CheckRecordsIff(r.row, c, rx, n);
      AddsAreFresh(r.row, upstream.value, rx);
      RemovesArePresent(r.row, upstream.value);
      var after := CheckRow(r.row, c, rx).row;
      CleanIsNormal(after.detected);
      CleanIsNormal(after.removed);
      OneOutcome(DetectVisit(id, r, upstream, now, rx).results[0]);
    }
  }
}
