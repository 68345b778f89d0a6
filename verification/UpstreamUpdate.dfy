/** The upstream model reconciliation of controller/channel_upstream_update.go: a channel's model list is
    compared with the provider's list, differences become pending, and an operator (or auto-sync) applies or
    ignores them.  The HTTP fetch, the clock and the regular expression engine are parameters. */
module UpstreamUpdate {
  import Binary
  import opened Lists
  import opened ModelNames
  import opened Options
  import opened Text

  /** Does the pattern (first argument) compile and match the name (second argument)? */
  type Regex = (string, string) -> bool

  /** The columns that reconciliation reads and writes.  `mapping` is the parsed and trimmed model mapping. */
  datatype Row = Row(
    models: string,
    mapping: map<string, string>,
    checkEnabled: bool,
    autoSync: bool,
    ignored: seq<string>,
    detected: seq<string>,
    removed: seq<string>,
    lastCheck: int)
  {
    function Local(): seq<string> { Normalize(GetModels(models)) }
  }

  const REGEX_PREFIX := "regex:"

  predicate IgnoredBy(pattern: string, name: string, rx: Regex) {
    if HasPrefix(pattern, REGEX_PREFIX) then rx(Trim(pattern[|REGEX_PREFIX|..]), name) else pattern == name
  }

  predicate Ignored(patterns: seq<string>, name: string, rx: Regex) {
    exists p | p in patterns :: IgnoredBy(p, name, rx)
  }

  // ---------- Collecting pending changes ----------

  predicate Uncovered(name: string, local: seq<string>, mapping: map<string, string>) {
    name !in local && name !in mapping.Values
  }

  predicate Missing(name: string, upstream: seq<string>, mapping: map<string, string>) {
    name !in mapping.Keys && name !in upstream
  }

  function PendingAdds(local: seq<string>, upstream: seq<string>, ignored: seq<string>,
                       mapping: map<string, string>, rx: Regex): seq<string>
  {
    var local', ignored' := Normalize(local), Normalize(ignored);
    Normalize(Filter(Normalize(upstream), n => Uncovered(n, local', mapping) && !Ignored(ignored', n, rx)))
  }

  function PendingRemoves(local: seq<string>, upstream: seq<string>, mapping: map<string, string>): seq<string> {
    var upstream' := Normalize(upstream);
    Normalize(Filter(Normalize(local), n => Missing(n, upstream', mapping)))
  }

  lemma FilteredIsClean(models: seq<string>, keep: string -> bool)
    ensures var r := Filter(Normalize(models), keep);
            Clean(r) && Normalize(r) == r && forall n :: n in r <==> n in Names(models) && keep(n)
  {
    NormalizeIsClean(models);
    FilterKeepsDistinct(Normalize(models), keep);
    CleanIsNormal(Filter(Normalize(models), keep));
  }

  /** A pattern on the ignore list holds the name back: the name itself, or after "regex:" a trimmed expression that
      matches it. */
  ghost predicate HeldOff(ignored: seq<string>, n: string, rx: Regex) {
    exists p | p in Names(ignored) :: if "regex:" <= p then rx(Trim(p[6..]), n) else n == p
  }

  lemma HeldOffIff(ignored: seq<string>, n: string, rx: Regex)
    ensures HeldOff(ignored, n, rx) <==> Ignored(Normalize(ignored), n, rx)
  {
    NormalizeIsClean(ignored);
    if HeldOff(ignored, n, rx) {
      var p :| p in Names(ignored) && if "regex:" <= p then rx(Trim(p[6..]), n) else n == p;
      assert p in Normalize(ignored) && IgnoredBy(p, n, rx);
    }
    if Ignored(Normalize(ignored), n, rx) {
      var p :| p in Normalize(ignored) && IgnoredBy(p, n, rx);
      assert p in Names(ignored) && if "regex:" <= p then rx(Trim(p[6..]), n) else n == p;
    }
  }

  lemma PendingAddNames(local: seq<string>, upstream: seq<string>, ignored: seq<string>,
                        mapping: map<string, string>, rx: Regex)
    ensures var adds := PendingAdds(local, upstream, ignored, mapping, rx);
            && Clean(adds)
            && forall n :: n in adds <==> (n in Names(upstream) && Uncovered(n, Normalize(local), mapping)
                                           && !Ignored(Normalize(ignored), n, rx))
  {
    var local', ignored' := Normalize(local), Normalize(ignored);
    FilteredIsClean(upstream, n => Uncovered(n, local', mapping) && !Ignored(ignored', n, rx));
  }

  /** What is proposed to be added: the upstream names that are neither local models nor targets of the mapping nor
      held back by the ignore list. */
  lemma ProposedToAddIff(local: seq<string>, upstream: seq<string>, ignored: seq<string>,
                         mapping: map<string, string>, rx: Regex, n: string)
    ensures n in PendingAdds(local, upstream, ignored, mapping, rx)
            <==> n in Names(upstream) && n !in Names(local) && n !in mapping.Values && !HeldOff(ignored, n, rx)
  {
    PendingAddNames(local, upstream, ignored, mapping, rx);
    NormalizeIsClean(local);
    HeldOffIff(ignored, n, rx);
  }

  /** What is proposed to be removed: the local models that are neither upstream names nor sources of the mapping. */
  lemma PendingRemoveNames(local: seq<string>, upstream: seq<string>, mapping: map<string, string>)
    ensures var removes := PendingRemoves(local, upstream, mapping);
            && Clean(removes)
            && forall n :: n in removes <==> n in Names(local) && n !in Names(upstream) && n !in mapping.Keys
  {
    var upstream' := Normalize(upstream);
    NormalizeIsClean(upstream);
    FilteredIsClean(local, n => Missing(n, upstream', mapping));
  }

  // ---------- Checking a channel ----------

  datatype Check = Check(upstream: Option<seq<string>>, now: int, force: bool, allowAutoApply: bool, minInterval: int)

  datatype Checked = Checked(row: Row, modelsChanged: bool, autoAdded: int, fetchFailed: bool)

  predicate TooSoon(row: Row, c: Check) {
    !c.force && row.lastCheck > 0 && c.now - row.lastCheck < c.minInterval
  }

  function AddsFor(row: Row, upstream: seq<string>, rx: Regex): seq<string> {
    PendingAdds(GetModels(row.models), upstream, row.ignored, row.mapping, rx)
  }

  function RemovesFor(row: Row, upstream: seq<string>): seq<string> {
    PendingRemoves(GetModels(row.models), upstream, row.mapping)
  }

  predicate AutoApplies(row: Row, c: Check, adds: seq<string>) {
    c.allowAutoApply && row.autoSync && adds != []
  }

  /** checkAndPersistChannelUpstreamModelUpdates, with the fetched list (or the failure) in `c.upstream` */
  function CheckRow(row: Row, c: Check, rx: Regex): Checked {
    if TooSoon(row, c) then Checked(row, false, 0, false)
    else if c.upstream.None? then Checked(row.(lastCheck := c.now), false, 0, true)
    else
      var adds, removes := AddsFor(row, c.upstream.value, rx), RemovesFor(row, c.upstream.value);
      Settle(row.(lastCheck := c.now, removed := removes), AutoApplies(row, c, adds), adds)
  }

  /** Pending adds are either merged into the models at once or recorded. */
  function Settle(row: Row, apply: bool, adds: seq<string>): (r: Checked)
    ensures r.row == row.(models := r.row.models, detected := if apply then [] else adds)
    ensures !r.fetchFailed && (!r.modelsChanged ==> r.row.models == row.models && r.autoAdded == 0)
    ensures !apply ==> !r.modelsChanged
  {
    if apply then
      var merged := Merge(row.Local(), adds);
      if |merged| > |row.Local()| then
        Checked(row.(models := Join(merged, ','), detected := []), true, |merged| - |row.Local()|, false)
      else
        Checked(row.(detected := []), false, 0, false)
    else
      Checked(row.(detected := adds), false, 0, false)
  }

  /** A check answers nothing and leaves the row alone exactly when it is not forced and a check is on record that is
      younger than the interval; any other one is put on record, and fails exactly when the provider does, which then
      changes nothing else.  No check changes what an operator has set. */
  lemma ThrottledIff(row: Row, c: Check, rx: Regex)
    ensures var r := CheckRow(row, c, rx);
            && (!c.force && 0 < row.lastCheck && c.now < row.lastCheck + c.minInterval
                ==> r == Checked(row, false, 0, false))
            && (c.force || row.lastCheck <= 0 || row.lastCheck + c.minInterval <= c.now
                ==> && r.row.lastCheck == c.now && (r.fetchFailed <==> c.upstream.None?)
                    && (r.fetchFailed ==> r.row == row.(lastCheck := c.now) && !r.modelsChanged && r.autoAdded == 0))
            && r.row.mapping == row.mapping && r.row.ignored == row.ignored
            && r.row.checkEnabled == row.checkEnabled && r.row.autoSync == row.autoSync
  {
  }

  /** What a successful check records, name by name: as removes the local models that neither the provider lists nor the
      mapping redirects, and as adds, unless auto-sync merges them at once, the listed names that are neither local nor
      mapping targets nor held back. */
  lemma CheckRecordsIff(row: Row, c: Check, rx: Regex, n: string)
    requires c.upstream.Some? && (c.force || row.lastCheck <= 0 || row.lastCheck + c.minInterval <= c.now)
    ensures var r, local := CheckRow(row, c, rx), Names(GetModels(row.models));
            && (n in r.row.removed <==> n in local && n !in Names(c.upstream.value) && n !in row.mapping.Keys)
            && (n in r.row.detected
                <==> && !(c.allowAutoApply && row.autoSync)
                     && n in Names(c.upstream.value) && n !in local && n !in row.mapping.Values
                     && !HeldOff(row.ignored, n, rx))
  {
    var adds, removes := AddsFor(row, c.upstream.value, rx), RemovesFor(row, c.upstream.value);
    RecordedLists(row, c, rx, adds, removes);
    ProposedToAddIff(GetModels(row.models), c.upstream.value, row.ignored, row.mapping, rx, n);
    PendingRemoveNames(GetModels(row.models), c.upstream.value, row.mapping);
  }

  lemma RecordedLists(row: Row, c: Check, rx: Regex, adds: seq<string>, removes: seq<string>)
    requires c.upstream.Some? && !TooSoon(row, c)
    requires adds == AddsFor(row, c.upstream.value, rx) && removes == RemovesFor(row, c.upstream.value)
    ensures var after := CheckRow(row, c, rx).row;
            && after.removed == removes
            && after.detected == if c.allowAutoApply && row.autoSync then [] else adds
  {
  }

  // ---------- Applying pending changes ----------

  datatype Selection = Selection(add: seq<string>, ignore: seq<string>, remove: seq<string>, now: int)

  datatype Applied = Applied(row: Row, added: seq<string>, removed: seq<string>, modelsChanged: bool)

  /** applyChannelUpstreamModelUpdates */
  function ApplyRow(row: Row, s: Selection): Applied {
    var pendingAdd, pendingRemove := Normalize(row.detected), Normalize(row.removed);
    var add := Intersect(s.add, pendingAdd);
    var ignore := Intersect(s.ignore, pendingAdd);
    var remove := Subtract(Intersect(s.remove, pendingRemove), add);
    var next := ApplySelected(row.Local(), add, remove);
    var changed := row.Local() != next;
    var ignored := Merge(row.ignored, ignore);
    Applied(
      row.(models := if changed then Join(next, ',') else row.models,
           ignored := if add != [] then Subtract(ignored, add) else ignored,
           detected := Subtract(pendingAdd, add + ignore),
           removed := Subtract(pendingRemove, remove),
           lastCheck := s.now),
      add, remove, changed)
  }

  // ---------- The stateful form ----------

  method SettleAdds(settings: Row, apply: bool, pendingAdd: seq<string>)
      returns (row: Row, modelsChanged: bool, autoAdded: int)
    ensures Checked(row, modelsChanged, autoAdded, false) == Settle(settings, apply, pendingAdd)
  {
    row, modelsChanged, autoAdded := settings, false, 0;
    if apply {
      var origin := Normalize(GetModels(settings.models));
      var merged := MergeModelNames(origin, pendingAdd);
      if |merged| > |origin| {
        row := row.(models := Join(merged, ','));
        autoAdded := |merged| - |origin|;
        modelsChanged := true;
      }
      row := row.(detected := []);
    } else {
      row := row.(detected := pendingAdd);
    }
  }

  class Channel {
    var row: Row
    const regex: Regex

    constructor (row: Row, regex: Regex)
      ensures this.row == row && this.regex == regex
    {
      this.row := row;
      this.regex := regex;
    }

    method CheckAndPersist(c: Check) returns (modelsChanged: bool, autoAdded: int, fetchFailed: bool)
      modifies this
      ensures Checked(row, modelsChanged, autoAdded, fetchFailed) == CheckRow(old(row), c, regex)
    {
      modelsChanged, autoAdded, fetchFailed := false, 0, false;
      if !c.force {
        if row.lastCheck > 0 && c.now - row.lastCheck < c.minInterval {
          return;
        }
      }
      var settings := row.(lastCheck := c.now);
      if c.upstream.None? {
        row := settings;
        fetchFailed := true;
        return;
      }
      var pendingAdd := AddsFor(row, c.upstream.value, regex);
      var pendingRemove := RemovesFor(row, c.upstream.value);
      settings := settings.(removed := pendingRemove);
      var apply := c.allowAutoApply && settings.autoSync && |pendingAdd| > 0;
      row, modelsChanged, autoAdded := SettleAdds(settings, apply, pendingAdd);
    }

    method ApplyUpdates(s: Selection) returns (added: seq<string>, removed: seq<string>, modelsChanged: bool)
      modifies this
      ensures Applied(row, added, removed, modelsChanged) == ApplyRow(old(row), s)
    {
      var settings := row;
      var pendingAdd, pendingRemove := Normalize(settings.detected), Normalize(settings.removed);
      added := Intersect(s.add, pendingAdd);
      var ignore := Intersect(s.ignore, pendingAdd);
      removed := Intersect(s.remove, pendingRemove);
      removed := Subtract(removed, added);

      var origin := Normalize(GetModels(row.models));
      var next := ApplySelected(origin, added, removed);
      modelsChanged := origin != next;
      if modelsChanged {
        settings := settings.(models := Join(next, ','));
      }
      var ignored := MergeModelNames(settings.ignored, ignore);
      settings := settings.(ignored := ignored);
      if |added| > 0 {
        settings := settings.(ignored := Subtract(settings.ignored, added));
      }
      settings := settings.(detected := Subtract(pendingAdd, added + ignore));
      settings := settings.(removed := Subtract(pendingRemove, removed));
      row := settings.(lastCheck := s.now);
    }
  }

  // ---------- What one application does ----------

  lemma LocalNames(row: Row)
    ensures Clean(row.Local()) && CommaFree(row.Local())
    ensures forall n :: n in row.Local() <==> n in Names(GetModels(row.models))
  {
    NormalizeIsClean(GetModels(row.models));
    StoredModelsAreCommaFree(row.models);
  }

  lemma StoredLocal(row: Row, models: seq<string>)
    requires Clean(models) && CommaFree(models) && row.models == Join(models, ',')
    ensures row.Local() == models
  {
    StoredModelsReadBack(models);
    CleanIsNormal(models);
  }

  /** The three selected lists, as sets of names. */
  ghost predicate Selected(row: Row, s: Selection, ignore: set<string>) {
    var a := ApplyRow(row, s);
    && Clean(a.added) && Clean(a.removed)
    && (forall n :: n in a.added <==> n in Names(s.add) && n in Names(row.detected))
    && (forall n :: n in ignore <==> n in Names(s.ignore) && n in Names(row.detected))
    && (forall n :: n in a.removed <==> n in Names(s.remove) && n in Names(row.removed) && n !in a.added)
  }

  lemma SelectedNames(row: Row, s: Selection) returns (ignore: set<string>)
    ensures Selected(row, s, ignore)
  {
    var pendingAdd, pendingRemove := Normalize(row.detected), Normalize(row.removed);
    NormalizeIsClean(row.detected);
    CleanIsNormal(pendingAdd);
    NormalizeIsClean(row.removed);
    CleanIsNormal(pendingRemove);
    IntersectNames(s.add, pendingAdd);
    var add := Intersect(s.add, pendingAdd);
    CleanIsNormal(add);
    IntersectNames(s.remove, pendingRemove);
    CleanIsNormal(Intersect(s.remove, pendingRemove));
    SubtractNames(Intersect(s.remove, pendingRemove), add);
    ignore := Names(s.ignore) * Names(row.detected);
  }

  /** Where every name ends up after an application. */
  ghost predicate Effect(row: Row, s: Selection, ignore: set<string>) {
    var a := ApplyRow(row, s);
    && Clean(a.row.detected) && Clean(a.row.removed) && Clean(a.row.ignored)
    && (forall n :: n in a.row.detected <==> n in Names(row.detected) && n !in a.added && n !in ignore)
    && (forall n :: n in a.row.removed <==> n in Names(row.removed) && n !in a.removed)
    && (forall n :: n in a.row.ignored <==> (n in Names(row.ignored) || n in ignore) && n !in a.added)
  }

  lemma ListEffect(row: Row, s: Selection) returns (ignore: set<string>)
    ensures Selected(row, s, ignore) && Effect(row, s, ignore)
  {
    ignore := SelectedNames(row, s);
    var a := ApplyRow(row, s);
    var pendingAdd, pendingRemove := Normalize(row.detected), Normalize(row.removed);
    NormalizeIsClean(row.detected);
    CleanIsNormal(pendingAdd);
    NormalizeIsClean(row.removed);
    CleanIsNormal(pendingRemove);
    var ignored := Intersect(s.ignore, pendingAdd);
    IntersectNames(s.ignore, pendingAdd);
    CleanIsNormal(ignored);
    CleanIsNormal(a.added);
    CleanIsNormal(a.removed);
    NamesOfConcat(a.added, ignored);
    SubtractNames(pendingAdd, a.added + ignored);
    SubtractNames(pendingRemove, a.removed);
    MergeNames(row.ignored, ignored);
    CleanIsNormal(Merge(row.ignored, ignored));
    SubtractNames(Merge(row.ignored, ignored), a.added);
  }

  lemma ModelsEffect(row: Row, s: Selection, n: string)
    ensures var a := ApplyRow(row, s);
            n in a.row.Local() <==> FragmentOf(n, a.added) || (n in row.Local() && n !in a.removed)
  {
    var a := ApplyRow(row, s);
    var ignore := SelectedNames(row, s);
    LocalNames(row);
    CleanIsNormal(row.Local());
    CleanIsNormal(a.added);
    CleanIsNormal(a.removed);
    ApplySelectedNames(row.Local(), a.added, a.removed);
    var next := ApplySelected(row.Local(), a.added, a.removed);
    if a.modelsChanged {
      LocalNames(a.row);
      StoredFragments(next, n);
      NextFragments(next, a.added, row.Local(), a.removed, n);
    } else {
      AddedAreLocal(a.added, row.Local());
      PlainFragments(a.added, n);
    }
  }

  /** What was local has no commas, so only added names can come apart. */
  lemma NextFragments(next: seq<string>, added: seq<string>, local: seq<string>, removed: seq<string>, n: string)
    requires Clean(local) && CommaFree(local)
    requires forall p :: p in next <==> p in added || (p in local && p !in removed)
    ensures FragmentOf(n, next) <==> FragmentOf(n, added) || (n in local && n !in removed)
  {
    if p :| p in next && Fragment(n, p) {
      if p !in added {
        WholeName(p, n);
      }
    }
    if n in local && n !in removed {
      WholeName(n, n);
    }
    if p :| p in added && Fragment(n, p) {
      assert p in next;
    }
  }

  lemma AddedAreLocal(added: seq<string>, local: seq<string>)
    requires (forall n | n in added :: n in local) && CommaFree(local)
    ensures CommaFree(added)
  {
  }

  lemma PlainModelsEffect(row: Row, s: Selection)
    requires CommaFree(ApplyRow(row, s).added)
    ensures var a := ApplyRow(row, s);
            forall n :: n in a.row.Local() <==> n in a.added || (n in row.Local() && n !in a.removed)
  {
    var a := ApplyRow(row, s);
    var ignore := SelectedNames(row, s);
    forall n ensures n in a.row.Local() <==> n in a.added || (n in row.Local() && n !in a.removed) {
      ModelsEffect(row, s, n);
      PlainFragments(a.added, n);
    }
  }

  /** An application loses nothing: the old pending adds are exactly the added, the ignored and the remaining
      ones, the remaining ones are disjoint from the rest, likewise for removes; and nothing just added stays on the
      ignore list or is removed. */
  lemma ApplySplitsPending(row: Row, s: Selection)
    ensures var a := ApplyRow(row, s);
            var ignored := Intersect(s.ignore, row.detected);
            && (forall n :: n in Names(row.detected) <==> n in a.added || n in ignored || n in a.row.detected)
            && (forall n | n in a.row.detected :: n !in a.added && n !in ignored)
            && (forall n :: n in Names(row.removed) <==> n in a.removed || n in a.row.removed)
            && (forall n | n in a.row.removed :: n !in a.removed)
            && (forall n | n in a.added :: n !in a.row.ignored && n !in a.removed)
            && (forall n | n in ignored && n !in a.added :: n in a.row.ignored)
  {
    var ignore := ListEffect(row, s);
    IntersectNames(s.ignore, row.detected);
  }

  /** What an application does to the models: they lose what was removed and gain the comma-separated parts of what
      was added, so an added name becomes a model exactly when it has no comma. */
  lemma ApplyChangesModels(row: Row, s: Selection)
    ensures var a := ApplyRow(row, s);
            && (forall n :: n in a.row.Local() <==> FragmentOf(n, a.added) || (n in row.Local() && n !in a.removed))
            && (forall n | n in a.added :: n in a.row.Local() <==> ',' !in n)
  {
    var a := ApplyRow(row, s);
    var ignore := SelectedNames(row, s);
    forall n ensures n in a.row.Local() <==> FragmentOf(n, a.added) || (n in row.Local() && n !in a.removed) {
      ModelsEffect(row, s, n);
    }
    LocalNames(a.row);
    forall n | n in a.added && ',' !in n ensures FragmentOf(n, a.added) {
      WholeName(n, n);
    }
  }

  // ---------- Invariants over every run ----------

  /** What holds between any two operations.  Names that look like patterns are excluded from the comparison
      with the ignore list, because there they act as patterns. */
  ghost predicate Consistent(row: Row) {
    && FreshAdds(row.detected, row.Local(), row.ignored)
    && PresentRemoves(row.removed, row.Local())
  }

  ghost predicate FreshAdds(adds: seq<string>, local: seq<string>, ignored: seq<string>) {
    && Clean(adds)
    && (forall n | n in adds :: n !in local)
    && (forall n | n in adds && !HasPrefix(n, REGEX_PREFIX) :: n !in Names(ignored))
  }

  ghost predicate PresentRemoves(removes: seq<string>, local: seq<string>) {
    Clean(removes) && forall n | n in removes :: n in local
  }

  lemma TrimmedNamesAreCommaFree(models: seq<string>, n: string)
    requires CommaFree(models) && n in Names(models)
    ensures ',' !in n
  {
    var raw := NameSource(models, n);
  }

  /** A name on the ignore list that does not look like a pattern ignores itself. */
  lemma PlainNameIgnored(patterns: seq<string>, n: string, rx: Regex)
    ensures n in patterns && !HasPrefix(n, REGEX_PREFIX) ==> Ignored(patterns, n, rx)
  {
    assert !HasPrefix(n, REGEX_PREFIX) ==> IgnoredBy(n, n, rx);
  }

  lemma CommaFreeAdds(row: Row, upstream: seq<string>, rx: Regex)
    requires CommaFree(upstream)
    ensures CommaFree(AddsFor(row, upstream, rx))
  {
    PendingAddNames(GetModels(row.models), upstream, row.ignored, row.mapping, rx);
    forall n | n in AddsFor(row, upstream, rx) ensures ',' !in n {
      TrimmedNamesAreCommaFree(upstream, n);
    }
  }

  lemma AddsAreFresh(row: Row, upstream: seq<string>, rx: Regex)
    ensures FreshAdds(AddsFor(row, upstream, rx), row.Local(), row.ignored)
  {
    PendingAddNames(GetModels(row.models), upstream, row.ignored, row.mapping, rx);
    NormalizeIsClean(row.ignored);
    forall n | n in AddsFor(row, upstream, rx) && !HasPrefix(n, REGEX_PREFIX) ensures n !in Names(row.ignored) {
      PlainNameIgnored(Normalize(row.ignored), n, rx);
    }
  }

  /** Auto-sync adds and counts every pending name; the models gain their comma-separated parts, which are the names
      themselves, appended in order, exactly when none of them has a comma. */
  lemma AutoSyncModels(row: Row, c: Check, rx: Regex)
    requires c.upstream.Some?
    ensures var adds := AddsFor(row, c.upstream.value, rx);
            var r := CheckRow(row, c, rx);
            !TooSoon(row, c) && AutoApplies(row, c, adds) ==>
            && (forall n :: n in r.row.Local() <==> n in row.Local() || FragmentOf(n, adds))
            && (r.row.Local() == row.Local() + adds <==> CommaFree(adds))
            && r.autoAdded == |adds| && r.modelsChanged && r.row.detected == []
  {
    var adds := AddsFor(row, c.upstream.value, rx);
    var r := CheckRow(row, c, rx);
    AddsAreFresh(row, c.upstream.value, rx);
    LocalNames(row);
    var merged := row.Local() + adds;
    MergeFresh(row.Local(), adds);
    if !TooSoon(row, c) && AutoApplies(row, c, adds) {
      LocalNames(r.row);
      forall n ensures n in r.row.Local() <==> n in row.Local() || FragmentOf(n, adds) {
        AppendedNames(r.row, row.Local(), adds, n);
      }
      StoredAppend(r.row, row.Local(), adds);
    }
  }

  lemma AppendedNames(row: Row, local: seq<string>, adds: seq<string>, n: string)
    requires Clean(local) && CommaFree(local) && row.models == Join(local + adds, ',')
    ensures n in row.Local() <==> n in local || FragmentOf(n, adds)
  {
    LocalNames(row);
    StoredFragments(local + adds, n);
    forall p ensures p in local + adds <==> p in local || p in adds {
      InConcat(local, adds, p);
    }
    NextFragments(local + adds, adds, local, [], n);
  }

  lemma StoredAppend(row: Row, local: seq<string>, adds: seq<string>)
    requires CommaFree(local) && Clean(local + adds) && row.models == Join(local + adds, ',')
    ensures row.Local() == local + adds <==> CommaFree(adds)
  {
    LocalNames(row);
    forall p ensures p in local + adds <==> p in local || p in adds {
      InConcat(local, adds, p);
    }
    if CommaFree(adds) {
      StoredLocal(row, local + adds);
    }
  }

  datatype Event = CheckEvent(check: Check) | ApplyEvent(selection: Selection)

  function Step(row: Row, e: Event, rx: Regex): Row {
    match e
    case CheckEvent(c) => CheckRow(row, c, rx).row
    case ApplyEvent(s) => ApplyRow(row, s).row
  }

  function Run(row: Row, events: seq<Event>, rx: Regex): Row
    decreases |events|
  {
    if events == [] then row else Run(Step(row, events[0], rx), events[1..], rx)
  }

  /** Every kind of check, with any answer, keeps the invariant. */
  lemma CheckKeepsConsistent(row: Row, c: Check, rx: Regex)
    requires Consistent(row)
    ensures Consistent(CheckRow(row, c, rx).row)
  {
    if !TooSoon(row, c) && c.upstream.Some? {
      FetchedRowConsistent(row, c, rx);
    }
  }

  lemma FetchedRowConsistent(row: Row, c: Check, rx: Regex)
    requires c.upstream.Some? && !TooSoon(row, c)
    ensures Consistent(CheckRow(row, c, rx).row)
  {
    var upstream := c.upstream.value;
    var adds, removes := AddsFor(row, upstream, rx), RemovesFor(row, upstream);
    RemovesArePresent(row, upstream);
    if AutoApplies(row, c, adds) {
      AutoSyncModels(row, c, rx);
    } else {
      AddsAreFresh(row, upstream, rx);
    }
  }

  lemma RemovesArePresent(row: Row, upstream: seq<string>)
    ensures PresentRemoves(RemovesFor(row, upstream), row.Local())
  {
    LocalNames(row);
    PendingRemoveNames(GetModels(row.models), upstream, row.mapping);
  }

  /** No pending name that is neither selected to be added nor to be ignored is a comma-separated part of a pending name
      that is selected to be added. */
  ghost predicate LeavesNoPart(row: Row, s: Selection) {
    forall n, p | n in Names(row.detected) && n !in Names(s.add) && n !in Names(s.ignore)
                  && p in Names(row.detected) && p in Names(s.add) :: !Fragment(n, p)
  }

  /** In terms of the outcome: no name that stays pending is a part of an added one. */
  lemma LeavesNoPartIff(row: Row, s: Selection)
    ensures var a := ApplyRow(row, s);
            LeavesNoPart(row, s) <==> forall n | n in a.row.detected :: !FragmentOf(n, a.added)
  {
    var a := ApplyRow(row, s);
    var ignore := ListEffect(row, s);
    assert forall n :: n in a.row.detected <==>
        n in Names(row.detected) && n !in Names(s.add) && n !in Names(s.ignore);
    assert forall p :: p in a.added <==> p in Names(row.detected) && p in Names(s.add);
    if !LeavesNoPart(row, s) {
      var n, p :| n in Names(row.detected) && n !in Names(s.add) && n !in Names(s.ignore)
                  && p in Names(row.detected) && p in Names(s.add) && Fragment(n, p);
      assert n in a.row.detected && FragmentOf(n, a.added);
    }
  }

  lemma ApplyKeepsRemoves(row: Row, s: Selection)
    requires Consistent(row)
    ensures var end := ApplyRow(row, s).row; PresentRemoves(end.removed, end.Local())
  {
    var a := ApplyRow(row, s);
    var ignore := ListEffect(row, s);
    CleanIsNormal(row.removed);
    forall n | n in a.row.removed ensures n in a.row.Local() {
      ModelsEffect(row, s, n);
    }
  }

  lemma ApplyKeepsIgnored(row: Row, s: Selection)
    requires Consistent(row)
    ensures var end := ApplyRow(row, s).row;
            Clean(end.detected) && forall n | n in end.detected && !HasPrefix(n, REGEX_PREFIX) ::
                n !in Names(end.ignored)
  {
    var ignore := ListEffect(row, s);
    CleanIsNormal(row.detected);
    CleanIsNormal(ApplyRow(row, s).row.ignored);
  }

  lemma LeftOverIsLocalIff(row: Row, s: Selection, n: string)
    requires Consistent(row) && n in ApplyRow(row, s).row.detected
    ensures n in ApplyRow(row, s).row.Local() <==> FragmentOf(n, ApplyRow(row, s).added)
  {
    var ignore := ListEffect(row, s);
    CleanIsNormal(row.detected);
    ModelsEffect(row, s, n);
  }

  /** An application keeps the invariant exactly when it leaves no part of an added name pending. */
  lemma ApplyKeepsConsistentIff(row: Row, s: Selection)
    requires Consistent(row)
    ensures Consistent(ApplyRow(row, s).row) <==> LeavesNoPart(row, s)
  {
    LeavesNoPartIff(row, s);
    ApplyKeepsRemoves(row, s);
    ApplyKeepsIgnored(row, s);
    forall n | n in ApplyRow(row, s).row.detected
      ensures n in ApplyRow(row, s).row.Local() <==> FragmentOf(n, ApplyRow(row, s).added)
    {
      LeftOverIsLocalIff(row, s, n);
    }
  }

  lemma PlainSelectionLeavesNoPart(row: Row, s: Selection)
    requires CommaFree(ApplyRow(row, s).added)
    ensures LeavesNoPart(row, s)
  {
    var a := ApplyRow(row, s);
    var ignore := ListEffect(row, s);
    forall n | n in a.row.detected ensures !FragmentOf(n, a.added) {
      PlainFragments(a.added, n);
    }
    LeavesNoPartIff(row, s);
  }

  /** The invariant fails when a name with a comma is added while its first part is pending and left over. */
  lemma PartStaysPending(row: Row, s: Selection, part: string, rest: string)
    requires part != "" && Trimmed(part) && ',' !in part
    requires part + "," + rest in Names(row.detected) && part + "," + rest in Names(s.add)
    requires part in Names(row.detected) && part !in Names(s.add) && part !in Names(s.ignore)
    ensures var end := ApplyRow(row, s).row;
            part in end.detected && part in end.Local() && !Consistent(end)
  {
    var ignore := ListEffect(row, s);
    var a := ApplyRow(row, s);
    ModelsEffect(row, s, part);
    SplitAtSeparator(part, rest, ',');
    var pieces := [part] + Split(rest, ',');
    assert pieces[0] == part;
    TrimIsTrimmed(part);
    NameOf(pieces, part);
    assert [','] == ",";
    assert Fragment(part, part + "," + rest);
  }

  /** There is such a channel: nothing stored, "a,a" and "a" pending, and only the first applied. */
  lemma SomePartStaysPending(part: string) returns (row: Row, s: Selection)
    requires part != "" && Trimmed(part) && ',' !in part
    ensures Consistent(row) && !Consistent(ApplyRow(row, s).row)
  {
    var whole := part + "," + part;
    row := Row("", map[], true, false, [], [whole, part], [], 0);
    s := Selection([whole], [], [], 0);
    PendingPair(part, whole, row, s);
    PartStaysPending(row, s, part, part);
  }

  lemma PendingPair(part: string, whole: string, row: Row, s: Selection)
    requires part != "" && Trimmed(part) && whole == part + "," + part
    requires row.models == "" && row.ignored == [] && row.removed == [] && row.detected == [whole, part]
    requires s.add == [whole] && s.ignore == []
    ensures Consistent(row)
    ensures whole in Names(row.detected) && part in Names(row.detected) && whole in Names(s.add)
    ensures part !in Names(s.add) && part !in Names(s.ignore)
  {
    TwoElements(whole, part);
    OneElement(whole);
    PendingPairNames(part, whole, row.detected, s.add, s.ignore);
    EmptyChannelIsConsistent(row);
  }

  lemma PendingPairNames(part: string, whole: string, both: seq<string>, add: seq<string>, none: seq<string>)
    requires part != "" && whole != "" && part != whole && Trimmed(part) && Trimmed(whole)
    requires Distinct(both) && (forall x :: x in both <==> x == whole || x == part) && none == []
    requires Distinct(add) && (forall x :: x in add <==> x == whole)
    ensures Clean(both)
    ensures whole in Names(both) && part in Names(both) && whole in Names(add) && part !in Names(add)
            && part !in Names(none)
  {
    CleanIsNormal(both);
    CleanIsNormal(add);
    EmptyNames(none);
  }

  /** Nothing stored, nothing ignored, nothing to remove: any clean list may be pending. */
  lemma EmptyChannelIsConsistent(row: Row)
    requires row.models == "" && Clean(row.detected)
    requires row.ignored == [] && row.removed == []
    ensures Consistent(row)
  {
    EmptyNames(row.ignored);
    EmptyNames(row.removed);
    EmptyLocal(row);
  }

  lemma EmptyNames(none: seq<string>)
    requires none == []
    ensures Clean(none) && forall n :: n !in Names(none)
  {
    CleanIsNormal(none);
  }

  lemma EmptyLocal(row: Row)
    requires row.models == ""
    ensures forall n :: n !in row.Local()
  {
    LocalNames(row);
    EmptyNames(GetModels(row.models));
  }

  /** Every application of the run leaves no part of an added name pending. */
  ghost predicate PartFree(row: Row, events: seq<Event>, rx: Regex)
    decreases |events|
  {
    events == []
    || ((events[0].ApplyEvent? ==> LeavesNoPart(row, events[0].selection))
        && PartFree(Step(row, events[0], rx), events[1..], rx))
  }

  ghost predicate AlwaysConsistent(row: Row, events: seq<Event>, rx: Regex)
    decreases |events|
  {
    Consistent(row) && (events == [] || AlwaysConsistent(Step(row, events[0], rx), events[1..], rx))
  }

  /** Over every run of checks (successful, throttled, failed, auto-syncing) and applications, pending adds are always
      new and not ignored and pending removes present, exactly when no application leaves a part of an added name
      pending. */
  lemma {:induction false} RunKeepsConsistentIff(row: Row, events: seq<Event>, rx: Regex)
    requires Consistent(row)
    ensures AlwaysConsistent(row, events, rx) <==> PartFree(row, events, rx)
    decreases |events|
  {
    if events != [] {
      var e := events[0];
      match e {
        case CheckEvent(c) => CheckKeepsConsistent(row, c, rx);
        case ApplyEvent(s) => ApplyKeepsConsistentIff(row, s);
      }
      if Consistent(Step(row, e, rx)) {
        RunKeepsConsistentIff(Step(row, e, rx), events[1..], rx);
      }
    }
  }

  /** No application of the run adds a name with a comma; what providers list and what stays pending is arbitrary. */
  ghost predicate PlainSelections(row: Row, events: seq<Event>, rx: Regex)
    decreases |events|
  {
    events == []
    || ((events[0].ApplyEvent? ==> CommaFree(ApplyRow(row, events[0].selection).added))
        && PlainSelections(Step(row, events[0], rx), events[1..], rx))
  }

  /** In particular the invariant holds at the end of every run that adds no name with a comma by hand, and pending
      adds and removes are disjoint there. */
  lemma {:induction false} RunKeepsConsistent(row: Row, events: seq<Event>, rx: Regex)
    requires Consistent(row) && PlainSelections(row, events, rx)
    ensures var end := Run(row, events, rx);
            Consistent(end) && forall n | n in end.detected :: n !in end.removed
    decreases |events|
  {
    if events != [] {
      var e := events[0];
      match e {
        case CheckEvent(c) => CheckKeepsConsistent(row, c, rx);
        case ApplyEvent(s) =>
          PlainSelectionLeavesNoPart(row, s);
          ApplyKeepsConsistentIff(row, s);
      }
      RunKeepsConsistent(Step(row, e, rx), events[1..], rx);
    }
  }

  // ---------- Convergence ----------

  function Forced(upstream: seq<string>, now: int): Check {
    Check(Some(upstream), now, true, false, 0)
  }

  /** Apply everything that is pending, as the "apply all" endpoint does. */
  function ApplyPending(row: Row, now: int): Row {
    ApplyRow(row, Selection(Normalize(row.detected), [], Normalize(row.removed), now)).row
  }

  /** Detect, apply everything, detect again. */
  function DetectApplyDetect(row: Row, upstream: seq<string>, now: int, rx: Regex): Row {
    var detected := CheckRow(row, Forced(upstream, now), rx).row;
    CheckRow(ApplyPending(detected, now), Forced(upstream, now), rx).row
  }

  /** Every upstream name that an ignore pattern holds back is held back by a pattern that is not itself about
      to be added as a model. */
  ghost predicate SuppressionSurvives(row: Row, upstream: seq<string>, rx: Regex) {
    forall n :: !Resurfaces(row, upstream, n, rx)
  }

  ghost predicate HeldBack(row: Row, upstream: seq<string>, n: string, rx: Regex) {
    exists p :: p in Normalize(row.ignored) && p !in AddsFor(row, upstream, rx) && IgnoredBy(p, n, rx)
  }

  /** An upstream name that was ignored, but only by patterns that are themselves being added. */
  ghost predicate Resurfaces(row: Row, upstream: seq<string>, n: string, rx: Regex) {
    && n in Names(upstream) && Uncovered(n, row.Local(), row.mapping)
    && Ignored(Normalize(row.ignored), n, rx) && !HeldBack(row, upstream, n, rx)
  }

  lemma AppliedState(row: Row, upstream: seq<string>, now: int, rx: Regex) returns (after: Row)
    requires CommaFree(AddsFor(row, upstream, rx))
    ensures after == ApplyPending(CheckRow(row, Forced(upstream, now), rx).row, now)
    ensures after.mapping == row.mapping
    ensures forall n :: n in after.Local() <==>
              n in AddsFor(row, upstream, rx) || (n in row.Local() && n !in RemovesFor(row, upstream))
    ensures forall p :: p in Normalize(after.ignored) <==>
              p in Normalize(row.ignored) && p !in AddsFor(row, upstream, rx)
  {
    var detected := CheckRow(row, Forced(upstream, now), rx).row;
    var adds, removes := AddsFor(row, upstream, rx), RemovesFor(row, upstream);
    AddsAreFresh(row, upstream, rx);
    PendingRemoveNames(GetModels(row.models), upstream, row.mapping);
    CleanIsNormal(adds);
    CleanIsNormal(removes);
    PendingAddNames(GetModels(row.models), upstream, row.ignored, row.mapping, rx);
    var s := Selection(adds, [], removes, now);
    var ignore := ListEffect(detected, s);
    CommaFreeSubset(ApplyRow(detected, s).added, adds);
    PlainModelsEffect(detected, s);
    after := ApplyRow(detected, s).row;
    NormalizeIsClean(row.ignored);
    NormalizeIsClean(upstream);
    NormalizeIsClean(after.ignored);
    CleanIsNormal(after.ignored);
    forall n | n in adds ensures n !in removes {
      assert n in Names(upstream);
    }
  }

  lemma CommaFreeSubset(some: seq<string>, all: seq<string>)
    requires CommaFree(all) && forall n | n in some :: n in all
    ensures CommaFree(some)
  {
  }

  /** What a forced check records, name by name. */
  lemma DetectedNames(row: Row, upstream: seq<string>, now: int, rx: Regex)
    ensures var detected := CheckRow(row, Forced(upstream, now), rx).row;
            && Names(detected.detected) == Names(AddsFor(row, upstream, rx))
            && detected.Local() == row.Local() && detected.mapping == row.mapping
            && Names(Normalize(detected.detected)) == Names(detected.detected)
            && Names(Normalize(detected.removed)) == Names(detected.removed)
            && forall n :: n in Names(detected.removed)
                           <==> n in row.Local() && n !in Names(upstream) && n !in row.mapping.Keys
  {
    var adds, removes := AddsFor(row, upstream, rx), RemovesFor(row, upstream);
    PendingAddNames(GetModels(row.models), upstream, row.ignored, row.mapping, rx);
    PendingRemoveNames(GetModels(row.models), upstream, row.mapping);
    CleanIsNormal(adds);
    CleanIsNormal(removes);
    LocalNames(row);
  }

  /** One round of detection and application, for every list that the provider may answer: a local model stays exactly
      when the provider lists it or the mapping redirects it, and new are the comma-separated parts of the proposed
      names. */
  lemma RoundKeepsIff(row: Row, upstream: seq<string>, now: int, rx: Regex, n: string)
    ensures var after := ApplyPending(CheckRow(row, Forced(upstream, now), rx).row, now);
            n in after.Local() <==> FragmentOf(n, AddsFor(row, upstream, rx))
                                    || (n in row.Local() && (n in Names(upstream) || n in row.mapping.Keys))
  {
    var detected := CheckRow(row, Forced(upstream, now), rx).row;
    var s := Selection(Normalize(detected.detected), [], Normalize(detected.removed), now);
    var ignore := SelectedNames(detected, s);
    DetectedNames(row, upstream, now, rx);
    ModelsEffect(detected, s, n);
    AddsAreFresh(row, upstream, rx);
    CleanIsNormal(AddsFor(row, upstream, rx));
    SameFragments(ApplyRow(detected, s).added, AddsFor(row, upstream, rx), n);
  }

  lemma SameFragments(a: seq<string>, b: seq<string>, n: string)
    requires forall p :: p in a <==> p in b
    ensures FragmentOf(n, a) <==> FragmentOf(n, b)
  {
  }

  /** An alias that is not already about to be removed. */
  ghost predicate SafeAlias(row: Row, n: string) {
    n in row.mapping.Keys && n in row.Local() && n !in Names(row.removed)
  }

  lemma AliasIsNotRemoved(row: Row, upstream: seq<string>, n: string)
    requires n in row.mapping.Keys
    ensures n !in Names(RemovesFor(row, upstream))
  {
    PendingRemoveNames(GetModels(row.models), upstream, row.mapping);
    CleanIsNormal(RemovesFor(row, upstream));
  }

  lemma CheckCases(row: Row, c: Check, rx: Regex)
    ensures var after := CheckRow(row, c, rx).row;
            && after.mapping == row.mapping
            && (after.removed == row.removed
                || (c.upstream.Some? && after.removed == RemovesFor(row, c.upstream.value)))
            && (after.models == row.models
                || (c.upstream.Some? && !TooSoon(row, c) && AutoApplies(row, c, AddsFor(row, c.upstream.value, rx))))
  {
  }

  /** A check removes no model. */
  lemma CheckKeepsModels(row: Row, c: Check, rx: Regex, n: string)
    requires n in row.Local()
    ensures n in CheckRow(row, c, rx).row.Local()
  {
    CheckCases(row, c, rx);
    if CheckRow(row, c, rx).row.models != row.models {
      AutoSyncModels(row, c, rx);
    }
  }

  lemma CheckKeepsAlias(row: Row, c: Check, rx: Regex, n: string)
    requires SafeAlias(row, n)
    ensures SafeAlias(CheckRow(row, c, rx).row, n)
  {
    CheckKeepsModels(row, c, rx, n);
    CheckCases(row, c, rx);
    if CheckRow(row, c, rx).row.removed != row.removed {
      AliasIsNotRemoved(row, c.upstream.value, n);
    }
  }

  lemma ApplyKeepsAlias(row: Row, s: Selection, n: string)
    requires SafeAlias(row, n)
    ensures SafeAlias(ApplyRow(row, s).row, n)
  {
    var ignore := ListEffect(row, s);
    ModelsEffect(row, s, n);
    CleanIsNormal(ApplyRow(row, s).row.removed);
  }

  lemma StepKeepsAlias(row: Row, e: Event, rx: Regex, n: string)
    requires SafeAlias(row, n)
    ensures SafeAlias(Step(row, e, rx), n)
  {
    match e
    case CheckEvent(c) => CheckKeepsAlias(row, c, rx, n);
    case ApplyEvent(s) => ApplyKeepsAlias(row, s, n);
  }

  /** Over every run of checks and applications, whatever providers answer and operators select, an alias of the model
      mapping stays a local model and is never about to be removed. */
  lemma {:induction false} RunKeepsAliases(row: Row, events: seq<Event>, rx: Regex, n: string)
    requires SafeAlias(row, n)
    ensures SafeAlias(Run(row, events, rx), n)
    decreases |events|
  {
    if events != [] {
      StepKeepsAlias(row, events[0], rx, n);
      RunKeepsAliases(Step(row, events[0], rx), events[1..], rx, n);
    }
  }

  /** What a second detection finds: no removes, and as adds exactly the names that come up again. */
  lemma SecondDetection(row: Row, upstream: seq<string>, now: int, rx: Regex, n: string)
    requires CommaFree(AddsFor(row, upstream, rx))
    ensures var end := DetectApplyDetect(row, upstream, now, rx);
            n !in end.removed && (n in end.detected <==> Resurfaces(row, upstream, n, rx))
  {
    var after := AppliedState(row, upstream, now, rx);
    LocalNames(row);
    LocalNames(after);
    PendingAddNames(GetModels(row.models), upstream, row.ignored, row.mapping, rx);
    PendingRemoveNames(GetModels(row.models), upstream, row.mapping);
    PendingAddNames(GetModels(after.models), upstream, after.ignored, after.mapping, rx);
    PendingRemoveNames(GetModels(after.models), upstream, after.mapping);
    if n in row.Local() {
      assert n in Names(upstream) ==> n !in RemovesFor(row, upstream);
    }
    assert Ignored(Normalize(after.ignored), n, rx) <==> HeldBack(row, upstream, n, rx);
  }

  /** With pending adds that can be stored, one round settles the removes, and the adds exactly when no name
      resurfaces. */
  lemma StorableSettlesIff(row: Row, upstream: seq<string>, now: int, rx: Regex)
    requires CommaFree(AddsFor(row, upstream, rx))
    ensures var end := DetectApplyDetect(row, upstream, now, rx);
            && end.removed == []
            && (end.detected == [] <==> SuppressionSurvives(row, upstream, rx))
  {
    var end := DetectApplyDetect(row, upstream, now, rx);
    forall n ensures n !in end.removed && (n in end.detected <==> Resurfaces(row, upstream, n, rx)) {
      SecondDetection(row, upstream, now, rx, n);
    }
    NoMembers(end.removed);
    if SuppressionSurvives(row, upstream, rx) {
      NoMembers(end.detected);
    } else {
      var n :| Resurfaces(row, upstream, n, rx);
      assert n in end.detected;
    }
  }

  /** Exactly when one round of detection and application settles a channel: no pending add contains a comma, and no
      name resurfaces because its ignore patterns are themselves being added. */
  lemma SettlesIff(row: Row, upstream: seq<string>, now: int, rx: Regex)
    ensures var end := DetectApplyDetect(row, upstream, now, rx);
            end.detected == [] && end.removed == []
            <==> CommaFree(AddsFor(row, upstream, rx)) && SuppressionSurvives(row, upstream, rx)
  {
    if CommaFree(AddsFor(row, upstream, rx)) {
      StorableSettlesIff(row, upstream, now, rx);
    } else {
      var n :| n in AddsFor(row, upstream, rx) && ',' in n;
      PendingAddNames(GetModels(row.models), upstream, row.ignored, row.mapping, rx);
      CommaNameNeverSettles(row, upstream, n, now, rx);
    }
  }

  /** Reconciliation converges: with no pending add that contains a comma or looks like a pattern, detecting again
      after applying everything finds nothing. */
  lemma Converges(row: Row, upstream: seq<string>, now: int, rx: Regex)
    requires CommaFree(AddsFor(row, upstream, rx))
    requires forall n | n in AddsFor(row, upstream, rx) :: !HasPrefix(n, REGEX_PREFIX)
    ensures var end := DetectApplyDetect(row, upstream, now, rx);
            end.detected == [] && end.removed == []
  {
    SettlesIff(row, upstream, now, rx);
    AddsAreFresh(row, upstream, rx);
    NormalizeIsClean(row.ignored);
    assert forall p | p in Normalize(row.ignored) :: p !in AddsFor(row, upstream, rx);
  }

  /** The restriction on pattern-like names is needed: when a provider offers a model whose name is also the only
      ignore pattern, and the pattern does not match itself, adding the model drops the pattern, and every name
      it held back comes up again. */
  lemma PatternNameUnsettles(row: Row, upstream: seq<string>, pattern: string, n: string, now: int, rx: Regex)
    requires CommaFree(upstream) && pattern in Names(upstream) && n in Names(upstream)
    requires Uncovered(pattern, row.Local(), row.mapping) && Uncovered(n, row.Local(), row.mapping)
    requires pattern in Normalize(row.ignored) && forall q | q in Normalize(row.ignored) :: q == pattern
    requires IgnoredBy(pattern, n, rx) && !IgnoredBy(pattern, pattern, rx)
    ensures DetectApplyDetect(row, upstream, now, rx).detected != []
  {
    CommaFreeAdds(row, upstream, rx);
    StorableSettlesIff(row, upstream, now, rx);
    PendingAddNames(GetModels(row.models), upstream, row.ignored, row.mapping, rx);
    assert pattern in AddsFor(row, upstream, rx);
    assert Resurfaces(row, upstream, n, rx);
  }

  lemma CleanPair(a: string, b: string, pair: seq<string>, single: seq<string>)
    requires a != "" && b != "" && Trimmed(a) && Trimmed(b) && ',' !in a && ',' !in b
    requires Distinct(pair) && forall x :: x in pair <==> x == a || x == b
    requires Distinct(single) && forall x :: x in single <==> x == a
    ensures CommaFree(pair) && a in Names(pair) && b in Names(pair) && Normalize(single) == single
  {
    CleanIsNormal(pair);
    CleanIsNormal(single);
  }

  /** A channel without models whose ignore list is one pattern that matches the other name but not itself. */
  lemma EmptyChannelUnsettles(pattern: string, n: string, row: Row, upstream: seq<string>, now: int, rx: Regex)
    requires pattern != "" && n != "" && Trimmed(pattern) && Trimmed(n) && ',' !in pattern && ',' !in n
    requires IgnoredBy(pattern, n, rx) && !IgnoredBy(pattern, pattern, rx)
    requires Distinct(upstream) && forall x :: x in upstream <==> x == pattern || x == n
    requires Distinct(row.ignored) && forall x :: x in row.ignored <==> x == pattern
    requires row.models == "" && row.mapping == map[]
    ensures DetectApplyDetect(row, upstream, now, rx).detected != []
  {
    CleanPair(pattern, n, upstream, row.ignored);
    LocalNames(row);
    PatternNameUnsettles(row, upstream, pattern, n, now, rx);
  }

  lemma PrefixedPattern(body: string, name: string, rx: Regex)
    requires Trimmed(body)
    ensures IgnoredBy(REGEX_PREFIX + body, name, rx) <==> rx(body, name)
  {
    TrimIsTrimmed(body);
    Binary.DropFirst(REGEX_PREFIX, body);
  }

  lemma PatternText(body: string)
    requires body != "" && Trimmed(body) && ',' !in body
    ensures var p := REGEX_PREFIX + body; p != "" && Trimmed(p) && ',' !in p
  {
  }

  /** So there are channels that one round does not settle: any pattern that matches a name but not its own text does
      it, such as "^a$" with the name "a". */
  lemma SomeChannelIsUnsettled(body: string, n: string, now: int, rx: Regex) returns (row: Row, upstream: seq<string>)
    requires body != "" && Trimmed(body) && ',' !in body && n != "" && Trimmed(n) && ',' !in n
    requires rx(body, n) && !rx(body, REGEX_PREFIX + body)
    ensures DetectApplyDetect(row, upstream, now, rx).detected != []
  {
    var pattern := REGEX_PREFIX + body;
    PatternText(body);
    PrefixedPattern(body, n, rx);
    PrefixedPattern(body, pattern, rx);
    OneElement(pattern);
    TwoElements(pattern, n);
    row, upstream := Row("", map[], true, false, [pattern], [], [], 0), [pattern, n];
    EmptyChannelUnsettles(pattern, n, row, upstream, now, rx);
  }

  /** So is the restriction on commas: a name with a comma never becomes a local model, so unless it is a
      mapping target or ignored it is pending again after every round. */
  lemma CommaNameNeverSettles(row: Row, upstream: seq<string>, n: string, now: int, rx: Regex)
    requires n in Names(upstream) && ',' in n
    requires n !in row.mapping.Values && !Ignored(Normalize(row.ignored), n, rx)
    ensures n in DetectApplyDetect(row, upstream, now, rx).detected
  {
    var detected := CheckRow(row, Forced(upstream, now), rx).row;
    var s := Selection(Normalize(detected.detected), [], Normalize(detected.removed), now);
    var ignore := ListEffect(detected, s);
    var after := ApplyPending(detected, now);
    LocalNames(after);
    NormalizeIsClean(row.ignored);
    CleanIsNormal(after.ignored);
    PendingAddNames(GetModels(after.models), upstream, after.ignored, after.mapping, rx);
  }

  function Synced(row: Row, upstream: seq<string>, now: int, rx: Regex): Checked {
    CheckRow(row, Check(Some(upstream), now, true, true, 0), rx)
  }

  /** The row after one auto-sync. */
  lemma FirstSync(row: Row, upstream: seq<string>, now: int, rx: Regex)
    requires row.autoSync
    ensures var first, adds := Synced(row, upstream, now, rx).row, AddsFor(row, upstream, rx);
            && first.detected == [] && first.removed == RemovesFor(row, upstream) && first.autoSync
            && first.mapping == row.mapping && first.ignored == row.ignored
            && forall n :: n in first.Local() <==> n in row.Local() || FragmentOf(n, adds)
  {
    AutoSyncModels(row, Check(Some(upstream), now, true, true, 0), rx);
    if AddsFor(row, upstream, rx) == [] {
      NoFragments([]);
    }
  }

  lemma NoFragments(names: seq<string>)
    requires names == []
    ensures forall n :: !FragmentOf(n, names)
  {
  }

  /** What a second auto-sync would add: the names with commas that the first has added. */
  lemma SecondSyncAdds(row: Row, upstream: seq<string>, now: int, rx: Regex, n: string)
    requires row.autoSync
    ensures var first := Synced(row, upstream, now, rx).row;
            n in AddsFor(first, upstream, rx) <==> n in AddsFor(row, upstream, rx) && ',' in n
  {
    var first, adds := Synced(row, upstream, now, rx).row, AddsFor(row, upstream, rx);
    FirstSync(row, upstream, now, rx);
    LocalNames(row);
    LocalNames(first);
    PendingAddNames(GetModels(row.models), upstream, row.ignored, row.mapping, rx);
    PendingAddNames(GetModels(first.models), upstream, first.ignored, first.mapping, rx);
    if n in adds && ',' !in n {
      WholeName(n, n);
    }
  }

  lemma SecondSyncRemoves(row: Row, upstream: seq<string>, now: int, rx: Regex, n: string)
    requires row.autoSync && CommaFree(AddsFor(row, upstream, rx))
    ensures var first := Synced(row, upstream, now, rx).row;
            n in RemovesFor(first, upstream) <==> n in first.removed
  {
    var first, adds := Synced(row, upstream, now, rx).row, AddsFor(row, upstream, rx);
    FirstSync(row, upstream, now, rx);
    LocalNames(row);
    LocalNames(first);
    NormalizeIsClean(upstream);
    PendingAddNames(GetModels(row.models), upstream, row.ignored, row.mapping, rx);
    PlainFragments(adds, n);
    PendingRemoveNames(GetModels(row.models), upstream, row.mapping);
    PendingRemoveNames(GetModels(first.models), upstream, first.mapping);
  }

  /** Auto-sync leaves no pending add, and a second one with the same list changes the models exactly when the first
      added a name with a comma; otherwise models and pending removes stay as they are. */
  lemma AutoSyncConvergesIff(row: Row, upstream: seq<string>, now: int, rx: Regex)
    requires row.autoSync
    ensures var adds, first := AddsFor(row, upstream, rx), Synced(row, upstream, now, rx).row;
            var second := Synced(first, upstream, now, rx);
            && first.detected == [] && second.row.detected == []
            && (!second.modelsChanged <==> CommaFree(adds))
            && (CommaFree(adds) ==> second.row.models == first.models
                                    && forall n :: n in second.row.removed <==> n in first.removed)
  {
    var adds, first := AddsFor(row, upstream, rx), Synced(row, upstream, now, rx).row;
    FirstSync(row, upstream, now, rx);
    FirstSync(first, upstream, now, rx);
    forall n ensures n in AddsFor(first, upstream, rx) <==> n in adds && ',' in n {
      SecondSyncAdds(row, upstream, now, rx, n);
    }
    if CommaFree(adds) {
      NoMembers(AddsFor(first, upstream, rx));
      forall n ensures n in RemovesFor(first, upstream) <==> n in first.removed {
        SecondSyncRemoves(row, upstream, now, rx, n);
      }
    } else {
      var n :| n in adds && ',' in n;
      assert n in AddsFor(first, upstream, rx);
      AutoSyncModels(first, Check(Some(upstream), now, true, true, 0), rx);
    }
  }
}
