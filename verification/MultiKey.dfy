/** Multi-key channels: controller/channel.go keeps a newline-separated key list next to three maps that are
    indexed by key position, and every operation has to keep them aligned.  Key lists stored as a JSON array
    are not modelled. */
module MultiKey {
  import opened Lists
  import opened ModelNames
  import opened Options
  import opened Text

  const ENABLED := 1
  const MANUALLY_DISABLED := 2
  const AUTO_DISABLED := 3
  const DEFAULT_PAGE_SIZE := 50

  datatype Info = Info(size: int, status: map<int, int>, disabledTime: map<int, int>, disabledReason: map<int, string>)

  /** Channel.GetKeys for newline-separated storage */
  function GetKeys(key: string): seq<string> {
    if key == "" then [] else Split(TrimChar(key, '\n'), '\n')
  }

  // ---------- The view ----------

  datatype KeyStatus = KeyStatus(index: int, status: int, disabledTime: int, reason: string, preview: string)

  function StatusOf(info: Info, i: int): int {
    if i in info.status then info.status[i] else ENABLED
  }

  function Preview(key: string): string {
    if |key| > 10 then key[..10] + "..." else key
  }

  function EntryAt(info: Info, i: int, key: string): KeyStatus {
    var s := StatusOf(info, i);
    KeyStatus(i, s,
              if s != ENABLED && i in info.disabledTime then info.disabledTime[i] else 0,
              if s != ENABLED && i in info.disabledReason then info.disabledReason[i] else "",
              Preview(key))
  }

  /** What is shown of a key: no more than its first ten characters, and of a short key everything. */
  lemma PreviewHidesRest(a: string, b: string)
    ensures |a| <= 10 ==> Preview(a) == a
    ensures |a| > 10 ==> Preview(a) == a[..10] + "..."
    ensures |a| > 10 && |b| > 10 && a[..10] == b[..10] ==> Preview(a) == Preview(b)
  {
  }

  /** A key without a recorded status is shown as enabled (1), and an enabled one with neither time nor reason; any
      other status, such as disabled by hand (2) or automatically (3), is shown as recorded, with time and reason. */
  lemma EntryShows(info: Info, i: int, key: string)
    ensures var e := EntryAt(info, i, key);
            && e.index == i
            && (i !in info.status ==> e.status == 1)
            && (i in info.status ==> e.status == info.status[i])
            && (e.status == 1 ==> e.disabledTime == 0 && e.reason == "")
            && (e.status != 1 && i in info.disabledTime ==> e.disabledTime == info.disabledTime[i])
            && (e.status != 1 && i in info.disabledReason ==> e.reason == info.disabledReason[i])
            && (i !in info.disabledTime ==> e.disabledTime == 0) && (i !in info.disabledReason ==> e.reason == "")
  {
  }

  /** What get_key_status shows without a filter, all pages together. */
  function Listing(keys: seq<string>, info: Info): (r: seq<KeyStatus>)
    ensures |r| == |keys| && forall i | 0 <= i < |r| :: r[i] == EntryAt(info, i, keys[i])
  {
    seq(|keys|, i requires 0 <= i < |keys| => EntryAt(info, i, keys[i]))
  }

  // ---------- Storing ----------

  datatype Stored = Stored(key: string, info: Info)

  /** Channel.Update: an empty key is a zero value, which the ORM does not write, so the stored key list stays;
      the size is recomputed and statuses beyond it are dropped. */
  function Update(storedKey: string, newKey: string, info: Info): Stored {
    var key := if newKey != "" then newKey else storedKey;
    var size := |GetKeys(key)|;
    Stored(key, info.(size := size, status := map i | i in info.status && i < size :: info.status[i]))
  }

  // ---------- Compaction ----------

  /** The entries at the kept positions, renumbered. */
  function Compact<V>(m: map<int, V>, kept: seq<int>, keep: int -> bool): map<int, V> {
    map j | 0 <= j < |kept| && kept[j] in m && keep(kept[j]) :: m[kept[j]]
  }

  lemma CompactStep<V>(m: map<int, V>, kept: seq<int>, keep: int -> bool, i: int)
    ensures Compact(m, kept + [i], keep)
            == if i in m && keep(i) then Compact(m, kept, keep)[|kept| := m[i]] else Compact(m, kept, keep)
  {
  }

  function Select<T>(s: seq<T>, kept: seq<int>): (r: seq<T>)
    requires forall j | 0 <= j < |kept| :: 0 <= kept[j] < |s|
    ensures |r| == |kept| && forall j | 0 <= j < |kept| :: r[j] == s[kept[j]]
  {
    seq(|kept|, j requires 0 <= j < |kept| => s[kept[j]])
  }

  function Renumber(list: seq<KeyStatus>): (r: seq<KeyStatus>)
    ensures |r| == |list| && forall i | 0 <= i < |list| :: r[i] == list[i].(index := i)
  {
    seq(|list|, i requires 0 <= i < |list| => list[i].(index := i))
  }

  function Disabled(info: Info): int -> bool { i => StatusOf(info, i) != ENABLED }

  function Always(): int -> bool { _ => true }

  /** The info that delete_key writes. */
  function DeletedInfo(info: Info, kept: seq<int>): Info {
    Info(|kept|, Compact(info.status, kept, Disabled(info)), Compact(info.disabledTime, kept, Always()),
         Compact(info.disabledReason, kept, Always()))
  }

  /** The info that delete_disabled_keys writes: times and reasons of enabled keys are dropped as well. */
  function PrunedInfo(info: Info, kept: seq<int>): Info {
    Info(|kept|, Compact(info.status, kept, Disabled(info)), Compact(info.disabledTime, kept, Disabled(info)),
         Compact(info.disabledReason, kept, Disabled(info)))
  }

  lemma CompactedEntry(keys: seq<string>, info: Info, kept: seq<int>, j: nat)
    requires j < |kept| && 0 <= kept[j] < |keys|
    ensures EntryAt(DeletedInfo(info, kept), j, keys[kept[j]]) == EntryAt(info, kept[j], keys[kept[j]]).(index := j)
    ensures EntryAt(PrunedInfo(info, kept), j, keys[kept[j]]) == EntryAt(info, kept[j], keys[kept[j]]).(index := j)
  {
  }

  /** Compacting keys and maps alike compacts the view. */
  lemma CompactedView(keys: seq<string>, info: Info, kept: seq<int>, newInfo: Info)
    requires forall j | 0 <= j < |kept| :: 0 <= kept[j] < |keys|
    requires newInfo == DeletedInfo(info, kept) || newInfo == PrunedInfo(info, kept)
    ensures Listing(Select(keys, kept), newInfo) == Renumber(Select(Listing(keys, info), kept))
  {
    var view, compacted := Listing(keys, info), Listing(Select(keys, kept), newInfo);
    forall j | 0 <= j < |kept| ensures compacted[j] == Renumber(Select(view, kept))[j] {
      CompactedEntry(keys, info, kept, j);
      assert Select(view, kept)[j] == view[kept[j]] == EntryAt(info, kept[j], keys[kept[j]]);
    }
  }

  /** The positions below n that are kept, in order. */
  function KeptBy(n: nat, keep: int -> bool): (r: seq<int>)
    ensures |r| <= n && forall j | 0 <= j < |r| :: 0 <= r[j] < n && keep(r[j])
  {
    if n == 0 then [] else if keep(n - 1) then KeptBy(n - 1, keep) + [n - 1] else KeptBy(n - 1, keep)
  }

  lemma SelectStep<T>(s: seq<T>, kept: seq<int>, i: nat)
    requires i < |s| && forall j | 0 <= j < |kept| :: 0 <= kept[j] < |s|
    ensures forall j | 0 <= j < |kept + [i]| :: 0 <= (kept + [i])[j] < |s|
    ensures Select(s, kept + [i]) == Select(s, kept) + [s[i]]
  {
  }

  lemma KeptStep(n: nat, keep: int -> bool)
    ensures KeptBy(n + 1, keep) == if keep(n) then KeptBy(n, keep) + [n] else KeptBy(n, keep)
  {
  }

  lemma KeptSelect<T>(s: seq<T>, keep: int -> bool, i: nat)
    requires i < |s|
    ensures Select(s, KeptBy(i + 1, keep))
            == if keep(i) then Select(s, KeptBy(i, keep)) + [s[i]] else Select(s, KeptBy(i, keep))
  {
    KeptStep(i, keep);
    SelectStep(s, KeptBy(i, keep), i);
  }

  function Except(k: int): int -> bool { i => i != k }

  function NotAutoDisabled(info: Info): int -> bool { i => StatusOf(info, i) != AUTO_DISABLED }

  lemma {:induction false} SelectExcept<T>(s: seq<T>, n: nat, k: nat)
    requires k < n <= |s|
    ensures Select(s, KeptBy(n, Except(k))) == s[..k] + s[k + 1..n]
  {
    if n == k + 1 {
      SelectAllBelow(s, k, k);
    } else {
      SelectExcept(s, n - 1, k);
      assert s[k + 1..n] == s[k + 1..n - 1] + [s[n - 1]];
    }
  }

  lemma {:induction false} SelectAllBelow<T>(s: seq<T>, n: nat, k: nat)
    requires n <= k && n <= |s|
    ensures Select(s, KeptBy(n, Except(k))) == s[..n]
  {
    if n > 0 {
      SelectAllBelow(s, n - 1, k);
    }
  }

  predicate Survives(e: KeyStatus) { e.status != AUTO_DISABLED }

  /** Keeping positions whose element satisfies a predicate is filtering. */
  lemma {:induction false} SelectFiltered<T(!new)>(s: seq<T>, keep: int -> bool, p: T -> bool, n: nat)
    requires n <= |s| && forall i | 0 <= i < n :: keep(i) == p(s[i])
    ensures Select(s, KeptBy(n, keep)) == Filter(s[..n], p)
  {
    if n == 0 {
      assert Select(s, []) == [] == s[..0];
    } else {
      var init, x := s[..n - 1], s[n - 1];
      SelectFiltered(s, keep, p, n - 1);
      TakeStep(s, n - 1);
      FilterAppend(init, x, p);
      KeptSelect(s, keep, n - 1);
      assert keep(n - 1) == p(x);
    }
  }

  lemma SelectSurvivors(keys: seq<string>, info: Info, n: nat)
    requires n <= |keys|
    ensures Select(Listing(keys, info), KeptBy(n, NotAutoDisabled(info))) == Filter(Listing(keys, info)[..n], Survives)
  {
    SelectFiltered(Listing(keys, info), NotAutoDisabled(info), Survives, n);
  }

  // ---------- Joining back into the stored text ----------

  lemma {:induction false} JoinTail(parts: seq<string>, sep: char)
    requires parts != [] && parts[|parts| - 1] != "" && sep !in parts[|parts| - 1]
    ensures var s := Join(parts, sep); s != "" && s[|s| - 1] != sep
  {
    if |parts| > 1 {
      JoinTail(parts[1..], sep);
      var s, rest := Join(parts, sep), Join(parts[1..], sep);
      assert s[|s| - 1] == rest[|rest| - 1];
    }
  }

  function Count(s: string, c: char): nat {
    if s == "" then 0 else (if s[0] == c then 1 else 0) + Count(s[1..], c)
  }

  lemma {:induction false} SplitCounts(s: string, sep: char)
    ensures |Split(s, sep)| == Count(s, sep) + 1
  {
    if s != "" {
      SplitCounts(s[1..], sep);
    }
  }

  lemma {:induction false} CountLast(s: string, c: char)
    requires s != ""
    ensures Count(s, c) == Count(s[..|s| - 1], c) + if s[|s| - 1] == c then 1 else 0
  {
    if |s| > 1 {
      CountLast(s[1..], c);
      assert s[1..][..|s[1..]| - 1] == s[..|s| - 1][1..];
    }
  }

  lemma {:induction false} TrimCounts(s: string, c: char)
    ensures Count(TrimChar(s, c), c) <= Count(s, c)
    ensures s != "" && (s[0] == c || s[|s| - 1] == c) ==> Count(TrimChar(s, c), c) < Count(s, c)
    decreases |s|
  {
    if s != "" {
      CountLast(s, c);
      if s[0] == c {
        TrimCounts(s[1..], c);
      } else if s[|s| - 1] == c {
        TrimCounts(s[..|s| - 1], c);
      }
    }
  }

  predicate NewlineFree(keys: seq<string>) {
    forall k | k in keys :: '\n' !in k
  }

  /** Neither end of the list is blank, so trimming newlines at the ends takes nothing away. */
  predicate SolidEnds(keys: seq<string>) {
    keys != [] && keys[0] != "" && keys[|keys| - 1] != ""
  }

  /** A key list reads back as it was joined, exactly when its first and last key are not blank. */
  lemma StoredKeysReadBack(keys: seq<string>)
    requires keys != [] && NewlineFree(keys)
    ensures GetKeys(Join(keys, '\n')) == keys <==> SolidEnds(keys)
    ensures SolidEnds(keys) ==> Join(keys, '\n') != ""
    ensures !SolidEnds(keys) ==> |GetKeys(Join(keys, '\n'))| < |keys|
  {
    var s := Join(keys, '\n');
    SplitJoin(keys, '\n');
    SplitCounts(s, '\n');
    if SolidEnds(keys) {
      assert keys[0] in keys && keys[|keys| - 1] in keys;
      JoinTail(keys, '\n');
      assert s[0] == keys[0][0] && keys[0][0] in keys[0];
    } else if s != "" {
      BlankEndShows(keys, '\n');
      TrimCounts(s, '\n');
      SplitCounts(TrimChar(s, '\n'), '\n');
    }
  }

  lemma {:induction false} BlankEndShows(parts: seq<string>, sep: char)
    requires parts != [] && Join(parts, sep) != ""
    requires parts[0] == "" || parts[|parts| - 1] == ""
    ensures var s := Join(parts, sep); s[0] == sep || s[|s| - 1] == sep
  {
    if parts[0] != "" {
      JoinBlankTail(parts, sep);
    }
  }

  lemma {:induction false} JoinBlankTail(parts: seq<string>, sep: char)
    requires |parts| > 1 && parts[|parts| - 1] == ""
    ensures var s := Join(parts, sep); s != "" && s[|s| - 1] == sep
  {
    if |parts| > 2 {
      JoinBlankTail(parts[1..], sep);
      var s, rest := Join(parts, sep), Join(parts[1..], sep);
      assert s[|s| - 1] == rest[|rest| - 1];
    } else {
      assert Join(parts[1..], sep) == "";
    }
  }

  // ---------- The channel ----------

  datatype Reply = Done(count: nat) | NoIndex | IndexOutOfRange | CannotDeleteLastKey | NothingToDo

  datatype Page = Page(entries: seq<KeyStatus>, total: nat, page: int, pageSize: int, totalPages: int,
                       enabled: nat, manuallyDisabled: nat, autoDisabled: nat)

  function Matching(status: Option<int>): KeyStatus -> bool {
    (e: KeyStatus) => status.None? || e.status == status.value
  }

  function WithStatus(list: seq<KeyStatus>, status: Option<int>): seq<KeyStatus> {
    Filter(list, Matching(status))
  }

  function TotalPages(total: nat, pageSize: int): int
    requires pageSize > 0
  {
    var n := (total + pageSize - 1) / pageSize;
    if n == 0 then 1 else n
  }

  function Slice(list: seq<KeyStatus>, page: int, pageSize: int): seq<KeyStatus>
    requires page >= 1 && pageSize > 0
  {
    var start := (page - 1) * pageSize;
    var end := if start + pageSize > |list| then |list| else start + pageSize;
    if 0 <= start < |list| then list[start..end] else []
  }

  function CountStatus(list: seq<KeyStatus>, status: int): nat {
    |Filter(list, (e: KeyStatus) => e.status == status)|
  }

  class Channel {
    var key: string
    var info: Info

    constructor (key: string, info: Info)
      ensures this.key == key && this.info == info
    {
      this.key := key;
      this.info := info;
    }

    function View(): seq<KeyStatus>
      reads this
    {
      Listing(GetKeys(key), info)
    }

    method Save(newKey: string, newInfo: Info)
      modifies this
      ensures Stored(key, info) == Update(old(key), newKey, newInfo)
    {
      if newKey != "" {
        key := newKey;
      }
      info := newInfo.(size := |GetKeys(key)|);
      info := info.(status := map i | i in info.status && i < info.size :: info.status[i]);
    }

    /** get_key_status */
    method GetKeyStatus(requestPage: int, requestPageSize: int, status: Option<int>) returns (r: Page)
      ensures IsPage(r, WithStatus(View(), status), requestPage, requestPageSize)
      ensures r.enabled == CountStatus(View(), ENABLED)
      ensures r.manuallyDisabled == CountStatus(View(), MANUALLY_DISABLED)
      ensures r.autoDisabled == CountStatus(View(), AUTO_DISABLED)
    {
      var all, enabled, manual, auto := BuildStatuses(GetKeys(key), info);
      var filtered := FilterStatuses(all, status);
      r := Paginate(filtered, requestPage, requestPageSize);
      r := r.(enabled := enabled, manuallyDisabled := manual, autoDisabled := auto);
    }

    /** disable_key: only the status changes; an old time or reason stays where it is */
    method DisableKey(keyIndex: Option<int>) returns (reply: Reply)
      modifies this
      ensures keyIndex.None? ==> reply == NoIndex && unchanged(this)
      ensures keyIndex.Some? && !(0 <= keyIndex.value < old(info.size)) ==> reply == IndexOutOfRange && unchanged(this)
      ensures keyIndex.Some? && 0 <= keyIndex.value < old(info.size) ==>
                && reply == Done(1)
                && Stored(key, info) == Update(old(key), old(key), DisabledInfo(old(info), keyIndex.value))
    {
      if keyIndex.None? {
        return NoIndex;
      }
      var k := keyIndex.value;
      if k < 0 || k >= info.size {
        return IndexOutOfRange;
      }
      Save(key, info.(status := info.status[k := MANUALLY_DISABLED]));
      reply := Done(1);
    }

    /** enable_key: every record about the key is dropped */
    method EnableKey(keyIndex: Option<int>) returns (reply: Reply)
      modifies this
      ensures keyIndex.None? ==> reply == NoIndex && unchanged(this)
      ensures keyIndex.Some? && !(0 <= keyIndex.value < old(info.size)) ==> reply == IndexOutOfRange && unchanged(this)
      ensures keyIndex.Some? && 0 <= keyIndex.value < old(info.size) ==>
                && reply == Done(1)
                && Stored(key, info) == Update(old(key), old(key), EnabledInfo(old(info), keyIndex.value))
    {
      if keyIndex.None? {
        return NoIndex;
      }
      var k := keyIndex.value;
      if k < 0 || k >= info.size {
        return IndexOutOfRange;
      }
      Save(key, info.(status := info.status - {k}, disabledTime := info.disabledTime - {k},
                      disabledReason := info.disabledReason - {k}));
      reply := Done(1);
    }

    /** enable_all_keys */
    method EnableAllKeys() returns (reply: Reply)
      modifies this
      ensures reply == Done(|old(info.status)|)
      ensures Stored(key, info)
              == Update(old(key), old(key), old(info).(status := map[], disabledTime := map[], disabledReason := map[]))
    {
      reply := Done(|info.status|);
      Save(key, info.(status := map[], disabledTime := map[], disabledReason := map[]));
    }

    /** disable_all_keys: only keys that are enabled now */
    method DisableAllKeys() returns (reply: Reply)
      modifies this
      ensures var count := EnabledCount(old(info));
              if count == 0 then reply == NothingToDo && unchanged(this)
              else reply == Done(count) && Stored(key, info) == Update(old(key), old(key), AllDisabledInfo(old(info)))
    {
      var status, disabled := DisableEnabled(info);
      if disabled == 0 {
        return NothingToDo;
      }
      Save(key, info.(status := status));
      reply := Done(disabled);
    }

    /** delete_key */
    method DeleteKey(keyIndex: Option<int>) returns (reply: Reply)
      modifies this
      ensures keyIndex.None? ==> reply == NoIndex && unchanged(this)
      ensures keyIndex.Some? && !(0 <= keyIndex.value < old(info.size)) ==> reply == IndexOutOfRange && unchanged(this)
      ensures keyIndex.Some? && 0 <= keyIndex.value < old(info.size) ==>
                var keys := GetKeys(old(key));
                var kept := KeptBy(|keys|, Except(keyIndex.value));
                if kept == [] then reply == CannotDeleteLastKey && unchanged(this)
                else reply == Done(1) && Stored(key, info)
                     == Update(old(key), Join(Select(keys, kept), '\n'), DeletedInfo(old(info), kept))
    {
      if keyIndex.None? {
        return NoIndex;
      }
      var k := keyIndex.value;
      if k < 0 || k >= info.size {
        return IndexOutOfRange;
      }
      var remaining, newInfo := RemoveAt(GetKeys(key), info, k);
      if |remaining| == 0 {
        return CannotDeleteLastKey;
      }
      Save(Join(remaining, '\n'), newInfo);
      reply := Done(1);
    }

    /** delete_disabled_keys: only automatically disabled keys go */
    method DeleteDisabledKeys() returns (reply: Reply)
      modifies this
      ensures var p := Pruned(GetKeys(old(key)), old(info));
              if p.deleted == 0 then reply == NothingToDo && unchanged(this)
              else reply == Done(p.deleted) && Stored(key, info) == Update(old(key), Join(p.keys, '\n'), p.info)
    {
      var remaining, newInfo, deleted := Prune(GetKeys(key), info);
      assert Pruning(remaining, newInfo, deleted) == Pruned(GetKeys(key), info);
      if deleted == 0 {
        return NothingToDo;
      }
      Save(Join(remaining, '\n'), newInfo);
      reply := Done(deleted);
    }
  }

  /** The loop of disable_all_keys. */
  method DisableEnabled(info: Info) returns (status: map<int, int>, disabled: nat)
    ensures status == DisabledBelow(info, if info.size < 0 then 0 else info.size)
    ensures disabled == EnabledCount(info)
  {
    status, disabled := info.status, 0;
    for i := 0 to if info.size < 0 then 0 else info.size
      invariant status == DisabledBelow(info, i)
      invariant disabled == CountBelow(i, Enabled(info))
    {
      DisabledBelowStep(info, i);
      var s := if i in status then status[i] else ENABLED;
      if s == ENABLED {
        status := status[i := MANUALLY_DISABLED];
        disabled := disabled + 1;
      }
    }
  }

  lemma DisabledBelowStep(info: Info, i: nat)
    ensures (if i in DisabledBelow(info, i) then DisabledBelow(info, i)[i] else ENABLED) == StatusOf(info, i)
    ensures DisabledBelow(info, i + 1)
            == if StatusOf(info, i) == ENABLED then DisabledBelow(info, i)[i := MANUALLY_DISABLED]
                else DisabledBelow(info, i)
  {
  }

  /** The records of a kept key move to the next free position. */
  method MoveRecords(info: Info, i: int, moveTimes: bool, moved: Info) returns (r: Info)
    ensures r == Moved(info, i, moveTimes, moved)
  {
    r := moved;
    if i in info.status && info.status[i] != ENABLED {
      r := r.(status := r.status[moved.size := info.status[i]]);
    }
    if moveTimes {
      if i in info.disabledTime {
        r := r.(disabledTime := r.disabledTime[moved.size := info.disabledTime[i]]);
      }
      if i in info.disabledReason {
        r := r.(disabledReason := r.disabledReason[moved.size := info.disabledReason[i]]);
      }
    }
    r := r.(size := r.size + 1);
  }

  function Moved(info: Info, i: int, moveTimes: bool, moved: Info): Info {
    Info(moved.size + 1,
         AddIf(StatusOf(info, i) != ENABLED, moved.status, moved.size, info.status, i),
         AddIf(moveTimes, moved.disabledTime, moved.size, info.disabledTime, i),
         AddIf(moveTimes, moved.disabledReason, moved.size, info.disabledReason, i))
  }

  /** The loop of delete_key: keys and records move together. */
  method RemoveAt(keys: seq<string>, info: Info, k: int) returns (remaining: seq<string>, newInfo: Info)
    ensures var kept := KeptBy(|keys|, Except(k));
            remaining == Select(keys, kept) && newInfo == DeletedInfo(info, kept)
  {
    remaining, newInfo := [], Info(0, map[], map[], map[]);
    for i := 0 to |keys|
      invariant remaining == Select(keys, KeptBy(i, Except(k)))
      invariant newInfo == DeletedInfo(info, KeptBy(i, Except(k)))
    {
      if i == k {
        continue;
      }
      KeptSelect(keys, Except(k), i);
      RemoveStep(info, k, i);
      remaining := remaining + [keys[i]];
      newInfo := MoveRecords(info, i, true, newInfo);
    }
  }

  lemma RemoveStep(info: Info, k: int, i: nat)
    requires i != k
    ensures var kept, kept' := KeptBy(i, Except(k)), KeptBy(i + 1, Except(k));
            DeletedInfo(info, kept') == Moved(info, i, true, DeletedInfo(info, kept))
  {
    var kept := KeptBy(i, Except(k));
    KeptStep(i, Except(k));
    DisabledField(info.status, info, kept, i);
    EveryField(info.disabledTime, kept, i);
    EveryField(info.disabledReason, kept, i);
  }

  datatype Pruning = Pruning(keys: seq<string>, info: Info, deleted: nat)

  /** The first n positions, without those that are automatically disabled. */
  function PrunedTo(keys: seq<string>, info: Info, n: nat): Pruning
    requires n <= |keys|
  {
    var kept := KeptBy(n, NotAutoDisabled(info));
    Pruning(Select(keys, kept), PrunedInfo(info, kept), n - |kept|)
  }

  function Pruned(keys: seq<string>, info: Info): Pruning {
    PrunedTo(keys, info, |keys|)
  }

  /** One round of the loop of delete_disabled_keys. */
  method PruneOne(key: string, info: Info, i: nat, before: Pruning) returns (after: Pruning)
    ensures after == if StatusOf(info, i) == AUTO_DISABLED then before.(deleted := before.deleted + 1)
                     else Pruning(before.keys + [key], Moved(info, i, StatusOf(info, i)
                         != ENABLED, before.info), before.deleted)
  {
    var s := if i in info.status then info.status[i] else ENABLED;
    after := before;
    if s == AUTO_DISABLED {
      after := after.(deleted := after.deleted + 1);
    } else {
      var moved := MoveRecords(info, i, s != ENABLED, after.info);
      after := after.(keys := after.keys + [key], info := moved);
    }
  }

  lemma PrunedKeysStep(keys: seq<string>, info: Info, i: nat)
    requires i < |keys|
    ensures var p, p' := PrunedTo(keys, info, i), PrunedTo(keys, info, i + 1);
            if StatusOf(info, i) == AUTO_DISABLED then p'.keys == p.keys && p'.deleted == p.deleted + 1
            else p'.keys == p.keys + [keys[i]] && p'.deleted == p.deleted
  {
    KeptSelect(keys, NotAutoDisabled(info), i);
    KeptStep(i, NotAutoDisabled(info));
  }

  lemma PrunedInfoOfStep(keys: seq<string>, info: Info, i: nat)
    requires i < |keys|
    ensures PrunedTo(keys, info, i + 1).info
            == if StatusOf(info, i) == AUTO_DISABLED then PrunedTo(keys, info, i).info
               else Moved(info, i, StatusOf(info, i) != ENABLED, PrunedTo(keys, info, i).info)
  {
    PruneStep(info, i);
  }

  lemma Assemble(p: Pruning, keys: seq<string>, info: Info, deleted: nat)
    requires p.keys == keys && p.info == info && p.deleted == deleted
    ensures p == Pruning(keys, info, deleted)
  {
  }

  lemma PrunedToStep(keys: seq<string>, info: Info, i: nat)
    requires i < |keys|
    ensures var p, p' := PrunedTo(keys, info, i), PrunedTo(keys, info, i + 1);
            p' == if StatusOf(info, i) == AUTO_DISABLED then p.(deleted := p.deleted + 1)
                  else Pruning(p.keys + [keys[i]], Moved(info, i, StatusOf(info, i) != ENABLED, p.info), p.deleted)
  {
    var p, p' := PrunedTo(keys, info, i), PrunedTo(keys, info, i + 1);
    PrunedKeysStep(keys, info, i);
    PrunedInfoOfStep(keys, info, i);
    Assemble(p', p'.keys, p'.info, p'.deleted);
  }

  /** The loop of delete_disabled_keys. */
  method Prune(keys: seq<string>, info: Info) returns (remaining: seq<string>, newInfo: Info, deleted: nat)
    ensures Pruning(remaining, newInfo, deleted) == Pruned(keys, info)
  {
    var p := Pruning([], Info(0, map[], map[], map[]), 0);
    EmptyPruning(keys, info);
    for i := 0 to |keys|
      invariant p == PrunedTo(keys, info, i)
    {
      PrunedToStep(keys, info, i);
      p := PruneOne(keys[i], info, i, p);
    }
    remaining, newInfo, deleted := p.keys, p.info, p.deleted;
  }

  lemma EmptyPruning(keys: seq<string>, info: Info)
    ensures PrunedTo(keys, info, 0) == Pruning([], Info(0, map[], map[], map[]), 0)
  {
  }

  lemma PruneStep(info: Info, i: nat)
    ensures var kept, kept' := KeptBy(i, NotAutoDisabled(info)), KeptBy(i + 1, NotAutoDisabled(info));
            PrunedInfo(info, kept') == if StatusOf(info, i) == AUTO_DISABLED then PrunedInfo(info, kept)
                                       else Moved(info, i, StatusOf(info, i) != ENABLED, PrunedInfo(info, kept))
  {
    var kept := KeptBy(i, NotAutoDisabled(info));
    KeptStep(i, NotAutoDisabled(info));
    DisabledField(info.status, info, kept, i);
    DisabledField(info.disabledTime, info, kept, i);
    DisabledField(info.disabledReason, info, kept, i);
  }

  lemma DisabledField<V>(m: map<int, V>, info: Info, kept: seq<int>, i: int)
    ensures Compact(m, kept + [i], Disabled(info))
            == AddIf(StatusOf(info, i) != ENABLED, Compact(m, kept, Disabled(info)), |kept|, m, i)
  {
    CompactStep(m, kept, Disabled(info), i);
  }

  lemma EveryField<V>(m: map<int, V>, kept: seq<int>, i: int)
    ensures Compact(m, kept + [i], Always()) == AddIf(true, Compact(m, kept, Always()), |kept|, m, i)
  {
    CompactStep(m, kept, Always(), i);
  }

  function AddIf<V>(add: bool, m: map<int, V>, at: int, from: map<int, V>, i: int): map<int, V> {
    if add && i in from then m[at := from[i]] else m
  }

  function Enabled(info: Info): int -> bool { i => StatusOf(info, i) == ENABLED }

  function CountBelow(n: nat, p: int -> bool): nat {
    if n == 0 then 0 else CountBelow(n - 1, p) + if p(n - 1) then 1 else 0
  }

  function EnabledCount(info: Info): nat {
    if info.size < 0 then 0 else CountBelow(info.size, Enabled(info))
  }

  function DisabledInfo(info: Info, k: int): Info {
    info.(status := info.status[k := MANUALLY_DISABLED])
  }

  function EnabledInfo(info: Info, k: int): Info {
    info.(status := info.status - {k}, disabledTime := info.disabledTime - {k},
        disabledReason := info.disabledReason - {k})
  }

  function DisabledBelow(info: Info, n: int): map<int, int> {
    info.status + map i | 0 <= i < n && StatusOf(info, i) == ENABLED :: MANUALLY_DISABLED
  }

  function AllDisabledInfo(info: Info): Info {
    info.(status := DisabledBelow(info, if info.size < 0 then 0 else info.size))
  }

  /** The page an answer shows: the requested one, clamped to what exists. */
  ghost predicate IsPage(r: Page, filtered: seq<KeyStatus>, requestPage: int, requestPageSize: int) {
    && r.total == |filtered|
    && r.pageSize == (if requestPageSize <= 0 then DEFAULT_PAGE_SIZE else requestPageSize)
    && r.totalPages == TotalPages(r.total, r.pageSize)
    && r.page == (if requestPage <= 0 then 1 else if requestPage > r.totalPages then r.totalPages else requestPage)
    && r.page >= 1 && r.entries == Slice(filtered, r.page, r.pageSize)
  }

  lemma CountStep(list: seq<KeyStatus>, e: KeyStatus, status: int)
    ensures CountStatus(list + [e], status) == CountStatus(list, status) + if e.status == status then 1 else 0
  {
    FilterAppend(list, e, (k: KeyStatus) => k.status == status);
  }

  /** Unless a page size is asked for, a page holds 50 keys: a listing of at most 50 is shown whole, whichever page is
      asked for, and the first page of a longer one holds exactly the first 50. */
  lemma DefaultPage(r: Page, filtered: seq<KeyStatus>, requestPage: int, requestPageSize: int)
    requires requestPageSize <= 0 && IsPage(r, filtered, requestPage, requestPageSize)
    ensures |filtered| <= 50 ==> r.entries == filtered && r.page == r.totalPages == 1
    ensures |filtered| > 50 && requestPage <= 1 ==> r.entries == filtered[..50] && r.totalPages > 1
  {
  }

  ghost predicate Tallied(all: seq<KeyStatus>, enabled: nat, manual: nat, auto: nat) {
    && enabled == CountStatus(all, ENABLED)
    && manual == CountStatus(all, MANUALLY_DISABLED)
    && auto == CountStatus(all, AUTO_DISABLED)
  }

  lemma TallyStep(all: seq<KeyStatus>, e: KeyStatus, enabled: nat, manual: nat, auto: nat)
    requires Tallied(all, enabled, manual, auto)
    ensures Tallied(all + [e], enabled + (if e.status == ENABLED then 1 else 0),
                    manual + (if e.status == MANUALLY_DISABLED then 1 else 0),
                    auto + (if e.status == AUTO_DISABLED then 1 else 0))
  {
    CountStep(all, e, ENABLED);
    CountStep(all, e, MANUALLY_DISABLED);
    CountStep(all, e, AUTO_DISABLED);
  }

  lemma ListingStep(keys: seq<string>, info: Info, i: nat)
    requires i < |keys|
    ensures Listing(keys[..i + 1], info) == Listing(keys[..i], info) + [EntryAt(info, i, keys[i])]
  {
  }

  method BuildStatuses(keys: seq<string>, info: Info)
      returns (all: seq<KeyStatus>, enabled: nat, manual: nat, auto: nat)
    ensures all == Listing(keys, info)
    ensures enabled == CountStatus(all, ENABLED)
    ensures manual == CountStatus(all, MANUALLY_DISABLED)
    ensures auto == CountStatus(all, AUTO_DISABLED)
  {
    all, enabled, manual, auto := [], 0, 0, 0;
    for i := 0 to |keys|
      invariant all == Listing(keys[..i], info)
      invariant Tallied(all, enabled, manual, auto)
    {
      ListingStep(keys, info, i);
      var s := if i in info.status then info.status[i] else ENABLED;
      TallyStep(all, EntryAt(info, i, keys[i]), enabled, manual, auto);
      match s {
        case 1 => enabled := enabled + 1;
        case 2 => manual := manual + 1;
        case 3 => auto := auto + 1;
        case _ =>
      }
      var time, reason := 0, "";
      if s != ENABLED {
        time := if i in info.disabledTime then info.disabledTime[i] else 0;
        reason := if i in info.disabledReason then info.disabledReason[i] else "";
      }
      all := all + [KeyStatus(i, s, time, reason, Preview(keys[i]))];
    }
    assert keys[..|keys|] == keys;
  }

  method FilterStatuses(all: seq<KeyStatus>, status: Option<int>) returns (filtered: seq<KeyStatus>)
    ensures filtered == WithStatus(all, status)
  {
    if status.None? {
      filtered := all;
      FilterAll(all, Matching(status));
    } else {
      filtered := [];
      for i := 0 to |all|
        invariant filtered == WithStatus(all[..i], status)
      {
        assert all[..i + 1][..i] == all[..i];
        if all[i].status == status.value {
          filtered := filtered + [all[i]];
        }
      }
      assert all[..|all|] == all;
    }
  }

  lemma SliceStart(page: int, pageSize: int)
    requires page >= 1 && pageSize > 0
    ensures (page - 1) * pageSize >= 0
  {
  }

  method Paginate(filtered: seq<KeyStatus>, requestPage: int, requestPageSize: int) returns (r: Page)
    ensures IsPage(r, filtered, requestPage, requestPageSize)
  {
    var page := if requestPage <= 0 then 1 else requestPage;
    var pageSize := if requestPageSize <= 0 then DEFAULT_PAGE_SIZE else requestPageSize;
    PagesBound(|filtered|, pageSize);
    var totalPages := (|filtered| + pageSize - 1) / pageSize;
    if totalPages == 0 {
      totalPages := 1;
    }
    if page > totalPages {
      page := totalPages;
    }
    assert totalPages == TotalPages(|filtered|, pageSize);
    var start := (page - 1) * pageSize;
    SliceStart(page, pageSize);
    var end := start + pageSize;
    if end > |filtered| {
      end := |filtered|;
    }
    var entries := [];
    if start < |filtered| {
      entries := filtered[start..end];
    }
    assert entries == Slice(filtered, page, pageSize);
    r := Page(entries, |filtered|, page, pageSize, totalPages, 0, 0, 0);
  }

  lemma PagesBound(total: nat, pageSize: int)
    requires pageSize > 0
    ensures TotalPages(total, pageSize) >= 1
    ensures (TotalPages(total, pageSize) - 1) * pageSize <= total <= TotalPages(total, pageSize) * pageSize
    ensures total > 0 ==> (TotalPages(total, pageSize) - 1) * pageSize < total
  {
  }

  function Pages(list: seq<KeyStatus>, upTo: nat, pageSize: int): seq<KeyStatus>
    requires pageSize > 0
  {
    if upTo == 0 then [] else Pages(list, upTo - 1, pageSize) + Slice(list, upTo, pageSize)
  }

  lemma TakeSlice(list: seq<KeyStatus>, page: nat, pageSize: int, start: int)
    requires page >= 1 && pageSize > 0 && start == (page - 1) * pageSize >= 0
    ensures Take(list, start) + Slice(list, page, pageSize) == Take(list, start + pageSize)
  {
  }

  lemma {:induction false} PagesArePrefix(list: seq<KeyStatus>, upTo: nat, pageSize: int)
    requires pageSize > 0
    ensures upTo * pageSize >= 0
    ensures Pages(list, upTo, pageSize) == Take(list, upTo * pageSize)
  {
    if upTo > 0 {
      PagesArePrefix(list, upTo - 1, pageSize);
      var start := (upTo - 1) * pageSize;
      assert upTo * pageSize == start + pageSize;
      TakeSlice(list, upTo, pageSize, start);
    }
  }

  /** Reading every page in turn shows the whole filtered list, once. */
  lemma PagesCoverListing(list: seq<KeyStatus>, pageSize: int)
    requires pageSize > 0
    ensures TotalPages(|list|, pageSize) >= 1
    ensures Pages(list, TotalPages(|list|, pageSize), pageSize) == list
  {
    PagesBound(|list|, pageSize);
    PagesArePrefix(list, TotalPages(|list|, pageSize), pageSize);
  }

  // ---------- Deletes commute with the view ----------

  /** The recorded size is the number of keys and no record points beyond them. */
  ghost predicate Aligned(key: string, info: Info) {
    && info.size == |GetKeys(key)|
    && InDomain(info.status, info.size) && InDomain(info.disabledTime, info.size)
        && InDomain(info.disabledReason, info.size)
  }

  ghost predicate InDomain<V>(m: map<int, V>, size: int) {
    forall i | i in m :: 0 <= i < size
  }

  lemma UpdateKeepsRecords(storedKey: string, newKey: string, info: Info)
    requires newKey != "" && info.size == |GetKeys(newKey)| && InDomain(info.status, info.size)
    ensures Update(storedKey, newKey, info) == Stored(newKey, info)
  {
  }

  lemma CompactInDomain<V>(m: map<int, V>, kept: seq<int>, keep: int -> bool)
    ensures InDomain(Compact(m, kept, keep), |kept|)
  {
  }

  lemma SelectNewlineFree(keys: seq<string>, kept: seq<int>)
    requires NewlineFree(keys) && forall j | 0 <= j < |kept| :: 0 <= kept[j] < |keys|
    ensures NewlineFree(Select(keys, kept))
  {
    forall k | k in Select(keys, kept) ensures '\n' !in k {
      var j :| 0 <= j < |kept| && Select(keys, kept)[j] == k;
      assert keys[kept[j]] in keys;
    }
  }

  /** Either way of deleting shows the compacted view afterwards, exactly when the remaining list has solid ends. */
  lemma CompactionCommutes(key: string, info: Info, kept: seq<int>, newInfo: Info)
    requires forall j | 0 <= j < |kept| :: 0 <= kept[j] < |GetKeys(key)|
    requires |kept| < |GetKeys(key)|
    requires newInfo == DeletedInfo(info, kept) || newInfo == PrunedInfo(info, kept)
    ensures var remaining := Select(GetKeys(key), kept);
            var s := Update(key, Join(remaining, '\n'), newInfo);
            && (Listing(GetKeys(s.key), s.info) == Renumber(Select(Listing(GetKeys(key), info), kept))
                <==> SolidEnds(remaining))
            && (SolidEnds(remaining) ==> Aligned(s.key, s.info) && GetKeys(s.key) == remaining)
  {
    var keys := GetKeys(key);
    var remaining := Select(keys, kept);
    var joined := Join(remaining, '\n');
    var s := Update(key, joined, newInfo);
    CompactedView(keys, info, kept, newInfo);
    SelectNewlineFree(keys, kept);
    CompactInDomain(info.status, kept, Disabled(info));
    CompactInDomain(info.disabledTime, kept, Disabled(info));
    CompactInDomain(info.disabledTime, kept, Always());
    CompactInDomain(info.disabledReason, kept, Disabled(info));
    CompactInDomain(info.disabledReason, kept, Always());
    if remaining != [] {
      StoredKeysReadBack(remaining);
      if SolidEnds(remaining) {
        UpdateKeepsRecords(key, joined, newInfo);
      } else {
        assert |GetKeys(s.key)| != |kept|;
      }
    }
  }

  function WithoutEntry(view: seq<KeyStatus>, k: nat): seq<KeyStatus>
    requires k < |view|
  {
    Renumber(view[..k] + view[k + 1..])
  }

  /** After delete_key the listing is the old one with that entry taken out and the rest renumbered, exactly
      when the list that remains does not begin or end with a blank key. */
  lemma DeleteKeyCommutesWithView(key: string, info: Info, k: nat)
    requires k < |GetKeys(key)| && |GetKeys(key)| > 1
    ensures var keys := GetKeys(key);
            var remaining := keys[..k] + keys[k + 1..];
            var kept := KeptBy(|keys|, Except(k));
            var s := Update(key, Join(Select(keys, kept), '\n'), DeletedInfo(info, kept));
            && Select(keys, kept) == remaining
            && (Listing(GetKeys(s.key), s.info) == WithoutEntry(Listing(keys, info), k) <==> SolidEnds(remaining))
            && (SolidEnds(remaining) ==> Aligned(s.key, s.info))
  {
    var keys, view := GetKeys(key), Listing(GetKeys(key), info);
    var kept := KeptBy(|keys|, Except(k));
    SelectExcept(keys, |keys|, k);
    SelectExcept(view, |keys|, k);
    assert view[k + 1..|keys|] == view[k + 1..] && keys[k + 1..|keys|] == keys[k + 1..];
    CompactionCommutes(key, info, kept, DeletedInfo(info, kept));
  }

  /** After delete_disabled_keys the listing is the old one without the automatically disabled entries, exactly
      when something remains and it does not begin or end with a blank key. */
  lemma DeleteDisabledCommutesWithView(key: string, info: Info)
    requires Pruned(GetKeys(key), info).deleted > 0
    ensures var p := Pruned(GetKeys(key), info);
            var s := Update(key, Join(p.keys, '\n'), p.info);
            && (Listing(GetKeys(s.key), s.info) == Renumber(Filter(Listing(GetKeys(key), info), Survives))
                <==> SolidEnds(p.keys))
            && (SolidEnds(p.keys) ==> Aligned(s.key, s.info))
  {
    var keys := GetKeys(key);
    SurvivorsOfView(keys, info);
    CompactionCommutes(key, info, KeptBy(|keys|, NotAutoDisabled(info)), Pruned(keys, info).info);
  }

  lemma SurvivorsOfView(keys: seq<string>, info: Info)
    ensures Select(Listing(keys, info), KeptBy(|keys|, NotAutoDisabled(info))) == Filter(Listing(keys, info), Survives)
  {
    SelectSurvivors(keys, info, |keys|);
    assert Listing(keys, info)[..|keys|] == Listing(keys, info);
  }

  lemma {:induction false} NoneKept(n: nat, keep: int -> bool)
    requires forall i | 0 <= i < n :: !keep(i)
    ensures KeptBy(n, keep) == []
  {
    if n > 0 {
      NoneKept(n - 1, keep);
    }
  }

  /** When every key is automatically disabled, delete_disabled_keys reports all of them deleted, but keeps every
      key and enables it: the empty key list is not written while the emptied records are. */
  lemma DeletingEveryKeyEnablesAll(key: string, info: Info)
    requires GetKeys(key) != [] && forall i | 0 <= i < |GetKeys(key)| :: StatusOf(info, i) == AUTO_DISABLED
    ensures var p := Pruned(GetKeys(key), info);
            var s := Update(key, Join(p.keys, '\n'), p.info);
            && p.deleted == |GetKeys(key)| && GetKeys(s.key) == GetKeys(key)
            && forall i | 0 <= i < |GetKeys(key)| :: StatusOf(s.info, i) == ENABLED
  {
    NoneKept(|GetKeys(key)|, NotAutoDisabled(info));
  }

  // ---------- The actions that keep the keys ----------

  lemma UpdateSameKey(key: string, info: Info)
    requires info.size == |GetKeys(key)| && InDomain(info.status, info.size)
    ensures Update(key, key, info) == Stored(key, info)
  {
  }

  /** disable_key and enable_key change one entry of the view, the all-keys forms change every entry of the
      other status; alignment survives each of them. */
  lemma DisableKeyOnView(key: string, info: Info, k: nat)
    requires Aligned(key, info) && k < info.size
    ensures var keys, view := GetKeys(key), Listing(GetKeys(key), info);
            var d := Update(key, key, DisabledInfo(info, k));
            && Aligned(d.key, d.info)
            && Listing(GetKeys(d.key), d.info) == view[k := EntryAt(DisabledInfo(info, k), k, keys[k])]
            && EntryAt(DisabledInfo(info, k), k, keys[k]).status == MANUALLY_DISABLED
  {
    UpdateSameKey(key, DisabledInfo(info, k));
    OneEntryChanges(GetKeys(key), info, DisabledInfo(info, k), k);
  }

  /** Infos that agree on every other key show the same view but for that key. */
  lemma OneEntryChanges(keys: seq<string>, info: Info, info': Info, k: nat)
    requires k < |keys| && forall i | 0 <= i < |keys| && i != k ::
            EntryAt(info', i, keys[i]) == EntryAt(info, i, keys[i])
    ensures Listing(keys, info') == Listing(keys, info)[k := EntryAt(info', k, keys[k])]
  {
  }

  lemma EnableKeyOnView(key: string, info: Info, k: nat)
    requires Aligned(key, info) && k < info.size
    ensures var keys, view := GetKeys(key), Listing(GetKeys(key), info);
            var e := Update(key, key, EnabledInfo(info, k));
            && Aligned(e.key, e.info)
            && Listing(GetKeys(e.key), e.info) == view[k := KeyStatus(k, ENABLED, 0, "", Preview(keys[k]))]
  {
    UpdateSameKey(key, EnabledInfo(info, k));
    OneEntryChanges(GetKeys(key), info, EnabledInfo(info, k), k);
  }

  lemma ForgottenEntry(keys: seq<string>, info: Info, k: nat)
    requires k < |keys|
    ensures Listing(keys, DisabledInfo(EnabledInfo(info, k), k))
            == Listing(keys, info)[k := KeyStatus(k, MANUALLY_DISABLED, 0, "", Preview(keys[k]))]
  {
    OneEntryChanges(keys, info, DisabledInfo(EnabledInfo(info, k), k), k);
  }

  /** Enabling a key forgets when and why it was disabled: disabling it again by hand shows no time and no reason. */
  lemma EnablingForgets(key: string, info: Info, k: nat)
    requires Aligned(key, info) && k < info.size
    ensures var enabled := Update(key, key, EnabledInfo(info, k));
            var again := Update(enabled.key, enabled.key, DisabledInfo(enabled.info, k));
            && again.key == key
            && Listing(GetKeys(key), again.info)
               == Listing(GetKeys(key), info)[k := KeyStatus(k, MANUALLY_DISABLED, 0, "", Preview(GetKeys(key)[k]))]
  {
    UpdateSameKey(key, EnabledInfo(info, k));
    UpdateSameKey(key, DisabledInfo(EnabledInfo(info, k), k));
    ForgottenEntry(GetKeys(key), info, k);
  }

  lemma DisableAllOnView(key: string, info: Info, i: nat)
    requires Aligned(key, info) && i < info.size
    ensures var view, d := Listing(GetKeys(key), info), Update(key, key, AllDisabledInfo(info));
            && d.key == key && Aligned(d.key, d.info)
            && (if view[i].status != ENABLED then Listing(GetKeys(d.key), d.info)[i] == view[i]
                else Listing(GetKeys(d.key), d.info)[i].status == MANUALLY_DISABLED)
  {
    UpdateSameKey(key, AllDisabledInfo(info));
  }

  lemma EnableAllOnView(key: string, info: Info, i: nat)
    requires Aligned(key, info) && i < info.size
    ensures var keys := GetKeys(key);
            var e := Update(key, key, info.(status := map[], disabledTime := map[], disabledReason := map[]));
            && e.key == key && Aligned(e.key, e.info)
            && Listing(GetKeys(e.key), e.info)[i] == KeyStatus(i, ENABLED, 0, "", Preview(keys[i]))
  {
    UpdateSameKey(key, info.(status := map[], disabledTime := map[], disabledReason := map[]));
  }

  // ---------- Appending keys ----------

  /** The keys that an append adds: the trimmed, non-blank lines of the input that are neither present nor
      repeated. */
  function FreshKeys(existing: seq<string>, input: string): seq<string> {
    Subtract(Split(input, '\n'), existing)
  }

  /** The key text that UpdateChannel hands to Update in append mode. */
  function AppendedKey(originKey: string, input: string): string {
    if originKey == "" then input
    else
      var existing := Split(TrimChar(originKey, '\n'), '\n');
      Join(existing + FreshKeys(existing, input), '\n')
  }

  lemma FilterUniqTake<T(!new)>(s: seq<T>, i: nat, keep: T -> bool)
    requires i < |s|
    ensures var before := Filter(Uniq(s[..i]), keep);
            Filter(Uniq(s[..i + 1]), keep) == if keep(s[i]) && s[i] !in before then before + [s[i]] else before
  {
    TakeStep(s, i);
    UniqAppend(s[..i], s[i]);
    FilterAppend(Uniq(s[..i]), s[i], keep);
  }

  /** The loop with the `seen` map: first occurrences that are not known yet. */
  method DedupeAgainst<T(==, !new)>(known: seq<T>, newKeys: seq<T>) returns (deduped: seq<T>)
    ensures deduped == Filter(Uniq(newKeys), n => n !in known)
  {
    var seen := set k | k in known;
    deduped := [];
    for i := 0 to |newKeys|
      invariant deduped == Filter(Uniq(newKeys[..i]), n => n !in known)
      invariant forall k :: k in seen <==> k in known || k in deduped
    {
      FilterUniqTake(newKeys, i, n => n !in known);
      if newKeys[i] !in seen {
        seen := seen + {newKeys[i]};
        deduped := deduped + [newKeys[i]];
      }
    }
    assert newKeys[..|newKeys|] == newKeys;
  }

  /** The append branch for newline-separated keys. */
  method AppendKeys(originKey: string, input: string) returns (newKey: string)
    ensures newKey == AppendedKey(originKey, input)
  {
    if originKey == "" {
      return input;
    }
    var existing := Split(TrimChar(originKey, '\n'), '\n');
    var newKeys := Filter(TrimAll(Split(input, '\n')), NotBlank);
    var deduped := DedupeAgainst(Normalize(existing), newKeys);
    newKey := Join(existing + deduped, '\n');
  }

  /** What is appended: trimmed, new, without repetition, and every non-blank input line ends up present. */
  lemma FreshKeysAreNew(existing: seq<string>, input: string)
    ensures var added := FreshKeys(existing, input);
            && Clean(added) && NewlineFree(added)
            && (forall k | k in added :: k !in Names(existing))
            && (forall k | k in Names(Split(input, '\n')) :: k in added || k in Names(existing))
  {
    SubtractNames(Split(input, '\n'), existing);
    forall k | k in FreshKeys(existing, input) ensures '\n' !in k {
      var line := NameSource(Split(input, '\n'), k);
    }
  }

  /** Existing keys stay an untouched prefix of the key list, exactly when the stored text holds more than newlines or
      nothing is appended; then every record still belongs to the same key. */
  lemma AppendKeepsIndices(originKey: string, input: string, info: Info)
    requires originKey != ""
    ensures var existing := GetKeys(originKey);
            var added := FreshKeys(existing, input);
            var s := Update(originKey, AppendedKey(originKey, input), info);
            && (GetKeys(s.key) == existing + added <==> existing[0] != "" || added == [])
            && (Aligned(originKey, info) && (existing[0] != "" || added == []) ==>
                  && Aligned(s.key, s.info) && s.info.status == info.status
                  && s.info.disabledTime == info.disabledTime && s.info.disabledReason == info.disabledReason
                  && Listing(GetKeys(s.key), s.info)[..|existing|] == Listing(existing, info))
  {
    var existing := GetKeys(originKey);
    var s := Update(originKey, AppendedKey(originKey, input), info);
    AppendReadsBack(originKey, existing, input);
    if Aligned(originKey, info) && (existing[0] != "" || FreshKeys(existing, input) == []) {
      LongerListKeepsRecords(existing, FreshKeys(existing, input), info, s.info);
    }
  }

  /** Records below the old length are the records of the old keys. */
  lemma LongerListKeepsRecords(existing: seq<string>, added: seq<string>, info: Info, later: Info)
    requires InDomain(info.status, |existing|)
    requires later.status == map i | i in info.status && i < |existing + added| :: info.status[i]
    requires later.disabledTime == info.disabledTime && later.disabledReason == info.disabledReason
    ensures later.status == info.status
    ensures Listing(existing + added, later)[..|existing|] == Listing(existing, info)
  {
    var longer, shorter := Listing(existing + added, later), Listing(existing, info);
    forall i | 0 <= i < |existing| ensures longer[i] == shorter[i] {
      assert (existing + added)[i] == existing[i];
    }
  }

  lemma AppendReadsBack(originKey: string, existing: seq<string>, input: string)
    requires originKey != "" && existing == GetKeys(originKey)
    ensures var joined := Join(existing + FreshKeys(existing, input), '\n');
            GetKeys(if joined != "" then joined else originKey) == existing + FreshKeys(existing, input)
            <==> existing[0] != "" || FreshKeys(existing, input) == []
  {
    var added := FreshKeys(existing, input);
    FreshKeysAreNew(existing, input);
    if added == [] {
      AppendNothing(originKey);
      assert existing + added == existing;
    } else {
      assert added[|added| - 1] in added;
      AppendSomething(existing, added);
    }
  }

  lemma AppendNothing(originKey: string)
    requires originKey != ""
    ensures var joined := Join(GetKeys(originKey), '\n');
            GetKeys(if joined != "" then joined else originKey) == GetKeys(originKey)
  {
    JoinSplit(TrimChar(originKey, '\n'), '\n');
  }

  lemma AppendSomething(existing: seq<string>, added: seq<string>)
    requires existing != [] && NewlineFree(existing)
    requires added != [] && NewlineFree(added) && added[|added| - 1] != ""
    ensures Join(existing + added, '\n') != ""
    ensures GetKeys(Join(existing + added, '\n')) == existing + added <==> existing[0] != ""
  {
    var all := existing + added;
    ConcatEnds(existing, added);
    forall k | k in all ensures '\n' !in k {
      InConcat(existing, added, k);
    }
    StoredKeysReadBack(all);
    assert all[|all| - 1] in all;
    JoinTail(all, '\n');
  }

  /** Appending the same input again adds nothing. */
  lemma AppendTwiceIsAppendOnce(existing: seq<string>, input: string)
    ensures FreshKeys(existing + FreshKeys(existing, input), input) == []
  {
    var added := FreshKeys(existing, input);
    FreshKeysAreNew(existing, input);
    CleanIsNormal(added);
    TrimAllConcat(existing, added);
    SubtractNames(Split(input, '\n'), existing + added);
    NoMembers(FreshKeys(existing + added, input));
  }

  lemma AppendedKeyHolds(originKey: string, input: string, k: string)
    requires originKey != "" && k in Names(Split(input, '\n'))
    ensures var joined := AppendedKey(originKey, input);
            k in Names(Split(if joined != "" then joined else originKey, '\n'))
  {
    var existing := Split(TrimChar(originKey, '\n'), '\n');
    var added := FreshKeys(existing, input);
    var all := existing + added;
    FreshKeysAreNew(existing, input);
    if k in added {
      InConcat(existing, added, k);
      TrimIsTrimmed(k);
      JoinedName(all, '\n', k);
    } else {
      var raw := NameSource(existing, k);
      InConcat(existing, added, raw);
      JoinedName(all, '\n', raw);
    }
    if Join(all, '\n') == "" {
      NoNamesInBlank(k);
    }
  }

  lemma NoNamesInBlank(k: string)
    ensures k !in Names(Split("", '\n'))
  {
    if k in Names(Split("", '\n')) {
      var raw := NameSource(Split("", '\n'), k);
    }
  }

  /** The stored text after an append holds every non-blank line of the input. */
  lemma StoredInput(originKey: string, input: string, info: Info, k: string)
    requires k in Names(Split(input, '\n'))
    ensures var s := Update(originKey, AppendedKey(originKey, input), info); s.key != "" && k in Names(GetKeys(s.key))
  {
    var s := Update(originKey, AppendedKey(originKey, input), info);
    if originKey != "" {
      AppendedKeyHolds(originKey, input, k);
    } else if input == "" {
      NoNamesInBlank(k);
    }
    TrimmedTextNames(s.key, '\n', k);
  }

  /** On the stored text: a second append of the same input leaves the key list as the first one left it, whatever was
      stored before, also when there was nothing. */
  lemma SecondAppendKeepsKeys(originKey: string, input: string, info: Info, later: Info)
    ensures var once := Update(originKey, AppendedKey(originKey, input), info);
            var twice := Update(once.key, AppendedKey(once.key, input), later);
            GetKeys(twice.key) == GetKeys(once.key)
  {
    var once := Update(originKey, AppendedKey(originKey, input), info);
    if once.key != "" {
      var existing := GetKeys(once.key);
      SubtractNames(Split(input, '\n'), existing);
      forall k ensures k !in FreshKeys(existing, input) {
        if k in Names(Split(input, '\n')) {
          StoredInput(originKey, input, info, k);
        }
      }
      NoMembers(FreshKeys(existing, input));
      AppendNothing(once.key);
      AppendNoKeys(existing);
    }
  }

  lemma AppendNoKeys(existing: seq<string>)
    ensures existing + [] == existing
  {
  }
}
