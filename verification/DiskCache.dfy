/** The usage counters of common/disk_cache_config.go and what a run of creations, closes and cleanups does to
    them. */
module DiskCache {

  /** The counters that say what is in use now. */
  datatype Usage = Usage(diskFiles: int, diskBytes: int, memoryBuffers: int, memoryBytes: int)

  datatype Config = Config(enabled: bool, threshold: int, maxBytes: int)

  function ClampedSub(a: int, b: int): int {
    if a - b < 0 then 0 else a - b
  }

  function DiskAdded(u: Usage, size: int): Usage {
    u.(diskFiles := u.diskFiles + 1, diskBytes := u.diskBytes + size)
  }

  /** Decrementing the disk counters never goes below zero, each counter on its own. */
  function DiskRemoved(u: Usage, size: int): Usage {
    u.(diskFiles := ClampedSub(u.diskFiles, 1), diskBytes := ClampedSub(u.diskBytes, size))
  }

  function MemoryAdded(u: Usage, size: int): Usage {
    u.(memoryBuffers := u.memoryBuffers + 1, memoryBytes := u.memoryBytes + size)
  }

  function MemoryRemoved(u: Usage, size: int): Usage {
    u.(memoryBuffers := u.memoryBuffers - 1, memoryBytes := u.memoryBytes - size)
  }

  /** IsDiskCacheAvailable */
  predicate Available(c: Config, u: Usage, requestSize: int) {
    c.enabled && u.diskBytes + requestSize <= c.maxBytes
  }

  class DiskCacheStats {
    var activeDiskFiles: int
    var currentDiskUsageBytes: int
    var activeMemoryBuffers: int
    var currentMemoryUsageBytes: int

    constructor ()
      ensures View() == Usage(0, 0, 0, 0)
    {
      activeDiskFiles, currentDiskUsageBytes := 0, 0;
      activeMemoryBuffers, currentMemoryUsageBytes := 0, 0;
    }

    function View(): Usage
      reads this
    {
      Usage(activeDiskFiles, currentDiskUsageBytes, activeMemoryBuffers, currentMemoryUsageBytes)
    }

    method IncrementDiskFiles(size: int)
      modifies this
      ensures View() == DiskAdded(old(View()), size)
    {
      activeDiskFiles := activeDiskFiles + 1;
      currentDiskUsageBytes := currentDiskUsageBytes + size;
    }

    method DecrementDiskFiles(size: int)
      modifies this
      ensures View() == DiskRemoved(old(View()), size)
    {
      activeDiskFiles := activeDiskFiles - 1;
      if activeDiskFiles < 0 {
        activeDiskFiles := 0;
      }
      currentDiskUsageBytes := currentDiskUsageBytes - size;
      if currentDiskUsageBytes < 0 {
        currentDiskUsageBytes := 0;
      }
    }

    method IncrementMemoryBuffers(size: int)
      modifies this
      ensures View() == MemoryAdded(old(View()), size)
    {
      activeMemoryBuffers := activeMemoryBuffers + 1;
      currentMemoryUsageBytes := currentMemoryUsageBytes + size;
    }

    method DecrementMemoryBuffers(size: int)
      modifies this
      ensures View() == MemoryRemoved(old(View()), size)
    {
      activeMemoryBuffers := activeMemoryBuffers - 1;
      currentMemoryUsageBytes := currentMemoryUsageBytes - size;
    }

    /** The cleanup loop over the cache directory: every file older than maxAge that can be removed is taken off
        the counters with its size on disk. */
    method CleanupOldFiles(files: seq<CacheFile>, now: int, maxAge: int)
      modifies this
      ensures View() == AfterCleanup(old(View()), files, now, maxAge)
    {
      for i := 0 to |files|
        invariant View() == AfterCleanup(old(View()), files[..i], now, maxAge)
      {
        assert files[..i + 1][..i] == files[..i];
        var f := files[i];
        if f.isDir || !f.readable {
          continue;
        }
        if now - f.modified > maxAge {
          if f.removable {
            DecrementDiskFiles(f.size);
          }
        }
      }
      assert files[..|files|] == files;
    }
  }

  /** A directory entry; `readable` and `removable` are the outcomes of the file system calls. */
  datatype CacheFile = CacheFile(size: nat, modified: int, isDir: bool, readable: bool, removable: bool)

  predicate Deletes(f: CacheFile, now: int, maxAge: int) {
    !f.isDir && f.readable && now - f.modified > maxAge && f.removable
  }

  function AfterCleanup(u: Usage, files: seq<CacheFile>, now: int, maxAge: int): Usage {
    if files == [] then u
    else
      var before, last := AfterCleanup(u, files[..|files| - 1], now, maxAge), files[|files| - 1];
      if Deletes(last, now, maxAge) then DiskRemoved(before, last.size) else before
  }

  // ---------- Runs ----------

  /** A request body that was created: its size, where it lives, and whether it is still open. */
  datatype Body = Body(size: nat, onDisk: bool, open: bool)

  /** All bodies created so far, the counters, and whether a cleanup has ever deleted a file. */
  datatype Ledger = Ledger(bodies: seq<Body>, usage: Usage, cleaned: bool)

  datatype Event =
    | Store(size: nat)                                   // a body whose bytes are already known
    | Stream(size: nat, declared: int)                   // a body streamed under its declared length
    | Close(index: nat)                                  // any number of times
    | Cleanup(files: seq<CacheFile>, now: int, maxAge: int)

  /** CreateBodyStorage puts a body on disk when it is large enough and fits; a streamed body decides by its
      declared length first, and otherwise by its size once it has been read. */
  predicate GoesToDisk(c: Config, u: Usage, e: Event)
    requires e.Store? || e.Stream?
  {
    || (c.enabled && e.size >= c.threshold && Available(c, u, e.size))
    || StreamsToDisk(c, u, e)
  }

  predicate StreamsToDisk(c: Config, u: Usage, e: Event) {
    e.Stream? && c.enabled && e.declared > 0 && e.declared >= c.threshold && Available(c, u, e.declared)
  }

  function Step(c: Config, l: Ledger, e: Event): Ledger {
    match e
    case Close(i) =>
      if i < |l.bodies| && l.bodies[i].open then
        var b := l.bodies[i];
        l.(bodies := l.bodies[i := b.(open := false)],
           usage := if b.onDisk then DiskRemoved(l.usage, b.size) else MemoryRemoved(l.usage, b.size))
      else l
    case Cleanup(files, now, maxAge) =>
      l.(usage := AfterCleanup(l.usage, files, now, maxAge),
         cleaned := l.cleaned || exists i | 0 <= i < |files| :: Deletes(files[i], now, maxAge))
    case _ =>
      var disk := GoesToDisk(c, l.usage, e);
      l.(bodies := l.bodies + [Body(e.size, disk, true)],
         usage := if disk then DiskAdded(l.usage, e.size) else MemoryAdded(l.usage, e.size))
  }

  function Run(c: Config, l: Ledger, events: seq<Event>): Ledger
    decreases |events|
  {
    if events == [] then l else Run(c, Step(c, l, events[0]), events[1..])
  }

  // ---------- What the counters should say ----------

  function OpenCount(bodies: seq<Body>, onDisk: bool): nat {
    if bodies == [] then 0
    else
      var b := bodies[|bodies| - 1];
      OpenCount(bodies[..|bodies| - 1], onDisk) + if b.open && b.onDisk == onDisk then 1 else 0
  }

  function OpenBytes(bodies: seq<Body>, onDisk: bool): nat {
    if bodies == [] then 0
    else
      var b := bodies[|bodies| - 1];
      OpenBytes(bodies[..|bodies| - 1], onDisk) + if b.open && b.onDisk == onDisk then b.size else 0
  }

  lemma {:induction false} ClosingSubtracts(bodies: seq<Body>, i: nat, onDisk: bool)
    requires i < |bodies| && bodies[i].open
    ensures var b := bodies[i];
            var after := bodies[i := b.(open := false)];
            && OpenCount(after, onDisk) == OpenCount(bodies, onDisk) - (if b.onDisk == onDisk then 1 else 0)
            && OpenBytes(after, onDisk) == OpenBytes(bodies, onDisk) - (if b.onDisk == onDisk then b.size else 0)
  {
    var init := bodies[..|bodies| - 1];
    var after := bodies[i := bodies[i].(open := false)];
    if i < |bodies| - 1 {
      ClosingSubtracts(init, i, onDisk);
      assert after[..|after| - 1] == init[i := init[i].(open := false)];
    } else {
      assert after[..|after| - 1] == init;
    }
  }

  lemma CreatingAdds(bodies: seq<Body>, b: Body, onDisk: bool)
    requires b.open
    ensures OpenCount(bodies + [b], onDisk) == OpenCount(bodies, onDisk) + (if b.onDisk == onDisk then 1 else 0)
    ensures OpenBytes(bodies + [b], onDisk) == OpenBytes(bodies, onDisk) + (if b.onDisk == onDisk then b.size else 0)
  {
    assert (bodies + [b])[..|bodies|] == bodies;
  }

  ghost predicate Conserved(l: Ledger) {
    && l.usage.memoryBuffers == OpenCount(l.bodies, false)
    && l.usage.memoryBytes == OpenBytes(l.bodies, false)
    && 0 <= l.usage.diskFiles <= OpenCount(l.bodies, true)
    && 0 <= l.usage.diskBytes <= OpenBytes(l.bodies, true)
    && (!l.cleaned ==> l.usage.diskFiles == OpenCount(l.bodies, true) && l.usage.diskBytes == OpenBytes(l.bodies, true))
  }

  lemma {:induction false} CleanupOnlyLowers(u: Usage, files: seq<CacheFile>, now: int, maxAge: int)
    requires u.diskFiles >= 0 && u.diskBytes >= 0
    ensures var u' := AfterCleanup(u, files, now, maxAge);
            && u'.memoryBuffers == u.memoryBuffers && u'.memoryBytes == u.memoryBytes
            && 0 <= u'.diskFiles <= u.diskFiles && 0 <= u'.diskBytes <= u.diskBytes
            && ((forall i | 0 <= i < |files| :: !Deletes(files[i], now, maxAge)) ==> u' == u)
  {
    if files != [] {
      CleanupOnlyLowers(u, files[..|files| - 1], now, maxAge);
    }
  }

  /** A file that is over the age and that the file system lets go of. */
  predicate Stale(f: CacheFile, now: int, maxAge: int) {
    f.modified + maxAge < now && f.readable && f.removable && !f.isDir
  }

  function StaleCount(files: seq<CacheFile>, now: int, maxAge: int): nat {
    if files == [] then 0
    else StaleCount(files[1..], now, maxAge) + if Stale(files[0], now, maxAge) then 1 else 0
  }

  function StaleBytes(files: seq<CacheFile>, now: int, maxAge: int): nat {
    if files == [] then 0
    else StaleBytes(files[1..], now, maxAge) + if Stale(files[0], now, maxAge) then files[0].size else 0
  }

  lemma {:induction false} StaleAppend(files: seq<CacheFile>, f: CacheFile, now: int, maxAge: int)
    ensures StaleCount(files + [f], now, maxAge)
            == StaleCount(files, now, maxAge) + if Stale(f, now, maxAge) then 1 else 0
    ensures StaleBytes(files + [f], now, maxAge)
            == StaleBytes(files, now, maxAge) + if Stale(f, now, maxAge) then f.size else 0
  {
    var all := files + [f];
    if files == [] {
      assert all[1..] == [];
    } else {
      assert all[1..] == files[1..] + [f];
      StaleAppend(files[1..], f, now, maxAge);
    }
  }

  /** A cleanup takes exactly the stale files off the disk counters, down to zero at most. */
  lemma {:induction false} CleanupTakesStale(u: Usage, files: seq<CacheFile>, now: int, maxAge: int)
    requires u.diskFiles >= 0 && u.diskBytes >= 0
    ensures var u', n, bytes := AfterCleanup(u, files, now, maxAge), StaleCount(files, now, maxAge),
                                StaleBytes(files, now, maxAge);
            && u'.diskFiles == (if n < u.diskFiles then u.diskFiles - n else 0)
            && u'.diskBytes == (if bytes < u.diskBytes then u.diskBytes - bytes else 0)
  {
    if files != [] {
      var init, last := files[..|files| - 1], files[|files| - 1];
      assert files == init + [last];
      CleanupTakesStale(u, init, now, maxAge);
      StaleAppend(init, last, now, maxAge);
    }
  }

  /** A body whose bytes are known goes to disk exactly when caching is on, it is not below the threshold, and it fits
      under the maximum; a streamed one also when that holds of a positive declared length. */
  lemma GoesToDiskIff(c: Config, l: Ledger, size: nat, declared: int)
    ensures var stored := Step(c, l, Store(size));
            && |stored.bodies| == |l.bodies| + 1
            && (stored.bodies[|l.bodies|].onDisk
                <==> c.enabled && c.threshold <= size && l.usage.diskBytes + size <= c.maxBytes)
    ensures var streamed := Step(c, l, Stream(size, declared));
            && |streamed.bodies| == |l.bodies| + 1
            && (streamed.bodies[|l.bodies|].onDisk
                <==> && c.enabled
                     && ((c.threshold <= size && l.usage.diskBytes + size <= c.maxBytes)
                         || (0 < declared && c.threshold <= declared && l.usage.diskBytes + declared <= c.maxBytes)))
  {
  }

  lemma CloseConserves(c: Config, l: Ledger, i: nat)
    requires Conserved(l) && i < |l.bodies| && l.bodies[i].open
    ensures Conserved(Step(c, l, Close(i)))
  {
    ClosingSubtracts(l.bodies, i, true);
    ClosingSubtracts(l.bodies, i, false);
  }

  lemma StepConserves(c: Config, l: Ledger, e: Event)
    requires Conserved(l)
    ensures Conserved(Step(c, l, e))
  {
    match e
    case Close(i) =>
      if i < |l.bodies| && l.bodies[i].open {
        CloseConserves(c, l, i);
      }
    case Cleanup(files, now, maxAge) =>
      CleanupOnlyLowers(l.usage, files, now, maxAge);
    case _ =>
      CreationConserves(c, l, e);
  }

  lemma CreationConserves(c: Config, l: Ledger, e: Event)
    requires Conserved(l) && (e.Store? || e.Stream?)
    ensures Conserved(Step(c, l, e))
  {
    RecordingConserves(l, e.size, GoesToDisk(c, l.usage, e));
  }

  lemma RecordingConserves(l: Ledger, size: nat, disk: bool)
    requires Conserved(l)
    ensures Conserved(l.(bodies := l.bodies + [Body(size, disk, true)],
                         usage := if disk then DiskAdded(l.usage, size) else MemoryAdded(l.usage, size)))
  {
    CreatingAdds(l.bodies, Body(size, disk, true), true);
    CreatingAdds(l.bodies, Body(size, disk, true), false);
  }

  /** Over every run, with bodies closed any number of times: the memory counters are exactly the open memory
      bodies; the disk counters are exactly the open disk bodies until a cleanup deletes a file, and lie between
      zero and them afterwards. */
  lemma {:induction false} RunConserves(c: Config, l: Ledger, events: seq<Event>)
    requires Conserved(l)
    ensures Conserved(Run(c, l, events))
    decreases |events|
  {
    if events != [] {
      StepConserves(c, l, events[0]);
      RunConserves(c, Step(c, l, events[0]), events[1..]);
    }
  }

  /** The limit on disk usage holds over every run in which no streamed body exceeds its declared length. */
  lemma {:induction false} RunStaysWithinMaximum(c: Config, l: Ledger, events: seq<Event>)
    requires l.usage.diskBytes <= c.maxBytes && l.usage.diskBytes >= 0 && l.usage.diskFiles >= 0 && c.maxBytes >= 0
    requires forall i | 0 <= i < |events| && events[i].Stream? :: events[i].size <= events[i].declared
    ensures Run(c, l, events).usage.diskBytes <= c.maxBytes
    decreases |events|
  {
    if events != [] {
      var e := events[0];
      if e.Cleanup? {
        CleanupOnlyLowers(l.usage, e.files, e.now, e.maxAge);
      }
      assert forall i | 0 <= i < |events[1..]| :: events[1..][i] == events[i + 1];
      RunStaysWithinMaximum(c, Step(c, l, e), events[1..]);
    }
  }

  /** One streamed body passes the limit exactly when it goes to disk under a declared length that fits and its
      bytes do not. */
  lemma StreamExceedsMaximumIff(c: Config, l: Ledger, size: nat, declared: int)
    requires l.usage.diskBytes <= c.maxBytes
    ensures Step(c, l, Stream(size, declared)).usage.diskBytes > c.maxBytes
            <==> StreamsToDisk(c, l.usage, Stream(size, declared)) && l.usage.diskBytes + size > c.maxBytes
  {
  }

  /** The tracked disk bytes are within the maximum now and after every event of the run. */
  ghost predicate AlwaysWithin(c: Config, l: Ledger, events: seq<Event>)
    decreases |events|
  {
    l.usage.diskBytes <= c.maxBytes && (events == [] || AlwaysWithin(c, Step(c, l, events[0]), events[1..]))
  }

  /** The event streams a body to disk under a declared length that fits although its bytes do not. */
  predicate Overruns(c: Config, l: Ledger, e: Event) {
    e.Stream? && StreamsToDisk(c, l.usage, e) && l.usage.diskBytes + e.size > c.maxBytes
  }

  ghost predicate NeverOverruns(c: Config, l: Ledger, events: seq<Event>)
    decreases |events|
  {
    events == [] || (!Overruns(c, l, events[0]) && NeverOverruns(c, Step(c, l, events[0]), events[1..]))
  }

  lemma StepStaysWithinIff(c: Config, l: Ledger, e: Event)
    requires Conserved(l) && l.usage.diskBytes <= c.maxBytes
    ensures Step(c, l, e).usage.diskBytes <= c.maxBytes <==> !Overruns(c, l, e)
  {
    if e.Cleanup? {
      CleanupOnlyLowers(l.usage, e.files, e.now, e.maxAge);
    }
  }

  /** Over every run, the tracked disk bytes stay within the maximum exactly when no streamed body overruns it. */
  lemma {:induction false} RunStaysWithinIff(c: Config, l: Ledger, events: seq<Event>)
    requires Conserved(l) && l.usage.diskBytes <= c.maxBytes
    ensures AlwaysWithin(c, l, events) <==> NeverOverruns(c, l, events)
    decreases |events|
  {
    if events != [] {
      StepConserves(c, l, events[0]);
      StepStaysWithinIff(c, l, events[0]);
      if !Overruns(c, l, events[0]) {
        RunStaysWithinIff(c, Step(c, l, events[0]), events[1..]);
      }
    }
  }
}
