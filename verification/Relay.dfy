/** Reusing the request body (common/gin.go) across the retry loops of controller/relay.go, and what those loops
    do about billing.  Upstream answers, channel selection and billing calls come from the environment. */
module Relay {
  import opened BodyStorage
  import opened ChannelSelect
  import opened DiskCache
  import opened Options

  const DEFAULT_BODY_MB := 128

  // ---------- The request context ----------

  class Context {
    var storage: Option<Storage>      // KeyBodyStorage
    const cachedBody: Option<Bytes>   // KeyRequestBody, the older way of caching
    const body: Reader                // c.Request.Body as it arrived
    const contentLength: int
    const maxRequestBodyMB: int
    const config: Config
    const stats: DiskCacheStats

    constructor (cachedBody: Option<Bytes>, body: Reader, contentLength: int, maxRequestBodyMB: int,
                 config: Config, stats: DiskCacheStats)
      ensures storage == None && this.cachedBody == cachedBody && this.body == body && this.stats == stats
      ensures this.contentLength == contentLength && this.maxRequestBodyMB == maxRequestBodyMB && this.config == config
    {
      storage, this.cachedBody, this.body := None, cachedBody, body;
      this.contentLength, this.maxRequestBodyMB, this.config, this.stats := contentLength, maxRequestBodyMB, config,
          stats;
    }

    ghost predicate Valid()
      reads this
    {
      storage.Some? ==> storage.value.Valid() && storage.value.Stats() == stats
    }

    ghost function Repr(): set<object>
      reads this
    {
      {this, body, stats} + if storage.Some? then {storage.value.Repr()} else {}
    }

    /** The body has been read once and not been cleaned up. */
    ghost predicate Ready()
      reads this, if storage.Some? then {storage.value.Repr()} else {}
    {
      storage.Some? && !storage.value.View().closed
    }

    /** The configured limit, or 128 MB when it is not positive. */
    function MaxBytes(): (n: int)
      ensures n > 0
    {
      (if maxRequestBodyMB <= 0 then DEFAULT_BODY_MB else maxRequestBodyMB) * 0x10_0000
    }

    /** Can a body still be had, when none is stored and the disk works? */
    ghost predicate Arriving()
      reads this, body
    {
      cachedBody.Some? || (!body.closed && !body.broken && |body.rest| <= MaxBytes())
    }

    /** What the first read will find. */
    ghost function Incoming(): Bytes
      reads this, body
    {
      if cachedBody.Some? then cachedBody.value else body.rest
    }

    /** The whole body, wherever it is by now. */
    ghost function WholeBody(): Bytes
      reads this, body, if storage.Some? then {storage.value.Repr()} else {}
    {
      if storage.Some? then storage.value.View().data else Incoming()
    }

    /** GetBodyStorage: a store that is there is rewound, otherwise it is created and remembered.  The request's own
        body is read once and closed, so a refused body stays refused. */
    method GetBodyStorage(diskWorks: bool) returns (r: Creation)
      requires Valid()
      modifies Repr()
      ensures Valid() && fresh(Repr() - old(Repr()))
      ensures old(Ready()) ==> storage == old(storage) && r == Created(storage.value)
                               && storage.value.View() == old(storage.value.View()).(pos := 0)
      ensures old(storage.Some?) && !old(Ready()) ==> r == Refused(StorageClosed) && storage == old(storage)
      ensures old(storage.None?) && diskWorks ==> (r.Created? <==> old(Arriving()))
      ensures old(storage.None?) && diskWorks && cachedBody.None? ==>
                (r.Created? <==> && !old(body.closed) && !body.broken
                                 && |old(body.rest)| <= (if maxRequestBodyMB > 0 then maxRequestBodyMB else 128)
                                                        * 1048576)
      ensures old(storage.None?) && r.Refused? ==> cachedBody.None? && body.closed && !Arriving()
      ensures old(storage.None?) && r.Created? ==>
                storage == Some(r.storage) && fresh(r.storage.Repr()) && r.storage.View()
                    == State(old(Incoming()), 0, false)
      ensures r.Refused? ==> storage == old(storage)
    {
      if storage.Some? {
        var sought := storage.value.Seek(0, SeekStart);
        if sought.error.Some? {
          return Refused(sought.error.value);
        }
        return Created(storage.value);
      }
      if cachedBody.Some? {
        var s := CreateBodyStorage(config, stats, cachedBody.value, diskWorks);
        storage := Some(s);
        return Created(s);
      }
      r := CreateBodyStorageFromReader(config, stats, body, contentLength, MaxBytes(), diskWorks);
      body.Close();
      if r.Created? {
        storage := Some(r.storage);
      }
    }

    /** UnmarshalBodyReusable: `decoded` says whether the parser accepts the body and `consumed` how far it reads.
        A JSON body on disk is parsed from the store itself, anything else from a copy. */
    method UnmarshalBodyReusable(isJson: bool, decoded: bool, consumed: nat, diskWorks: bool) returns (ok: bool)
      requires Valid()
      modifies Repr()
      ensures Valid() && fresh(Repr() - old(Repr()))
      ensures old(Ready()) ==> Ready() && storage == old(storage) && ok == decoded
      ensures old(storage.None?) && diskWorks ==> (ok <==> decoded && old(Arriving()))
      ensures ok ==> decoded && Ready() && storage.value.View() == State(old(WholeBody()), 0, false)
      ensures Ready() ==> WholeBody() == old(WholeBody())
    {
      var got := GetBodyStorage(diskWorks);
      if got.Refused? {
        return false;
      }
      var s := got.storage;
      if s.Disk? && isJson {
        var start := s.Seek(0, SeekStart);
        var parsed := s.Seek(consumed, SeekStart);
        if !decoded {
          return false;
        }
        var again := s.Seek(0, SeekStart);
        return true;
      }
      var all := s.Bytes();
      if !decoded {
        return false;
      }
      var rewound := s.Seek(0, SeekStart);
      ok := true;
    }

    /** ParseMultipartFormReusable: the form is parsed from a copy of the body */
    method ParseMultipartFormReusable(parsed: bool, diskWorks: bool) returns (ok: bool)
      requires Valid()
      modifies Repr()
      ensures Valid() && fresh(Repr() - old(Repr()))
      ensures old(Ready()) ==> Ready() && storage == old(storage) && ok == parsed
      ensures ok ==> parsed && Ready() && storage.value.View() == State(old(WholeBody()), 0, false)
      ensures Ready() ==> WholeBody() == old(WholeBody())
    {
      var got := GetBodyStorage(diskWorks);
      if got.Refused? {
        return false;
      }
      var all := got.storage.Bytes();
      if !parsed {
        return false;
      }
      var rewound := got.storage.Seek(0, SeekStart);
      ok := true;
    }

    /** CleanupBodyStorage */
    method CleanupBodyStorage()
      requires Valid()
      modifies Repr()
      ensures Valid() && storage == None
      ensures old(storage.Some?) ==> old(storage).value.View() == old(storage.value.View()).(closed := true)
    {
      if storage.Some? {
        storage.value.Close();
        storage := None;
      }
    }
  }

  lemma ReadSplitsRemaining(s: State, room: nat)
    requires !s.closed && room > 0
    ensures Remaining(s) == Chunk(s, room) + Remaining(AfterRead(s, room))
    ensures s.pos < |s.data| ==> Chunk(s, room) != []
  {
    if s.pos < |s.data| && room < |Remaining(s)| {
      assert s.data[s.pos..][room..] == s.data[s.pos + room..];
    }
  }

  /** A consumer that reads the body to its end in pieces. */
  method Drain(s: Storage, room: nat) returns (data: Bytes)
    requires room > 0 && !s.View().closed
    modifies s.Repr()
    ensures data == Remaining(old(s.View()))
    ensures s.View().data == old(s.View().data) && !s.View().closed
  {
    data := [];
    ghost var all, total := s.View().data, Remaining(s.View());
    while true
      invariant s.View().data == all && !s.View().closed
      invariant data + Remaining(s.View()) == total
      decreases |Remaining(s.View())|
    {
      ghost var before := s.View();
      var r := s.Read(room);
      assert r == ReadResult(before, room) && s.View() == AfterRead(before, room);
      if r.error.Some? {
        break;
      }
      DrainStep(total, data, before, room);
      data := data + r.bytes;
    }
  }

  lemma DrainStep(total: Bytes, data: Bytes, s: State, room: nat)
    requires !s.closed && room > 0 && data + Remaining(s) == total
    ensures data + Chunk(s, room) + Remaining(AfterRead(s, room)) == total
    ensures s.pos < |s.data| ==> |Remaining(AfterRead(s, room))| < |Remaining(s)|
  {
    ReadSplitsRemaining(s, room);
    assert data + Chunk(s, room) + Remaining(AfterRead(s, room))
        == data + (Chunk(s, room) + Remaining(AfterRead(s, room)));
  }

  // ---------- Whether to try again ----------

  /** What the retry decisions look at. */
  datatype Failure = Failure(
    affinitySkips: bool,     // ShouldSkipRetryAfterChannelAffinityFailure
    channelError: bool,      // types.IsChannelError
    skipRetry: bool,         // types.IsSkipRetryError
    specificChannel: bool,   // the caller pinned a channel
    statusCode: int,
    alwaysSkip: bool,        // the configured "never retry" codes
    retryByStatus: bool,     // ShouldRetryByStatusCode
    localError: bool)

  /** shouldRetry, with the retries that are left */
  predicate ShouldRetry(f: Failure, left: int) {
    if f.affinitySkips then false
    else if f.channelError then true
    else if f.skipRetry then false
    else if left <= 0 then false
    else if f.specificChannel then false
    else if 200 <= f.statusCode < 300 then false
    else if f.statusCode < 100 || f.statusCode > 599 then true
    else if f.alwaysSkip then false
    else f.retryByStatus
  }

  /** Go's division truncates towards zero. */
  function Hundreds(code: int): int {
    if code >= 0 then code / 100 else -((-code) / 100)
  }

  /** shouldRetryTaskRelay */
  predicate ShouldRetryTask(f: Failure, left: int) {
    if f.affinitySkips then false
    else if left <= 0 then false
    else if f.specificChannel then false
    else if f.statusCode == 429 then true
    else if f.statusCode == 307 then true
    else if Hundreds(f.statusCode) == 5 then !f.alwaysSkip
    else if f.statusCode == 400 then false
    else if f.statusCode == 408 then false
    else if f.localError then false
    else if Hundreds(f.statusCode) == 2 then false
    else true
  }

  // ---------- The loop ----------

  /** What the environment does in one round of a relay loop. */
  datatype Attempt = Attempt(
    choice: Choice,             // where the channel comes from
    setupWorks: bool,           // SetupContextForSelectedChannel
    room: nat,                  // how large the pieces are in which the handler reads
    leavesAt: nat,              // where the handler leaves the body
    charges: bool,              // a task handler pre-consumes quota, unless an earlier attempt has done so
    failure: Option<Failure>)   // the handler's outcome

  /** How a run of the loop ends: with an error or not, after how many calls of the handler; an unfinished run is
      one whose environment has not answered yet. */
  datatype End = End(error: bool, attempts: nat, finished: bool)

  type RetryPolicy = (Failure, int) -> bool

  /** The channel of an attempt, and the counter that choosing it leaves behind. */
  function Start(s: Settings, c: Counter, a: Attempt): Selected {
    var r := Chosen(s, c, a.choice);
    r.(found := r.found && a.setupWorks)
  }

  /** The loop as a function of what the environment does, for a body that can be rewound. */
  function Drive(policy: RetryPolicy, s: Settings, c: Counter, script: seq<Attempt>, error: bool): End
    decreases |script|
  {
    if c.retry > s.retryTimes then End(error, 0, true)
    else if script == [] then End(error, 0, false)
    else
      var a := script[0];
      var r := Start(s, c, a);
      if !r.found then End(true, 0, true)
      else if a.failure.None? then End(false, 1, true)
      else if !policy(a.failure.value, s.retryTimes - r.counter.retry) then End(true, 1, true)
      else
        var rest := Drive(policy, s, Increased(r.counter), script[1..], true);
        rest.(attempts := rest.attempts + 1)
  }

  /** A run from a fresh counter. */
  function WholeRun(policy: RetryPolicy, s: Settings, group: nat, script: seq<Attempt>): End {
    Drive(policy, s, Counter(0, false, group), script, false)
  }

  /** After i rounds the loop is where the function says it should be. */
  ghost predicate OnTrack(policy: RetryPolicy, s: Settings, group: nat, script: seq<Attempt>, i: nat, c: Counter,
                          error: bool)
    requires i <= |script|
  {
    var rest := Drive(policy, s, c, script[i..], error);
    WholeRun(policy, s, group, script) == rest.(attempts := rest.attempts + i)
  }

  /** One more round: the run ends here, or stays on track. */
  lemma RoundOfLoop(policy: RetryPolicy, s: Settings, group: nat, script: seq<Attempt>, i: nat, c: Counter, error: bool)
    requires i <= |script| && OnTrack(policy, s, group, script, i, c, error)
    ensures var whole := WholeRun(policy, s, group, script);
            if c.retry > s.retryTimes || i == |script| then whole == End(error, i, c.retry > s.retryTimes)
            else
              var r := Start(s, c, script[i]);
              if !r.found then whole == End(true, i, true)
              else if script[i].failure.None? || !policy(script[i].failure.value, s.retryTimes - r.counter.retry)
              then whole == End(script[i].failure.Some?, i + 1, true)
              else OnTrack(policy, s, group, script, i + 1, Increased(r.counter), true)
  {
    if i < |script| {
      assert script[i..][1..] == script[i + 1..];
    }
  }

  /** One call of the handler: the body is rewound, or read for the first time, and offered from its start; the
      handler leaves it anywhere. */
  method Offer(ctx: Context, a: Attempt, diskWorks: bool) returns (offered: Option<Bytes>)
    requires ctx.Valid()
    modifies ctx.Repr()
    ensures ctx.Valid() && fresh(ctx.Repr() - old(ctx.Repr()))
    ensures old(ctx.storage.Some?) ==> ctx.storage == old(ctx.storage)
    ensures old(ctx.Ready()) ==> offered == Some(old(ctx.storage.value.View().data))
    ensures offered.Some? ==> ctx.Ready() && offered.value == old(ctx.WholeBody()) == ctx.WholeBody()
  {
    var got := ctx.GetBodyStorage(diskWorks);
    if got.Refused? {
      return None;
    }
    var s := got.storage;
    var data := Drain(s, a.room + 1);
    var left := s.Seek(a.leavesAt, SeekStart);
    offered := Some(data);
  }

  /** The first half of a round: a channel is chosen and the handler is offered the body. */
  method ChooseAndOffer(ctx: Context, param: RetryParam, s: Settings, a: Attempt, diskWorks: bool)
      returns (offered: Option<Bytes>)
    requires ctx.Valid() && param !in ctx.Repr()
    modifies ctx.Repr(), param
    ensures ctx.Valid() && fresh(ctx.Repr() - old(ctx.Repr())) && param !in ctx.Repr()
    ensures old(ctx.storage.Some?) ==> ctx.storage == old(ctx.storage)
    ensures param.View() == Start(s, old(param.View()), a).counter
    ensures offered.Some? ==> Start(s, old(param.View()), a).found
    ensures old(ctx.Ready()) ==> ctx.Ready() && ctx.storage == old(ctx.storage)
                                 && offered.Some? == Start(s, old(param.View()), a).found
    ensures offered.Some? ==> ctx.Ready() && offered.value == old(ctx.WholeBody()) == ctx.WholeBody()
  {
    var found := param.Choose(s, a.choice);
    if !found || !a.setupWorks {
      return None;
    }
    offered := Offer(ctx, a, diskWorks);
  }

  /** One round of the loop: choose a channel, rewind the body, call the handler, decide whether to try again. */
  method OneRound(ctx: Context, param: RetryParam, policy: RetryPolicy, s: Settings, a: Attempt, diskWorks: bool)
      returns (offered: Option<Bytes>, again: bool)
    requires ctx.Valid() && param !in ctx.Repr()
    modifies ctx.Repr(), param
    ensures ctx.Valid() && param !in ctx.Repr() && (offered.None? || ctx.Ready())
    ensures if old(ctx.storage.Some?) then ctx.storage == old(ctx.storage)
            else ctx.storage.Some? ==> fresh(ctx.storage.value.Repr())
    ensures old(ctx.Ready()) ==> ctx.Ready() && offered.Some? == Start(s, old(param.View()), a).found
    ensures offered.Some? ==> Start(s, old(param.View()), a).found
    ensures offered.Some? ==> offered.value == old(ctx.WholeBody()) == ctx.WholeBody()
    ensures var c := Start(s, old(param.View()), a).counter;
            && again == (offered.Some? && a.failure.Some? && policy(a.failure.value, s.retryTimes - c.retry))
            && (again ==> param.View() == Increased(c))
  {
    again := false;
    offered := ChooseAndOffer(ctx, param, s, a, diskWorks);
    if offered.None? || a.failure.None? {
      return;
    }
    if !policy(a.failure.value, s.retryTimes - param.retry) {
      return;
    }
    param.IncreaseRetry();
    again := true;
  }

  /** The loop that Relay and RelayTask share. */
  method RelayLoop(ctx: Context, policy: RetryPolicy, s: Settings, group: nat, script: seq<Attempt>, diskWorks: bool)
      returns (end: End, forwarded: seq<Bytes>)
    requires ctx.Valid()
    modifies ctx.Repr()
    ensures |forwarded| == end.attempts <= |script|
    ensures old(ctx.Ready()) ==>
              && end == WholeRun(policy, s, group, script)
              && ctx.storage == old(ctx.storage) && ctx.Ready()
    ensures forall k | 0 <= k < |forwarded| :: forwarded[k] == old(ctx.WholeBody())
  {
    ghost var body := ctx.WholeBody();
    var param := new RetryParam(group);
    ghost var c := param.View();
    var error, i := false, 0;
    forwarded := [];
    while param.retry <= s.retryTimes && i < |script|
      invariant 0 <= i <= |script| && |forwarded| == i
      invariant fresh(param) && param !in ctx.Repr()
      invariant ctx.Valid() && ctx.WholeBody() == body && param.View() == c
      invariant if old(ctx.storage.Some?) then ctx.storage == old(ctx.storage) && (old(ctx.Ready()) ==> ctx.Ready())
                else ctx.storage.Some? ==> fresh(ctx.storage.value.Repr())
      invariant OnTrack(policy, s, group, script, i, c, error)
      invariant forall k | 0 <= k < i :: forwarded[k] == body
      decreases |script| - i
    {
      var a := script[i];
      RoundOfLoop(policy, s, group, script, i, c, error);
      var offered, again := OneRound(ctx, param, policy, s, a, diskWorks);
      error := offered.None? || a.failure.Some?;
      if offered.Some? {
        forwarded := forwarded + [offered.value];
        i := i + 1;
      }
      if !again {
        return End(error, i, true), forwarded;
      }
      c := param.View();
    }
    RoundOfLoop(policy, s, group, script, i, c, error);
    end := End(error, i, param.retry > s.retryTimes);
  }

  // ---------- Billing ----------

  /** How pre-consumption ends before the loop of Relay: only a granted one leaves something to refund. */
  datatype PreConsume = FreeModel | PreConsumed | Rejected

  /** Parsing the request and pre-consuming quota. */
  datatype Preparation = Preparation(isJson: bool, decoded: bool, consumed: nat, billing: PreConsume)

  /** Relay: the request is parsed from the body, quota is pre-consumed, and the deferred refund runs when the
      function returns with an error after that. */
  method RelayRequest(ctx: Context, prep: Preparation, s: Settings, group: nat, script: seq<Attempt>, diskWorks: bool)
      returns (end: End, prepared: bool, taken: nat, refunds: nat, forwarded: seq<Bytes>)
    requires ctx.Valid()
    modifies ctx.Repr()
    ensures !prepared ==> end == End(true, 0, true) && taken == refunds == 0 && forwarded == []
    ensures prepared ==> prep.decoded && !prep.billing.Rejected?
    ensures old(ctx.Ready()) ==> (prepared <==> prep.decoded && !prep.billing.Rejected?)
    ensures prepared ==> end == WholeRun(ShouldRetry, s, group, script)
    ensures prepared ==> taken == if prep.billing.PreConsumed? then 1 else 0
    ensures refunds == if end.finished && end.error then taken else 0
    ensures |forwarded| == end.attempts && forall k | 0 <= k < |forwarded| :: forwarded[k] == old(ctx.WholeBody())
  {
    taken, refunds, forwarded, prepared := 0, 0, [], false;
    end := End(true, 0, true);
    var ok := ctx.UnmarshalBodyReusable(prep.isJson, prep.decoded, prep.consumed, diskWorks);
    if !ok {
      return;
    }
    var hasBilling := false;
    if !prep.billing.FreeModel? {
      if prep.billing.Rejected? {
        return;
      }
      taken, hasBilling := 1, true;
    }
    prepared := true;
    end, forwarded := RelayLoop(ctx, ShouldRetry, s, group, script, diskWorks);
    if end.finished && end.error {
      if hasBilling {
        refunds := 1;
      }
    }
  }

  datatype TaskOutcome = Settled | Refunded | FailedWithoutBilling | NilResult

  /** Some attempt among the first n has pre-consumed quota. */
  predicate Charged(script: seq<Attempt>, n: nat)
    requires n <= |script|
  {
    exists k | 0 <= k < n :: script[k].charges
  }

  /** RelayTask once its origin task is resolved.  The handler pre-consumes quota in the first attempt that gets so
      far.  Without a single attempt there is neither an error nor a result, and settling dereferences the missing
      result. */
  method RelayTask(ctx: Context, s: Settings, group: nat, script: seq<Attempt>, diskWorks: bool)
      returns (end: End, outcomes: seq<TaskOutcome>, forwarded: seq<Bytes>)
    requires ctx.Valid()
    modifies ctx.Repr()
    ensures |forwarded| == end.attempts <= |script|
    ensures end.finished ==> outcomes == [
              if end.error then (if Charged(script, end.attempts) then Refunded else FailedWithoutBilling)
              else if end.attempts == 0 then NilResult else Settled]
    ensures !end.finished ==> outcomes == []
    ensures Refunded in outcomes <==> && end.finished && end.error
                                      && exists k :: 0 <= k < |forwarded| && script[k].charges
    ensures old(ctx.Ready()) ==> end == WholeRun(ShouldRetryTask, s, group, script)
    ensures forall k | 0 <= k < |forwarded| :: forwarded[k] == old(ctx.WholeBody())
  {
    outcomes := [];
    end, forwarded := RelayLoop(ctx, ShouldRetryTask, s, group, script, diskWorks);
    if !end.finished {
      return;
    }
    var hasBilling := Charged(script, end.attempts);
    if !end.error {
      outcomes := outcomes + [if end.attempts == 0 then NilResult else Settled];
    }
    if end.error {
      outcomes := outcomes + [if hasBilling then Refunded else FailedWithoutBilling];
    }
  }

  /** A run ends without an error exactly when its last attempt succeeded, or when no attempt was allowed at all. */
  lemma {:induction false} EndsWellIff(policy: RetryPolicy, s: Settings, c: Counter, script: seq<Attempt>, error: bool)
    ensures var end := Drive(policy, s, c, script, error);
            && end.attempts <= |script|
            && (end.finished && !end.error <==>
                  if end.attempts == 0 then c.retry > s.retryTimes && !error
                  else script[end.attempts - 1].failure.None?)
            && (forall k | 0 <= k < end.attempts - 1 :: script[k].failure.Some?)
    decreases |script|
  {
    if c.retry <= s.retryTimes && script != [] {
      var a, r := script[0], Start(s, c, script[0]);
      if r.found && a.failure.Some? && policy(a.failure.value, s.retryTimes - r.counter.retry) {
        EndsWellIff(policy, s, Increased(r.counter), script[1..], true);
        var rest := Drive(policy, s, Increased(r.counter), script[1..], true);
        assert forall k | 1 <= k <= rest.attempts :: script[k] == script[1..][k - 1];
      }
    }
  }

  /** Every RelayTask run with RetryTimes >= 0 ends with exactly one of settlement and (where there is billing)
      refund; a negative setting is exactly what makes it fail on a missing result. */
  lemma TaskNeedsAnAttempt(s: Settings, group: nat, script: seq<Attempt>)
    ensures var end := WholeRun(ShouldRetryTask, s, group, script);
            end.finished && !end.error && end.attempts == 0 <==> s.retryTimes < 0
  {
    EndsWellIff(ShouldRetryTask, s, Counter(0, false, group), script, false);
  }

  // ---------- Which failures are tried again ----------

  /** A round of Relay whose handler fails ends the run with that error exactly when the channel affinity says so, or,
      for anything but a channel error, when the error says so, no retry is left, the caller pinned a channel, the
      status is a success, or it is an HTTP status that is never retried or not configured for retries.  Otherwise the
      run goes on with the increased counter. */
  lemma FailureEndsRunIff(s: Settings, c: Counter, script: seq<Attempt>, error: bool)
    requires c.retry <= s.retryTimes && script != []
    requires Start(s, c, script[0]).found && script[0].failure.Some?
    ensures var f, counter := script[0].failure.value, Start(s, c, script[0]).counter;
            var rest := Drive(ShouldRetry, s, Increased(counter), script[1..], true);
            Drive(ShouldRetry, s, c, script, error) ==
              if f.affinitySkips
                 || (!f.channelError
                     && (f.skipRetry || f.specificChannel || counter.retry >= s.retryTimes
                         || 200 <= f.statusCode <= 299
                         || (100 <= f.statusCode <= 599 && (f.alwaysSkip || !f.retryByStatus))))
              then End(true, 1, true)
              else rest.(attempts := rest.attempts + 1)
  {
  }

  /** The same for RelayTask, where a channel error is no reason to go on, 429 and 307 always are one, a server error is
      one unless its code is never retried, and 400, 408, local errors and successes never are. */
  lemma TaskFailureEndsRunIff(s: Settings, c: Counter, script: seq<Attempt>, error: bool)
    requires c.retry <= s.retryTimes && script != []
    requires Start(s, c, script[0]).found && script[0].failure.Some?
    ensures var f, counter := script[0].failure.value, Start(s, c, script[0]).counter;
            var rest := Drive(ShouldRetryTask, s, Increased(counter), script[1..], true);
            Drive(ShouldRetryTask, s, c, script, error) ==
              if f.affinitySkips || f.specificChannel || counter.retry >= s.retryTimes
                 || (500 <= f.statusCode <= 599 && f.alwaysSkip)
                 || f.statusCode in {400, 408}
                 || (f.statusCode !in {307, 429} && !(500 <= f.statusCode <= 599)
                     && (f.localError || 200 <= f.statusCode <= 299))
              then End(true, 1, true)
              else rest.(attempts := rest.attempts + 1)
  {
    assert 500 <= script[0].failure.value.statusCode <= 599 <==> Hundreds(script[0].failure.value.statusCode) == 5;
  }

  /** Over a whole run of Relay, a failure that another attempt follows was either a channel error or one that may be
      retried: nobody had pinned a channel, and the status was none of HTTP's or a configured one outside 2xx. */
  lemma {:induction false} RetriedFailures(s: Settings, c: Counter, script: seq<Attempt>, error: bool, k: nat)
    requires k + 1 < Drive(ShouldRetry, s, c, script, error).attempts
    ensures k < |script| && script[k].failure.Some?
    ensures var f := script[k].failure.value;
            && !f.affinitySkips
            && (f.channelError
                || (!f.skipRetry && !f.specificChannel && !(200 <= f.statusCode <= 299)
                    && (f.statusCode < 100 || f.statusCode > 599 || (f.retryByStatus && !f.alwaysSkip))))
    decreases |script|
  {
    FailureEndsRunIff(s, c, script, error);
    if k > 0 {
      RetriedFailures(s, Increased(Start(s, c, script[0]).counter), script[1..], true, k - 1);
    }
  }

  /** Over a whole run of RelayTask likewise: the caller had not pinned a channel, and the status was neither 400 nor
      408 nor a success. */
  lemma {:induction false} RetriedTaskFailures(s: Settings, c: Counter, script: seq<Attempt>, error: bool, k: nat)
    requires k + 1 < Drive(ShouldRetryTask, s, c, script, error).attempts
    ensures k < |script| && script[k].failure.Some?
    ensures var f := script[k].failure.value;
            && !f.affinitySkips && !f.specificChannel
            && f.statusCode !in {400, 408} && !(200 <= f.statusCode <= 299)
            && (f.localError ==> f.statusCode in {307, 429} || 500 <= f.statusCode <= 599)
            && (500 <= f.statusCode <= 599 ==> !f.alwaysSkip)
    decreases |script|
  {
    TaskFailureEndsRunIff(s, c, script, error);
    if k > 0 {
      RetriedTaskFailures(s, Increased(Start(s, c, script[0]).counter), script[1..], true, k - 1);
    }
  }

  /** In particular a caller that pinned a channel gets one attempt, whatever the settings, unless that attempt fails
      with a channel error. */
  lemma PinnedCallersGetOneAttempt(s: Settings, group: nat, script: seq<Attempt>)
    requires script != [] && script[0].failure.Some? && script[0].failure.value.specificChannel
    ensures !script[0].failure.value.channelError ==> WholeRun(ShouldRetry, s, group, script).attempts <= 1
    ensures WholeRun(ShouldRetryTask, s, group, script).attempts <= 1
  {
    var c := Counter(0, false, group);
    if WholeRun(ShouldRetry, s, group, script).attempts > 1 {
      RetriedFailures(s, c, script, false, 0);
    }
    if WholeRun(ShouldRetryTask, s, group, script).attempts > 1 {
      RetriedTaskFailures(s, c, script, false, 0);
    }
  }

  // ---------- How many attempts ----------

  /** What one round leaves of the attempts that the groups and the counter still allow. */
  lemma RoundLowersBound(s: Settings, c: Counter, a: Attempt)
    requires 0 <= c.retry <= s.retryTimes && !c.skipIncrease && Start(s, c, a).found
    ensures var next := Increased(Start(s, c, a).counter);
            && 0 <= next.retry <= s.retryTimes + 1 && !next.skipIncrease
            && Allowance(s, next.group) - next.retry < Allowance(s, c.group) - c.retry
  {
    SelectionMoves(s, c, a.choice);
    AllowanceFalls(s, c.group, Start(s, c, a).counter.group);
  }

  /** However channels are chosen, the handler is called at most RetryTimes + 1 times, plus RetryTimes + 1 times for
      every group that a search can still move to. */
  lemma {:induction false} AttemptsBounded(policy: RetryPolicy, s: Settings, c: Counter, script: seq<Attempt>,
                                           error: bool)
    requires c.retry >= 0 && !c.skipIncrease
    ensures var attempts := Drive(policy, s, c, script, error).attempts;
            if c.retry > s.retryTimes then attempts == 0
            else attempts <= Allowance(s, c.group) + s.retryTimes + 1 - c.retry
    decreases |script|
  {
    if s.retryTimes >= 0 {
      AllowanceFalls(s, c.group, c.group);
    }
    if c.retry <= s.retryTimes && script != [] && Start(s, c, script[0]).found {
      RoundLowersBound(s, c, script[0]);
      AttemptsBounded(policy, s, Increased(Start(s, c, script[0]).counter), script[1..], true);
    }
  }

  /** Without searches the counter is never set back. */
  lemma {:induction false} PlainAttemptsBounded(policy: RetryPolicy, s: Settings, c: Counter, script: seq<Attempt>,
                                                error: bool)
    requires !c.skipIncrease
    requires forall k | 0 <= k < |script| :: !script[k].choice.Auto?
    ensures var attempts := Drive(policy, s, c, script, error).attempts;
            if c.retry > s.retryTimes then attempts == 0 else attempts <= s.retryTimes + 1 - c.retry
    decreases |script|
  {
    if c.retry <= s.retryTimes && script != [] && Start(s, c, script[0]).found {
      PlainAttemptsBounded(policy, s, Increased(Start(s, c, script[0]).counter), script[1..], true);
    }
  }

  ghost predicate AutoFrom(script: seq<Attempt>, from: nat) {
    forall k | from <= k < |script| :: script[k].choice.Auto?
  }

  /** When every attempt, or every one but the first, searches in the groups of an "auto" token, there are at most
      RetryTimes + 1 attempts for each group from the remembered one on. */
  lemma {:induction false} AutoAttemptsBounded(policy: RetryPolicy, s: Settings, c: Counter, script: seq<Attempt>,
                                               error: bool)
    requires c.retry >= 0 && !c.skipIncrease
    requires AutoFrom(script, 0) || (c.group < s.groups && AutoFrom(script, 1))
    ensures var attempts := Drive(policy, s, c, script, error).attempts;
            if c.retry > s.retryTimes || c.group >= s.groups then attempts == 0
            else attempts <= Allowance(s, c.group) - c.retry
    decreases |script|
  {
    if s.retryTimes >= 0 {
      AllowanceFalls(s, c.group, c.group + 1);
    }
    if c.retry <= s.retryTimes && script != [] && Start(s, c, script[0]).found {
      var next := Increased(Start(s, c, script[0]).counter);
      SelectionMoves(s, c, script[0].choice);
      RoundLowersBound(s, c, script[0]);
      AllowanceFalls(s, next.group, next.group);
      assert AutoFrom(script[1..], 0);
      AutoAttemptsBounded(policy, s, next, script[1..], true);
    }
  }

  /** An attempt that finds a channel in every group and fails in a way that is retried while retries are left. */
  ghost predicate KeepsFailing(policy: RetryPolicy, script: seq<Attempt>) {
    forall k | 0 <= k < |script| ::
      && script[k].setupWorks && script[k].failure.Some?
      && script[k].choice.Auto? && (forall i: nat, p: int :: script[k].choice.available(i, p))
      && (forall left: int | left > 0 :: policy(script[k].failure.value, left))
  }

  /** The bound is met: with cross-group retry, when every attempt finds a channel and fails, each group uses its
      whole allowance before the run ends with an error. */
  lemma {:induction false} EveryGroupIsUsed(policy: RetryPolicy, s: Settings, c: Counter, script: seq<Attempt>,
                                            error: bool)
    requires s.retryTimes >= 1 && s.crossGroup && 0 <= c.retry <= s.retryTimes && !c.skipIncrease
    requires KeepsFailing(policy, script)
    requires c.group < s.groups || c.retry == 0
    requires |script| > Allowance(s, c.group) - c.retry
    ensures var end := Drive(policy, s, c, script, error);
            end.error && end.finished && end.attempts == if c.group < s.groups
                then Allowance(s, c.group) - c.retry else 0
    decreases |script|
  {
    AllowanceFalls(s, c.group, c.group);
    if c.group < s.groups {
      AllowanceFalls(s, c.group, c.group + 1);
      var a := script[0];
      assert a.choice.available(c.group, c.retry);
      var next := Increased(Start(s, c, a).counter);
      EveryGroupIsUsed(policy, s, next, script[1..], true);
    }
  }
}
