/** Refunds in controller/midjourney.go: pollers work on snapshots of unfinished tasks, write them back with a
    compare-and-set on the status they saw, and return the quota of a failed task when that write wins. */
module Midjourney {
  import opened Options

  const DONE := "100%"
  const FAILURE := "FAILURE"
  const TIMEOUT_MILLIS := 3600000
  const TIMEOUT_REASON := "上游任务超时（超过1小时）"

  datatype Task = Task(
    id: int, mjId: string, code: int, quota: int,
    progress: string, promptEn: string, state: string, submitTime: int, startTime: int, finishTime: int,
    imageUrl: string, status: string, failReason: string, properties: string, buttons: string,
    videoUrl: string, videoUrls: string)

  /** One element of the provider's answer; the JSON-valued parts are given as their serialized text. */
  datatype Item = Item(
    mjId: string, progress: string, promptEn: string, state: string, submitTime: int, startTime: int, finishTime: int,
    imageUrl: string, status: string, failReason: string, properties: Option<string>, buttons: Option<string>,
    videoUrl: string, videoUrls: string)

  /** checkMjTaskNeedUpdate */
  predicate NeedsUpdate(old': Task, item: Item) {
    || old'.code != 1
    || old'.progress != item.progress
    || old'.promptEn != item.promptEn
    || old'.state != item.state
    || old'.submitTime != item.submitTime
    || old'.startTime != item.startTime
    || old'.finishTime != item.finishTime
    || old'.imageUrl != item.imageUrl
    || old'.status != item.status
    || old'.failReason != item.failReason
    || (old'.progress != DONE && item.failReason != "")
    || old'.videoUrl != item.videoUrl
    || (if item.videoUrls != "" then old'.videoUrls != item.videoUrls else old'.videoUrls != "")
  }

  /** An unfinished task that is over an hour old is treated as failed, whatever the provider says. */
  function WithTimeout(task: Task, item: Item, now: int): Item {
    if now - task.submitTime > TIMEOUT_MILLIS && task.progress != DONE
    then item.(failReason := TIMEOUT_REASON, status := FAILURE)
    else item
  }

  function Copied(task: Task, item: Item): Task {
    task.(code := 1, progress := item.progress, promptEn := item.promptEn, state := item.state,
          submitTime := item.submitTime, startTime := item.startTime, finishTime := item.finishTime,
          imageUrl := item.imageUrl, status := item.status, failReason := item.failReason,
          properties := if item.properties.Some? then item.properties.value else task.properties,
          buttons := if item.buttons.Some? then item.buttons.value else task.buttons,
          videoUrl := item.videoUrl, videoUrls := item.videoUrls)
  }

  predicate MeetsFailure(progress: string, status: string, failReason: string) {
    (progress != DONE && failReason != "") || (progress == DONE && status == FAILURE)
  }

  datatype Update = Update(task: Task, refund: bool)

  /** What the loop body makes of a snapshot and an answer. */
  function Updated(task: Task, item: Item): Update {
    var copied := Copied(task, item);
    if MeetsFailure(copied.progress, copied.status, item.failReason)
    then Update(copied.(progress := DONE), task.quota != 0)
    else Update(copied, false)
  }

  // ---------- The database and the pollers ----------

  /** The task table, and what has been returned to users for each task. */
  datatype Database = Database(rows: map<int, Task>, returned: map<int, int>)

  predicate Wins(db: Database, task: Task, preStatus: string) {
    task.id in db.rows && db.rows[task.id].status == preStatus
  }

  function Returned(db: Database, id: int): int {
    if id in db.returned then db.returned[id] else 0
  }

  /** UpdateWithStatus, and the refund that depends on it */
  function Written(db: Database, u: Update, preStatus: string): Database {
    if !Wins(db, u.task, preStatus) then db
    else Database(db.rows[u.task.id := u.task],
                  if u.refund then db.returned[u.task.id := Returned(db, u.task.id) + u.task.quota] else db.returned)
  }

  datatype Handled = Handled(db: Database, tasks: map<string, Task>)

  /** The loop body for an answer about a task that the poller asked about. */
  function Handle(db: Database, tasks: map<string, Task>, item: Item, now: int): Handled
    requires item.mjId in tasks
  {
    var task := tasks[item.mjId];
    var seen := WithTimeout(task, item, now);
    if !NeedsUpdate(task, seen) then Handled(db, tasks)
    else
      var u := Updated(task, seen);
      Handled(Written(db, u, task.status), tasks[item.mjId := u.task])
  }

  class TaskTable {
    var rows: map<int, Task>
    var returned: map<int, int>

    constructor (rows: map<int, Task>)
      ensures View() == Database(rows, map[])
    {
      this.rows, returned := rows, map[];
    }

    function View(): Database
      reads this
    {
      Database(rows, returned)
    }

    method UpdateWithStatus(task: Task, fromStatus: string) returns (won: bool)
      modifies this
      ensures won == Wins(old(View()), task, fromStatus)
      ensures View() == if won then old(View()).(rows := old(rows)[task.id := task]) else old(View())
    {
      won := task.id in rows && rows[task.id].status == fromStatus;
      if won {
        rows := rows[task.id := task];
      }
    }

    method IncreaseUserQuota(id: int, quota: int)
      modifies this
      ensures View() == old(View()).(returned := old(returned)[id := Returned(old(View()), id) + quota])
    {
      returned := returned[id := (if id in returned then returned[id] else 0) + quota];
    }
  }

  class Poller {
    var taskM: map<string, Task>

    constructor (tasks: map<string, Task>)
      ensures taskM == tasks
    {
      taskM := tasks;
    }

    /** One round of the response-item loop; an answer about a task that was not asked about dereferences nil. */
    method HandleItem(db: TaskTable, answer: Item, now: int) returns (panics: bool)
      modifies this, db
      ensures panics <==> answer.mjId !in old(taskM)
      ensures panics ==> db.View() == old(db.View()) && taskM == old(taskM)
      ensures !panics ==> Handled(db.View(), taskM) == Handle(old(db.View()), old(taskM), answer, now)
    {
      panics := answer.mjId !in taskM;
      if panics {
        return;
      }
      var task := taskM[answer.mjId];
      var item := answer;
      if now - task.submitTime > TIMEOUT_MILLIS && task.progress != DONE {
        item := item.(failReason := TIMEOUT_REASON);
        item := item.(status := FAILURE);
      }
      if !NeedsUpdate(task, item) {
        return;
      }
      var preStatus := task.status;
      task := CopyAnswer(task, item);
      var shouldReturnQuota := false;
      if MeetsFailure(task.progress, task.status, item.failReason) {
        task := task.(progress := DONE);
        if task.quota != 0 {
          shouldReturnQuota := true;
        }
      }
      taskM := taskM[answer.mjId := task];
      var won := db.UpdateWithStatus(task, preStatus);
      if won && shouldReturnQuota {
        db.IncreaseUserQuota(task.id, task.quota);
      }
    }
  }

  /** The assignments from the answer to the task. */
  method CopyAnswer(snapshot: Task, item: Item) returns (task: Task)
    ensures task == Copied(snapshot, item)
  {
    task := snapshot.(code := 1, progress := item.progress, promptEn := item.promptEn, state := item.state);
    task := task.(submitTime := item.submitTime, startTime := item.startTime, finishTime := item.finishTime);
    task := task.(imageUrl := item.imageUrl, status := item.status, failReason := item.failReason);
    if item.properties.Some? {
      task := task.(properties := item.properties.value);
    }
    if item.buttons.Some? {
      task := task.(buttons := item.buttons.value);
    }
    task := task.(videoUrl := item.videoUrl);
    if item.videoUrls != "" {
      task := task.(videoUrls := item.videoUrls);
    } else {
      task := task.(videoUrls := "");
    }
  }

  // ---------- Runs with any number of pollers ----------

  /** Every poller works on the snapshot it took, by provider id. */
  datatype System = System(db: Database, rounds: map<int, map<string, Task>>)

  datatype Event =
    | Snapshot(poller: int)                            // GetAllUnFinishTasks
    | Answer(poller: int, item: Item, now: int)        // one response item
    | BulkFail(ids: set<int>)                          // tasks without an id, or whose channel is gone

  predicate Unfinished(t: Task) { t.progress != DONE }

  /** A snapshot holds unfinished rows of the table; which of several rows with one provider id it keeps is open. */
  ghost predicate IsSnapshot(db: Database, tasks: map<string, Task>) {
    forall m | m in tasks ::
      tasks[m].mjId == m && tasks[m].id in db.rows && db.rows[tasks[m].id] == tasks[m] && Unfinished(tasks[m])
  }

  function BulkFailed(db: Database, ids: set<int>): Database {
    db.(rows := map id | id in db.rows ::
          if id in ids then db.rows[id].(status := FAILURE, progress := DONE) else db.rows[id])
  }

  ghost predicate Next(s: System, e: Event, s': System) {
    match e
    case Snapshot(p) =>
      p in s'.rounds && s' == System(s.db, s.rounds[p := s'.rounds[p]]) && IsSnapshot(s.db, s'.rounds[p])
    case Answer(p, item, now) =>
      && p in s.rounds && item.mjId in s.rounds[p]
      && (var h := Handle(s.db, s.rounds[p], item, now);
          s' == System(h.db, s.rounds[p := h.tasks]))
    case BulkFail(ids) => s' == s.(db := BulkFailed(s.db, ids))
  }

  /** A snapshot carries the id and the quota of its row. */
  ghost predicate SnapshotOk(db: Database, tasks: map<string, Task>, m: string)
    requires m in tasks
  {
    tasks[m].mjId == m && tasks[m].id in db.rows && tasks[m].quota == db.rows[tasks[m].id].quota
  }

  ghost predicate Invariant(s: System) {
    && (forall id | id in s.db.rows :: s.db.rows[id].id == id)
    && (forall p, m | p in s.rounds && m in s.rounds[p] :: SnapshotOk(s.db, s.rounds[p], m))
  }

  /** No task appears, disappears, or changes its quota. */
  ghost predicate SameQuotas(a: Database, b: Database) {
    a.rows.Keys == b.rows.Keys && forall id | id in a.rows :: b.rows[id].quota == a.rows[id].quota
  }

  predicate Fails(seen: Item) {
    MeetsFailure(seen.progress, seen.status, seen.failReason)
  }

  /** The answer fails the task and wins the write: the snapshot costs something, the answer meets the failure condition
      after the timeout rule and changes something, and the row still has the status of the snapshot. */
  ghost predicate Refunds(s: System, e: Event, id: int) {
    e.Answer? && e.poller in s.rounds && e.item.mjId in s.rounds[e.poller]
    && (var task := s.rounds[e.poller][e.item.mjId];
        var seen := WithTimeout(task, e.item, e.now);
        && task.id == id && task.quota != 0
        && NeedsUpdate(task, seen) && Fails(seen) && Wins(s.db, task, task.status))
  }

  lemma AnswerReturns(s: System, e: Event, s': System, id: int)
    requires Invariant(s) && e.Answer? && Next(s, e, s')
    ensures Refunds(s, e, id) ==> id in s.db.rows
    ensures Returned(s'.db, id) == Returned(s.db, id) + if Refunds(s, e, id) then s.db.rows[id].quota else 0
  {
    assert SnapshotOk(s.db, s.rounds[e.poller], e.item.mjId);
  }

  lemma AnswerKeepsInvariant(s: System, e: Event, s': System)
    requires Invariant(s) && e.Answer? && Next(s, e, s')
    ensures Invariant(s') && SameQuotas(s.db, s'.db)
  {
    assert SnapshotOk(s.db, s.rounds[e.poller], e.item.mjId);
    assert s'.db.rows.Keys == s.db.rows.Keys;
    forall p, n | p in s'.rounds && n in s'.rounds[p] ensures SnapshotOk(s'.db, s'.rounds[p], n) {
      assert n in s.rounds[p] && SnapshotOk(s.db, s.rounds[p], n);
    }
  }

  /** Every step, with any answer, keeps ids and quotas, and returns the quota of a task exactly when it refunds it. */
  lemma StepKeepsInvariant(s: System, e: Event, s': System, id: int)
    requires Invariant(s) && Next(s, e, s')
    ensures Invariant(s') && SameQuotas(s.db, s'.db)
    ensures Refunds(s, e, id) ==> id in s.db.rows
    ensures Returned(s'.db, id) == Returned(s.db, id) + if Refunds(s, e, id) then s.db.rows[id].quota else 0
  {
    match e
    case Answer(_, _, _) =>
      AnswerKeepsInvariant(s, e, s');
      AnswerReturns(s, e, s', id);
    case BulkFail(ids) =>
      forall p, m | p in s'.rounds && m in s'.rounds[p] ensures SnapshotOk(s'.db, s'.rounds[p], m) {
        assert SnapshotOk(s.db, s.rounds[p], m);
      }
    case Snapshot(p0) =>
      forall p, m | p in s'.rounds && m in s'.rounds[p] ensures SnapshotOk(s'.db, s'.rounds[p], m) {
        if p != p0 {
          assert SnapshotOk(s.db, s.rounds[p], m);
        }
      }
  }

  /** A run: each state follows from the one before by its event. */
  ghost predicate IsRun(states: seq<System>, events: seq<Event>) {
    && |states| == |events| + 1
    && forall i | 0 <= i < |events| :: Next(states[i], events[i], states[i + 1])
  }

  /** Nothing has been returned yet and no round is open. */
  ghost predicate Initial(s: System) {
    s.rounds == map[] && s.db.returned == map[] && forall id | id in s.db.rows :: s.db.rows[id].id == id
  }

  /** How many of the first i answers refund the task. */
  ghost function RefundCount(states: seq<System>, events: seq<Event>, i: nat, id: int): nat
    requires i <= |events| < |states|
  {
    if i == 0 then 0
    else RefundCount(states, events, i - 1, id) + if Refunds(states[i - 1], events[i - 1], id) then 1 else 0
  }

  lemma {:induction false} RunKeepsInvariant(states: seq<System>, events: seq<Event>, i: nat)
    requires IsRun(states, events) && Initial(states[0]) && i < |states|
    ensures Invariant(states[i]) && SameQuotas(states[0].db, states[i].db)
  {
    if i > 0 {
      RunKeepsInvariant(states, events, i - 1);
      assert Next(states[i - 1], events[i - 1], states[i]);
      StepKeepsInvariant(states[i - 1], events[i - 1], states[i], 0);
    }
  }

  lemma RunStepReturns(states: seq<System>, events: seq<Event>, i: nat, id: int)
    requires IsRun(states, events) && Initial(states[0]) && 0 < i < |states| && id in states[0].db.rows
    ensures Returned(states[i].db, id) == Returned(states[i - 1].db, id)
                                          + if Refunds(states[i - 1], events[i - 1], id)
                                              then states[0].db.rows[id].quota else 0
  {
    RunKeepsInvariant(states, events, i - 1);
    assert Next(states[i - 1], events[i - 1], states[i]);
    StepKeepsInvariant(states[i - 1], events[i - 1], states[i], id);
  }

  /** Main result, for every run with any answers, any number of pollers and snapshots as stale as they like: what has
      been returned for a task is its quota from the start, once for each answer that refunds it. */
  lemma {:induction false} ReturnedIsCounted(states: seq<System>, events: seq<Event>, i: nat, id: int)
    requires IsRun(states, events) && Initial(states[0]) && i < |states| && id in states[0].db.rows
    ensures Returned(states[i].db, id) == RefundCount(states, events, i, id) * states[0].db.rows[id].quota
  {
    if i > 0 {
      ReturnedIsCounted(states, events, i - 1, id);
      RunStepReturns(states, events, i, id);
      OneMore(RefundCount(states, events, i - 1, id), states[0].db.rows[id].quota);
    }
  }

  lemma OneMore(n: nat, quota: int)
    ensures (n + 1) * quota == n * quota + quota
  {
  }

  lemma {:induction false} FreeTasksAreNotRefunded(states: seq<System>, events: seq<Event>, i: nat, id: int)
    requires IsRun(states, events) && Initial(states[0]) && i < |states| && id in states[0].db.rows
    requires states[0].db.rows[id].quota == 0
    ensures RefundCount(states, events, i, id) == 0
  {
    if i > 0 {
      FreeTasksAreNotRefunded(states, events, i - 1, id);
      RunKeepsInvariant(states, events, i - 1);
      var s, e := states[i - 1], events[i - 1];
      assert e.Answer? && e.poller in s.rounds && e.item.mjId in s.rounds[e.poller] ==>
          SnapshotOk(s.db, s.rounds[e.poller], e.item.mjId);
    }
  }

  /** So what has been returned is nothing or exactly the quota if and only if at most one answer refunds the task. */
  lemma RefundAtMostOnceIff(states: seq<System>, events: seq<Event>, i: nat, id: int)
    requires IsRun(states, events) && Initial(states[0]) && i < |states| && id in states[0].db.rows
    ensures var quota := states[0].db.rows[id].quota;
            Returned(states[i].db, id) == 0 || Returned(states[i].db, id) == quota
            <==> RefundCount(states, events, i, id) <= 1
  {
    var quota, n := states[0].db.rows[id].quota, RefundCount(states, events, i, id);
    ReturnedIsCounted(states, events, i, id);
    if quota == 0 {
      FreeTasksAreNotRefunded(states, events, i, id);
    } else if n >= 2 {
      ManyTimes(n, quota);
    }
  }

  lemma ManyTimes(n: nat, quota: int)
    requires n >= 2 && quota != 0
    ensures n * quota != 0 && n * quota != quota
  {
    if quota > 0 {
      assert n * quota >= 2 * quota;
    } else {
      assert n * quota <= 2 * quota;
    }
  }

  // ---------- Which answers return the quota ----------

  /** An answer is skipped exactly when copying its compared fields would leave the task as it is, and it gives an
      unfinished task no reason for failing. */
  lemma SkippedIff(task: Task, item: Item)
    ensures !NeedsUpdate(task, item)
            <==> && Copied(task, item.(properties := None, buttons := None)) == task
                 && (task.progress == "100%" || item.failReason == "")
  {
  }

  /** Every answer about every task of a round, in its own fields: the quota is returned exactly when the row still has
      the status that the poller saw, the answer changes something about a task that is finished already, and the task
      is over an hour old and unfinished, or the answer gives a reason below full progress, or says FAILURE at full
      progress. Nothing is returned for any other task. */
  lemma AnswerReturnsQuotaIff(db: Database, tasks: map<string, Task>, item: Item, now: int, id: int)
    requires item.mjId in tasks
    ensures var task := tasks[item.mjId];
            var late := now - task.submitTime > 3600000 && task.progress != "100%";
            var wins := task.id in db.rows && db.rows[task.id].status == task.status;
            var changes := task.progress != "100%" || Copied(task, item.(properties := None, buttons := None)) != task;
            var failed := late || (if item.progress == "100%" then item.status == "FAILURE" else item.failReason != "");
            Returned(Handle(db, tasks, item, now).db, id)
            == Returned(db, id) + if id == task.id && wins && changes && failed then task.quota else 0
  {
    var task := tasks[item.mjId];
    SkippedIff(task, item);
    SkippedIff(task, WithTimeout(task, item, now));
  }

  /** An answer that neither gives a reason nor says FAILURE, about a task that is finished or at most an hour old. */
  predicate Uneventful(task: Task, item: Item, now: int) {
    item.failReason == "" && item.status != "FAILURE" && (now - task.submitTime <= 3600000 || task.progress == "100%")
  }

  ghost predicate UneventfulRun(states: seq<System>, events: seq<Event>) {
    && IsRun(states, events) && Initial(states[0])
    && forall j | 0 <= j < |events| && events[j].Answer? ::
         Next(states[j], events[j], states[j + 1])
         && Uneventful(states[j].rounds[events[j].poller][events[j].item.mjId], events[j].item, events[j].now)
  }

  /** A run of such answers, from any number of pollers and over snapshots as stale as they like, returns nothing for
      any task. */
  lemma {:induction false} UneventfulRunReturnsNothing(states: seq<System>, events: seq<Event>, i: nat, id: int)
    requires UneventfulRun(states, events) && i < |states|
    ensures Returned(states[i].db, id) == 0
  {
    if i > 0 {
      UneventfulRunReturnsNothing(states, events, i - 1, id);
      var s, e := states[i - 1], events[i - 1];
      assert Next(s, e, states[i]);
      if e.Answer? {
        AnswerReturnsQuotaIff(s.db, s.rounds[e.poller], e.item, e.now, id);
      }
    }
  }

  // ---------- Runs that refund at most once ----------

  /** As the poller sees it, after the timeout rule, the answer says FAILURE exactly when it meets the failure
      condition. */
  predicate Honest(seen: Item) {
    seen.status == FAILURE <==> Fails(seen)
  }

  /** A task that the poller itself knows to have failed is not changed by a further answer, unless it cost nothing. */
  predicate Final(task: Task, seen: Item) {
    task.status == FAILURE && task.quota != 0 ==> !NeedsUpdate(task, seen)
  }

  ghost predicate Orderly(s: System, e: Event) {
    e.Answer? && e.poller in s.rounds && e.item.mjId in s.rounds[e.poller] ==>
      var task := s.rounds[e.poller][e.item.mjId];
      var seen := WithTimeout(task, e.item, e.now);
      Honest(seen) && Final(task, seen)
  }

  ghost predicate OrderlyRun(states: seq<System>, events: seq<Event>) {
    && IsRun(states, events) && Initial(states[0]) && FailedIsFinal(states[0].db)
    && forall i | 0 <= i < |events| :: Orderly(states[i], events[i])
  }

  /** A failed task is a finished one. */
  ghost predicate FailedIsFinal(db: Database) {
    forall id | id in db.rows :: db.rows[id].status == FAILURE ==> db.rows[id].progress == DONE
  }

  /** The timeout rule makes every answer honest. */
  lemma TimeoutIsHonest(task: Task, item: Item, now: int)
    requires now - task.submitTime > TIMEOUT_MILLIS && Unfinished(task)
    ensures Honest(WithTimeout(task, item, now))
  {
  }

  /** An honest answer makes an update that refunds only when it writes FAILURE with full progress. */
  lemma HonestUpdate(task: Task, seen: Item)
    requires Honest(seen)
    ensures var u := Updated(task, seen);
            && (u.task.status == FAILURE ==> u.task.progress == DONE)
            && (u.refund <==> u.task.status == FAILURE && task.quota != 0)
            && u.task.id == task.id && u.task.quota == task.quota && u.task.mjId == task.mjId
  {
  }

  /** In an orderly step a refund takes the row from another status to FAILURE, and a failed row that costs something
      stays failed. */
  lemma OrderlyStep(s: System, e: Event, s': System, id: int)
    requires Invariant(s) && FailedIsFinal(s.db) && Next(s, e, s') && Orderly(s, e)
    ensures FailedIsFinal(s'.db)
    ensures id in s.db.rows ==>
              && id in s'.db.rows
              && (Refunds(s, e, id) ==> s.db.rows[id].status != FAILURE && s'.db.rows[id].status == FAILURE)
              && (s.db.rows[id].status == FAILURE && s.db.rows[id].quota != 0 ==> s'.db.rows[id].status == FAILURE)
  {
    if e.Answer? {
      var task := s.rounds[e.poller][e.item.mjId];
      assert SnapshotOk(s.db, s.rounds[e.poller], e.item.mjId);
      HonestUpdate(task, WithTimeout(task, e.item, e.now));
    }
  }

  /** Over an orderly run at most one answer refunds a task, and then the task has failed. */
  lemma {:induction false} OrderlyRunRefundsOnce(states: seq<System>, events: seq<Event>, i: nat, id: int)
    requires OrderlyRun(states, events) && i < |states| && id in states[0].db.rows
    ensures FailedIsFinal(states[i].db) && id in states[i].db.rows
    ensures RefundCount(states, events, i, id) <= 1
    ensures RefundCount(states, events, i, id) == 1 ==> states[i].db.rows[id].status == FAILURE
  {
    if i > 0 {
      OrderlyRunRefundsOnce(states, events, i - 1, id);
      RunKeepsInvariant(states, events, i - 1);
      assert Next(states[i - 1], events[i - 1], states[i]) && Orderly(states[i - 1], events[i - 1]);
      OrderlyStep(states[i - 1], events[i - 1], states[i], id);
      if states[0].db.rows[id].quota == 0 {
        FreeTasksAreNotRefunded(states, events, i, id);
      }
    }
  }

  /** So over every run of honest answers that leave failed tasks alone, what has been returned for a task is nothing or
      exactly the quota it had from the start. */
  lemma RefundAtMostOnce(states: seq<System>, events: seq<Event>, i: nat, id: int)
    requires OrderlyRun(states, events) && i < |states| && id in states[0].db.rows
    ensures Returned(states[i].db, id) == 0 || Returned(states[i].db, id) == states[0].db.rows[id].quota
  {
    OrderlyRunRefundsOnce(states, events, i, id);
    RefundAtMostOnceIff(states, events, i, id);
  }

  // ---------- Ways of refunding twice ----------

  /** The bound on what is returned for a task. */
  predicate Bounded(db: Database, task: Task) {
    Returned(db, task.id) == 0 || Returned(db, task.id) == task.quota
  }

  lemma FailureNeedsUpdate(task: Task, seen: Item)
    requires Unfinished(task) && Fails(seen)
    ensures NeedsUpdate(task, seen)
  {
  }

  /** Two pollers handle answers about one unfinished row from the same snapshot: the bound breaks exactly when both
      answers, after the timeout rule, meet the failure condition and the first leaves the status as it was. */
  lemma StalePairBreaksIff(db: Database, task: Task, item1: Item, now1: int, item2: Item, now2: int)
    requires task.id in db.rows && db.rows[task.id] == task && Unfinished(task) && Returned(db, task.id) == 0
    requires item1.mjId == task.mjId == item2.mjId
    ensures var tasks := map[task.mjId := task];
            var first := Handle(db, tasks, item1, now1);
            var seen1, seen2 := WithTimeout(task, item1, now1), WithTimeout(task, item2, now2);
            !Bounded(Handle(first.db, tasks, item2, now2).db, task)
            <==> task.quota != 0 && Fails(seen1) && Fails(seen2) && seen1.status == task.status
  {
    var seen1, seen2 := WithTimeout(task, item1, now1), WithTimeout(task, item2, now2);
    if Fails(seen1) {
      FailureNeedsUpdate(task, seen1);
    }
    if Fails(seen2) {
      FailureNeedsUpdate(task, seen2);
    }
  }

  /** One poller handles two answers about one unfinished row in a response: the bound breaks exactly when both meet
      the failure condition and the second differs from what the first has written. */
  lemma RepeatedAnswerBreaksIff(db: Database, task: Task, item1: Item, now1: int, item2: Item, now2: int)
    requires task.id in db.rows && db.rows[task.id] == task && Unfinished(task) && Returned(db, task.id) == 0
    requires item1.mjId == task.mjId == item2.mjId
    ensures var seen1 := WithTimeout(task, item1, now1);
            var first := Handle(db, map[task.mjId := task], item1, now1);
            !Bounded(Handle(first.db, first.tasks, item2, now2).db, task)
            <==> task.quota != 0 && Fails(seen1) && Fails(item2) && NeedsUpdate(Updated(task, seen1).task, item2)
  {
    var seen1 := WithTimeout(task, item1, now1);
    if Fails(seen1) {
      FailureNeedsUpdate(task, seen1);
      assert WithTimeout(Updated(task, seen1).task, item2, now2) == item2;
    }
  }

  /** An answer that gives a reason for failing but keeps the status is such a case. */
  lemma DishonestAnswerRefundsTwice(db: Database, task: Task, item: Item, now: int)
    requires task.id in db.rows && db.rows[task.id] == task && task.quota != 0 && Returned(db, task.id) == 0
    requires Unfinished(task) && now - task.submitTime <= TIMEOUT_MILLIS
    requires item.mjId == task.mjId && item.status == task.status && item.progress != DONE && item.failReason != ""
    ensures var tasks := map[task.mjId := task];
            var first := Handle(db, tasks, item, now);
            Returned(Handle(first.db, tasks, item, now).db, task.id) == 2 * task.quota
  {
  }

  /** An honest answer below full progress that appears twice in one response is one: the second is compared with the
      full progress that the first one wrote. */
  lemma RepeatedAnswerRefundsTwice(db: Database, task: Task, item: Item, now: int)
    requires task.id in db.rows && db.rows[task.id] == task && task.quota != 0 && Returned(db, task.id) == 0
    requires Unfinished(task) && now - task.submitTime <= TIMEOUT_MILLIS
    requires item.mjId == task.mjId && item.status == FAILURE && item.progress != DONE && item.failReason != ""
    ensures var first := Handle(db, map[task.mjId := task], item, now);
            Returned(Handle(first.db, first.tasks, item, now).db, task.id) == 2 * task.quota
  {
  }

  /** So is an answer that says FAILURE below full progress and gives no reason: it returns nothing and leaves an
      unfinished row whose status is already FAILURE, and any answer after it that meets the failure condition and
      says FAILURE is refunded to every poller that has seen that row. */
  lemma UnreasonedFailureRefundsTwice(db: Database, task: Task, item: Item, now: int, later: Item, then': int)
    requires task.id in db.rows && db.rows[task.id] == task && task.quota != 0 && Returned(db, task.id) == 0
    requires Unfinished(task) && now - task.submitTime <= TIMEOUT_MILLIS
    requires item.mjId == task.mjId == later.mjId
    requires item.status == FAILURE && item.progress != DONE && item.failReason == "" && NeedsUpdate(task, item)
    requires later.status == FAILURE && Fails(later)
    ensures var seen := Handle(db, map[task.mjId := task], item, now);
            var tasks := map[task.mjId := seen.tasks[task.mjId]];
            && !Honest(item) && Returned(seen.db, task.id) == 0 && IsSnapshot(seen.db, tasks)
            && (var first := Handle(seen.db, tasks, later, then');
                !Bounded(Handle(first.db, tasks, later, then').db, task))
  {
    var seen := Handle(db, map[task.mjId := task], item, now);
    var row := seen.tasks[task.mjId];
    assert row == Copied(task, item) && seen.db.rows[task.id] == row;
    assert Fails(WithTimeout(row, later, then')) && WithTimeout(row, later, then').status == row.status;
    StalePairBreaksIff(seen.db, row, later, then', later, then');
  }

  /** The amounts and rows of the run below. */
  lemma ThreeAnswers(db: Database, task: Task, item1: Item, item2: Item, item3: Item, now: int)
    requires db.returned == map[] && task.id in db.rows && db.rows[task.id] == task
    requires task.quota != 0 && Unfinished(task) && now - task.submitTime <= TIMEOUT_MILLIS
    requires item1.mjId == item2.mjId == item3.mjId == task.mjId
    requires item1.status == task.status && item1.progress != DONE && item1.failReason != ""
    requires item2.status == task.status && item2.progress != DONE && item2.failReason == "" && NeedsUpdate(task, item2)
    requires item3.status == FAILURE && item3.progress == DONE
    ensures var tasks := map[task.mjId := task];
            var first := Handle(db, tasks, item1, now);
            var second := Handle(first.db, tasks, item2, now);
            var row := second.tasks[task.mjId];
            var third := Handle(second.db, map[task.mjId := row], item3, now);
            && task.id in second.db.rows && second.db.rows[task.id] == row && Unfinished(row) && row.mjId == task.mjId
            && row.id == task.id && row.quota == task.quota
            && Returned(first.db, task.id) == task.quota && Returned(second.db, task.id) == task.quota
            && Returned(third.db, task.id) == 2 * task.quota
  {
    var tasks := map[task.mjId := task];
    var first := Handle(db, tasks, item1, now);
    FailureNeedsUpdate(task, item1);
    var second := Handle(first.db, tasks, item2, now);
    var row := second.tasks[task.mjId];
    assert row == Copied(task, item2);
    FailureNeedsUpdate(row, WithTimeout(row, item3, now));
  }

  /** Three answers can do it although neither lemma on pairs applies: the first refunds and keeps the status, the
      second comes from the same stale snapshot, wins with that status and makes the row unfinished again, and the
      third fails it from a fresh snapshot. */
  lemma ThreeAnswersRefundTwice(db: Database, task: Task, item1: Item, item2: Item, item3: Item, now: int)
      returns (states: seq<System>, events: seq<Event>)
    requires Initial(System(db, map[])) && task.id in db.rows && db.rows[task.id] == task
    requires task.quota != 0 && Unfinished(task) && now - task.submitTime <= TIMEOUT_MILLIS
    requires item1.mjId == item2.mjId == item3.mjId == task.mjId
    requires item1.status == task.status && item1.progress != DONE && item1.failReason != ""
    requires item2.status == task.status && item2.progress != DONE && item2.failReason == "" && NeedsUpdate(task, item2)
    requires item3.status == FAILURE && item3.progress == DONE
    ensures IsRun(states, events) && states[0] == System(db, map[]) && |events| == 6
    ensures Bounded(states[5].db, task)
    ensures Returned(states[6].db, task.id) == 2 * task.quota && RefundCount(states, events, 6, task.id) > 1
  {
    ThreeAnswers(db, task, item1, item2, item3, now);
    var tasks := map[task.mjId := task];
    var first := Handle(db, tasks, item1, now);
    var second := Handle(first.db, tasks, item2, now);
    var s0 := System(db, map[]);
    states, events := Continued([s0], [], Snapshot(1), WithRound(s0, 1, db, tasks));
    var s1 := WithRound(s0, 1, db, tasks);
    states, events := Continued(states, events, Snapshot(2), WithRound(s1, 2, db, tasks));
    var s2 := WithRound(s1, 2, db, tasks);
    states, events := Continued(states, events, Answer(1, item1, now), WithRound(s2, 1, first.db, first.tasks));
    var s3 := WithRound(s2, 1, first.db, first.tasks);
    states, events := Continued(states, events, Answer(2, item2, now), WithRound(s3, 2, second.db, second.tasks));
    var s4 := WithRound(s3, 2, second.db, second.tasks);
    var again := map[task.mjId := second.tasks[task.mjId]];
    states, events := Continued(states, events, Snapshot(3), WithRound(s4, 3, second.db, again));
    var s5 := WithRound(s4, 3, second.db, again);
    var third := Handle(second.db, again, item3, now);
    states, events := Continued(states, events, Answer(3, item3, now), WithRound(s5, 3, third.db, third.tasks));
    TwiceIsMore(states, events, task.id, task.quota);
  }

  function WithRound(s: System, p: int, db: Database, tasks: map<string, Task>): System {
    System(db, s.rounds[p := tasks])
  }

  lemma Continued(states: seq<System>, events: seq<Event>, e: Event, s': System)
      returns (states': seq<System>, events': seq<Event>)
    requires IsRun(states, events) && Next(states[|events|], e, s')
    ensures IsRun(states', events') && |events'| == |events| + 1
    ensures states'[0] == states[0] && states'[|events|] == states[|events|] && states'[|events'|] == s'
  {
    states', events' := states + [s'], events + [e];
  }

  lemma TwiceIsMore(states: seq<System>, events: seq<Event>, id: int, quota: int)
    requires IsRun(states, events) && Initial(states[0]) && id in states[0].db.rows
    requires quota == states[0].db.rows[id].quota != 0 && Returned(states[|events|].db, id) == 2 * quota
    ensures RefundCount(states, events, |events|, id) > 1
  {
    RefundAtMostOnceIff(states, events, |events|, id);
  }
}
