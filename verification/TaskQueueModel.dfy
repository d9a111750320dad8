// The distributed task queue of internal/distributed/queue.go, as a state machine on values.
// TaskQueue.dfy proves that the mutable queue takes exactly these steps; this file proves
// what every run of the steps keeps.
module TaskQueueModel {
  import opened Common

  /** A handle on a result document or an error message; 0 is the empty one. */
  type Payload = nat

  datatype TaskState = TaskPending | TaskClaimed | TaskRunning | TaskCompleted | TaskDead

  datatype Task = Task(
    id: string,
    priority: int,
    state: TaskState,
    claimedBy: string,
    retries: int,
    maxRetries: int,
    submittedAt: int,
    claimedAt: Option<int>,
    completedAt: Option<int>,
    result: Payload,
    error: Payload)

  datatype Settings = Settings(maxPending: int, maxRetries: int, claimTimeout: int, deadLetterMax: int)

  /** The settings a running queue holds. */
  type Config = c: Settings | c.maxPending > 0 && c.maxRetries >= 0 && c.claimTimeout > 0 && c.deadLetterMax > 0
    witness Settings(1, 0, 1, 1)

  const HISTORY_MAX: nat := 500

  /** The defaults a new queue substitutes for out-of-range settings (five minutes in seconds). */
  function Normalize(s: Settings): Config {
    Settings(
      if s.maxPending <= 0 then 1000 else s.maxPending,
      if s.maxRetries < 0 then 2 else s.maxRetries,
      if s.claimTimeout <= 0 then 300 else s.claimTimeout,
      if s.deadLetterMax <= 0 then 100 else s.deadLetterMax)
  }

  datatype Queue = Queue(pending: seq<Task>, claimed: map<string, Task>, dlq: seq<Task>, history: seq<Task>)

  const EMPTY := Queue([], map[], [], [])

  // ---------------------------------------------------------------- operations

  /** Where Submit inserts: before the first task of strictly lower priority. */
  function Slot(pending: seq<Task>, priority: int): (i: nat)
    ensures i <= |pending|
    ensures forall k :: 0 <= k < i ==> priority <= pending[k].priority
    ensures i < |pending| ==> priority > pending[i].priority
  {
    if pending == [] || priority > pending[0].priority then 0
    else 1 + Slot(pending[1..], priority)
  }

  function Accept(cfg: Config, t: Task, autoId: string, now: int): Task {
    t.(id := if t.id == "" then autoId else t.id,
       state := TaskPending,
       submittedAt := now,
       maxRetries := if t.maxRetries == 0 then cfg.maxRetries else t.maxRetries)
  }

  function Insert(pending: seq<Task>, t: Task): seq<Task> {
    var i := Slot(pending, t.priority);
    pending[..i] + [t] + pending[i..]
  }

  function SubmitStep(cfg: Config, q: Queue, t: Task, autoId: string, now: int): Queue {
    if |q.pending| >= cfg.maxPending then q
    else q.(pending := Insert(q.pending, Accept(cfg, t, autoId, now)))
  }

  // What each operation writes into a task record.

  function Taken(t: Task, worker: string, now: int): Task {
    t.(state := TaskClaimed, claimedBy := worker, claimedAt := Some(now))
  }

  function Running(t: Task): Task { t.(state := TaskRunning) }

  function Finished(t: Task, result: Payload, now: int): Task {
    t.(state := TaskCompleted, result := result, completedAt := Some(now))
  }

  function Failed(t: Task, msg: Payload): Task { t.(error := msg, retries := t.retries + 1) }

  function Released(t: Task): Task { t.(state := TaskPending, claimedBy := "", claimedAt := None) }

  function Buried(t: Task): Task { t.(state := TaskDead) }

  function ClaimStep(q: Queue, worker: string, now: int): Queue {
    if q.pending == [] then q
    else
      var t := Taken(q.pending[0], worker, now);
      q.(pending := q.pending[1..], claimed := q.claimed[t.id := t])
  }

  function StartStep(q: Queue, id: string): Queue {
    if id !in q.claimed then q
    else q.(claimed := q.claimed[id := Running(q.claimed[id])])
  }

  function CompleteStep(q: Queue, id: string, result: Payload, now: int): Queue {
    if id !in q.claimed then q
    else
      var t := Finished(q.claimed[id], result, now);
      q.(claimed := q.claimed - {id}, history := Suffix(q.history + [t], HISTORY_MAX))
  }

  function FailStep(cfg: Config, q: Queue, id: string, msg: Payload): Queue
  {
    if id !in q.claimed then q
    else
      var t := Failed(q.claimed[id], msg);
      var rest := q.claimed - {id};
      if t.retries <= t.maxRetries then
        q.(claimed := rest, pending := q.pending + [Released(t)])
      else
        var grown := q.dlq + [Buried(t)];
        q.(claimed := rest, dlq := if |grown| > cfg.deadLetterMax then grown[1..] else grown)
  }

  predicate IsStale(cfg: Config, t: Task, now: int) {
    t.claimedAt.Some? && t.claimedAt.value < now - cfg.claimTimeout
  }

  function StaleIds(cfg: Config, q: Queue, now: int): set<string> {
    set id | id in q.claimed && IsStale(cfg, q.claimed[id], now)
  }

  function ReclaimOne(q: Queue, id: string): Queue
    requires id in q.claimed
  {
    q.(claimed := q.claimed - {id}, pending := q.pending + [Released(q.claimed[id])])
  }

  /** Reclaims the listed tasks one after another; the map iteration order is the list. */
  function ReclaimStep(q: Queue, order: seq<string>): Queue
    requires NoDup(order) && forall id :: id in order ==> id in q.claimed
    decreases |order|
  {
    if order == [] then q
    else ReclaimStep(ReclaimOne(q, order[0]), order[1..])
  }

  /** A sweep takes the listed claims away and leaves the others as they are. */
  lemma {:induction false} ReclaimLeaves(q: Queue, order: seq<string>)
    requires NoDup(order) && forall id :: id in order ==> id in q.claimed
    ensures ReclaimStep(q, order).claimed == q.claimed - set id | id in order
    decreases |order|
  {
    if order != [] { ReclaimLeaves(ReclaimOne(q, order[0]), order[1..]); }
  }

  /** Sweeping one more claim at the end. */
  lemma {:induction false} ReclaimSnoc(q: Queue, order: seq<string>, id: string)
    requires NoDup(order) && (forall x :: x in order ==> x in q.claimed) && id in q.claimed && id !in order
    ensures id in ReclaimStep(q, order).claimed
    ensures ReclaimStep(q, order + [id]) == ReclaimOne(ReclaimStep(q, order), id)
    decreases |order|
  {
    ReclaimLeaves(q, order);
    if order == [] {
      assert [] + [id] == [id] && [id][1..] == [];
    } else {
      ReclaimSnoc(ReclaimOne(q, order[0]), order[1..], id);
      assert (order + [id])[1..] == order[1..] + [id];
    }
  }

  /** A sweep in progress: `order` lists the stale claims visited, `todo` those not visited yet. */
  ghost predicate Sweeping(cfg: Config, q: Queue, now: int, todo: set<string>, order: seq<string>) {
    && todo <= q.claimed.Keys && NoDup(order)
    && (forall id :: id in order ==> id in q.claimed)
    && (forall id :: id in order <==> id in StaleIds(cfg, q, now) && id !in todo)
  }

  lemma SweepNext(cfg: Config, q: Queue, now: int, todo: set<string>, order: seq<string>, id: string)
    requires Sweeping(cfg, q, now, todo, order) && id in todo
    ensures id in ReclaimStep(q, order).claimed && ReclaimStep(q, order).claimed[id] == q.claimed[id]
    ensures var stale := IsStale(cfg, q.claimed[id], now);
            var order' := if stale then order + [id] else order;
            && Sweeping(cfg, q, now, todo - {id}, order')
            && ReclaimStep(q, order') ==
               (if stale then ReclaimOne(ReclaimStep(q, order), id) else ReclaimStep(q, order))
  {
    ReclaimLeaves(q, order);
    ReclaimSnoc(q, order, id);
  }

  // ---------------------------------------------------------------- runs

  datatype Event =
    | Submit(task: Task, autoId: string, now: int)
    | Claim(worker: string, now: int)
    | Start(id: string)
    | Complete(id: string, result: Payload, now: int)
    | Fail(id: string, msg: Payload)
    | Reclaim(now: int, order: seq<string>)

  datatype Receipt = Receipt(ticket: nat, task: Task)

  datatype Claimant = Claimant(worker: string, time: int)

  datatype Outcome = Outcome(result: Payload, time: int)

  /** What an observer of the run writes down: the accepted submissions with their tickets, the last
      claim of each task, the tasks ever put back at the tail, the accepted Fail calls with their
      last message, the accepted Complete calls, all deaths and all completions. */
  datatype Ledger = Ledger(
    accepted: map<string, Receipt>,
    requeued: set<string>,
    fails: map<string, nat>,
    errors: map<string, Payload>,
    claims: map<string, Claimant>,
    outcomes: map<string, Outcome>,
    deaths: seq<Task>,
    completions: seq<Task>)

  datatype Run = Run(q: Queue, log: Ledger)

  const START := Run(EMPTY, Ledger(map[], {}, map[], map[], map[], map[], [], []))

  function EffectiveId(e: Event): string
    requires e.Submit?
  {
    if e.task.id == "" then e.autoId else e.task.id
  }

  /** A reclaim sweep visits exactly the stale claims, in some order. */
  ghost predicate Sweeps(cfg: Config, q: Queue, e: Event) {
    e.Reclaim? ==> NoDup(e.order) && forall id :: id in e.order <==> id in StaleIds(cfg, q, e.now)
  }

  /** A legal step also submits only under fresh IDs. */
  ghost predicate Legal(cfg: Config, r: Run, e: Event) {
    Sweeps(cfg, r.q, e) && (e.Submit? ==> EffectiveId(e) !in r.log.accepted)
  }

  function Fails(log: Ledger, id: string): nat { if id in log.fails then log.fails[id] else 0 }

  ghost function Observe(cfg: Config, r: Run, e: Event): Ledger {
    match e
    case Submit(t, autoId, now) =>
      if |r.q.pending| >= cfg.maxPending then r.log
      else
        var a := Accept(cfg, t, autoId, now);
        r.log.(accepted := r.log.accepted[a.id := Receipt(|r.log.accepted|, a)])
    case Claim(worker, now) =>
      if r.q.pending == [] then r.log
      else r.log.(claims := r.log.claims[r.q.pending[0].id := Claimant(worker, now)])
    case Complete(id, result, now) =>
      if id !in r.q.claimed then r.log
      else
        var t := Finished(r.q.claimed[id], result, now);
        r.log.(completions := r.log.completions + [t], outcomes := r.log.outcomes[id := Outcome(result, now)])
    case Fail(id, msg) =>
      if id !in r.q.claimed then r.log
      else
        var t := Failed(r.q.claimed[id], msg);
        var l := r.log.(fails := r.log.fails[id := Fails(r.log, id) + 1], errors := r.log.errors[id := msg]);
        if t.retries <= t.maxRetries then l.(requeued := l.requeued + {id})
        else l.(deaths := l.deaths + [Buried(t)])
    case Reclaim(_, order) => r.log.(requeued := r.log.requeued + set id | id in order)
    case _ => r.log
  }

  function Next(cfg: Config, q: Queue, e: Event): Queue
    requires e.Reclaim? ==> NoDup(e.order) && forall id :: id in e.order ==> id in q.claimed
  {
    match e
    case Submit(t, autoId, now) => SubmitStep(cfg, q, t, autoId, now)
    case Claim(worker, now) => ClaimStep(q, worker, now)
    case Start(id) => StartStep(q, id)
    case Complete(id, result, now) => CompleteStep(q, id, result, now)
    case Fail(id, msg) => FailStep(cfg, q, id, msg)
    case Reclaim(_, order) => ReclaimStep(q, order)
  }

  ghost function Step(cfg: Config, r: Run, e: Event): Run
    requires Sweeps(cfg, r.q, e)
  {
    Run(Next(cfg, r.q, e), Observe(cfg, r, e))
  }

  ghost predicate Takes(cfg: Config, r: Run, e: Event, r': Run)
  {
    Legal(cfg, r, e) && r' == Step(cfg, r, e)
  }

  /** `rs` are the states a run passes through while it performs `es`. */
  ghost predicate IsRun(cfg: Config, es: seq<Event>, rs: seq<Run>)
  {
    && |rs| == |es| + 1
    && rs[0] == START
    && forall k {:trigger es[k]} :: 0 <= k < |es| ==> Takes(cfg, rs[k], es[k], rs[k + 1])
  }

  // ---------------------------------------------------------------- conservation

  function Count(s: seq<Task>, id: string): nat {
    if s == [] then 0 else (if s[0].id == id then 1 else 0) + Count(s[1..], id)
  }

  lemma {:induction false} CountConcat(a: seq<Task>, b: seq<Task>, id: string)
    ensures Count(a + b, id) == Count(a, id) + Count(b, id)
  {
    if a == [] {
      assert a + b == b;
    } else {
      assert (a + b)[1..] == a[1..] + b;
      CountConcat(a[1..], b, id);
    }
  }

  lemma CountPush(s: seq<Task>, t: Task, id: string)
    ensures Count(s + [t], id) == Count(s, id) + if t.id == id then 1 else 0
  {
    CountConcat(s, [t], id);
  }

  lemma CountInsert(s: seq<Task>, i: nat, t: Task, id: string)
    requires i <= |s|
    ensures Count(s[..i] + [t] + s[i..], id) == Count(s, id) + if t.id == id then 1 else 0
  {
    CountConcat(s[..i] + [t], s[i..], id);
    CountConcat(s[..i], [t], id);
    CountConcat(s[..i], s[i..], id);
    assert s == s[..i] + s[i..];
  }

  lemma {:induction false} CountMembers(s: seq<Task>, i: nat)
    requires i < |s|
    ensures Count(s, s[i].id) >= 1
  {
    if i > 0 { CountMembers(s[1..], i - 1); }
  }

  lemma CountTwice(s: seq<Task>, i: nat, j: nat)
    requires i < j < |s| && s[i].id == s[j].id
    ensures Count(s, s[i].id) >= 2
  {
    hide Count;
    CountConcat(s[..j], s[j..], s[i].id);
    assert s == s[..j] + s[j..];
    assert s[..j][i] == s[i] && s[j..][0] == s[j];
    CountMembers(s[..j], i);
    CountMembers(s[j..], 0);
  }

  /** In how many places the queue and the ledger hold a task with this ID. */
  function Copies(q: Queue, log: Ledger, id: string): nat {
    Count(q.pending, id) + (if id in q.claimed then 1 else 0) + Count(log.deaths, id) + Count(log.completions, id)
  }

  /** Claims are filed under the ID of their task. */
  ghost predicate Filed(q: Queue) { forall id :: id in q.claimed ==> q.claimed[id].id == id }

  /** A submission under this ID that the queue accepts. */
  predicate Arrives(cfg: Config, q: Queue, e: Event, id: string) {
    e.Submit? && |q.pending| < cfg.maxPending && EffectiveId(e) == id
  }

  /** A claim that files the head under the ID of a task already claimed. */
  predicate Overwrites(q: Queue, e: Event, id: string) {
    e.Claim? && q.pending != [] && q.pending[0].id == id && id in q.claimed
  }

  lemma SubmitCopies(cfg: Config, r: Run, e: Event, id: string)
    requires e.Submit?
    ensures var r' := Step(cfg, r, e);
            Copies(r'.q, r'.log, id) == Copies(r.q, r.log, id) + if Arrives(cfg, r.q, e, id) then 1 else 0
  {
    if |r.q.pending| < cfg.maxPending {
      var t := Accept(cfg, e.task, e.autoId, e.now);
      CountInsert(r.q.pending, Slot(r.q.pending, t.priority), t, id);
    }
  }

  lemma CompleteCopies(cfg: Config, r: Run, e: Event, id: string)
    requires e.Complete? && Filed(r.q)
    ensures var r' := Step(cfg, r, e); Copies(r'.q, r'.log, id) == Copies(r.q, r.log, id)
  {
    if e.id in r.q.claimed { CountPush(r.log.completions, Finished(r.q.claimed[e.id], e.result, e.now), id); }
  }

  lemma FailCopies(cfg: Config, r: Run, e: Event, id: string)
    requires e.Fail? && Filed(r.q)
    ensures var r' := Step(cfg, r, e); Copies(r'.q, r'.log, id) == Copies(r.q, r.log, id)
  {
    if e.id in r.q.claimed {
      var t := Failed(r.q.claimed[e.id], e.msg);
      CountPush(r.q.pending, Released(t), id);
      CountPush(r.log.deaths, Buried(t), id);
    }
  }

  lemma ReclaimOneCopies(q: Queue, log: Ledger, x: string, id: string)
    requires Filed(q) && x in q.claimed
    ensures Filed(ReclaimOne(q, x)) && Copies(ReclaimOne(q, x), log, id) == Copies(q, log, id)
  {
    CountPush(q.pending, Released(q.claimed[x]), id);
  }

  lemma {:induction false} ReclaimCopies(q: Queue, log: Ledger, order: seq<string>, id: string)
    requires Filed(q) && NoDup(order) && forall x :: x in order ==> x in q.claimed
    ensures Filed(ReclaimStep(q, order)) && Copies(ReclaimStep(q, order), log, id) == Copies(q, log, id)
    decreases |order|
  {
    if order != [] {
      ReclaimOneCopies(q, log, order[0], id);
      ReclaimCopies(ReclaimOne(q, order[0]), log, order[1..], id);
    }
  }

  /** Whatever the IDs, a step changes the number of copies by an accepted submission and by a claim that
      overwrites another one, and by nothing else. */
  lemma StepCopies(cfg: Config, r: Run, e: Event, id: string)
    requires Filed(r.q) && Sweeps(cfg, r.q, e)
    ensures var r' := Step(cfg, r, e);
            && Filed(r'.q)
            && Copies(r'.q, r'.log, id) + (if Overwrites(r.q, e, id) then 1 else 0)
               == Copies(r.q, r.log, id) + (if Arrives(cfg, r.q, e, id) then 1 else 0)
  {
    match e
    case Submit(_, _, _) => SubmitCopies(cfg, r, e, id);
    case Complete(_, _, _) => CompleteCopies(cfg, r, e, id);
    case Fail(_, _) => FailCopies(cfg, r, e, id);
    case Reclaim(_, order) =>
      ReclaimCopies(r.q, r.log, order, id);
      OtherLedger(ReclaimStep(r.q, order), r.log, Step(cfg, r, e).log, id);
    case _ =>
  }

  lemma OtherLedger(q: Queue, l: Ledger, m: Ledger, id: string)
    requires l.deaths == m.deaths && l.completions == m.completions
    ensures Copies(q, l, id) == Copies(q, m, id)
  {
  }

  /** Each accepted task is in exactly one place, and nothing else is anywhere. */
  ghost predicate Conserved(r: Run) {
    && Filed(r.q)
    && forall id :: Copies(r.q, r.log, id) == if id in r.log.accepted then 1 else 0
  }

  /** The dead-letter queue and the history are bounded windows on what died and completed. */
  ghost predicate Windows(cfg: Config, r: Run)
  {
    && r.q.dlq == Suffix(r.log.deaths, cfg.deadLetterMax)
    && r.q.history == Suffix(r.log.completions, HISTORY_MAX)
  }

  // ---------------------------------------------------------------- task records

  /** A record agrees with its accepted submission, its retry count and message with the accepted Fail calls. */
  ghost predicate Tracked(log: Ledger, t: Task) {
    && t.id in log.accepted
    && var o := log.accepted[t.id].task;
       && t.priority == o.priority
       && t.maxRetries == o.maxRetries
       && t.submittedAt == o.submittedAt
       && t.retries == o.retries + Fails(log, t.id)
       && t.error == if t.id in log.errors then log.errors[t.id] else o.error
  }

  /** The record names the worker of the last claim and its time. */
  ghost predicate Holder(log: Ledger, t: Task) {
    && t.id in log.claims
    && t.claimedBy == log.claims[t.id].worker && t.claimedAt == Some(log.claims[t.id].time)
  }

  /** The retry limit that applies: a submission may carry retries of its own. */
  ghost function Limit(log: Ledger, id: string): int
    requires id in log.accepted
  {
    Max(log.accepted[id].task.maxRetries, log.accepted[id].task.retries)
  }

  ghost predicate PendingOk(log: Ledger, t: Task) {
    && Tracked(log, t)
    && t.state == TaskPending
    && t.retries <= Limit(log, t.id)
    && (if t.id in log.requeued then t.claimedBy == "" && t.claimedAt == None
        else t == log.accepted[t.id].task)
  }

  ghost predicate ClaimedOk(log: Ledger, t: Task) {
    && Tracked(log, t)
    && (t.state == TaskClaimed || t.state == TaskRunning)
    && Holder(log, t)
    && t.retries <= Limit(log, t.id)
  }

  ghost predicate DeadOk(log: Ledger, t: Task) {
    Tracked(log, t) && t.state == TaskDead && Holder(log, t) && t.retries == Limit(log, t.id) + 1
  }

  ghost predicate CompletedOk(log: Ledger, t: Task) {
    && Tracked(log, t)
    && t.state == TaskCompleted
    && Holder(log, t)
    && t.id in log.outcomes
    && t.result == log.outcomes[t.id].result && t.completedAt == Some(log.outcomes[t.id].time)
    && t.retries <= Limit(log, t.id)
  }

  ghost predicate AllPendingOk(log: Ledger, p: seq<Task>) {
    forall i :: 0 <= i < |p| ==> PendingOk(log, p[i])
  }

  ghost predicate AllClaimedOk(log: Ledger, c: map<string, Task>) {
    forall id :: id in c ==> ClaimedOk(log, c[id])
  }

  ghost predicate AllDeadOk(log: Ledger, d: seq<Task>) {
    forall i :: 0 <= i < |d| ==> DeadOk(log, d[i])
  }

  ghost predicate AllCompletedOk(log: Ledger, d: seq<Task>) {
    forall i :: 0 <= i < |d| ==> CompletedOk(log, d[i])
  }

  ghost predicate LedgerOk(log: Ledger) {
    && (forall id :: id in log.fails || id in log.errors || id in log.requeued ==> id in log.accepted)
    && (forall id :: id in log.accepted ==> log.accepted[id].ticket < |log.accepted|)
  }

  ghost predicate Records(r: Run) {
    && AllPendingOk(r.log, r.q.pending)
    && AllClaimedOk(r.log, r.q.claimed)
    && AllDeadOk(r.log, r.log.deaths)
    && AllCompletedOk(r.log, r.log.completions)
    && LedgerOk(r.log)
  }

  // ---------------------------------------------------------------- order

  /** `a` may stand before `b`: a task that was never put back has nothing of lower priority
      before it, and keeps its submission order among never-requeued tasks of its priority. */
  ghost predicate MayPrecede(log: Ledger, a: Task, b: Task) {
    b.id !in log.requeued ==>
      && a.priority >= b.priority
      && (a.priority == b.priority && a.id !in log.requeued && a.id in log.accepted && b.id in log.accepted ==>
          log.accepted[a.id].ticket < log.accepted[b.id].ticket)
  }

  /** What survives of "sorted by priority" once retries are appended at the tail. */
  ghost predicate InOrder(log: Ledger, p: seq<Task>) {
    forall i, j :: 0 <= i < j < |p| ==> MayPrecede(log, p[i], p[j])
  }

  ghost predicate Ordered(r: Run) {
    InOrder(r.log, r.q.pending)
  }

  ghost predicate Inv(cfg: Config, r: Run)
  {
    Conserved(r) && Windows(cfg, r) && Records(r) && Ordered(r)
  }

  // ---------------------------------------------------------------- preservation

  /** Conservation puts a task in at most one place. */
  lemma OnePlace(r: Run)
    requires Conserved(r)
    ensures forall i, j :: 0 <= i < j < |r.q.pending| ==> r.q.pending[i].id != r.q.pending[j].id
    ensures forall i :: 0 <= i < |r.q.pending| ==>
            r.q.pending[i].id !in r.q.claimed && r.q.pending[i].id in r.log.accepted
    ensures forall id :: id in r.q.claimed ==> id in r.log.accepted
  {
    forall i, j | 0 <= i < j < |r.q.pending| ensures r.q.pending[i].id != r.q.pending[j].id {
      assert Copies(r.q, r.log, r.q.pending[i].id) <= 1;
      if r.q.pending[i].id == r.q.pending[j].id { CountTwice(r.q.pending, i, j); }
    }
    forall i | 0 <= i < |r.q.pending|
      ensures r.q.pending[i].id !in r.q.claimed && r.q.pending[i].id in r.log.accepted
    {
      assert Copies(r.q, r.log, r.q.pending[i].id) <= 1;
      CountMembers(r.q.pending, i);
    }
    forall id | id in r.q.claimed ensures id in r.log.accepted {
      assert Copies(r.q, r.log, id) >= 1;
    }
  }

  /** Whoever died or completed is no longer claimed. */
  lemma GoneIsNotClaimed(r: Run, id: string)
    requires Conserved(r) && id in r.q.claimed
    ensures forall i :: 0 <= i < |r.log.deaths| ==> r.log.deaths[i].id != id
    ensures forall i :: 0 <= i < |r.log.completions| ==> r.log.completions[i].id != id
  {
    assert Copies(r.q, r.log, id) <= 1;
    forall i | 0 <= i < |r.log.deaths| ensures r.log.deaths[i].id != id {
      CountMembers(r.log.deaths, i);
    }
    forall i | 0 <= i < |r.log.completions| ensures r.log.completions[i].id != id {
      CountMembers(r.log.completions, i);
    }
  }

  /** Fresh IDs keep every task in one place. */
  lemma StepConserves(cfg: Config, r: Run, e: Event)
    requires Conserved(r) && Legal(cfg, r, e) && !e.Reclaim?
    ensures Conserved(Step(cfg, r, e))
  {
    OnePlace(r);
    var r' := Step(cfg, r, e);
    hide Copies;
    forall id ensures Copies(r'.q, r'.log, id) == if id in r'.log.accepted then 1 else 0 {
      StepCopies(cfg, r, e, id);
      assert Copies(r.q, r.log, id) == if id in r.log.accepted then 1 else 0;
    }
    StepCopies(cfg, r, e, "");
  }

  /** Records of other tasks do not notice a new submission. */
  lemma SubmitLeavesOthers(cfg: Config, r: Run, e: Event, t: Task)
    requires e.Submit? && Legal(cfg, r, e) && t.id in r.log.accepted
    ensures var l := Observe(cfg, r, e);
            && t.id in l.accepted && l.accepted[t.id] == r.log.accepted[t.id]
            && (PendingOk(r.log, t) <==> PendingOk(l, t))
            && (ClaimedOk(r.log, t) <==> ClaimedOk(l, t))
            && (DeadOk(r.log, t) <==> DeadOk(l, t))
            && (CompletedOk(r.log, t) <==> CompletedOk(l, t))
  {
  }

  lemma SubmitKeepsRecords(cfg: Config, r: Run, e: Event)
    requires Records(r) && e.Submit? && Legal(cfg, r, e)
    requires |r.q.pending| < cfg.maxPending
    ensures Records(Step(cfg, r, e))
  {
    var t := Accept(cfg, e.task, e.autoId, e.now);
    var i := Slot(r.q.pending, t.priority);
    var r' := Step(cfg, r, e);
    assert LedgerOk(r'.log) by {
      assert r'.log.accepted.Keys == r.log.accepted.Keys + {t.id};
      assert |r'.log.accepted.Keys| == |r.log.accepted.Keys| + 1;
      assert |r'.log.accepted| == |r'.log.accepted.Keys| && |r.log.accepted| == |r.log.accepted.Keys|;
    }
    assert PendingOk(r'.log, t);
    forall k | 0 <= k < |r'.q.pending| ensures PendingOk(r'.log, r'.q.pending[k]) {
      if k != i {
        var old_k := if k < i then k else k - 1;
        assert r'.q.pending[k] == r.q.pending[old_k];
        assert PendingOk(r.log, r.q.pending[old_k]);
        SubmitLeavesOthers(cfg, r, e, r.q.pending[old_k]);
      }
    }
    forall id | id in r.q.claimed ensures ClaimedOk(r'.log, r.q.claimed[id]) {
      assert ClaimedOk(r.log, r.q.claimed[id]);
      SubmitLeavesOthers(cfg, r, e, r.q.claimed[id]);
    }
    forall k | 0 <= k < |r.log.deaths| ensures DeadOk(r'.log, r.log.deaths[k]) {
      assert DeadOk(r.log, r.log.deaths[k]);
      SubmitLeavesOthers(cfg, r, e, r.log.deaths[k]);
    }
    forall k | 0 <= k < |r.log.completions| ensures CompletedOk(r'.log, r.log.completions[k]) {
      assert CompletedOk(r.log, r.log.completions[k]);
      SubmitLeavesOthers(cfg, r, e, r.log.completions[k]);
    }
  }

  /** The slot is after every task that may precede the new one and before every task it may precede. */
  lemma SlotFits(cfg: Config, r: Run, e: Event, k: nat)
    requires Ordered(r) && Records(r) && e.Submit? && Legal(cfg, r, e)
    requires |r.q.pending| < cfg.maxPending && k < |r.q.pending|
    ensures var t := Accept(cfg, e.task, e.autoId, e.now);
            var l := Observe(cfg, r, e);
            if k < Slot(r.q.pending, t.priority) then MayPrecede(l, r.q.pending[k], t)
            else MayPrecede(l, t, r.q.pending[k])
  {
    var p := r.q.pending;
    var i := Slot(p, Accept(cfg, e.task, e.autoId, e.now).priority);
    assert PendingOk(r.log, p[k]);
    if i < k { assert MayPrecede(r.log, p[i], p[k]); }
  }

  /** A new submission does not disturb the order of two tasks already accepted. */
  lemma SubmitLeavesOrder(cfg: Config, r: Run, e: Event, a: Task, b: Task)
    requires e.Submit? && Legal(cfg, r, e) && PendingOk(r.log, a) && PendingOk(r.log, b) && MayPrecede(r.log, a, b)
    ensures MayPrecede(Observe(cfg, r, e), a, b)
  {
  }

  lemma SubmitKeepsOrder(cfg: Config, r: Run, e: Event)
    requires Ordered(r) && Records(r) && e.Submit? && Legal(cfg, r, e)
    requires |r.q.pending| < cfg.maxPending
    ensures Ordered(Step(cfg, r, e))
  {
    hide MayPrecede, PendingOk;
    var t := Accept(cfg, e.task, e.autoId, e.now);
    var p := r.q.pending;
    var i := Slot(p, t.priority);
    var log' := Observe(cfg, r, e);
    var p' := Insert(p, t);
    forall a, b | 0 <= a < b < |p'| ensures MayPrecede(log', p'[a], p'[b]) {
      var x, y := if a < i then a else a - 1, if b < i then b else b - 1;
      assert a != i ==> p'[a] == p[x];
      assert b != i ==> p'[b] == p[y];
      if a == i {
        SlotFits(cfg, r, e, y);
      } else if b == i {
        SlotFits(cfg, r, e, x);
      } else {
        SubmitLeavesOrder(cfg, r, e, p[x], p[y]);
      }
    }
  }

  predicate Agree<T(==)>(m: map<string, T>, n: map<string, T>, id: string) {
    (id in m <==> id in n) && (id in m ==> m[id] == n[id])
  }

  /** Records only look at what the ledger says of their own task. */
  lemma SameRecords(l: Ledger, m: Ledger, t: Task)
    requires l.accepted == m.accepted && l.fails == m.fails && l.errors == m.errors
    requires t.id in l.requeued <==> t.id in m.requeued
    requires Agree(l.claims, m.claims, t.id) && Agree(l.outcomes, m.outcomes, t.id)
    ensures PendingOk(l, t) <==> PendingOk(m, t)
    ensures ClaimedOk(l, t) <==> ClaimedOk(m, t)
    ensures DeadOk(l, t) <==> DeadOk(m, t)
    ensures CompletedOk(l, t) <==> CompletedOk(m, t)
  {
  }

  /** Whoever waits is neither claimed nor gone. */
  lemma PendingIsNotGone(r: Run, i: nat)
    requires Conserved(r) && i < |r.q.pending|
    ensures forall k :: 0 <= k < |r.log.deaths| ==> r.log.deaths[k].id != r.q.pending[i].id
    ensures forall k :: 0 <= k < |r.log.completions| ==> r.log.completions[k].id != r.q.pending[i].id
  {
    assert Copies(r.q, r.log, r.q.pending[i].id) <= 1;
    CountMembers(r.q.pending, i);
    forall k | 0 <= k < |r.log.deaths| ensures r.log.deaths[k].id != r.q.pending[i].id {
      CountMembers(r.log.deaths, k);
    }
    forall k | 0 <= k < |r.log.completions| ensures r.log.completions[k].id != r.q.pending[i].id {
      CountMembers(r.log.completions, k);
    }
  }

  lemma ClaimKeepsRecords(cfg: Config, r: Run, e: Event)
    requires Conserved(r) && Records(r) && e.Claim? && r.q.pending != []
    ensures Records(Step(cfg, r, e))
  {
    var p, c, l := r.q.pending, r.q.claimed, Observe(cfg, r, e);
    var t := Taken(p[0], e.worker, e.now);
    OnePlace(r);
    PendingIsNotGone(r, 0);
    assert PendingOk(r.log, p[0]);
    assert ClaimedOk(l, t);
    forall id | id in c ensures ClaimedOk(l, c[id]) {
      SameRecords(r.log, l, c[id]);
    }
    forall i | 0 <= i < |p[1..]| ensures PendingOk(l, p[1..][i]) {
      SameRecords(r.log, l, p[i + 1]);
    }
    forall k | 0 <= k < |r.log.deaths| ensures DeadOk(l, r.log.deaths[k]) {
      SameRecords(r.log, l, r.log.deaths[k]);
    }
    forall k | 0 <= k < |r.log.completions| ensures CompletedOk(l, r.log.completions[k]) {
      SameRecords(r.log, l, r.log.completions[k]);
    }
  }

  lemma TailInOrder(log: Ledger, p: seq<Task>)
    requires p != [] && InOrder(log, p)
    ensures InOrder(log, p[1..])
  {
  }

  lemma StartKeepsRecords(cfg: Config, r: Run, e: Event)
    requires Records(r) && e.Start?
    ensures Records(Step(cfg, r, e))
  {
    if e.id in r.q.claimed { assert ClaimedOk(r.log, r.q.claimed[e.id]); }
  }

  lemma CompleteKeepsRecords(cfg: Config, r: Run, e: Event)
    requires Conserved(r) && Records(r) && e.Complete? && e.id in r.q.claimed
    ensures Records(Step(cfg, r, e))
  {
    var c, l := r.q.claimed, Observe(cfg, r, e);
    OnePlace(r);
    GoneIsNotClaimed(r, e.id);
    CompletedRecord(cfg, r, e);
    hide PendingOk, ClaimedOk, DeadOk, CompletedOk;
    forall i | 0 <= i < |r.q.pending| ensures PendingOk(l, r.q.pending[i]) {
      SameRecords(r.log, l, r.q.pending[i]);
    }
    forall id | id in c - {e.id} ensures ClaimedOk(l, c[id]) {
      SameRecords(r.log, l, c[id]);
    }
    forall k | 0 <= k < |r.log.deaths| ensures DeadOk(l, r.log.deaths[k]) {
      SameRecords(r.log, l, r.log.deaths[k]);
    }
    forall k | 0 <= k < |r.log.completions| ensures CompletedOk(l, r.log.completions[k]) {
      SameRecords(r.log, l, r.log.completions[k]);
    }
  }

  lemma CompletedRecord(cfg: Config, r: Run, e: Event)
    requires Conserved(r) && Records(r) && e.Complete? && e.id in r.q.claimed
    ensures CompletedOk(Observe(cfg, r, e), Finished(r.q.claimed[e.id], e.result, e.now))
  {
    assert ClaimedOk(r.log, r.q.claimed[e.id]);
  }

  lemma CompleteWindow(s: seq<Task>, t: Task)
    ensures Suffix(Suffix(s, HISTORY_MAX) + [t], HISTORY_MAX) == Suffix(s + [t], HISTORY_MAX)
  {
    SuffixPush(s, t, HISTORY_MAX);
  }

  /** Counting one more accepted Fail call leaves every other record in step with the ledger. */
  lemma FailLeavesOthers(cfg: Config, r: Run, e: Event, t: Task)
    requires e.Fail? && e.id in r.q.claimed && t.id != e.id && t.id in r.log.accepted
    ensures var l := Observe(cfg, r, e);
            && (Tracked(r.log, t) <==> Tracked(l, t))
            && (PendingOk(r.log, t) <==> PendingOk(l, t))
            && (ClaimedOk(r.log, t) <==> ClaimedOk(l, t))
            && (DeadOk(r.log, t) <==> DeadOk(l, t))
            && (CompletedOk(r.log, t) <==> CompletedOk(l, t))
  {
  }

  /** The failed task itself: requeued with its limit respected, or dead one past its limit. */
  lemma FailRecord(cfg: Config, r: Run, e: Event)
    requires Conserved(r) && Records(r) && e.Fail? && e.id in r.q.claimed
    ensures var t := Failed(r.q.claimed[e.id], e.msg);
            var l := Observe(cfg, r, e);
            if t.retries <= t.maxRetries then PendingOk(l, Released(t)) else DeadOk(l, Buried(t))
  {
    assert ClaimedOk(r.log, r.q.claimed[e.id]);
  }

  lemma FailKeepsRecords(cfg: Config, r: Run, e: Event)
    requires Conserved(r) && Records(r) && e.Fail? && e.id in r.q.claimed
    ensures Records(Step(cfg, r, e))
  {
    FailRecord(cfg, r, e);
    FailKeepsLiveRecords(cfg, r, e);
    FailKeepsGoneRecords(cfg, r, e);
    FailKeepsLedger(cfg, r, e);
    hide PendingOk, ClaimedOk, DeadOk, CompletedOk, LedgerOk;
  }

  lemma FailKeepsLedger(cfg: Config, r: Run, e: Event)
    requires Records(r) && e.Fail? && e.id in r.q.claimed && Filed(r.q)
    ensures LedgerOk(Observe(cfg, r, e))
  {
    assert ClaimedOk(r.log, r.q.claimed[e.id]);
  }

  lemma FailKeepsLiveRecords(cfg: Config, r: Run, e: Event)
    requires Conserved(r) && Records(r) && e.Fail? && e.id in r.q.claimed
    ensures AllPendingOk(Observe(cfg, r, e), r.q.pending)
    ensures AllClaimedOk(Observe(cfg, r, e), r.q.claimed - {e.id})
  {
    OnePlace(r);
    forall i | 0 <= i < |r.q.pending| ensures PendingOk(Observe(cfg, r, e), r.q.pending[i]) {
      FailLeavesOthers(cfg, r, e, r.q.pending[i]);
    }
    forall id | id in r.q.claimed - {e.id} ensures ClaimedOk(Observe(cfg, r, e), r.q.claimed[id]) {
      FailLeavesOthers(cfg, r, e, r.q.claimed[id]);
    }
  }

  lemma FailKeepsGoneRecords(cfg: Config, r: Run, e: Event)
    requires Conserved(r) && Records(r) && e.Fail? && e.id in r.q.claimed
    ensures AllDeadOk(Observe(cfg, r, e), r.log.deaths)
    ensures AllCompletedOk(Observe(cfg, r, e), r.log.completions)
  {
    GoneIsNotClaimed(r, e.id);
    forall i | 0 <= i < |r.log.deaths| ensures DeadOk(Observe(cfg, r, e), r.log.deaths[i]) {
      assert DeadOk(r.log, r.log.deaths[i]);
      FailLeavesOthers(cfg, r, e, r.log.deaths[i]);
    }
    forall i | 0 <= i < |r.log.completions| ensures CompletedOk(Observe(cfg, r, e), r.log.completions[i]) {
      assert CompletedOk(r.log, r.log.completions[i]);
      FailLeavesOthers(cfg, r, e, r.log.completions[i]);
    }
  }

  /** Appending a task that now counts as requeued keeps the order. */
  lemma RequeueInOrder(l: Ledger, m: Ledger, p: seq<Task>, t: Task)
    requires InOrder(l, p) && m.accepted == l.accepted && m.requeued == l.requeued + {t.id}
    ensures InOrder(m, p + [t])
  {
    forall i, j | 0 <= i < j < |p + [t]| ensures MayPrecede(m, (p + [t])[i], (p + [t])[j]) {
      if j < |p| { assert MayPrecede(l, p[i], p[j]); }
    }
  }

  lemma FailKeepsOrder(cfg: Config, r: Run, e: Event)
    requires Conserved(r) && Ordered(r) && e.Fail? && e.id in r.q.claimed
    ensures Ordered(Step(cfg, r, e))
  {
    var t := Failed(r.q.claimed[e.id], e.msg);
    var r' := Step(cfg, r, e);
    if t.retries <= t.maxRetries {
      RequeueInOrder(r.log, r'.log, r.q.pending, Released(t));
    } else {
      assert r'.log.requeued == r.log.requeued;
      forall i, j | 0 <= i < j < |r.q.pending| ensures MayPrecede(r'.log, r.q.pending[i], r.q.pending[j]) {
        assert MayPrecede(r.log, r.q.pending[i], r.q.pending[j]);
      }
    }
  }

  lemma FailKeepsWindows(cfg: Config, r: Run, e: Event)
    requires Windows(cfg, r) && e.Fail? && e.id in r.q.claimed
    ensures Windows(cfg, Step(cfg, r, e))
  {
    var t := Failed(r.q.claimed[e.id], e.msg);
    SuffixPush(r.log.deaths, Buried(t), cfg.deadLetterMax);
  }

  ghost function ReclaimOneRun(r: Run, id: string): Run
    requires id in r.q.claimed
  {
    Run(ReclaimOne(r.q, id), r.log.(requeued := r.log.requeued + {id}))
  }

  lemma ReclaimOneKeepsRecords(r: Run, id: string)
    requires Conserved(r) && Records(r) && id in r.q.claimed
    ensures Records(ReclaimOneRun(r, id))
  {
    OnePlace(r);
    GoneIsNotClaimed(r, id);
    assert ClaimedOk(r.log, r.q.claimed[id]);
    var m := ReclaimOneRun(r, id).log;
    forall t: Task | t.id != id ensures
        && (PendingOk(r.log, t) <==> PendingOk(m, t)) && (ClaimedOk(r.log, t) <==> ClaimedOk(m, t))
        && (DeadOk(r.log, t) <==> DeadOk(m, t)) && (CompletedOk(r.log, t) <==> CompletedOk(m, t))
    {
      SameRecords(r.log, m, t);
    }
    assert PendingOk(m, Released(r.q.claimed[id]));
  }

  lemma ReclaimOneKeeps(cfg: Config, r: Run, id: string)
    requires Inv(cfg, r) && id in r.q.claimed
    ensures Inv(cfg, ReclaimOneRun(r, id))
  {
    var r' := ReclaimOneRun(r, id);
    forall x ensures Filed(r'.q) && Copies(r'.q, r'.log, x) == if x in r'.log.accepted then 1 else 0 {
      ReclaimOneCopies(r.q, r.log, id, x);
      OtherLedger(r'.q, r.log, r'.log, x);
      assert Copies(r.q, r.log, x) == if x in r.log.accepted then 1 else 0;
    }
    ReclaimOneKeepsRecords(r, id);
    RequeueInOrder(r.log, ReclaimOneRun(r, id).log, r.q.pending, Released(r.q.claimed[id]));
  }

  ghost function ReclaimAllRun(r: Run, order: seq<string>): Run
    requires NoDup(order) && forall id :: id in order ==> id in r.q.claimed
    decreases |order|
  {
    if order == [] then r else ReclaimAllRun(ReclaimOneRun(r, order[0]), order[1..])
  }

  lemma {:induction false} ReclaimAllIs(r: Run, order: seq<string>)
    requires NoDup(order) && forall id :: id in order ==> id in r.q.claimed
    ensures ReclaimAllRun(r, order).q == ReclaimStep(r.q, order)
    ensures ReclaimAllRun(r, order).log == r.log.(requeued := r.log.requeued + set id | id in order)
    decreases |order|
  {
    if order == [] {
      assert r.log.requeued + (set id | id in order) == r.log.requeued;
    } else {
      var r1 := ReclaimOneRun(r, order[0]);
      ReclaimAllIs(r1, order[1..]);
      assert r1.log.requeued + (set id | id in order[1..]) == r.log.requeued + set id | id in order;
    }
  }

  lemma {:induction false} ReclaimAllKeeps(cfg: Config, r: Run, order: seq<string>)
    requires Inv(cfg, r)
    requires NoDup(order) && forall id :: id in order ==> id in r.q.claimed
    ensures Inv(cfg, ReclaimAllRun(r, order))
    decreases |order|
  {
    if order != [] {
      ReclaimOneKeeps(cfg, r, order[0]);
      ReclaimAllKeeps(cfg, ReclaimOneRun(r, order[0]), order[1..]);
    }
  }

  lemma StepKeeps(cfg: Config, r: Run, e: Event)
    requires Inv(cfg, r) && Legal(cfg, r, e)
    ensures Inv(cfg, Step(cfg, r, e))
  {
    match e
    case Submit(_, _, _) =>
      if |r.q.pending| < cfg.maxPending {
        StepConserves(cfg, r, e);
        SubmitKeepsRecords(cfg, r, e);
        SubmitKeepsOrder(cfg, r, e);
      }
    case Claim(_, _) =>
      if r.q.pending != [] {
        StepConserves(cfg, r, e);
        ClaimKeepsRecords(cfg, r, e);
        TailInOrder(r.log, r.q.pending);
      }
    case Start(_) =>
      StepConserves(cfg, r, e);
      StartKeepsRecords(cfg, r, e);
    case Complete(id, _, _) =>
      if id in r.q.claimed { CompleteKeeps(cfg, r, e); }
    case Fail(id, _) =>
      if id in r.q.claimed { FailKeeps(cfg, r, e); }
    case Reclaim(_, order) =>
      ReclaimAllKeeps(cfg, r, order);
      ReclaimAllIs(r, order);
  }

  lemma CompleteKeeps(cfg: Config, r: Run, e: Event)
    requires Inv(cfg, r) && e.Complete? && e.id in r.q.claimed
    ensures Inv(cfg, Step(cfg, r, e))
  {
    StepConserves(cfg, r, e);
    CompleteKeepsRecords(cfg, r, e);
    CompleteWindow(r.log.completions,
      Finished(r.q.claimed[e.id], e.result, e.now));
  }

  lemma FailKeeps(cfg: Config, r: Run, e: Event)
    requires Inv(cfg, r) && e.Fail? && e.id in r.q.claimed
    ensures Inv(cfg, Step(cfg, r, e))
  {
    StepConserves(cfg, r, e);
    FailKeepsRecords(cfg, r, e);
    FailKeepsOrder(cfg, r, e);
    FailKeepsWindows(cfg, r, e);
  }

  lemma TakesKeeps(cfg: Config, r: Run, e: Event, r': Run)
    ensures Inv(cfg, r) && Takes(cfg, r, e, r') ==> Inv(cfg, r')
  {
    if Inv(cfg, r) && Takes(cfg, r, e, r') { StepKeeps(cfg, r, e); }
  }

  /** Every state of every run satisfies the invariant. */
  lemma {:induction false} RunsKeep(cfg: Config, es: seq<Event>, rs: seq<Run>, k: nat)
    requires IsRun(cfg, es, rs) && k <= |es|
    ensures Inv(cfg, rs[k])
  {
    hide Inv, Takes;
    if k > 0 {
      RunsKeep(cfg, es, rs, k - 1);
      TakesKeeps(cfg, rs[k - 1], es[k - 1], rs[k]);
    } else {
      StartOk(cfg);
    }
  }

  lemma StartOk(cfg: Config)
    ensures Inv(cfg, START)
  {
  }

  // ---------------------------------------------------------------- what every run guarantees

  /** An accepted task is in exactly one place; dead and completed tasks beyond the bounded
      windows are the evicted ones. */
  lemma OneTaskOnePlace(cfg: Config, es: seq<Event>, rs: seq<Run>, k: nat, id: string)
    requires IsRun(cfg, es, rs) && k <= |es|
    ensures Copies(rs[k].q, rs[k].log, id) == if id in rs[k].log.accepted then 1 else 0
    ensures rs[k].q.dlq == Suffix(rs[k].log.deaths, cfg.deadLetterMax)
    ensures rs[k].q.history == Suffix(rs[k].log.completions, 500)
  {
    RunsKeep(cfg, es, rs, k);
  }

  /** Claim never passes over a never-requeued task of higher priority, and among never-requeued
      tasks of the same priority it takes the one submitted first. */
  lemma ClaimRespectsPriority(cfg: Config, es: seq<Event>, rs: seq<Run>, k: nat, i: nat)
    requires IsRun(cfg, es, rs) && k <= |es|
    requires 0 < i < |rs[k].q.pending| && rs[k].q.pending[i].id !in rs[k].log.requeued
    ensures var head, t, log := rs[k].q.pending[0], rs[k].q.pending[i], rs[k].log;
            && head.priority >= t.priority
            && head.id in log.accepted && t.id in log.accepted
            && (head.priority == t.priority && head.id !in log.requeued ==>
                log.accepted[head.id].ticket < log.accepted[t.id].ticket)
  {
    RunsKeep(cfg, es, rs, k);
    assert MayPrecede(rs[k].log, rs[k].q.pending[0], rs[k].q.pending[i]);
    assert PendingOk(rs[k].log, rs[k].q.pending[0]) && PendingOk(rs[k].log, rs[k].q.pending[i]);
  }

  ghost predicate HeadIsHighest(p: seq<Task>) {
    forall i :: 0 <= i < |p| ==> p[0].priority >= p[i].priority
  }

  /** The documented promise, that Claim takes a highest-priority pending task, holds exactly
      while no requeued task in the queue outranks the head. */
  lemma ClaimHighestExactly(cfg: Config, es: seq<Event>, rs: seq<Run>, k: nat)
    requires IsRun(cfg, es, rs) && k <= |es|
    ensures var p, log := rs[k].q.pending, rs[k].log;
            HeadIsHighest(p) <==>
            !exists i :: 0 < i < |p| && p[i].id in log.requeued && p[i].priority > p[0].priority
  {
    var p, log := rs[k].q.pending, rs[k].log;
    forall i | 0 < i < |p| && p[i].id !in log.requeued ensures p[0].priority >= p[i].priority {
      ClaimRespectsPriority(cfg, es, rs, k, i);
    }
  }

  lemma UrgentClaimed(cfg: Config, t: Task) returns (es: seq<Event>, rs: seq<Run>)
    requires t.id == "u" && t.retries == 0 && t.maxRetries > 0
    ensures |es| == 2 && IsRun(cfg, es, rs)
    ensures rs[2].q.pending == [] && rs[2].log.accepted.Keys == {"u"} && "u" in rs[2].q.claimed
    ensures var c := rs[2].q.claimed["u"];
            c.priority == t.priority && c.retries == 0 && c.maxRetries == t.maxRetries
  {
    es := [Submit(t, "", 0), Claim("w", 1)];
    var r1 := Step(cfg, START, es[0]);
    assert r1.q.pending == [Accept(cfg, t, "", 0)];
    rs := [START, r1, Step(cfg, r1, es[1])];
  }

  /** The promise does fail: an urgent task that failed once waits behind a trivial one. */
  lemma ClaimPassesOverRequeued() returns (cfg: Config, es: seq<Event>, rs: seq<Run>)
    ensures IsRun(cfg, es, rs) && !HeadIsHighest(rs[|es|].q.pending)
  {
    cfg := Normalize(Settings(0, 2, 0, 0));
    var urgent := Task("u", 9, TaskPending, "", 0, 2, 0, None, None, 0, 0);
    var trivial := urgent.(id := "t", priority := 1);
    es, rs := UrgentClaimed(cfg, urgent);
    var e3, e4 := Submit(trivial, "", 2), Fail("u", 1);
    var r3 := Step(cfg, rs[2], e3);
    assert r3.q.pending == [Accept(cfg, trivial, "", 2)] && r3.q.claimed == rs[2].q.claimed;
    var r4 := Step(cfg, r3, e4);
    assert r4.q.pending[0].priority == 1 && r4.q.pending[1].priority == 9;
    es, rs := es + [e3, e4], rs + [r3, r4];
  }

  /** A submission is accepted exactly while there is room, under its own ID or else the generated one, and recorded as
      it was handed in, with the default retry limit if it has none. */
  lemma SubmitRecords(cfg: Config, r: Run, e: Event)
    requires e.Submit? && Legal(cfg, r, e)
    ensures var id, log := if e.task.id == "" then e.autoId else e.task.id, Step(cfg, r, e).log;
            && (id in log.accepted <==> |r.q.pending| < cfg.maxPending)
            && (id in log.accepted ==>
                var t := log.accepted[id].task;
                && t.id == id && t.priority == e.task.priority && t.state == TaskPending && t.submittedAt == e.now
                && t.retries == e.task.retries && t.error == e.task.error
                && t.maxRetries == if e.task.maxRetries == 0 then cfg.maxRetries else e.task.maxRetries)
  {
  }

  ghost predicate Waits(q: Queue, id: string) { exists i :: 0 <= i < |q.pending| && q.pending[i].id == id }

  /** A sweep takes away exactly the claims whose last claim is longer ago than the timeout. */
  lemma SweepTakesStale(cfg: Config, es: seq<Event>, rs: seq<Run>, k: nat, id: string)
    requires IsRun(cfg, es, rs) && k < |es| && es[k].Reclaim? && id in rs[k].q.claimed
    ensures id in rs[k].log.claims
    ensures id in rs[k + 1].q.claimed <==> es[k].now - cfg.claimTimeout <= rs[k].log.claims[id].time
    ensures id !in rs[k + 1].q.claimed ==> Waits(rs[k + 1].q, id)
  {
    RunsKeep(cfg, es, rs, k);
    assert Takes(cfg, rs[k], es[k], rs[k + 1]);
    StaleSinceClaim(cfg, rs[k], es[k], id);
  }

  lemma StaleSinceClaim(cfg: Config, r: Run, e: Event, id: string)
    requires Conserved(r) && Records(r) && e.Reclaim? && Legal(cfg, r, e) && id in r.q.claimed
    ensures var q := Step(cfg, r, e).q;
            && id in r.log.claims
            && (id in q.claimed <==> e.now - cfg.claimTimeout <= r.log.claims[id].time)
            && (id !in q.claimed ==> Waits(q, id))
  {
    ReclaimLeaves(r.q, e.order);
    assert ClaimedOk(r.log, r.q.claimed[id]) && r.q.claimed[id].id == id;
    hide Tracked, Copies, Limit, PendingOk, DeadOk, CompletedOk;
    if id in e.order { var i := SweptIsPending(r.q, e.order, id); }
  }

  lemma {:induction false} SweptIsPending(q: Queue, order: seq<string>, id: string) returns (i: nat)
    requires Filed(q) && NoDup(order) && (forall x :: x in order ==> x in q.claimed) && id in order
    ensures i < |ReclaimStep(q, order).pending| && ReclaimStep(q, order).pending[i].id == id
    decreases |order|
  {
    var p := ReclaimOne(q, order[0]);
    assert ReclaimStep(q, order) == ReclaimStep(p, order[1..]);
    if id == order[0] {
      i := |q.pending|;
      PendingStays(p, order[1..], i);
    } else {
      i := SweptIsPending(p, order[1..], id);
    }
  }

  lemma {:induction false} PendingStays(q: Queue, order: seq<string>, i: nat)
    requires NoDup(order) && (forall x :: x in order ==> x in q.claimed) && i < |q.pending|
    ensures i < |ReclaimStep(q, order).pending| && ReclaimStep(q, order).pending[i] == q.pending[i]
    decreases |order|
  {
    if order != [] { PendingStays(ReclaimOne(q, order[0]), order[1..], i); }
  }

  /** The defaults, and no change to settings that are in range. */
  lemma NormalizeExactly(s: Settings)
    ensures Normalize(Settings(0, -1, 0, 0)) == Settings(1000, 2, 300, 100)
    ensures Normalize(s) == s <==> s.maxPending > 0 && s.maxRetries >= 0 && s.claimTimeout > 0 && s.deadLetterMax > 0
  {
  }

  /** Retries count the accepted Fail calls, stay within the limit while the task lives, and are
      exactly one past it when it is dead. Each place fixes the state; a claimed, dead or completed
      task names the worker and the time of its last claim, a completed one the reported result
      and its time, a failed one the last message; a requeued task names no worker. */
  lemma RetryAccounting(cfg: Config, es: seq<Event>, rs: seq<Run>, k: nat)
    requires IsRun(cfg, es, rs) && k <= |es|
    ensures AllPendingOk(rs[k].log, rs[k].q.pending)
    ensures AllClaimedOk(rs[k].log, rs[k].q.claimed)
    ensures AllDeadOk(rs[k].log, rs[k].q.dlq)
    ensures AllCompletedOk(rs[k].log, rs[k].q.history)
  {
    RunsKeep(cfg, es, rs, k);
    var r := rs[k];
    hide IsRun, Conserved, Ordered, LedgerOk, PendingOk, ClaimedOk, DeadOk, CompletedOk;
    forall i | 0 <= i < |r.q.dlq| ensures DeadOk(r.log, r.q.dlq[i]) {
      assert r.q.dlq[i] == r.log.deaths[|r.log.deaths| - |r.q.dlq| + i];
    }
    forall i | 0 <= i < |r.q.history| ensures CompletedOk(r.log, r.q.history[i]) {
      assert r.q.history[i] == r.log.completions[|r.log.completions| - |r.q.history| + i];
    }
  }

  /** It does happen: two submissions under one ID, each claimed in turn, leave only the second. */
  lemma ReusedIdLosesTask(cfg: Config, t: Task, u: Task) returns (q: Queue)
    requires t.id != "" && u.id == t.id
    ensures q == ClaimStep(SubmitStep(cfg, ClaimStep(SubmitStep(cfg, EMPTY, t, "", 0), "a", 1), u, "", 2), "b", 3)
    ensures q == Queue([], map[t.id := Taken(Accept(cfg, u, "", 2), "b", 3)], [], [])
  {
    var x, y := Accept(cfg, t, "", 0), Accept(cfg, u, "", 2);
    var q1 := SubmitStep(cfg, EMPTY, t, "", 0);
    assert q1.pending == [x];
    var q2 := ClaimStep(q1, "a", 1);
    assert q2 == Queue([], map[t.id := Taken(x, "a", 1)], [], []);
    var q3 := SubmitStep(cfg, q2, u, "", 2);
    assert q3.pending == [y];
    q := ClaimStep(q3, "b", 3);
    assert q.claimed == map[t.id := Taken(y, "b", 3)];
  }
}
