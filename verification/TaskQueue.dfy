// The mutable task queue of internal/distributed/queue.go: task records are shared objects that
// the queue updates in place. Each method takes exactly the step of TaskQueueModel.
module TaskQueue {
  import opened Common
  import opened M = TaskQueueModel

  class DistributedTask {
    var id: string
    var priority: int
    var state: TaskState
    var claimedBy: string
    var retries: int
    var maxRetries: int
    var submittedAt: int
    var claimedAt: Option<int>
    var completedAt: Option<int>
    var result: Payload
    var error: Payload

    constructor (id: string, priority: int, maxRetries: int)
      ensures Value() == Task(id, priority, TaskPending, "", 0, maxRetries, 0, None, None, 0, 0)
    {
      this.id, this.priority, this.maxRetries := id, priority, maxRetries;
      state, claimedBy, retries, submittedAt := TaskPending, "", 0, 0;
      claimedAt, completedAt, result, error := None, None, 0, 0;
    }

    method MarkSubmitted(cfg: Config, autoId: string, now: int)
      modifies this
      ensures Value() == Accept(cfg, old(Value()), autoId, now)
    {
      if id == "" {
        id := autoId;
      }
      state := TaskPending;
      submittedAt := now;
      if maxRetries == 0 {
        maxRetries := cfg.maxRetries;
      }
    }

    method MarkClaimed(worker: string, now: int)
      modifies this
      ensures Value() == Taken(old(Value()), worker, now)
    {
      state := TaskClaimed;
      claimedBy := worker;
      claimedAt := Some(now);
    }

    method MarkRunning()
      modifies this
      ensures Value() == Running(old(Value()))
    {
      state := TaskRunning;
    }

    method MarkCompleted(result: Payload, now: int)
      modifies this
      ensures Value() == Finished(old(Value()), result, now)
    {
      state := TaskCompleted;
      this.result := result;
      completedAt := Some(now);
    }

    method MarkFailed(msg: Payload)
      modifies this
      ensures Value() == Failed(old(Value()), msg)
    {
      error := msg;
      retries := retries + 1;
    }

    method MarkDead()
      modifies this
      ensures Value() == Buried(old(Value()))
    {
      state := TaskDead;
    }

    /** Back to pending: no worker, no claim time. */
    method MarkReleased()
      modifies this
      ensures Value() == Released(old(Value()))
    {
      state := TaskPending;
      claimedBy := "";
      claimedAt := None;
    }

    function Value(): Task
      reads this
    {
      Task(id, priority, state, claimedBy, retries, maxRetries, submittedAt, claimedAt, completedAt, result, error)
    }
  }

  class DistributedQueue {
    const cfg: Config
    var pending: seq<DistributedTask>
    var claimed: map<string, DistributedTask>
    var dlq: seq<DistributedTask>
    var history: seq<DistributedTask>

    /** The task objects the queue was ever handed. */
    ghost var Repr: set<DistributedTask>

    /** The queue on values. */
    ghost var model: Queue

    /** A task's state names the container that holds it, no pending task is held twice, and the
        claims are filed under their IDs. */
    ghost predicate Placed()
      reads this, Repr
    {
      && (forall i :: 0 <= i < |pending| ==> pending[i] in Repr && pending[i].state == TaskPending)
      && (forall i :: 0 <= i < |dlq| ==> dlq[i] in Repr && dlq[i].state == TaskDead)
      && (forall i :: 0 <= i < |history| ==> history[i] in Repr && history[i].state == TaskCompleted)
      && (forall k :: k in claimed ==> claimed[k] in Repr && claimed[k].id == k
                                       && (claimed[k].state == TaskClaimed || claimed[k].state == TaskRunning))
      && (forall i, j :: 0 <= i < j < |pending| ==> pending[i] != pending[j])
    }

    /** `m` lists the values of the tasks held. */
    ghost predicate Mirrors(m: Queue)
      reads this, Repr
      requires Placed()
    {
      && |m.pending| == |pending| && |m.dlq| == |dlq| && |m.history| == |history|
      && m.claimed.Keys == claimed.Keys
      && (forall i :: 0 <= i < |pending| ==> m.pending[i] == pending[i].Value())
      && (forall i :: 0 <= i < |dlq| ==> m.dlq[i] == dlq[i].Value())
      && (forall i :: 0 <= i < |history| ==> m.history[i] == history[i].Value())
      && (forall k :: k in claimed ==> m.claimed[k] == claimed[k].Value())
    }

    ghost predicate Valid()
      reads this, Repr
    {
      Placed() && Mirrors(model)
    }

    constructor (s: Settings)
      ensures Valid() && model == EMPTY && cfg == Normalize(s) && Repr == {}
    {
      cfg := Normalize(s);
      pending, claimed, dlq, history := [], map[], [], [];
      Repr, model := {}, EMPTY;
    }

    /** No container holds the task. */
    ghost predicate Detached(t: DistributedTask)
      reads this
    {
      && (forall i :: 0 <= i < |pending| ==> pending[i] != t)
      && (forall i :: 0 <= i < |dlq| ==> dlq[i] != t)
      && (forall i :: 0 <= i < |history| ==> history[i] != t)
      && (forall k :: k in claimed ==> claimed[k] != t)
    }

    /** Updating a detached task does not show in the queue. */
    twostate lemma Untouched(t: DistributedTask)
      requires old(Valid()) && unchanged(this) && Detached(t)
      requires forall o :: o in Repr && o != t ==> unchanged(o)
      ensures Valid() && model == old(model)
    {
      forall o | o in Repr && o != t ensures o.Value() == old(o.Value()) && o.state == old(o.state) {
        assert unchanged(o);
      }
    }

    method Submit(task: DistributedTask, autoId: string, now: int) returns (ok: bool)
      requires Valid() && Detached(task)
      modifies this, task
      ensures Valid() && ok == (old(|pending|) < cfg.maxPending)
      ensures Repr == old(Repr) + if ok then {task} else {}
      ensures model == SubmitStep(cfg, old(model), old(task.Value()), autoId, now)
      ensures !ok ==> task.Value() == old(task.Value())
    {
      if |pending| >= cfg.maxPending {
        return false;
      }
      label Before:
      task.MarkSubmitted(cfg, autoId, now);
      Untouched@Before(task);
      var i := FindSlot(task.priority);
      InsertAt(i, task);
      ok := true;
    }

    /** The scan of Submit for the first task of strictly lower priority. */
    method FindSlot(priority: int) returns (i: nat)
      requires Valid()
      ensures i == Slot(model.pending, priority)
    {
      i := 0;
      while i < |pending| && priority <= pending[i].priority
        invariant i <= |pending|
        invariant forall k :: 0 <= k < i ==> priority <= pending[k].priority
      {
        i := i + 1;
      }
      SlotIsFirst(model.pending, priority, i);
    }

    method InsertAt(i: nat, task: DistributedTask)
      requires Valid() && i <= |pending| && Detached(task) && task.state == TaskPending
      modifies this`pending, this`Repr, this`model
      ensures Valid() && Repr == old(Repr) + {task}
      ensures model == old(model).(pending := old(model).pending[..i] + [task.Value()] + old(model).pending[i..])
    {
      pending := InsertedAt(pending, i, task);
      Repr := Repr + {task};
      model := model.(pending := InsertedAt(model.pending, i, task.Value()));
    }

    method PopPending() returns (task: DistributedTask)
      requires Valid() && pending != []
      modifies this`pending, this`model
      ensures Valid() && Detached(task) && task == old(pending[0]) && task in Repr
      ensures task.Value() == old(model).pending[0]
      ensures model == old(model).(pending := old(model).pending[1..])
    {
      task := pending[0];
      pending := pending[1..];
      model := model.(pending := model.pending[1..]);
    }

    method Detach(id: string) returns (task: DistributedTask)
      requires Valid() && id in claimed
      modifies this`claimed, this`model
      ensures Valid() && Detached(task) && task == old(claimed[id]) && task in Repr && claimed == old(claimed) - {id}
      ensures task.Value() == old(model).claimed[id]
      ensures model == old(model).(claimed := old(model).claimed - {id})
    {
      task := claimed[id];
      claimed := claimed - {id};
      model := model.(claimed := model.claimed - {id});
    }

    method PushPending(task: DistributedTask)
      requires Valid() && Detached(task) && task.state == TaskPending && task in Repr
      modifies this`pending, this`model
      ensures Valid() && pending == old(pending) + [task]
      ensures model == old(model).(pending := old(model).pending + [task.Value()])
    {
      pending := pending + [task];
      model := model.(pending := model.pending + [task.Value()]);
    }

    /** Files a claim under the task's ID, over whatever was filed there. */
    method FileClaim(task: DistributedTask)
      requires Valid() && Detached(task) && task in Repr
      requires task.state == TaskClaimed || task.state == TaskRunning
      modifies this`claimed, this`model
      ensures Valid() && claimed == old(claimed)[task.id := task]
      ensures model == old(model).(claimed := old(model).claimed[task.id := task.Value()])
    {
      claimed := claimed[task.id := task];
      model := model.(claimed := model.claimed[task.id := task.Value()]);
    }

    method Claim(worker: string, now: int) returns (task: DistributedTask?)
      requires Valid()
      modifies this, Repr
      ensures Valid() && Repr == old(Repr)
      ensures model == ClaimStep(old(model), worker, now)
      ensures task == if old(pending) == [] then null else old(pending[0])
    {
      if pending == [] {
        return null;
      }
      task := PopPending();
      label Before:
      task.MarkClaimed(worker, now);
      Untouched@Before(task);
      FileClaim(task);
    }

    /** A claimed task is in no other place. */
    lemma HeldOnce(id: string)
      requires Placed() && id in claimed
      ensures forall i :: 0 <= i < |pending| ==> pending[i] != claimed[id]
      ensures forall i :: 0 <= i < |dlq| ==> dlq[i] != claimed[id]
      ensures forall i :: 0 <= i < |history| ==> history[i] != claimed[id]
      ensures forall k :: k in claimed && k != id ==> claimed[k] != claimed[id]
    {
    }

    /** Marking one claimed task as running changes that task's value and no other. */
    twostate lemma OnlyRuns(id: string)
      requires old(Valid()) && unchanged(this) && id in claimed
      requires forall o :: o in Repr && o != claimed[id] ==> unchanged(o)
      requires claimed[id].Value() == Running(old(claimed[id].Value()))
      ensures Placed()
      ensures forall o :: o in Repr && o != claimed[id] ==> o.Value() == old(o.Value())
    {
      forall o | o in Repr && o != claimed[id]
        ensures o.Value() == old(o.Value()) && o.state == old(o.state) && o.id == old(o.id)
      {
        assert unchanged(o);
      }
      assert claimed[id].Value().state == TaskRunning && claimed[id].Value().id == old(claimed[id].Value()).id;
    }

    twostate lemma RunsMirrored(id: string)
      requires old(Valid()) && unchanged(this) && id in claimed && Placed()
      requires forall o :: o in Repr && o != claimed[id] ==> o.Value() == old(o.Value())
      requires claimed[id].Value() == Running(old(claimed[id].Value()))
      ensures Mirrors(StartStep(model, id))
    {
      HeldOnce(id);
    }

    lemma ClaimListed(id: string)
      requires Valid()
      ensures (id in claimed <==> id in model.claimed) && (id in claimed ==> claimed[id] in Repr)
    {
    }

    /** The queue as its tasks now show it. */
    ghost method Adopt(m: Queue)
      requires Placed() && Mirrors(m)
      modifies this`model
      ensures Valid() && model == m
    {
      model := m;
    }

    method Start(id: string) returns (ok: bool)
      requires Valid()
      modifies this`model, Repr
      ensures Valid() && ok == (id in claimed)
      ensures model == StartStep(old(model), id)
    {
      hide Placed, Mirrors;
      ClaimListed(id);
      if id !in claimed {
        return false;
      }
      label Before:
      claimed[id].MarkRunning();
      OnlyRuns@Before(id);
      RunsMirrored@Before(id);
      Adopt(StartStep(model, id));
      ok := true;
    }

    method Complete(id: string, result: Payload, now: int) returns (ok: bool)
      requires Valid()
      modifies this, Repr
      ensures Valid() && Repr == old(Repr) && ok == (id in old(claimed))
      ensures model == CompleteStep(old(model), id, result, now)
    {
      if id !in claimed {
        return false;
      }
      var task := Detach(id);
      label Before:
      task.MarkCompleted(result, now);
      Untouched@Before(task);
      AddHistory(task);
      ok := true;
    }

    method AddHistory(task: DistributedTask)
      requires Valid() && Detached(task) && task.state == TaskCompleted && task in Repr
      modifies this`history, this`model
      ensures Valid()
      ensures model == old(model).(history := Suffix(old(model).history + [task.Value()], HISTORY_MAX))
    {
      ghost var grown := model.history + [task.Value()];
      var h := history + [task];
      if |h| > HISTORY_MAX {
        h := h[|h| - HISTORY_MAX..];
      }
      assert h == Suffix(history + [task], HISTORY_MAX);
      SameSuffix(history + [task], grown, HISTORY_MAX);
      hide Suffix;
      history := h;
      model := model.(history := Suffix(grown, HISTORY_MAX));
    }

    lemma SameSuffix(h: seq<DistributedTask>, m: seq<Task>, n: nat)
      requires |h| == |m| && forall i {:trigger h[i]} :: 0 <= i < |h| ==> m[i] == h[i].Value()
      ensures |Suffix(m, n)| == |Suffix(h, n)|
      ensures forall i {:trigger Suffix(h, n)[i]} :: 0 <= i < |Suffix(h, n)| ==>
                Suffix(h, n)[i] in h && Suffix(m, n)[i] == Suffix(h, n)[i].Value()
    {
    }

    method Fail(id: string, msg: Payload) returns (ok: bool)
      requires Valid()
      modifies this, Repr
      ensures Valid() && Repr == old(Repr) && ok == (id in old(claimed))
      ensures model == FailStep(cfg, old(model), id, msg)
    {
      if id !in claimed {
        return false;
      }
      ok := true;
      var task := Detach(id);
      label Before:
      task.MarkFailed(msg);
      Untouched@Before(task);
      if task.retries <= task.maxRetries {
        Requeue(task);
      } else {
        Bury(task);
      }
    }

    /** Puts a released task at the tail of the pending tasks. */
    method Requeue(task: DistributedTask)
      requires Valid() && Detached(task) && task in Repr
      modifies this`pending, this`model, task
      ensures Valid() && model == old(model).(pending := old(model).pending + [Released(old(task.Value()))])
    {
      label Before:
      task.MarkReleased();
      Untouched@Before(task);
      PushPending(task);
    }

    method Bury(task: DistributedTask)
      requires Valid() && Detached(task) && task in Repr
      modifies this`dlq, this`model, task
      ensures Valid()
      ensures var grown := old(model).dlq + [Buried(old(task.Value()))];
              model == old(model).(dlq := if |grown| > cfg.deadLetterMax then grown[1..] else grown)
    {
      label Before:
      task.MarkDead();
      Untouched@Before(task);
      AddDead(task);
    }

    method AddDead(task: DistributedTask)
      requires Valid() && Detached(task) && task.state == TaskDead && task in Repr
      modifies this`dlq, this`model
      ensures Valid()
      ensures var grown := old(model).dlq + [task.Value()];
              model == old(model).(dlq := if |grown| > cfg.deadLetterMax then grown[1..] else grown)
    {
      dlq := dlq + [task];
      if |dlq| > cfg.deadLetterMax {
        dlq := dlq[1..];
      }
      ghost var grown := model.dlq + [task.Value()];
      model := model.(dlq := if |grown| > cfg.deadLetterMax then grown[1..] else grown);
    }

    /** The claims are visited in an arbitrary order, as a Go map iteration does. */
    method ReclaimStale(now: int) returns (reclaimed: nat, ghost order: seq<string>)
      requires Valid()
      modifies this, Repr
      ensures Valid() && Repr == old(Repr) && reclaimed == |order|
      ensures NoDup(order) && forall id :: id in order <==> id in StaleIds(cfg, old(model), now)
      ensures model == ReclaimStep(old(model), order)
    {
      var cutoff := now - cfg.claimTimeout;
      var todo := claimed.Keys;
      reclaimed, order := 0, [];
      ghost var q := model;
      while todo != {}
        invariant Valid() && Repr == old(Repr) && reclaimed == |order|
        invariant Sweeping(cfg, q, now, todo, order) && model == ReclaimStep(q, order)
        decreases todo
      {
        var id :| id in todo;
        SweepNext(cfg, q, now, todo, order, id);
        todo := todo - {id};
        var stale := ReleaseIfStale(id, cutoff);
        if stale {
          reclaimed := reclaimed + 1;
          order := order + [id];
        }
      }
    }

    method ReleaseIfStale(id: string, cutoff: int) returns (stale: bool)
      requires Valid() && id in model.claimed
      modifies this, Repr
      ensures Valid() && Repr == old(Repr)
      ensures stale == (old(model).claimed[id].claimedAt.Some? && old(model).claimed[id].claimedAt.value < cutoff)
      ensures model == if stale then ReclaimOne(old(model), id) else old(model)
    {
      assert model.claimed[id] == claimed[id].Value();
      var task := claimed[id];
      stale := task.claimedAt.Some? && task.claimedAt.value < cutoff;
      if stale {
        Release(id);
      }
    }

    /** Takes one claim back to the tail of the pending tasks. */
    method Release(id: string)
      requires Valid() && id in claimed
      modifies this`claimed, this`pending, this`model, claimed[id]
      ensures Valid() && claimed == old(claimed) - {id}
      ensures model == ReclaimOne(old(model), id)
    {
      var task := Detach(id);
      Requeue(task);
    }
  }

  lemma {:induction false} SlotIsFirst(p: seq<Task>, priority: int, i: nat)
    requires i <= |p| && (forall k :: 0 <= k < i ==> priority <= p[k].priority)
    requires i < |p| ==> priority > p[i].priority
    ensures Slot(p, priority) == i
  {
    if i > 0 { SlotIsFirst(p[1..], priority, i - 1); }
  }
}
