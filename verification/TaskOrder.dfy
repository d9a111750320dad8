// What holds of every run of the task queue whatever the IDs: when the pending list is sorted by
// priority, and when every accepted submission is kept.
module TaskOrder {
  import opened Common
  import opened TaskQueueModel

  ghost predicate Moves(cfg: Config, r: Run, e: Event, r': Run) {
    Sweeps(cfg, r.q, e) && r' == Step(cfg, r, e)
  }

  /** A run in which task IDs may be used again. */
  ghost predicate IsAnyRun(cfg: Config, es: seq<Event>, rs: seq<Run>) {
    && |rs| == |es| + 1
    && rs[0] == START
    && forall k {:trigger es[k]} :: 0 <= k < |es| ==> Moves(cfg, rs[k], es[k], rs[k + 1])
  }

  lemma FreshRunsAreRuns(cfg: Config, es: seq<Event>, rs: seq<Run>)
    requires IsRun(cfg, es, rs)
    ensures IsAnyRun(cfg, es, rs)
  {
    forall k {:trigger es[k]} | 0 <= k < |es| ensures Moves(cfg, rs[k], es[k], rs[k + 1]) {
      assert Takes(cfg, rs[k], es[k], rs[k + 1]);
    }
  }

  // ---------------------------------------------------------------- sorted by priority

  /** Highest priority first. */
  ghost predicate Sorted(p: seq<Task>) {
    forall i, j :: 0 <= i < j < |p| ==> p[i].priority >= p[j].priority
  }

  /** No pending task has a lower priority than `t`: the last one, if there is one, does not. */
  predicate Fits(p: seq<Task>, t: Task) { p == [] || p[|p| - 1].priority >= t.priority }

  /** Each task of a sweep fits when it is put back. */
  predicate AllFit(q: Queue, order: seq<string>)
    requires NoDup(order) && forall id :: id in order ==> id in q.claimed
    decreases |order|
  {
    order == [] || (Fits(q.pending, q.claimed[order[0]]) && AllFit(ReclaimOne(q, order[0]), order[1..]))
  }

  /** What the two branches that append to the pending list would have to check for it to stay sorted. */
  ghost predicate Guard(cfg: Config, q: Queue, e: Event)
    requires Sweeps(cfg, q, e)
  {
    match e
    case Fail(id, _) =>
      id in q.claimed && q.claimed[id].retries + 1 <= q.claimed[id].maxRetries ==> Fits(q.pending, q.claimed[id])
    case Reclaim(_, order) => AllFit(q, order)
    case _ => true
  }

  lemma PushSorted(p: seq<Task>, t: Task)
    ensures Sorted(p + [t]) <==> Sorted(p) && Fits(p, t)
  {
    var q := p + [t];
    assert forall i :: 0 <= i < |p| ==> q[i] == p[i];
    assert q[|p|] == t;
    if Sorted(p) && Fits(p, t) {
      forall i, j | 0 <= i < j < |q| ensures q[i].priority >= q[j].priority {
        if j == |p| { assert p[i].priority >= p[|p| - 1].priority; }
      }
    }
  }

  lemma InsertSorted(p: seq<Task>, t: Task)
    requires Sorted(p)
    ensures Sorted(Insert(p, t))
  {
    var i := Slot(p, t.priority);
    var q := Insert(p, t);
    forall a, b | 0 <= a < b < |q| ensures q[a].priority >= q[b].priority {
      assert q[a] == if a < i then p[a] else if a == i then t else p[a - 1];
      assert q[b] == if b < i then p[b] else if b == i then t else p[b - 1];
    }
  }

  lemma {:induction false} SweepSorted(q: Queue, order: seq<string>)
    requires NoDup(order) && forall id :: id in order ==> id in q.claimed
    ensures Sorted(ReclaimStep(q, order).pending) <==> Sorted(q.pending) && AllFit(q, order)
    decreases |order|
  {
    hide Sorted, Fits;
    if order != [] {
      PushSorted(q.pending, Released(q.claimed[order[0]]));
      FitsReleased(q.pending, q.claimed[order[0]]);
      SweepSorted(ReclaimOne(q, order[0]), order[1..]);
    }
  }

  lemma FitsReleased(p: seq<Task>, t: Task)
    ensures Fits(p, Released(t)) <==> Fits(p, t)
  {
  }

  /** A step keeps a sorted list sorted exactly when it meets its guard. */
  lemma StepSorted(cfg: Config, q: Queue, e: Event)
    requires Sweeps(cfg, q, e) && Sorted(q.pending)
    ensures Sorted(Next(cfg, q, e).pending) <==> Guard(cfg, q, e)
  {
    match e
    case Submit(t, autoId, now) =>
      InsertSorted(q.pending, Accept(cfg, t, autoId, now));
    case Fail(id, msg) =>
      if id in q.claimed { PushSorted(q.pending, Released(Failed(q.claimed[id], msg))); }
    case Reclaim(_, order) =>
      SweepSorted(q, order);
    case _ =>
  }

  ghost predicate SortedThrough(rs: seq<Run>, n: nat)
    requires n <= |rs|
  {
    forall k {:trigger rs[k]} :: 0 <= k < n ==> Sorted(rs[k].q.pending)
  }

  ghost predicate GuardedThrough(cfg: Config, es: seq<Event>, rs: seq<Run>, n: nat)
    requires IsAnyRun(cfg, es, rs) && n <= |es|
  {
    forall k {:trigger es[k]} :: 0 <= k < n ==> Moves(cfg, rs[k], es[k], rs[k + 1]) && Guard(cfg, rs[k].q, es[k])
  }

  lemma EmptySorted()
    ensures Sorted(START.q.pending)
  {
  }

  lemma {:induction false} SortedUpTo(cfg: Config, es: seq<Event>, rs: seq<Run>, n: nat)
    requires IsAnyRun(cfg, es, rs) && n <= |es|
    ensures SortedThrough(rs, n + 1) <==> GuardedThrough(cfg, es, rs, n)
  {
    EmptySorted();
    hide Sorted, Guard, Next;
    if n > 0 {
      SortedUpTo(cfg, es, rs, n - 1);
      assert Moves(cfg, rs[n - 1], es[n - 1], rs[n]);
      assert SortedThrough(rs, n + 1) <==> SortedThrough(rs, n) && Sorted(rs[n].q.pending);
      assert GuardedThrough(cfg, es, rs, n) <==>
             GuardedThrough(cfg, es, rs, n - 1) && Guard(cfg, rs[n - 1].q, es[n - 1]);
      if SortedThrough(rs, n) { StepSorted(cfg, rs[n - 1].q, es[n - 1]); }
    }
  }

  /** The comment on `pending` says that the list is sorted by priority. It is so in every state of a run exactly when
      every task that is put back fits behind the pending ones. */
  lemma SortedExactly(cfg: Config, es: seq<Event>, rs: seq<Run>)
    requires IsAnyRun(cfg, es, rs)
    ensures SortedThrough(rs, |rs|) <==> GuardedThrough(cfg, es, rs, |es|)
  {
    SortedUpTo(cfg, es, rs, |es|);
  }

  /** A sorted list gives Claim a task of highest priority. */
  lemma SortedHead(cfg: Config, es: seq<Event>, rs: seq<Run>, n: nat)
    requires IsAnyRun(cfg, es, rs) && n <= |es| && GuardedThrough(cfg, es, rs, n)
    ensures HeadIsHighest(rs[n].q.pending)
  {
    SortedUpTo(cfg, es, rs, n);
    assert Sorted(rs[n].q.pending);
  }

  // ---------------------------------------------------------------- IDs used again

  /** Accepted submissions under an ID. */
  ghost function Arrived(cfg: Config, es: seq<Event>, rs: seq<Run>, k: nat, id: string): nat
    requires IsAnyRun(cfg, es, rs) && k <= |es|
  {
    if k == 0 then 0
    else Arrived(cfg, es, rs, k - 1, id) + if Arrives(cfg, rs[k - 1].q, es[k - 1], id) then 1 else 0
  }

  /** Claims under an ID that overwrote another claim. */
  ghost function Overwritten(cfg: Config, es: seq<Event>, rs: seq<Run>, k: nat, id: string): nat
    requires IsAnyRun(cfg, es, rs) && k <= |es|
  {
    if k == 0 then 0
    else Overwritten(cfg, es, rs, k - 1, id) + if Overwrites(rs[k - 1].q, es[k - 1], id) then 1 else 0
  }

  /** Each accepted submission is in exactly one place or was overwritten by a later claim under its ID. */
  lemma {:induction false} CopiesAccount(cfg: Config, es: seq<Event>, rs: seq<Run>, k: nat, id: string)
    requires IsAnyRun(cfg, es, rs) && k <= |es|
    ensures Filed(rs[k].q)
    ensures Copies(rs[k].q, rs[k].log, id) + Overwritten(cfg, es, rs, k, id) == Arrived(cfg, es, rs, k, id)
  {
    NothingYet(id);
    hide Copies, Filed, Step, Sweeps;
    if k > 0 {
      CopiesAccount(cfg, es, rs, k - 1, id);
      assert Moves(cfg, rs[k - 1], es[k - 1], rs[k]);
      StepCopies(cfg, rs[k - 1], es[k - 1], id);
    }
  }

  lemma NothingYet(id: string)
    ensures Filed(START.q) && Copies(START.q, START.log, id) == 0
  {
  }

  /** Claim `k` meets its head's ID among the claims. */
  ghost predicate MeetsId(rs: seq<Run>, es: seq<Event>, k: nat)
    requires k < |es| && k < |rs|
  {
    es[k].Claim? && rs[k].q.pending != [] && rs[k].q.pending[0].id in rs[k].q.claimed
  }

  lemma {:induction false} NoMeetingNoLoss(cfg: Config, es: seq<Event>, rs: seq<Run>, k: nat, id: string)
    requires IsAnyRun(cfg, es, rs) && k <= |es| && forall i :: 0 <= i < k ==> !MeetsId(rs, es, i)
    ensures Overwritten(cfg, es, rs, k, id) == 0
  {
    if k > 0 {
      NoMeetingNoLoss(cfg, es, rs, k - 1, id);
      assert !MeetsId(rs, es, k - 1);
    }
  }

  lemma {:induction false} MeetingLoses(cfg: Config, es: seq<Event>, rs: seq<Run>, k: nat, i: nat)
    requires IsAnyRun(cfg, es, rs) && i < k <= |es| && MeetsId(rs, es, i)
    ensures Overwritten(cfg, es, rs, k, rs[i].q.pending[0].id) > 0
  {
    if i < k - 1 { MeetingLoses(cfg, es, rs, k - 1, i); }
  }

  /** Every accepted submission under this ID is pending, claimed, dead or completed. */
  ghost predicate Kept(cfg: Config, es: seq<Event>, rs: seq<Run>, k: nat, id: string)
    requires IsAnyRun(cfg, es, rs) && k <= |es|
  {
    Copies(rs[k].q, rs[k].log, id) == Arrived(cfg, es, rs, k, id)
  }

  lemma KeptUnlessOverwritten(cfg: Config, es: seq<Event>, rs: seq<Run>, k: nat, id: string)
    requires IsAnyRun(cfg, es, rs) && k <= |es|
    ensures Kept(cfg, es, rs, k, id) <==> Overwritten(cfg, es, rs, k, id) == 0
  {
    CopiesAccount(cfg, es, rs, k, id);
  }

  /** With any IDs, every accepted submission is kept exactly when no Claim so far met its head's ID among the
      claims. */
  lemma KeptExactly(cfg: Config, es: seq<Event>, rs: seq<Run>, k: nat)
    requires IsAnyRun(cfg, es, rs) && k <= |es|
    ensures (forall id :: Kept(cfg, es, rs, k, id)) <==> forall i :: 0 <= i < k ==> !MeetsId(rs, es, i)
  {
    if i: nat :| i < k && MeetsId(rs, es, i) {
      MeetingLoses(cfg, es, rs, k, i);
      KeptUnlessOverwritten(cfg, es, rs, k, rs[i].q.pending[0].id);
    } else {
      forall id ensures Kept(cfg, es, rs, k, id) {
        NoMeetingNoLoss(cfg, es, rs, k, id);
        KeptUnlessOverwritten(cfg, es, rs, k, id);
      }
    }
  }
}
