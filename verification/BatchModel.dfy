// The flush protocol of internal/batch/manager.go as atomic steps: a Flush takes and releases the
// lock up to three times around its client call, and other Submits and Flushes run in between.
module BatchModel {

  /** A batch request; id 0 stands for the empty correlation ID. */
  datatype Request = Request(id: nat, body: nat)

  datatype Pending = Pending(id: nat, req: Request)

  const DEFAULT_MAX: nat := 100

  function MaxBatch(configured: int): (n: nat)
    ensures n > 0
    ensures n == if configured > 0 then configured else 100
  {
    if configured > 0 then configured else DEFAULT_MAX
  }

  /** The ID a request leaves Submit with: its own, or the tracking ID when it has none. */
  function Tagged(r: Request, id: nat): (t: Request)
    ensures t.body == r.body && t.id == if r.id == 0 then id else r.id
  {
    if r.id == 0 then r.(id := id) else r
  }

  function Requests(s: seq<Pending>): (r: seq<Request>)
    ensures |r| == |s|
    ensures forall i :: 0 <= i < |s| ==> r[i] == s[i].req
  {
    if s == [] then [] else [s[0].req] + Requests(s[1..])
  }

  /** Requests that return to the queue lose their tracking ID. */
  function Wrap(s: seq<Request>): (r: seq<Pending>)
    ensures |r| == |s|
    ensures forall i :: 0 <= i < |s| ==> r[i] == Pending(0, s[i])
  {
    if s == [] then [] else [Pending(0, s[0])] + Wrap(s[1..])
  }

  function First(s: seq<Request>, n: nat): seq<Request> { if |s| > n then s[..n] else s }

  function Overflow(s: seq<Request>, n: nat): seq<Request> { if |s| > n then s[n..] else [] }

  // ---------------------------------------------------------------- the step system

  /** Where a running Flush is: `Drained` holds what it took, `Sending` is about to call the
      client, `Failed` got an error and still has to put its batch back. */
  datatype Flight =
    | Idle
    | Drained(taken: seq<Request>)
    | Sending(batch: seq<Request>)
    | Failed(batch: seq<Request>)

  datatype State = State(
    queue: seq<Pending>,
    flights: seq<Flight>,
    sent: seq<seq<Request>>,
    tried: seq<seq<Request>>,
    arrivals: seq<Request>)

  datatype Event =
    | Submit(req: Request, id: nat)
    | Drain(f: nat)
    | Split(f: nat)
    | ClientOk(f: nat)
    | ClientErr(f: nat)
    | Requeue(f: nat)

  function Start(n: nat): State { State([], seq(n, _ => Idle), [], [], []) }

  predicate Enabled(s: State, e: Event) {
    match e
    case Submit(_, _) => true
    case Drain(f) => f < |s.flights| && s.flights[f].Idle? && s.queue != []
    case Split(f) => f < |s.flights| && s.flights[f].Drained?
    case ClientOk(f) => f < |s.flights| && s.flights[f].Sending?
    case ClientErr(f) => f < |s.flights| && s.flights[f].Sending?
    case Requeue(f) => f < |s.flights| && s.flights[f].Failed?
  }

  function Next(s: State, e: Event, max: nat): State
    requires max > 0 && Enabled(s, e)
  {
    match e
    case Submit(req, id) =>
      s.(queue := s.queue + [Pending(id, Tagged(req, id))], arrivals := s.arrivals + [Tagged(req, id)])
    case Drain(f) =>
      s.(queue := [], flights := s.flights[f := Drained(Requests(s.queue))])
    case Split(f) =>
      var taken := s.flights[f].taken;
      s.(queue := s.queue + Wrap(Overflow(taken, max)), flights := s.flights[f := Sending(First(taken, max))])
    case ClientOk(f) =>
      var b := s.flights[f].batch;
      s.(flights := s.flights[f := Idle], sent := s.sent + [b], tried := s.tried + [b])
    case ClientErr(f) =>
      var b := s.flights[f].batch;
      s.(flights := s.flights[f := Failed(b)], tried := s.tried + [b])
    case Requeue(f) =>
      var b := s.flights[f].batch;
      s.(queue := Wrap(b) + s.queue, flights := s.flights[f := Idle])
  }

  ghost predicate IsRun(max: nat, es: seq<Event>, ss: seq<State>)
    requires max > 0
  {
    && |ss| == |es| + 1
    && (exists n: nat :: ss[0] == Start(n))
    && forall k {:trigger es[k]} :: 0 <= k < |es| ==> Enabled(ss[k], es[k]) && ss[k + 1] == Next(ss[k], es[k], max)
  }

  // ---------------------------------------------------------------- conservation

  function Count(s: seq<Request>, r: Request): nat {
    if s == [] then 0 else (if s[0] == r then 1 else 0) + Count(s[1..], r)
  }

  lemma {:induction false} CountConcat(a: seq<Request>, b: seq<Request>, r: Request)
    ensures Count(a + b, r) == Count(a, r) + Count(b, r)
  {
    if a == [] {
      assert a + b == b;
    } else {
      assert (a + b)[1..] == a[1..] + b;
      CountConcat(a[1..], b, r);
    }
  }

  function Flat<T>(s: seq<seq<T>>): seq<T> {
    if s == [] then [] else s[0] + Flat(s[1..])
  }

  lemma {:induction false} FlatPush<T>(s: seq<seq<T>>, b: seq<T>)
    ensures Flat(s + [b]) == Flat(s) + b
  {
    if s == [] {
      assert [] + [b] == [b] && [b][1..] == [];
    } else {
      assert (s + [b])[1..] == s[1..] + [b];
      FlatPush(s[1..], b);
    }
  }

  function Held(f: Flight): seq<Request> {
    match f
    case Idle => []
    case Drained(t) => t
    case Sending(b) => b
    case Failed(b) => b
  }

  function HeldBy(fs: seq<Flight>, r: Request): nat {
    if fs == [] then 0 else Count(Held(fs[0]), r) + HeldBy(fs[1..], r)
  }

  lemma {:induction false} HeldUpdate(fs: seq<Flight>, f: nat, x: Flight, r: Request)
    requires f < |fs|
    ensures HeldBy(fs[f := x], r) + Count(Held(fs[f]), r) == HeldBy(fs, r) + Count(Held(x), r)
  {
    if f == 0 {
      assert fs[f := x][1..] == fs[1..];
    } else {
      assert fs[f := x][1..] == fs[1..][f - 1 := x];
      HeldUpdate(fs[1..], f - 1, x, r);
    }
  }

  lemma {:induction false} HeldIdle(n: nat, r: Request)
    ensures HeldBy(seq(n, _ => Idle), r) == 0
  {
    if n > 0 {
      assert seq(n, _ => Idle)[1..] == seq(n - 1, _ => Idle);
      HeldIdle(n - 1, r);
    }
  }

  /** Copies of a request waiting, inside a Flush, or delivered. */
  function Copies(s: State, r: Request): nat {
    Count(Requests(s.queue), r) + HeldBy(s.flights, r) + Count(Flat(s.sent), r)
  }

  ghost predicate Conserved(s: State) {
    forall r :: Copies(s, r) == Count(s.arrivals, r)
  }

  predicate FitsBatch(b: seq<Request>, max: nat) { 0 < |b| <= max }

  ghost predicate Sized(s: State, max: nat) {
    && (forall f :: 0 <= f < |s.flights| ==>
          match s.flights[f]
          case Idle => true
          case Drained(t) => t != []
          case Sending(b) => FitsBatch(b, max)
          case Failed(b) => FitsBatch(b, max))
    && (forall k :: 0 <= k < |s.tried| ==> FitsBatch(s.tried[k], max))
  }

  lemma RequestsConcat(a: seq<Pending>, b: seq<Pending>)
    ensures Requests(a + b) == Requests(a) + Requests(b)
  {
  }

  lemma RequestsWrap(s: seq<Request>)
    ensures Requests(Wrap(s)) == s
  {
  }

  lemma SplitWhole(s: seq<Request>, n: nat)
    ensures First(s, n) + Overflow(s, n) == s
  {
  }

  lemma StepConserves(s: State, e: Event, max: nat, r: Request)
    requires max > 0 && Enabled(s, e)
    ensures Copies(Next(s, e, max), r) + Count(s.arrivals, r) == Copies(s, r) + Count(Next(s, e, max).arrivals, r)
  {
    match e
    case Submit(req, id) =>
      RequestsConcat(s.queue, [Pending(id, Tagged(req, id))]);
      CountConcat(Requests(s.queue), Requests([Pending(id, Tagged(req, id))]), r);
      assert Requests([Pending(id, Tagged(req, id))]) == [Tagged(req, id)];
      CountConcat(s.arrivals, [Tagged(req, id)], r);
    case Drain(f) =>
      HeldUpdate(s.flights, f, Drained(Requests(s.queue)), r);
    case Split(f) =>
      var taken := s.flights[f].taken;
      HeldUpdate(s.flights, f, Sending(First(taken, max)), r);
      SplitWhole(taken, max);
      CountConcat(First(taken, max), Overflow(taken, max), r);
      RequestsConcat(s.queue, Wrap(Overflow(taken, max)));
      RequestsWrap(Overflow(taken, max));
      CountConcat(Requests(s.queue), Overflow(taken, max), r);
    case ClientOk(f) =>
      var b := s.flights[f].batch;
      HeldUpdate(s.flights, f, Idle, r);
      FlatPush(s.sent, b);
      CountConcat(Flat(s.sent), b, r);
    case ClientErr(f) =>
      HeldUpdate(s.flights, f, Failed(s.flights[f].batch), r);
    case Requeue(f) =>
      var b := s.flights[f].batch;
      HeldUpdate(s.flights, f, Idle, r);
      RequestsConcat(Wrap(b), s.queue);
      RequestsWrap(b);
      CountConcat(b, Requests(s.queue), r);
  }

  lemma StepKeeps(s: State, e: Event, max: nat)
    requires max > 0 && Enabled(s, e) && Conserved(s) && Sized(s, max)
    ensures Conserved(Next(s, e, max)) && Sized(Next(s, e, max), max)
  {
    var s' := Next(s, e, max);
    forall r ensures Copies(s', r) == Count(s'.arrivals, r) {
      StepConserves(s, e, max, r);
    }
  }

  /** Nothing is lost or duplicated: under any interleaving of Submits and Flushes and any client
      outcomes, every accepted request is exactly once in the queue, inside a Flush, or delivered;
      and every batch handed to the client is non-empty and within the maximum. */
  lemma {:induction false} NothingLost(max: nat, es: seq<Event>, ss: seq<State>, k: nat)
    requires max > 0 && IsRun(max, es, ss) && k <= |es|
    ensures Conserved(ss[k]) && Sized(ss[k], max)
  {
    if k == 0 {
      var n: nat :| ss[0] == Start(n);
      forall r ensures Copies(ss[0], r) == 0 { HeldIdle(n, r); }
    } else {
      NothingLost(max, es, ss, k - 1);
      StepKeeps(ss[k - 1], es[k - 1], max);
    }
  }

  // ---------------------------------------------------------------- flushes that run alone

  /** One whole Flush by flight `f` with nothing in between. */
  function FlushAlone(s: State, f: nat, max: nat, ok: bool): State
    requires max > 0 && f < |s.flights| && s.flights[f].Idle?
  {
    if s.queue == [] then s
    else
      var s2 := Next(Next(s, Drain(f), max), Split(f), max);
      if ok then Next(s2, ClientOk(f), max)
      else Next(Next(s2, ClientErr(f), max), Requeue(f), max)
  }

  /** The queue an uninterrupted Flush leaves. */
  function QueueAfter(q: seq<Pending>, max: nat, ok: bool): seq<Pending> {
    var rs := Requests(q);
    if ok || q == [] then Wrap(Overflow(rs, max))
    else Wrap(First(rs, max)) + Wrap(Overflow(rs, max))
  }

  lemma FlushAloneQueue(s: State, f: nat, max: nat, ok: bool)
    requires max > 0 && f < |s.flights| && s.flights[f].Idle?
    ensures var s', b := FlushAlone(s, f, max, ok), First(Requests(s.queue), max);
            && s'.flights == s.flights && s'.arrivals == s.arrivals
            && s'.queue == QueueAfter(s.queue, max, ok)
            && s'.sent == if ok && s.queue != [] then s.sent + [b] else s.sent
  {
    if s.queue != [] {
      var s1 := Next(s, Drain(f), max);
      assert s1.queue == [] && s1.flights[f] == Drained(Requests(s.queue));
      var s2 := Next(s1, Split(f), max);
      assert s2.queue == Wrap(Overflow(Requests(s.queue), max));
      assert s2.flights[f] == Sending(First(Requests(s.queue), max));
    }
  }

  /** Success removes exactly the oldest prefix; failure leaves the requests in their order. */
  lemma QueueAfterEffect(q: seq<Pending>, max: nat, ok: bool)
    requires max > 0
    ensures Requests(QueueAfter(q, max, ok)) == if ok then Overflow(Requests(q), max) else Requests(q)
  {
    var rs := Requests(q);
    RequestsWrap(Overflow(rs, max));
    if !ok && q != [] {
      RequestsConcat(Wrap(First(rs, max)), Wrap(Overflow(rs, max)));
      RequestsWrap(First(rs, max));
      SplitWhole(rs, max);
    }
  }

  datatype Call = Add(req: Request, id: nat) | Flush(ok: bool)

  function Alone(max: nat, cs: seq<Call>): (s: State)
    requires max > 0
    ensures |s.flights| == 1 && s.flights[0].Idle?
  {
    if cs == [] then Start(1)
    else
      var s := Alone(max, cs[..|cs| - 1]);
      match cs[|cs| - 1]
      case Add(req, id) => Next(s, Submit(req, id), max)
      case Flush(ok) => FlushAloneQueue(s, 0, max, ok); FlushAlone(s, 0, max, ok)
  }

  lemma SubmitKeepsFifo(s: State, req: Request, id: nat, max: nat)
    requires max > 0 && Flat(s.sent) + Requests(s.queue) == s.arrivals
    ensures var s' := Next(s, Submit(req, id), max);
            Flat(s'.sent) + Requests(s'.queue) == s'.arrivals
  {
    var q, x := Requests(s.queue), Tagged(req, id);
    RequestsConcat(s.queue, [Pending(id, x)]);
    assert Requests([Pending(id, x)]) == [x];
    assert Flat(s.sent) + (q + [x]) == (Flat(s.sent) + q) + [x];
  }

  lemma FlushKeepsFifo(s: State, f: nat, max: nat, ok: bool)
    requires max > 0 && f < |s.flights| && s.flights[f].Idle?
    requires Flat(s.sent) + Requests(s.queue) == s.arrivals
    ensures var s' := FlushAlone(s, f, max, ok);
            Flat(s'.sent) + Requests(s'.queue) == s'.arrivals
  {
    FlushAloneQueue(s, f, max, ok);
    QueueAfterEffect(s.queue, max, ok);
    var q, s' := Requests(s.queue), FlushAlone(s, f, max, ok);
    if ok && s.queue != [] {
      var batch, rest := First(q, max), Overflow(q, max);
      FlatPush(s.sent, batch);
      SplitWhole(q, max);
      Regroup(Flat(s.sent), batch, rest);
      assert Requests(s'.queue) == rest && Flat(s'.sent) == Flat(s.sent) + batch;
    } else {
      assert Requests(s'.queue) == q && s'.sent == s.sent;
    }
  }

  lemma Regroup(a: seq<Request>, b: seq<Request>, c: seq<Request>)
    ensures (a + b) + c == a + (b + c)
  {
  }

  /** While nothing interrupts a Flush, delivery is first-in first-out through any failures:
      the batches delivered so far followed by the queue are exactly the arrivals in order. */
  lemma {:induction false} AloneIsFifo(max: nat, cs: seq<Call>)
    requires max > 0
    ensures Flat(Alone(max, cs).sent) + Requests(Alone(max, cs).queue) == Alone(max, cs).arrivals
  {
    if cs != [] {
      var init, last := cs[..|cs| - 1], cs[|cs| - 1];
      AloneIsFifo(max, init);
      match last
      case Add(req, id) => SubmitKeepsFifo(Alone(max, init), req, id, max);
      case Flush(ok) => FlushKeepsFifo(Alone(max, init), 0, max, ok);
    }
  }

  /** Every undisturbed Flush that the client accepts shortens a non-empty queue by a full batch,
      so enough of them empty it. */
  lemma {:induction false} FlushesDrain(q: seq<Pending>, max: nat, n: nat)
    requires max > 0 && |q| <= n * max
    ensures AfterFlushes(q, max, n) == []
    decreases n
  {
    if n > 0 {
      assert |QueueAfter(q, max, true)| <= (n - 1) * max;
      FlushesDrain(QueueAfter(q, max, true), max, n - 1);
    }
  }

  function AfterFlushes(q: seq<Pending>, max: nat, n: nat): seq<Pending>
    decreases n
  {
    if n == 0 then q else AfterFlushes(QueueAfter(q, max, true), max, n - 1)
  }
}
