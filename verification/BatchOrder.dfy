// When the flush protocol of internal/batch/manager.go keeps the queue in order of arrival. Every
// request carries the ticket of its arrival; tickets move through the steps as the requests do.
module BatchOrder {
  import opened Common
  import opened BatchModel

  /** Tickets of the queued requests, of those each Flush holds, and of those delivered. */
  datatype Tickets = Tickets(queue: seq<nat>, held: seq<seq<nat>>, sent: seq<nat>)

  function Cut(l: seq<nat>, max: nat): nat { Min(|l|, max) }

  function Tick(s: State, t: Tickets, e: Event, max: nat): Tickets
    requires Enabled(s, e) && |t.held| == |s.flights|
  {
    match e
    case Submit(_, _) => t.(queue := t.queue + [|s.arrivals|])
    case Drain(f) => t.(queue := [], held := t.held[f := t.queue])
    case Split(f) =>
      var l := t.held[f];
      t.(queue := t.queue + l[Cut(l, max)..], held := t.held[f := l[..Cut(l, max)]])
    case ClientOk(f) => t.(held := t.held[f := []], sent := t.sent + t.held[f])
    case ClientErr(f) => t
    case Requeue(f) => t.(queue := t.held[f] + t.queue, held := t.held[f := []])
  }

  ghost predicate Stepped(s: State, t: Tickets, e: Event, max: nat, s': State, t': Tickets)
    requires max > 0
  {
    Enabled(s, e) && |t.held| == |s.flights| && s' == Next(s, e, max) && t' == Tick(s, t, e, max)
  }

  /** A run together with its tickets. */
  ghost predicate IsTicketed(max: nat, es: seq<Event>, ss: seq<State>, ts: seq<Tickets>)
    requires max > 0
  {
    && |ss| == |ts| == |es| + 1
    && (exists n: nat :: ss[0] == Start(n))
    && ts[0] == Tickets([], seq(|ss[0].flights|, _ => []), [])
    && forall k {:trigger es[k]} :: 0 <= k < |es| ==> Stepped(ss[k], ts[k], es[k], max, ss[k + 1], ts[k + 1])
  }

  // ---------------------------------------------------------------- tickets name the requests

  /** Each ticket is the arrival number of the request at its place. */
  ghost predicate Names(arrivals: seq<Request>, l: seq<nat>, rs: seq<Request>) {
    |l| == |rs| && forall i :: 0 <= i < |l| ==> l[i] < |arrivals| && arrivals[l[i]] == rs[i]
  }

  ghost predicate Labelled(s: State, t: Tickets) {
    && Names(s.arrivals, t.queue, Requests(s.queue))
    && Names(s.arrivals, t.sent, Flat(s.sent))
    && |t.held| == |s.flights|
    && forall f :: 0 <= f < |s.flights| ==> Names(s.arrivals, t.held[f], Held(s.flights[f]))
  }

  lemma NamesJoin(arrivals: seq<Request>, l: seq<nat>, rs: seq<Request>, m: seq<nat>, qs: seq<Request>)
    requires Names(arrivals, l, rs) && Names(arrivals, m, qs)
    ensures Names(arrivals, l + m, rs + qs)
  {
  }

  lemma StepLabels(s: State, t: Tickets, e: Event, max: nat)
    requires max > 0 && Enabled(s, e) && Labelled(s, t)
    ensures Labelled(Next(s, e, max), Tick(s, t, e, max))
  {
    hide Requests, Wrap, Flat;
    match e
    case Submit(req, id) =>
      RequestsConcat(s.queue, [Pending(id, Tagged(req, id))]);
    case ClientOk(f) =>
      FlatPush(s.sent, s.flights[f].batch);
      NamesJoin(s.arrivals, t.sent, Flat(s.sent), t.held[f], s.flights[f].batch);
    case Split(f) =>
      var over := Overflow(s.flights[f].taken, max);
      RequestsConcat(s.queue, Wrap(over));
      RequestsWrap(over);
      NamesJoin(s.arrivals, t.queue, Requests(s.queue), t.held[f][Cut(t.held[f], max)..], over);
    case Requeue(f) =>
      var b := s.flights[f].batch;
      RequestsConcat(Wrap(b), s.queue);
      RequestsWrap(b);
      NamesJoin(s.arrivals, t.held[f], b, t.queue, Requests(s.queue));
    case _ =>
  }

  /** In every run a ticket is the place of its request among the arrivals. */
  lemma {:induction false} TicketsMatch(max: nat, es: seq<Event>, ss: seq<State>, ts: seq<Tickets>, k: nat)
    requires max > 0 && IsTicketed(max, es, ss, ts) && k <= |es|
    ensures Labelled(ss[k], ts[k])
  {
    if k > 0 {
      TicketsMatch(max, es, ss, ts, k - 1);
      assert Stepped(ss[k - 1], ts[k - 1], es[k - 1], max, ss[k], ts[k]);
      StepLabels(ss[k - 1], ts[k - 1], es[k - 1], max);
    }
  }

  // ---------------------------------------------------------------- order of arrival

  ghost predicate InOrder(l: seq<nat>) { forall i, j :: 0 <= i < j < |l| ==> l[i] < l[j] }

  /** The last of `a` arrived before the first of `b`. */
  predicate Before(a: seq<nat>, b: seq<nat>) { a != [] && b != [] ==> a[|a| - 1] < b[0] }

  lemma JoinInOrder(a: seq<nat>, b: seq<nat>)
    requires InOrder(a) && InOrder(b)
    ensures InOrder(a + b) <==> Before(a, b)
  {
    var c := a + b;
    if a != [] && b != [] {
      assert c[|a| - 1] == a[|a| - 1] && c[|a|] == b[0];
      if Before(a, b) {
        forall i, j | 0 <= i < j < |c| ensures c[i] < c[j] {
          assert i < |a| ==> a[i] <= a[|a| - 1];
          assert j >= |a| ==> b[0] <= b[j - |a|];
        }
      }
    } else {
      assert c == a || c == b;
    }
  }

  /** What a step must find for the queue to stay in order: an overflow goes behind requests that all arrived
      before it, a failed batch goes in front of requests that all arrived after it. */
  predicate Guard(t: Tickets, e: Event, max: nat) {
    match e
    case Split(f) => f < |t.held| ==> Before(t.queue, t.held[f][Cut(t.held[f], max)..])
    case Requeue(f) => f < |t.held| ==> Before(t.held[f], t.queue)
    case _ => true
  }

  /** The queue and every held list in order. */
  ghost predicate Orderly(t: Tickets) {
    InOrder(t.queue) && forall f :: 0 <= f < |t.held| ==> InOrder(t.held[f])
  }

  lemma StepOrder(s: State, t: Tickets, e: Event, max: nat)
    requires max > 0 && Enabled(s, e) && Labelled(s, t) && Orderly(t)
    ensures var t' := Tick(s, t, e, max);
            (InOrder(t'.queue) <==> Guard(t, e, max)) && (Guard(t, e, max) ==> Orderly(t'))
  {
    match e
    case Split(f) =>
      var l := t.held[f];
      JoinInOrder(t.queue, l[Cut(l, max)..]);
    case Requeue(f) =>
      JoinInOrder(t.held[f], t.queue);
    case _ =>
  }

  ghost predicate QueueInOrder(ts: seq<Tickets>, n: nat)
    requires n <= |ts|
  {
    forall k {:trigger ts[k]} :: 0 <= k < n ==> InOrder(ts[k].queue)
  }

  ghost predicate Guarded(ts: seq<Tickets>, es: seq<Event>, max: nat, n: nat)
    requires n <= |es| <= |ts|
  {
    forall k {:trigger es[k]} :: 0 <= k < n ==> Guard(ts[k], es[k], max)
  }

  /** Nothing is out of order at the start. */
  lemma StartOrder(max: nat, es: seq<Event>, ss: seq<State>, ts: seq<Tickets>)
    requires max > 0 && IsTicketed(max, es, ss, ts)
    ensures |ss| == |ts| == |es| + 1 && InOrder(ts[0].queue) && Orderly(ts[0]) && HeldFirst(ts[0])
  {
  }

  lemma OrderNext(max: nat, es: seq<Event>, ss: seq<State>, ts: seq<Tickets>, n: nat)
    requires max > 0 && IsTicketed(max, es, ss, ts) && 0 < n <= |es| && Orderly(ts[n - 1])
    ensures InOrder(ts[n].queue) <==> Guard(ts[n - 1], es[n - 1], max)
    ensures Guard(ts[n - 1], es[n - 1], max) ==> Orderly(ts[n])
  {
    hide InOrder, Orderly, Guard, Labelled;
    assert Stepped(ss[n - 1], ts[n - 1], es[n - 1], max, ss[n], ts[n]);
    TicketsMatch(max, es, ss, ts, n - 1);
    StepOrder(ss[n - 1], ts[n - 1], es[n - 1], max);
  }

  lemma {:induction false} OrderUpTo(max: nat, es: seq<Event>, ss: seq<State>, ts: seq<Tickets>, n: nat)
    requires max > 0 && IsTicketed(max, es, ss, ts) && n <= |es|
    ensures QueueInOrder(ts, n + 1) <==> Guarded(ts, es, max, n)
    ensures Guarded(ts, es, max, n) ==> Orderly(ts[n])
  {
    StartOrder(max, es, ss, ts);
    hide InOrder, Orderly, Guard, IsTicketed, HeldFirst;
    if n > 0 {
      OrderUpTo(max, es, ss, ts, n - 1);
      assert QueueInOrder(ts, n + 1) <==> QueueInOrder(ts, n) && InOrder(ts[n].queue);
      assert Guarded(ts, es, max, n) <==> Guarded(ts, es, max, n - 1) && Guard(ts[n - 1], es[n - 1], max);
      if Guarded(ts, es, max, n - 1) {
        OrderNext(max, es, ss, ts, n);
      }
    }
  }

  /** Under any overlap of Submits and Flushes the queue is in order of arrival throughout exactly when every
      returning overflow and every returning batch meets its guard. */
  lemma OrderKeptExactly(max: nat, es: seq<Event>, ss: seq<State>, ts: seq<Tickets>)
    requires max > 0 && IsTicketed(max, es, ss, ts)
    ensures QueueInOrder(ts, |ts|) <==> Guarded(ts, es, max, |es|)
  {
    OrderUpTo(max, es, ss, ts, |es|);
  }

  // ---------------------------------------------------------------- one Flush at a time

  ghost predicate OneFlush(s: State) {
    forall f, g :: 0 <= f < g < |s.flights| ==> s.flights[f].Idle? || s.flights[g].Idle?
  }

  /** Whatever a Flush holds arrived before all that is queued. */
  ghost predicate HeldFirst(t: Tickets) {
    forall f, i, j :: 0 <= f < |t.held| && 0 <= i < |t.held[f]| && 0 <= j < |t.queue| ==> t.held[f][i] < t.queue[j]
  }

  /** An overflow meets a queue that is not empty. */
  predicate Meets(s: State, e: Event, max: nat) {
    e.Split? && e.f < |s.flights| && s.flights[e.f].Drained? && |s.flights[e.f].taken| > max && s.queue != []
  }

  lemma SubmitHeldFirst(s: State, t: Tickets, req: Request, id: nat, max: nat)
    requires max > 0 && Labelled(s, t) && HeldFirst(t)
    ensures HeldFirst(Tick(s, t, Submit(req, id), max))
  {
    forall f, i | 0 <= f < |t.held| && 0 <= i < |t.held[f]| ensures t.held[f][i] < |s.arrivals| {
      assert Names(s.arrivals, t.held[f], Held(s.flights[f]));
    }
  }

  lemma SplitHeldFirst(s: State, t: Tickets, f: nat, max: nat)
    requires max > 0 && Enabled(s, Split(f)) && Labelled(s, t) && Orderly(t) && HeldFirst(t) && OneFlush(s)
    ensures Guard(t, Split(f), max) <==> !Meets(s, Split(f), max)
    ensures !Meets(s, Split(f), max) ==> HeldFirst(Tick(s, t, Split(f), max))
  {
    var l := t.held[f];
    assert Names(s.arrivals, l, Held(s.flights[f]));
    OthersHoldNothing(s, t, f);
    if |l| > max && t.queue != [] {
      assert l[max] < t.queue[|t.queue| - 1];
    } else {
      assert InOrder(l);
      assert l[Cut(l, max)..] == [] || t.queue == [];
    }
  }

  lemma OneFlushStep(s: State, t: Tickets, e: Event, max: nat)
    requires max > 0 && Enabled(s, e) && Labelled(s, t) && Orderly(t) && HeldFirst(t) && OneFlush(s)
    ensures Guard(t, e, max) <==> !Meets(s, e, max)
    ensures !Meets(s, e, max) ==> HeldFirst(Tick(s, t, e, max))
  {
    match e
    case Submit(req, id) => SubmitHeldFirst(s, t, req, id, max);
    case Split(f) => SplitHeldFirst(s, t, f, max);
    case Requeue(f) => OthersHoldNothing(s, t, f);
    case _ =>
  }

  lemma OthersHoldNothing(s: State, t: Tickets, f: nat)
    requires Labelled(s, t) && OneFlush(s) && f < |s.flights| && !s.flights[f].Idle?
    ensures forall g :: 0 <= g < |t.held| && g != f ==> t.held[g] == []
  {
    forall g | 0 <= g < |t.held| && g != f ensures t.held[g] == [] {
      assert s.flights[g].Idle?;
      assert Names(s.arrivals, t.held[g], Held(s.flights[g]));
    }
  }

  ghost predicate NeverMeets(ss: seq<State>, es: seq<Event>, max: nat, n: nat)
    requires n <= |es| <= |ss|
  {
    forall k {:trigger es[k]} :: 0 <= k < n ==> !Meets(ss[k], es[k], max)
  }

  lemma OneFlushNext(max: nat, es: seq<Event>, ss: seq<State>, ts: seq<Tickets>, n: nat)
    requires max > 0 && IsTicketed(max, es, ss, ts) && 0 < n <= |es| && Orderly(ts[n - 1])
    requires OneFlush(ss[n - 1]) && HeldFirst(ts[n - 1])
    ensures Guard(ts[n - 1], es[n - 1], max) <==> !Meets(ss[n - 1], es[n - 1], max)
    ensures !Meets(ss[n - 1], es[n - 1], max) ==> HeldFirst(ts[n])
  {
    hide InOrder, Orderly, Guard, HeldFirst, Meets, OneFlush, Labelled;
    assert Stepped(ss[n - 1], ts[n - 1], es[n - 1], max, ss[n], ts[n]);
    TicketsMatch(max, es, ss, ts, n - 1);
    OneFlushStep(ss[n - 1], ts[n - 1], es[n - 1], max);
  }

  lemma {:induction false} OneFlushUpTo(max: nat, es: seq<Event>, ss: seq<State>, ts: seq<Tickets>, n: nat)
    requires max > 0 && IsTicketed(max, es, ss, ts) && n <= |es|
    requires forall k {:trigger ss[k]} :: 0 <= k < |ss| ==> OneFlush(ss[k])
    ensures Guarded(ts, es, max, n) <==> NeverMeets(ss, es, max, n)
    ensures NeverMeets(ss, es, max, n) ==> HeldFirst(ts[n])
  {
    StartOrder(max, es, ss, ts);
    hide InOrder, Orderly, Guard, HeldFirst, Meets, OneFlush, IsTicketed;
    if n > 0 {
      OneFlushUpTo(max, es, ss, ts, n - 1);
      assert Guarded(ts, es, max, n) <==> Guarded(ts, es, max, n - 1) && Guard(ts[n - 1], es[n - 1], max);
      assert NeverMeets(ss, es, max, n) <==> NeverMeets(ss, es, max, n - 1) && !Meets(ss[n - 1], es[n - 1], max);
      if NeverMeets(ss, es, max, n - 1) {
        OrderUpTo(max, es, ss, ts, n - 1);
        assert OneFlush(ss[n - 1]);
        OneFlushNext(max, es, ss, ts, n);
      }
    }
  }

  /** While flushes do not overlap each other, Submits may come at any point, and the queue is in order of arrival
      throughout exactly when no overflow returns to a queue that is not empty. */
  lemma OneFlushOrderExactly(max: nat, es: seq<Event>, ss: seq<State>, ts: seq<Tickets>)
    requires max > 0 && IsTicketed(max, es, ss, ts)
    requires forall k {:trigger ss[k]} :: 0 <= k < |ss| ==> OneFlush(ss[k])
    ensures QueueInOrder(ts, |ts|) <==> NeverMeets(ss, es, max, |es|)
  {
    OrderKeptExactly(max, es, ss, ts);
    OneFlushUpTo(max, es, ss, ts, |es|);
  }

  // ---------------------------------------------------------------- delivery in order of arrival

  function Carried(fs: seq<Flight>): seq<Request> {
    if fs == [] then [] else Held(fs[0]) + Carried(fs[1..])
  }

  /** Delivered, then held, then queued: each arrival once, in order. */
  ghost predicate LinedUp(t: Tickets, n: nat) {
    t.sent + Flat(t.held) + t.queue == seq(n, i => i)
  }

  lemma {:induction false} OnlyHolder<T>(l: seq<seq<T>>, f: nat)
    requires f < |l| && forall g :: 0 <= g < |l| && g != f ==> l[g] == []
    ensures Flat(l) == l[f]
  {
    if f > 0 {
      OnlyHolder(l[1..], f - 1);
    } else {
      NoHolder(l[1..]);
    }
  }

  lemma {:induction false} NoHolder<T>(l: seq<seq<T>>)
    requires forall g :: 0 <= g < |l| ==> l[g] == []
    ensures Flat(l) == []
  {
    if l != [] { NoHolder(l[1..]); }
  }

  /** What a step of flight `f` changes in the line, when no other Flush is under way. */
  lemma FlightLine(s: State, t: Tickets, e: Event, max: nat, f: nat)
    requires max > 0 && Enabled(s, e) && !e.Submit? && e.f == f && Labelled(s, t)
    requires OneFlush(s) && OneFlush(Next(s, e, max))
    ensures Flat(t.held) == t.held[f] && Flat(Tick(s, t, e, max).held) == Tick(s, t, e, max).held[f]
  {
    var s', t' := Next(s, e, max), Tick(s, t, e, max);
    forall g | 0 <= g < |t.held| && g != f ensures t.held[g] == [] && t'.held[g] == [] {
      assert s'.flights[g] == s.flights[g];
      assert !s.flights[f].Idle? || !s'.flights[f].Idle?;
      var a, b := if f < g then f else g, if f < g then g else f;
      assert (s.flights[a].Idle? || s.flights[b].Idle?) && (s'.flights[a].Idle? || s'.flights[b].Idle?);
      assert Names(s.arrivals, t.held[g], Held(s.flights[g]));
    }
    OnlyHolder(t.held, f);
    OnlyHolder(t'.held, f);
  }

  lemma SplitLine(a: seq<nat>, l: seq<nat>, q: seq<nat>, c: nat, n: nat)
    requires a + l + q == seq(n, i => i) && c <= |l|
    ensures a + l[..c] + (q + l[c..]) == seq(n, i => i) <==> q == [] || l[c..] == []
  {
    var was, now := a + l + q, a + l[..c] + (q + l[c..]);
    assert l == l[..c] + l[c..];
    if q != [] && l[c..] != [] {
      assert was[|a| + c] == |a| + c && was[|a| + |l|] == |a| + |l|;
      assert now[|a| + c] == q[0] == was[|a| + |l|];
    } else {
      assert now == was;
    }
  }

  /** The line of a step in terms of the one flight it moves. */
  lemma FlightMoves(s: State, t: Tickets, e: Event, max: nat, n: nat)
    requires Enabled(s, e) && !e.Submit? && |t.held| == |s.flights| && (e.Drain? ==> t.held[e.f] == [])
    requires t.sent + t.held[e.f] + t.queue == seq(n, i => i)
    ensures var t', l := Tick(s, t, e, max), t.held[e.f];
            t'.sent + t'.held[e.f] + t'.queue == seq(n, i => i) <==>
            !e.Split? || t.queue == [] || l[Cut(l, max)..] == []
  {
    var t', f := Tick(s, t, e, max), e.f;
    match e
    case Split(_) => SplitLine(t.sent, t.held[f], t.queue, Cut(t.held[f], max), n);
    case Drain(_) => assert t'.sent + t'.held[f] + t'.queue == t.sent + t.held[f] + t.queue;
    case ClientOk(_) => assert t'.sent + t'.held[f] + t'.queue == t.sent + t.held[f] + t.queue;
    case ClientErr(_) =>
    case Requeue(_) => assert t'.sent + t'.held[f] + t'.queue == t.sent + t.held[f] + t.queue;
  }

  lemma SubmitLine(a: seq<nat>, q: seq<nat>, n: nat)
    requires a + q == seq(n, i => i)
    ensures a + (q + [n]) == seq(n + 1, i => i)
  {
    assert a + (q + [n]) == (a + q) + [n];
  }

  lemma LineStep(s: State, t: Tickets, e: Event, max: nat)
    requires max > 0 && Enabled(s, e) && Labelled(s, t) && OneFlush(s) && OneFlush(Next(s, e, max))
    requires LinedUp(t, |s.arrivals|)
    ensures LinedUp(Tick(s, t, e, max), |Next(s, e, max).arrivals|) <==> !Meets(s, e, max)
  {
    if e.Submit? {
      SubmitLine(t.sent + Flat(t.held), t.queue, |s.arrivals|);
    } else {
      FlightLine(s, t, e, max, e.f);
      NoOverflow(s, t, e, max);
      hide Flat, OneFlush, Labelled, Meets;
      FlightMoves(s, t, e, max, |s.arrivals|);
    }
  }

  lemma NoOverflow(s: State, t: Tickets, e: Event, max: nat)
    requires Enabled(s, e) && !e.Submit? && Labelled(s, t)
    ensures e.Drain? ==> t.held[e.f] == []
    ensures !Meets(s, e, max) <==> !e.Split? || t.queue == [] || t.held[e.f][Cut(t.held[e.f], max)..] == []
  {
    assert Names(s.arrivals, t.held[e.f], Held(s.flights[e.f]));
  }

  ghost predicate LinedUpThrough(ss: seq<State>, ts: seq<Tickets>, n: nat)
    requires n <= |ts| && n <= |ss|
  {
    forall k {:trigger ts[k]} :: 0 <= k < n ==> LinedUp(ts[k], |ss[k].arrivals|)
  }

  lemma StartLine(max: nat, es: seq<Event>, ss: seq<State>, ts: seq<Tickets>)
    requires max > 0 && IsTicketed(max, es, ss, ts)
    ensures |ss| == |ts| == |es| + 1 && LinedUp(ts[0], |ss[0].arrivals|)
  {
    NoHolder(ts[0].held);
  }

  lemma LineNext(max: nat, es: seq<Event>, ss: seq<State>, ts: seq<Tickets>, n: nat)
    requires max > 0 && IsTicketed(max, es, ss, ts) && 0 < n <= |es|
    requires OneFlush(ss[n - 1]) && OneFlush(ss[n]) && LinedUp(ts[n - 1], |ss[n - 1].arrivals|)
    ensures LinedUp(ts[n], |ss[n].arrivals|) <==> !Meets(ss[n - 1], es[n - 1], max)
  {
    hide LinedUp, Meets, OneFlush, Labelled;
    assert Stepped(ss[n - 1], ts[n - 1], es[n - 1], max, ss[n], ts[n]);
    TicketsMatch(max, es, ss, ts, n - 1);
    LineStep(ss[n - 1], ts[n - 1], es[n - 1], max);
  }

  lemma {:induction false} LinedUpTo(max: nat, es: seq<Event>, ss: seq<State>, ts: seq<Tickets>, n: nat)
    requires max > 0 && IsTicketed(max, es, ss, ts) && n <= |es|
    requires forall k {:trigger ss[k]} :: 0 <= k < |ss| ==> OneFlush(ss[k])
    ensures LinedUpThrough(ss, ts, n + 1) <==> NeverMeets(ss, es, max, n)
  {
    StartLine(max, es, ss, ts);
    hide LinedUp, Meets, OneFlush, IsTicketed;
    if n > 0 {
      LinedUpTo(max, es, ss, ts, n - 1);
      assert LinedUpThrough(ss, ts, n + 1) <==> LinedUpThrough(ss, ts, n) && LinedUp(ts[n], |ss[n].arrivals|);
      assert NeverMeets(ss, es, max, n) <==> NeverMeets(ss, es, max, n - 1) && !Meets(ss[n - 1], es[n - 1], max);
      if LinedUpThrough(ss, ts, n) {
        assert OneFlush(ss[n - 1]) && OneFlush(ss[n]) && LinedUp(ts[n - 1], |ss[n - 1].arrivals|);
        LineNext(max, es, ss, ts, n);
      }
    }
  }

  /** While flushes do not overlap each other, what was delivered, then what is held, then the queue are the arrivals in
      order throughout exactly when no overflow returns to a queue that is not empty. */
  lemma DeliveryExactly(max: nat, es: seq<Event>, ss: seq<State>, ts: seq<Tickets>)
    requires max > 0 && IsTicketed(max, es, ss, ts)
    requires forall k {:trigger ss[k]} :: 0 <= k < |ss| ==> OneFlush(ss[k])
    ensures LinedUpThrough(ss, ts, |ts|) <==> NeverMeets(ss, es, max, |es|)
  {
    LinedUpTo(max, es, ss, ts, |es|);
  }

  lemma {:induction false} CarriedNames(arrivals: seq<Request>, l: seq<seq<nat>>, fs: seq<Flight>)
    requires |l| == |fs| && forall f :: 0 <= f < |fs| ==> Names(arrivals, l[f], Held(fs[f]))
    ensures Names(arrivals, Flat(l), Carried(fs))
  {
    if l != [] {
      CarriedNames(arrivals, l[1..], fs[1..]);
      NamesJoin(arrivals, l[0], Held(fs[0]), Flat(l[1..]), Carried(fs[1..]));
    }
  }

  /** Then the requests themselves are in that order: delivered, held and queued ones make up the arrivals. */
  lemma LineOfRequests(max: nat, es: seq<Event>, ss: seq<State>, ts: seq<Tickets>, k: nat)
    requires max > 0 && IsTicketed(max, es, ss, ts) && k <= |es| && LinedUp(ts[k], |ss[k].arrivals|)
    ensures Flat(ss[k].sent) + Carried(ss[k].flights) + Requests(ss[k].queue) == ss[k].arrivals
  {
    TicketsMatch(max, es, ss, ts, k);
    var s, t := ss[k], ts[k];
    CarriedNames(s.arrivals, t.held, s.flights);
    NamesJoin(s.arrivals, t.sent, Flat(s.sent), Flat(t.held), Carried(s.flights));
    NamesJoin(s.arrivals, t.sent + Flat(t.held), Flat(s.sent) + Carried(s.flights), t.queue, Requests(s.queue));
  }

  // ---------------------------------------------------------------- runs that lose the order

  datatype Trace = Trace(es: seq<Event>, ss: seq<State>, ts: seq<Tickets>)

  ghost predicate Valid(max: nat, r: Trace)
    requires max > 0
  {
    IsTicketed(max, r.es, r.ss, r.ts)
  }

  ghost predicate At(r: Trace, s: State, t: Tickets) {
    r.ss != [] && r.ts != [] && r.ss[|r.ss| - 1] == s && r.ts[|r.ts| - 1] == t
  }

  ghost predicate Calm(max: nat, r: Trace)
    requires max > 0 && Valid(max, r)
  {
    NeverMeets(r.ss, r.es, max, |r.es|)
  }

  ghost predicate Single(r: Trace) { forall k {:trigger r.ss[k]} :: 0 <= k < |r.ss| ==> OneFlush(r.ss[k]) }

  lemma Begin(max: nat, n: nat, t: Tickets) returns (r: Trace)
    requires max > 0 && t == Tickets([], seq(n, _ => []), [])
    ensures Valid(max, r) && At(r, Start(n), t) && Calm(max, r) && Single(r)
  {
    r := Trace([], [Start(n)], [t]);
  }

  /** One step further, from a known end to a known end. */
  lemma Extend(max: nat, r: Trace, e: Event, s: State, t: Tickets, s': State, t': Tickets) returns (q: Trace)
    requires max > 0 && Valid(max, r) && At(r, s, t) && Stepped(s, t, e, max, s', t')
    ensures Valid(max, q) && At(q, s', t')
    ensures Calm(max, r) && !Meets(s, e, max) ==> Calm(max, q)
    ensures Single(r) && OneFlush(s') ==> Single(q)
  {
    hide Stepped, OneFlush, Meets;
    q := Trace(r.es + [e], r.ss + [s'], r.ts + [t']);
    forall k {:trigger q.es[k]} | 0 <= k < |q.es|
      ensures Stepped(q.ss[k], q.ts[k], q.es[k], max, q.ss[k + 1], q.ts[k + 1])
    {
      assert k < |r.es| ==> q.es[k] == r.es[k];
    }
    assert q.ss[0] == r.ss[0] && q.ts[0] == r.ts[0];
    if Calm(max, r) && !Meets(s, e, max) {
      forall k {:trigger q.es[k]} | 0 <= k < |q.es| ensures !Meets(q.ss[k], q.es[k], max) {
        assert k < |r.es| ==> q.es[k] == r.es[k];
      }
    }
    if Single(r) && OneFlush(s') {
      forall k {:trigger q.ss[k]} | 0 <= k < |q.ss| ensures OneFlush(q.ss[k]) {
        assert k < |r.ss| ==> q.ss[k] == r.ss[k];
      }
    }
  }

  lemma OutOfOrder(max: nat, r: Trace, s: State, t: Tickets)
    requires max > 0 && Valid(max, r) && At(r, s, t) && !InOrder(t.queue)
    ensures !QueueInOrder(r.ts, |r.ts|)
  {
  }

  lemma One(id: nat, x: Request)
    ensures Requests([Pending(id, x)]) == [x] && Wrap([x]) == [Pending(0, x)]
  {
    assert [Pending(id, x)][1..] == [] && [x][1..] == [];
  }

  lemma Two(i: nat, x: Request, j: nat, y: Request)
    ensures Requests([Pending(i, x), Pending(j, y)]) == [x, y]
  {
    One(j, y);
    assert [Pending(i, x), Pending(j, y)][1..] == [Pending(j, y)];
  }

  /** One Flush and a Submit at the wrong moment: the overflow ends behind the later request. */
  lemma OverflowReorders(a: Request, b: Request, c: Request) returns (r: Trace, s: State, t: Tickets)
    requires a.id > 0 && b.id > 0 && c.id > 0
    ensures Valid(1, r) && At(r, s, t) && Single(r)
    ensures s.arrivals == [a, b, c] && Requests(s.queue) == [c, b]
    ensures !QueueInOrder(r.ts, |r.ts|)
  {
    hide Requests, Wrap, Single, Calm, Valid, At;
    One(0, b);
    Two(1, a, 2, b);
    Two(3, c, 0, b);
    var s0, t0 := Start(1), Tickets([], [[]], []);
    var s1, t1 := State([Pending(1, a)], [Idle], [], [], [a]), Tickets([0], [[]], []);
    var s2, t2 := State([Pending(1, a), Pending(2, b)], [Idle], [], [], [a, b]), Tickets([0, 1], [[]], []);
    var s3, t3 := State([], [Drained([a, b])], [], [], [a, b]), Tickets([], [[0, 1]], []);
    var s4, t4 := State([Pending(3, c)], [Drained([a, b])], [], [], [a, b, c]), Tickets([2], [[0, 1]], []);
    s, t := State([Pending(3, c), Pending(0, b)], [Sending([a])], [], [], [a, b, c]), Tickets([2, 1], [[0]], []);
    r := Begin(1, 1, t0);
    r := Extend(1, r, Submit(a, 1), s0, t0, s1, t1);
    r := Extend(1, r, Submit(b, 2), s1, t1, s2, t2);
    r := Extend(1, r, Drain(0), s2, t2, s3, t3);
    r := Extend(1, r, Submit(c, 3), s3, t3, s4, t4);
    r := Extend(1, r, Split(0), s4, t4, s, t);
    assert t.queue[0] > t.queue[1];
    OutOfOrder(1, r, s, t);
  }

  /** Two failing Flushes without any overflow: the one that returns its batch last gets in front. */
  lemma RequeueReorders(max: nat, a: Request, b: Request) returns (r: Trace, s: State, t: Tickets)
    requires max > 0 && a.id > 0 && b.id > 0
    ensures Valid(max, r) && At(r, s, t) && Calm(max, r)
    ensures s.arrivals == [a, b] && Requests(s.queue) == [b, a]
    ensures !QueueInOrder(r.ts, |r.ts|)
  {
    hide Requests, Wrap, Single, Calm, Valid, At;
    var u0 := Tickets([], [[], []], []);
    r := Begin(max, 2, u0);
    var r2, s2, t2 := SendNext(max, r, Start(2), u0, 0, a);
    var r3, s3, t3 := SendNext(max, r2, s2, t2, 1, b);
    var tr := [[a], [b]];
    var s4, t4 := State([], [Failed([a]), Sending([b])], [], [[a]], [a, b]), Tickets([], [[0], [1]], []);
    var s5, t5 := State([Pending(0, a)], [Idle, Sending([b])], [], [[a]], [a, b]), Tickets([0], [[], [1]], []);
    var s6, t6 := State([Pending(0, a)], [Idle, Failed([b])], [], tr, [a, b]), Tickets([0], [[], [1]], []);
    s, t := State([Pending(0, b), Pending(0, a)], [Idle, Idle], [], tr, [a, b]), Tickets([1, 0], [[], []], []);
    One(0, a);
    One(0, b);
    Two(0, b, 0, a);
    r := Extend(max, r3, ClientErr(0), s3, t3, s4, t4);
    r := Extend(max, r, Requeue(0), s4, t4, s5, t5);
    r := Extend(max, r, ClientErr(1), s5, t5, s6, t6);
    r := Extend(max, r, Requeue(1), s6, t6, s, t);
    assert t.queue[0] > t.queue[1];
    OutOfOrder(max, r, s, t);
  }

  /** A request arrives at an empty queue and an idle Flush takes it as far as the client call. */
  lemma SendNext(max: nat, r: Trace, s: State, t: Tickets, f: nat, x: Request)
    returns (q: Trace, s': State, t': Tickets)
    requires max > 0 && x.id > 0 && Valid(max, r) && At(r, s, t) && Calm(max, r)
    requires s.queue == [] && t.queue == [] && f < |s.flights| == |t.held| && s.flights[f].Idle?
    ensures s' == s.(flights := s.flights[f := Sending([x])], arrivals := s.arrivals + [x])
    ensures t' == t.(held := t.held[f := [|s.arrivals|]])
    ensures Valid(max, q) && At(q, s', t') && Calm(max, q)
  {
    hide Requests, Wrap, Single, Calm, Valid, At;
    One(1, x);
    var s1, t1 := s.(queue := [Pending(1, x)], arrivals := s.arrivals + [x]), t.(queue := [|s.arrivals|]);
    var s2 := s1.(queue := [], flights := s.flights[f := Drained([x])]);
    s', t' := s2.(flights := s.flights[f := Sending([x])]), t.(held := t.held[f := [|s.arrivals|]]);
    assert s2.flights[f := Sending([x])] == s.flights[f := Sending([x])];
    q := Extend(max, r, Submit(x, 1), s, t, s1, t1);
    q := Extend(max, q, Drain(f), s1, t1, s2, t');
    SplitOne(s2, t', f, max, x);
    q := Extend(max, q, Split(f), s2, t', s', t');
  }

  lemma NoWrap()
    ensures Wrap([]) == []
  {
  }

  lemma SplitOne(s: State, t: Tickets, f: nat, max: nat, x: Request)
    requires max > 0 && f < |s.flights| == |t.held| && s.flights[f] == Drained([x]) && |t.held[f]| == 1
    ensures Stepped(s, t, Split(f), max, s.(flights := s.flights[f := Sending([x])]), t)
  {
    NoWrap();
    assert s.queue + [] == s.queue && t.queue + [] == t.queue;
    assert t.held[f][1..] == [] && t.held[f][..1] == t.held[f];
    assert t.held[f := t.held[f]] == t.held;
  }
}
