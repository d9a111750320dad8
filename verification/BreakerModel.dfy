// The circuit breaker of internal/enhancer/circuit.go with any number of concurrent calls of
// internal/enhancer/hybrid.go around it, each retrying as internal/enhancer/backoff.go does.
module BreakerModel {

  // ---------------------------------------------------------------- the breaker

  datatype CircuitState = Closed | Open | HalfOpen

  datatype Config = Config(maxFailures: nat, cooldown: nat)

  const DEFAULT := Config(3, 60)

  datatype Breaker = Breaker(state: CircuitState, failures: nat, openUntil: int)

  const FRESH := Breaker(Closed, 0, 0)

  function AllowStep(b: Breaker, now: int): (Breaker, bool) {
    match b.state
    case Closed => (b, true)
    case Open => if now > b.openUntil then (b.(state := HalfOpen), true) else (b, false)
    case HalfOpen => (b, false)
  }

  function SuccessStep(b: Breaker): Breaker { b.(failures := 0, state := Closed) }

  function FailureStep(cfg: Config, b: Breaker, now: int): Breaker {
    var n := b.failures + 1;
    if n >= cfg.maxFailures then Breaker(Open, n, now + cfg.cooldown) else b.(failures := n)
  }

  // ---------------------------------------------------------------- concurrent calls

  /** How one client call ends: an error is worth retrying or not. */
  datatype Outcome = Answered | Transient | Fatal

  /** `Calling(k)` is about to make client call k, `Sleeping(k)` waits after it failed,
      `Recording` has a verdict the breaker has not heard yet. */
  datatype Phase = Refused | Calling(k: nat) | Sleeping(k: nat) | Recording(ok: bool) | Finished(ok: bool)

  datatype Call = Call(phase: Phase, since: int, probe: bool, clientCalls: nat, records: nat)

  predicate InFlight(c: Call) { c.phase.Calling? || c.phase.Sleeping? || c.phase.Recording? }

  datatype Verdict = Success | Failure | Reset

  datatype State = State(b: Breaker, calls: seq<Call>, verdicts: seq<Verdict>, now: int, probe: nat)

  const START := State(FRESH, [], [], 0, 0)

  /** One atomic step; `Ask` starts a call that missed the cache. */
  datatype Event =
    | Ask(now: int)
    | Attempt(c: nat, outcome: Outcome, now: int)
    | Wake(c: nat, slept: bool, now: int)
    | Record(c: nat, now: int)
    | ForceClosed(now: int)

  predicate Enabled(s: State, e: Event) {
    && e.now >= s.now
    && match e
       case Ask(_) => true
       case Attempt(c, _, _) => c < |s.calls| && s.calls[c].phase.Calling?
       case Wake(c, _, _) => c < |s.calls| && s.calls[c].phase.Sleeping?
       case Record(c, _) => c < |s.calls| && s.calls[c].phase.Recording?
       case ForceClosed(_) => true
  }

  function AfterAttempt(c: Call, outcome: Outcome, maxRetries: nat): Call
    requires c.phase.Calling?
  {
    var d := c.(clientCalls := c.clientCalls + 1);
    match outcome
    case Answered => d.(phase := Recording(true))
    case Fatal => d.(phase := Recording(false))
    case Transient =>
      if c.phase.k >= maxRetries then d.(phase := Recording(false)) else d.(phase := Sleeping(c.phase.k))
  }

  function Next(cfg: Config, maxRetries: nat, s: State, e: Event): State
    requires Enabled(s, e)
  {
    var t := s.(now := e.now);
    match e
    case Ask(now) =>
      var (b, allowed) := AllowStep(s.b, now);
      var probing := allowed && b.state.HalfOpen?;
      var c := Call(if allowed then Calling(0) else Refused, now, probing, 0, 0);
      t.(b := b, calls := s.calls + [c], probe := if probing then |s.calls| else s.probe)
    case Attempt(c, outcome, _) =>
      t.(calls := s.calls[c := AfterAttempt(s.calls[c], outcome, maxRetries)])
    case Wake(c, slept, _) =>
      var d := s.calls[c];
      t.(calls := s.calls[c := d.(phase := if slept then Calling(d.phase.k + 1) else Recording(false))])
    case Record(c, now) =>
      var d := s.calls[c];
      t.(calls := s.calls[c := d.(phase := Finished(d.phase.ok), records := d.records + 1)],
         b := if d.phase.ok then SuccessStep(s.b) else FailureStep(cfg, s.b, now),
         verdicts := s.verdicts + [if d.phase.ok then Success else Failure])
    case ForceClosed(_) => t.(b := FRESH, verdicts := s.verdicts + [Reset])
  }

  ghost predicate IsRun(cfg: Config, maxRetries: nat, es: seq<Event>, ss: seq<State>) {
    && |ss| == |es| + 1 && ss[0] == START
    && forall k {:trigger es[k]} :: 0 <= k < |es| ==>
       Enabled(ss[k], es[k]) && ss[k + 1] == Next(cfg, maxRetries, ss[k], es[k])
  }

  // ---------------------------------------------------------------- safety

  function TrailingFailures(v: seq<Verdict>): nat {
    if v == [] || !v[|v| - 1].Failure? then 0 else 1 + TrailingFailures(v[..|v| - 1])
  }

  ghost predicate Counts(cfg: Config, s: State) {
    && s.b.failures == TrailingFailures(s.verdicts)
    && (s.b.state.Closed? <==> s.b.failures < cfg.maxFailures)
  }

  /** A half-open breaker owes its state to a call that is still in flight. */
  ghost predicate Probed(s: State) {
    s.b.state.HalfOpen? ==> s.probe < |s.calls| && InFlight(s.calls[s.probe]) && s.calls[s.probe].probe
  }

  ghost predicate CallOk(c: Call, maxRetries: nat) {
    match c.phase
    case Refused => c.clientCalls == 0 && c.records == 0
    case Calling(k) => c.clientCalls == k <= maxRetries && c.records == 0
    case Sleeping(k) => c.clientCalls == k + 1 <= maxRetries && c.records == 0
    case Recording(_) => 1 <= c.clientCalls <= 1 + maxRetries && c.records == 0
    case Finished(_) => 1 <= c.clientCalls <= 1 + maxRetries && c.records == 1
  }

  ghost predicate CallsOk(s: State, maxRetries: nat) {
    forall c :: 0 <= c < |s.calls| ==> CallOk(s.calls[c], maxRetries)
  }

  lemma StepKeeps(cfg: Config, maxRetries: nat, s: State, e: Event)
    requires cfg.maxFailures > 0 && Enabled(s, e) && Counts(cfg, s) && Probed(s) && CallsOk(s, maxRetries)
    ensures var s' := Next(cfg, maxRetries, s, e);
            Counts(cfg, s') && Probed(s') && CallsOk(s', maxRetries)
  {
    var s' := Next(cfg, maxRetries, s, e);
    if |s'.verdicts| > |s.verdicts| { assert s'.verdicts[..|s'.verdicts| - 1] == s.verdicts; }
  }

  /** In every reachable state the breaker is closed exactly when the trailing run of recorded
      failures is shorter than maxFailures; half-open means an admitted probe is still in flight;
      an admitted call makes at most 1 + maxRetries client calls and records exactly once. */
  lemma {:induction false} BreakerSafety(cfg: Config, maxRetries: nat, es: seq<Event>, ss: seq<State>, k: nat)
    requires cfg.maxFailures > 0 && IsRun(cfg, maxRetries, es, ss) && k <= |es|
    ensures ss[k].b.state.Closed? <==> TrailingFailures(ss[k].verdicts) < cfg.maxFailures
    ensures Counts(cfg, ss[k]) && Probed(ss[k]) && CallsOk(ss[k], maxRetries)
  {
    if k > 0 {
      BreakerSafety(cfg, maxRetries, es, ss, k - 1);
      StepKeeps(cfg, maxRetries, ss[k - 1], es[k - 1]);
    }
  }

  /** The breaker cannot wedge: once no admitted call is in flight, any call asking after the
      open period is let through. */
  lemma NeverWedged(cfg: Config, maxRetries: nat, es: seq<Event>, ss: seq<State>, k: nat, now: int)
    requires cfg.maxFailures > 0 && IsRun(cfg, maxRetries, es, ss) && k <= |es|
    requires forall c :: 0 <= c < |ss[k].calls| ==> !InFlight(ss[k].calls[c])
    requires now > ss[k].b.openUntil
    ensures AllowStep(ss[k].b, now).1
  {
    BreakerSafety(cfg, maxRetries, es, ss, k);
  }

  predicate Hears(e: Event) { e.Record? || e.ForceClosed? }

  /** A half-open breaker stays half-open and refuses every call until a record or a reset. */
  lemma {:induction false} HalfOpenRefuses(cfg: Config, maxRetries: nat, es: seq<Event>, ss: seq<State>, i: nat, j: nat)
    requires IsRun(cfg, maxRetries, es, ss) && i <= j <= |es|
    requires ss[i].b.state.HalfOpen? && forall k :: i <= k < j ==> !Hears(es[k])
    ensures ss[j].b == ss[i].b
    ensures forall k {:trigger es[k]} :: i <= k < j && es[k].Ask? ==>
              |ss[k].calls| < |ss[k + 1].calls| && ss[k + 1].calls[|ss[k].calls|].phase.Refused?
  {
    if i < j {
      HalfOpenRefuses(cfg, maxRetries, es, ss, i, j - 1);
      assert Enabled(ss[j - 1], es[j - 1]);
    }
  }

  /** A failure that opens the breaker closes it to every call for the cooldown, until it hears of another call or of
      a reset. */
  lemma {:induction false} OpenRefuses(cfg: Config, maxRetries: nat, es: seq<Event>, ss: seq<State>, i: nat, j: nat)
    requires cfg.maxFailures > 0 && IsRun(cfg, maxRetries, es, ss) && i < j <= |es|
    requires es[i].Record? && ss[i + 1].b.state.Open? && ss[i + 1].verdicts[|ss[i + 1].verdicts| - 1..] == [Failure]
    requires forall k :: i < k < j ==> !Hears(es[k]) && es[k].now <= es[i].now + cfg.cooldown
    ensures ss[j].b == ss[i + 1].b && ss[j].b.openUntil == es[i].now + cfg.cooldown
    ensures forall k {:trigger es[k]} :: i < k < j && es[k].Ask? ==>
              |ss[k].calls| < |ss[k + 1].calls| && ss[k + 1].calls[|ss[k].calls|].phase.Refused?
  {
    assert Enabled(ss[j - 1], es[j - 1]) && ss[j] == Next(cfg, maxRetries, ss[j - 1], es[j - 1]);
    if i + 1 < j {
      OpenRefuses(cfg, maxRetries, es, ss, i, j - 1);
    } else {
      BreakerSafety(cfg, maxRetries, es, ss, i);
    }
  }

  // ---------------------------------------------------------------- one probe at a time

  /** Every call in flight is at most `patience` old whenever something happens. */
  ghost predicate Punctual(ss: seq<State>, patience: nat) {
    forall k, c :: 0 <= k < |ss| && 0 <= c < |ss[k].calls| && InFlight(ss[k].calls[c]) ==>
      ss[k].now <= ss[k].calls[c].since + patience
  }

  predicate Probing(s: State, c: int) { 0 <= c < |s.calls| && InFlight(s.calls[c]) && s.calls[c].probe }

  ghost predicate OneProbe(s: State) {
    forall c, d :: Probing(s, c) && Probing(s, d) ==> c == d
  }

  /** An open period that starts while a probe is in flight outlasts it by the cooldown. */
  ghost predicate ProbeTimed(cfg: Config, s: State) {
    && (forall c :: 0 <= c < |s.calls| ==> s.calls[c].since <= s.now)
    && (s.b.state.Open? ==> forall c :: Probing(s, c) ==> s.calls[c].since + cfg.cooldown <= s.b.openUntil)
    && (s.b.state.HalfOpen? ==> forall c :: Probing(s, c) ==> c == s.probe)
  }

  lemma OneProbeStep(cfg: Config, maxRetries: nat, s: State, e: Event, patience: nat)
    requires cfg.maxFailures > 0 && patience <= cfg.cooldown && Enabled(s, e)
    requires Counts(cfg, s) && Probed(s) && OneProbe(s) && ProbeTimed(cfg, s)
    requires forall c ::
               0 <= c < |Next(cfg, maxRetries, s, e).calls| && InFlight(Next(cfg, maxRetries, s, e).calls[c]) ==>
               e.now <= Next(cfg, maxRetries, s, e).calls[c].since + patience
    ensures OneProbe(Next(cfg, maxRetries, s, e)) && ProbeTimed(cfg, Next(cfg, maxRetries, s, e))
  {
    var s' := Next(cfg, maxRetries, s, e);
    forall c | Probing(s', c) && c < |s.calls|
      ensures Probing(s, c) && s'.calls[c].since == s.calls[c].since
    {
    }
  }

  /** "Only one probe at a time" holds whenever calls end within the cooldown. */
  lemma {:induction false} OneProbeAtATime(
    cfg: Config, maxRetries: nat, es: seq<Event>, ss: seq<State>, k: nat, patience: nat)
    requires cfg.maxFailures > 0 && IsRun(cfg, maxRetries, es, ss) && k <= |es|
    requires Punctual(ss, patience) && patience <= cfg.cooldown
    ensures OneProbe(ss[k]) && ProbeTimed(cfg, ss[k])
  {
    if k > 0 {
      OneProbeAtATime(cfg, maxRetries, es, ss, k - 1, patience);
      BreakerSafety(cfg, maxRetries, es, ss, k - 1);
      assert ss[k].now == es[k - 1].now;
      OneProbeStep(cfg, maxRetries, ss[k - 1], es[k - 1], patience);
    }
  }

  /** The bound is needed: a call that may last longer than the 60-second cooldown lets a straggler
      re-open the breaker behind a slow probe, and a second probe joins it. */
  lemma TwoProbes(patience: nat) returns (es: seq<Event>, ss: seq<State>)
    requires patience > DEFAULT.cooldown
    ensures IsRun(DEFAULT, 0, es, ss) && Punctual(ss, patience) && !OneProbe(ss[|es|])
  {
    var ask, failed := Call(Calling(0), 0, false, 0, 0), Call(Finished(false), 0, false, 1, 1);
    var before, trip := TripDefault();
    var s0 := before[|trip|];
    assert s0.calls == [ask, failed, failed, failed] && s0.b == Breaker(Open, 3, 60);
    var e1, e2, e3, e4 := Ask(61), Attempt(0, Fatal, 61), Record(0, 61), Ask(122);
    var s1 := Next(DEFAULT, 0, s0, e1);
    var s2 := Next(DEFAULT, 0, s1, e2);
    var s3 := Next(DEFAULT, 0, s2, e3);
    assert s3.b == Breaker(Open, 4, 121);
    var s4 := Next(DEFAULT, 0, s3, e4);
    es, ss := trip + [e1, e2, e3, e4], before + [s1, s2, s3, s4];
    assert s4.calls[4] == Call(Calling(0), 61, true, 0, 0) && s4.calls[5] == Call(Calling(0), 122, true, 0, 0);
    assert Probing(s4, 4) && Probing(s4, 5);
    assert forall k :: 0 <= k < |before| ==> ss[k] == before[k];
    assert !InFlight(s4.calls[0]);
  }

  ghost predicate AllAtZero(ss: seq<State>) {
    forall k :: 0 <= k < |ss| ==> ss[k].now == 0 && forall c :: 0 <= c < |ss[k].calls| ==> ss[k].calls[c].since == 0
  }

  /** Four calls start; three fail at once and trip the default breaker; the first is still out. */
  lemma TripDefault() returns (ss: seq<State>, es: seq<Event>)
    ensures IsRun(DEFAULT, 0, es, ss) && AllAtZero(ss)
    ensures var s := ss[|es|];
            && s.b == Breaker(Open, 3, 60)
            && s.calls == [Call(Calling(0), 0, false, 0, 0)]
                          + seq(3, _ => Call(Finished(false), 0, false, 1, 1))
  {
    es, ss := [], [START];
    var asked: nat := 0;
    while asked < 4
      invariant asked <= 4 && IsRun(DEFAULT, 0, es, ss) && AllAtZero(ss)
      invariant ss[|es|].b == FRESH
      invariant ss[|es|].calls == seq(asked, _ => Call(Calling(0), 0, false, 0, 0))
    {
      ss := ss + [Next(DEFAULT, 0, ss[|es|], Ask(0))];
      es := es + [Ask(0)];
      asked := asked + 1;
    }
    var done: nat := 0;
    while done < 3
      invariant done <= 3 && IsRun(DEFAULT, 0, es, ss) && AllAtZero(ss)
      invariant ss[|es|].b == if done < 3 then Breaker(Closed, done, 0) else Breaker(Open, 3, 60)
      invariant ss[|es|].calls == [Call(Calling(0), 0, false, 0, 0)]
                                  + seq(done, _ => Call(Finished(false), 0, false, 1, 1))
                                  + seq(3 - done, _ => Call(Calling(0), 0, false, 0, 0))
    {
      var s := ss[|es|];
      var c := done + 1;
      assert s.calls[c] == Call(Calling(0), 0, false, 0, 0);
      var s1 := Next(DEFAULT, 0, s, Attempt(c, Fatal, 0));
      var s2 := Next(DEFAULT, 0, s1, Record(c, 0));
      ss := ss + [s1, s2];
      es := es + [Attempt(c, Fatal, 0), Record(c, 0)];
      done := done + 1;
    }
  }
}
