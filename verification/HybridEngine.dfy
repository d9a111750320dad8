// The mutable breaker and the call protocol around it: internal/enhancer/circuit.go, hybrid.go and
// backoff.go. Each breaker method takes exactly its BreakerModel step.
module HybridEngine {
  import opened Common
  import opened M = BreakerModel

  class CircuitBreaker {
    var state: CircuitState
    var failures: nat
    var openUntil: int
    const cfg: Config

    function Abs(): Breaker
      reads this
    {
      Breaker(state, failures, openUntil)
    }

    constructor ()
      ensures Abs() == FRESH && cfg == DEFAULT
    {
      state, failures, openUntil, cfg := Closed, 0, 0, DEFAULT;
    }

    method Allow(now: int) returns (ok: bool)
      modifies this
      ensures (Abs(), ok) == AllowStep(old(Abs()), now)
    {
      match state
      case Closed => ok := true;
      case Open =>
        if now > openUntil {
          state := HalfOpen;
          return true;
        }
        ok := false;
      case HalfOpen => ok := false;
    }

    method RecordSuccess()
      modifies this
      ensures Abs() == SuccessStep(old(Abs()))
    {
      failures := 0;
      state := Closed;
    }

    method RecordFailure(now: int)
      modifies this
      ensures Abs() == FailureStep(cfg, old(Abs()), now)
    {
      failures := failures + 1;
      if failures >= cfg.maxFailures {
        state := Open;
        openUntil := now + cfg.cooldown;
      }
    }

    method ForceClosed()
      modifies this
      ensures Abs() == FRESH
    {
      failures := 0;
      state := Closed;
      openUntil := 0;
    }
  }

  // ---------------------------------------------------------------- the retry loop

  /** The reply of the client call that settled it; `Nothing` when no call was made. */
  datatype Reply = Improved(call: nat) | Errored(call: nat) | Nothing

  /** Attempt `k` ends the loop. */
  predicate Stops(k: nat, maxRetries: int, answer: nat -> Outcome, slept: nat -> bool) {
    answer(k) != Transient || k >= maxRetries || !slept(k)
  }

  /** The loop stops at the first attempt that answers, fails for good, is the last one allowed or
      is cancelled in its sleep, and reports that attempt; a negative limit makes no call at all. */
  method RetryImprove(maxRetries: int, answer: nat -> Outcome, slept: nat -> bool) returns (r: Reply, calls: nat)
    ensures r.Nothing? <==> maxRetries < 0
    ensures maxRetries < 0 ==> calls == 0
    ensures maxRetries >= 0 ==> 1 <= calls <= 1 + maxRetries
    ensures maxRetries >= 0 ==> r == if answer(calls - 1) == Answered then Improved(calls - 1) else Errored(calls - 1)
    ensures maxRetries >= 0 ==> Stops(calls - 1, maxRetries, answer, slept)
    ensures forall k: nat :: k < calls - 1 ==> !Stops(k, maxRetries, answer, slept)
  {
    var totalAttempts := 1 + maxRetries;
    r, calls := Nothing, 0;
    while calls < totalAttempts
      invariant calls <= totalAttempts || calls == 0
      invariant calls == 0 ==> r.Nothing?
      invariant calls > 0 ==> r == Errored(calls - 1) && calls < totalAttempts
      invariant forall k: nat :: k < calls ==> !Stops(k, maxRetries, answer, slept)
    {
      var attempt := calls;
      var outcome := answer(attempt);
      calls := calls + 1;
      if outcome == Answered {
        return Improved(attempt), calls;
      }
      r := Errored(attempt);
      if attempt >= totalAttempts - 1 || outcome != Transient {
        break;
      }
      if !slept(attempt) {
        return Errored(attempt), calls;
      }
    }
  }

  /** What the step system does to one call left to itself from attempt `k` on. */
  function Solo(c: Call, maxRetries: nat, answer: nat -> Outcome, slept: nat -> bool): Call
    requires c.phase.Calling? && c.phase.k <= maxRetries
    decreases maxRetries - c.phase.k
  {
    var d := AfterAttempt(c, answer(c.phase.k), maxRetries);
    if !d.phase.Sleeping? then d
    else if slept(d.phase.k) then Solo(d.(phase := Calling(d.phase.k + 1)), maxRetries, answer, slept)
    else d.(phase := Recording(false))
  }

  /** The loop is the step system's call run to its verdict, with the same number of client calls. */
  lemma {:induction false} LoopIsSolo(c: Call, maxRetries: nat, answer: nat -> Outcome, slept: nat -> bool, stop: nat)
    requires c.phase.Calling? && c.phase.k == c.clientCalls <= stop <= maxRetries
    requires Stops(stop, maxRetries, answer, slept)
    requires forall k: nat :: c.phase.k <= k < stop ==> !Stops(k, maxRetries, answer, slept)
    ensures Solo(c, maxRetries, answer, slept)
            == c.(phase := Recording(answer(stop) == Answered), clientCalls := stop + 1)
    decreases stop - c.phase.k
  {
    if c.phase.k < stop {
      assert !Stops(c.phase.k, maxRetries, answer, slept);
      var next := c.(phase := Calling(c.phase.k + 1), clientCalls := c.clientCalls + 1);
      LoopIsSolo(next, maxRetries, answer, slept, stop);
    }
  }

  // ---------------------------------------------------------------- the protocol

  datatype Mode = Local | LlmOnly | Auto

  datatype Source = FromPipeline | FromCache | FromModel | FromFallback | FromError

  const MAX_RETRIES: nat := 3

  type Provider = nat

  /** The engine's breakers, one for each provider, created on first use. */
  class Engine {
    var cbs: map<Provider, CircuitBreaker>

    constructor ()
      ensures cbs == map[] && Apart()
    {
      cbs := map[];
    }

    ghost predicate Apart()
      reads this
    {
      forall p, q :: p in cbs && q in cbs && p != q ==> cbs[p] != cbs[q]
    }

    function StateOf(p: Provider): Breaker
      reads this, cbs.Values
    {
      if p in cbs then cbs[p].Abs() else FRESH
    }

    function ConfigOf(p: Provider): Config
      reads this
    {
      if p in cbs then cbs[p].cfg else DEFAULT
    }

    method BreakerOf(p: Provider) returns (cb: CircuitBreaker)
      requires Apart()
      modifies this
      ensures Apart() && cbs.Keys == old(cbs).Keys + {p} && cbs[p] == cb
      ensures forall q :: q in old(cbs) ==> cbs[q] == old(cbs)[q]
      ensures p !in old(cbs) ==> fresh(cb)
      ensures forall q :: StateOf(q) == old(StateOf(q)) && ConfigOf(q) == old(ConfigOf(q))
    {
      if p in cbs {
        return cbs[p];
      }
      cb := new CircuitBreaker();
      cbs := cbs[p := cb];
    }
  }

  /** What a call leaves behind: where its text comes from, the client calls made, which of them is put in the
      prompt cache, and the state of the provider's breaker. */
  datatype Effect = Effect(source: Source, calls: nat, cached: Option<nat>, breaker: Breaker)

  /** The effect the step system gives a call that runs from start to end by itself. */
  function SoloEffect(cfg: Config, b: Breaker, mode: Mode, engine: bool, cached: bool, asked: int, ended: int,
                      answer: nat -> Outcome, slept: nat -> bool): Effect
  {
    var (admitted, allowed) := AllowStep(b, asked);
    if mode == Local || !engine then Effect(FromPipeline, 0, None, b)
    else if cached then Effect(FromCache, 0, None, b)
    else if !allowed then Effect(if mode == LlmOnly then FromError else FromFallback, 0, None, admitted)
    else
      var verdict := Solo(Call(Calling(0), asked, admitted.state.HalfOpen?, 0, 0), MAX_RETRIES, answer, slept);
      if verdict.phase == Recording(true) && verdict.clientCalls > 0 then
        Effect(FromModel, verdict.clientCalls, Some(verdict.clientCalls - 1), SuccessStep(admitted))
      else
        Effect(if mode == LlmOnly then FromError else FromFallback, verdict.clientCalls, None,
          FailureStep(cfg, admitted, ended))
  }

  lemma {:induction false} SoloVerdict(c: Call, maxRetries: nat, answer: nat -> Outcome, slept: nat -> bool)
    requires c.phase.Calling? && c.phase.k == c.clientCalls <= maxRetries
    ensures var v := Solo(c, maxRetries, answer, slept);
            && v.phase.Recording? && c.clientCalls < v.clientCalls <= maxRetries + 1
            && (v.phase == Recording(true) <==> answer(v.clientCalls - 1) == Answered)
            && (forall i: nat {:trigger answer(i)} :: c.clientCalls <= i < v.clientCalls - 1 ==>
                  answer(i) == Transient && slept(i))
            && Stops(v.clientCalls - 1, maxRetries, answer, slept)
    decreases maxRetries - c.phase.k
  {
    var d := AfterAttempt(c, answer(c.phase.k), maxRetries);
    if d.phase.Sleeping? && slept(d.phase.k) {
      assert answer(c.phase.k) == Transient;
      var e := d.(phase := Calling(d.phase.k + 1));
      SoloVerdict(e, maxRetries, answer, slept);
      var v := Solo(e, maxRetries, answer, slept);
      assert Solo(c, maxRetries, answer, slept) == v;
      forall i: nat | c.clientCalls <= i < v.clientCalls - 1 ensures answer(i) == Transient && slept(i) {
        assert i > c.clientCalls ==> i >= e.clientCalls;
      }
    }
  }

  /** Local calls and cached ones make no client call and leave the breaker alone. Any other makes none exactly when the
      breaker is half-open, or open and not past its period. The text is the model's exactly when the last client call
      was answered, and then that answer is cached and the breaker closed; otherwise a call that wants only the model
      reports the error and every other one falls back, and the breaker counts the failure. */
  lemma EffectOfCall(cfg: Config, b: Breaker, mode: Mode, engine: bool, cached: bool, asked: int, ended: int,
                     answer: nat -> Outcome, slept: nat -> bool)
    ensures var e := SoloEffect(cfg, b, mode, engine, cached, asked, ended, answer, slept);
            if mode == Local || !engine then e == Effect(FromPipeline, 0, None, b)
            else if cached then e == Effect(FromCache, 0, None, b)
            else
              && (e.calls == 0 <==> b.state == HalfOpen || (b.state == Open && asked <= b.openUntil))
              && (e.calls == 0 ==> e.breaker == b)
              && (e.calls > 0 ==>
                    && (forall i: nat {:trigger answer(i)} :: i < e.calls - 1 ==> answer(i) == Transient && slept(i))
                    && (e.calls == 4 || answer(e.calls - 1) != Transient || !slept(e.calls - 1)) && e.calls <= 4)
              && (e.source == FromModel <==> e.calls > 0 && answer(e.calls - 1) == Answered)
              && (e.source != FromModel ==> e.source == (if mode == LlmOnly then FromError else FromFallback))
              && e.cached == (if e.source == FromModel then Some(e.calls - 1) else None)
              && (e.source == FromModel ==> e.breaker.state == Closed && e.breaker.failures == 0)
              && (e.calls > 0 && e.source != FromModel ==>
                    && e.breaker.failures == b.failures + 1
                    && (e.breaker.failures >= cfg.maxFailures ==>
                          e.breaker.state == Open && e.breaker.openUntil == ended + cfg.cooldown))
  {
    var admitted := AllowStep(b, asked).0;
    SoloVerdict(Call(Calling(0), asked, admitted.state.HalfOpen?, 0, 0), MAX_RETRIES, answer, slept);
    hide Solo;
  }

  /** One call from start to end. Its provider's breaker hears of it exactly once if it was let through, and
      not at all if it was local, cached or refused; no other provider's breaker does. */
  method EnhanceHybrid(mode: Mode, engine: Engine?, provider: Provider, hit: bool,
                       asked: int, ended: int, answer: nat -> Outcome, slept: nat -> bool)
    returns (source: Source, calls: nat, cached: Option<nat>)
    requires engine != null ==> engine.Apart()
    modifies if engine == null then {} else {engine} + engine.cbs.Values
    ensures engine == null ==> source == FromPipeline && calls == 0 && cached == None
    ensures engine != null ==>
              && engine.Apart()
              && Effect(source, calls, cached, engine.StateOf(provider))
                 == SoloEffect(old(engine.ConfigOf(provider)), old(engine.StateOf(provider)), mode, true, hit,
                                asked, ended, answer, slept)
              && forall q :: q != provider ==> engine.StateOf(q) == old(engine.StateOf(q))
  {
    if mode == Local || engine == null {
      return FromPipeline, 0, None;
    }
    if hit {
      return FromCache, 0, None;
    }
    var cb := engine.BreakerOf(provider);
    var ok := cb.Allow(asked);
    if !ok {
      return if mode == LlmOnly then FromError else FromFallback, 0, None;
    }
    ghost var probe := cb.state.HalfOpen?;
    var reply;
    reply, calls := RetryImprove(MAX_RETRIES, answer, slept);
    LoopIsSolo(Call(Calling(0), asked, probe, 0, 0), MAX_RETRIES, answer, slept, calls - 1);
    if reply.Errored? {
      cb.RecordFailure(ended);
      return if mode == LlmOnly then FromError else FromFallback, calls, None;
    }
    cb.RecordSuccess();
    return FromModel, calls, Some(reply.call);
  }
}
