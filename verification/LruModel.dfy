// The LRU/TTL cache of internal/enhancer/cache.go as a recency sequence: front is most recent.
// LruCache.dfy proves that the hash map and linked list refine these steps.
module LruModel {
  import opened Common

  /** A SHA-256 digest, read as a number. */
  type Key = nat

  /** A handle on an enhancement result. */
  type Value = nat

  datatype Entry = Entry(key: Key, value: Value, createdAt: int)

  datatype Cache = Cache(entries: seq<Entry>, hits: nat, misses: nat, evictions: nat)

  const EMPTY := Cache([], 0, 0, 0)

  // ---------------------------------------------------------------- operations

  /** Position of a key, or the length of the sequence when it is absent. */
  function Position(s: seq<Entry>, k: Key): (i: nat)
    ensures i <= |s|
    ensures i < |s| ==> s[i].key == k
    ensures forall j :: 0 <= j < i ==> s[j].key != k
  {
    if s == [] || s[0].key == k then 0 else 1 + Position(s[1..], k)
  }

  predicate Has(s: seq<Entry>, k: Key) { exists i :: 0 <= i < |s| && s[i].key == k }

  function Without(s: seq<Entry>, k: Key): seq<Entry> {
    var i := Position(s, k);
    if i < |s| then RemoveAt(s, i) else s
  }

  function Lookup(s: seq<Entry>, k: Key): Entry
    requires Has(s, k)
  {
    s[Position(s, k)]
  }

  function ToFront(s: seq<Entry>, e: Entry): seq<Entry> { [e] + Without(s, e.key) }

  function Promoted(s: seq<Entry>, k: Key): seq<Entry>
    requires Has(s, k)
  {
    ToFront(s, Lookup(s, k))
  }

  predicate Expired(e: Entry, now: int, ttl: int) { now - e.createdAt > ttl }

  function GetStep(c: Cache, k: Key, now: int, ttl: int): (Cache, Option<Value>) {
    if !Has(c.entries, k) then (c.(misses := c.misses + 1), None)
    else
      var e := Lookup(c.entries, k);
      if Expired(e, now, ttl) then
        (c.(entries := Without(c.entries, k), misses := c.misses + 1), None)
      else
        (c.(entries := Promoted(c.entries, k), hits := c.hits + 1), Some(e.value))
  }

  /** Drops entries at the back until there is room for one more. */
  function MakeRoom(c: Cache, maxSize: nat): Cache
    requires maxSize > 0
  {
    if |c.entries| < maxSize then c
    else c.(entries := c.entries[..maxSize - 1], evictions := c.evictions + (|c.entries| - (maxSize - 1)))
  }

  function PutStep(c: Cache, k: Key, v: Value, now: int, maxSize: nat): Cache
    requires maxSize > 0
  {
    var e := Entry(k, v, now);
    if Has(c.entries, k) then c.(entries := ToFront(c.entries, e))
    else
      var roomy := MakeRoom(c, maxSize);
      roomy.(entries := [e] + roomy.entries)
  }

  function Drop(s: seq<Entry>, keys: seq<Key>): seq<Entry> {
    if keys == [] then s else Drop(Without(s, keys[0]), keys[1..])
  }

  // ---------------------------------------------------------------- runs

  datatype Event =
    | Get(key: Key, now: int)
    | Put(key: Key, value: Value, now: int)
    | Invalidate(keys: seq<Key>)
    | Clear

  /** What an observer writes down from the last Clear on: every put or hit in order, the latest put
      of each key not invalidated since, the Gets, and how often entries were removed other than
      for capacity. */
  datatype Ledger = Ledger(touches: seq<Key>, latest: map<Key, Entry>, gets: nat, removals: nat)

  datatype Run = Run(c: Cache, log: Ledger)

  const START := Run(EMPTY, Ledger([], map[], 0, 0))

  function Next(c: Cache, e: Event, maxSize: nat, ttl: int): Cache
    requires maxSize > 0
  {
    match e
    case Get(k, now) => GetStep(c, k, now, ttl).0
    case Put(k, v, now) => PutStep(c, k, v, now, maxSize)
    case Invalidate(keys) => c.(entries := Drop(c.entries, keys))
    case Clear => EMPTY
  }

  function Observe(r: Run, e: Event, ttl: int): Ledger {
    match e
    case Get(k, now) =>
      var l := r.log.(gets := r.log.gets + 1);
      if GetStep(r.c, k, now, ttl).1.Some? then l.(touches := l.touches + [k])
      else if Has(r.c.entries, k) then l.(removals := l.removals + 1)
      else l
    case Put(k, v, now) =>
      r.log.(touches := r.log.touches + [k], latest := r.log.latest[k := Entry(k, v, now)])
    case Invalidate(keys) =>
      r.log.(latest := map k | k in r.log.latest && k !in keys :: r.log.latest[k],
             removals := r.log.removals + if Drop(r.c.entries, keys) != r.c.entries then 1 else 0)
    case Clear => START.log
  }

  function Step(r: Run, e: Event, maxSize: nat, ttl: int): Run
    requires maxSize > 0
  {
    Run(Next(r.c, e, maxSize, ttl), Observe(r, e, ttl))
  }

  function Exec(es: seq<Event>, maxSize: nat, ttl: int): Run
    requires maxSize > 0
  {
    if es == [] then START
    else Step(Exec(es[..|es| - 1], maxSize, ttl), es[|es| - 1], maxSize, ttl)
  }

  // ---------------------------------------------------------------- recency

  /** The keys put or hit since the last time `k` itself was. */
  function TouchedSince(touches: seq<Key>, k: Key): set<Key> {
    if touches == [] || touches[|touches| - 1] == k then {}
    else {touches[|touches| - 1]} + TouchedSince(touches[..|touches| - 1], k)
  }

  /** All keys ever touched, most recent first, each once. */
  function Recency(touches: seq<Key>): seq<Key> {
    if touches == [] then []
    else
      var k := touches[|touches| - 1];
      [k] + RemoveKey(Recency(touches[..|touches| - 1]), k)
  }

  function RemoveKey(s: seq<Key>, k: Key): seq<Key> {
    if s == [] then [] else if s[0] == k then s[1..] else [s[0]] + RemoveKey(s[1..], k)
  }

  function Take<T>(s: seq<T>, n: nat): seq<T> { if |s| <= n then s else s[..n] }

  ghost predicate Lists(s: seq<Entry>, keys: seq<Key>) {
    |s| == |keys| && forall i :: 0 <= i < |s| ==> s[i].key == keys[i]
  }

  ghost predicate Distinct(s: seq<Entry>) {
    forall i, j :: 0 <= i < j < |s| ==> s[i].key != s[j].key
  }

  /** Everything in front of an entry was touched after it. */
  ghost predicate FrontIsNewer(s: seq<Entry>, touches: seq<Key>) {
    forall i, j :: 0 <= i < j < |s| ==> s[i].key in TouchedSince(touches, s[j].key)
  }

  ghost predicate Fresh(s: seq<Entry>, latest: map<Key, Entry>) {
    forall i :: 0 <= i < |s| ==> s[i].key in latest && s[i] == latest[s[i].key]
  }

  ghost predicate Inv(r: Run, maxSize: nat) {
    && |r.c.entries| <= maxSize
    && (forall i :: 0 <= i < |r.c.entries| ==> r.c.entries[i].key in r.log.touches)
    && Distinct(r.c.entries)
    && FrontIsNewer(r.c.entries, r.log.touches)
    && Fresh(r.c.entries, r.log.latest)
    && r.c.hits + r.c.misses == r.log.gets
    && (r.log.removals == 0 ==> Lists(r.c.entries, Take(Recency(r.log.touches), maxSize)))
  }

  // ---------------------------------------------------------------- preservation

  lemma WithoutFacts(s: seq<Entry>, k: Key)
    requires Distinct(s)
    ensures var w, p := Without(s, k), Position(s, k);
            && |w| == (if p < |s| then |s| - 1 else |s|)
            && forall i {:trigger w[i]} :: 0 <= i < |w| ==> w[i] == if i < p then s[i] else s[i + 1]
    ensures Distinct(Without(s, k)) && !Has(Without(s, k), k)
  {
  }

  lemma ToFrontFacts(s: seq<Entry>, e: Entry)
    requires Distinct(s) && Has(s, e.key)
    ensures var f, p := ToFront(s, e), Position(s, e.key);
            && |f| == |s| && Distinct(f)
            && forall i {:trigger f[i]} :: 0 <= i < |f| ==>
                 f[i] == if i == 0 then e else if i <= p then s[i - 1] else s[i]
    ensures forall k :: Has(s, k) ==> Has(ToFront(s, e), k)
  {
    WithoutFacts(s, e.key);
    var f, p := ToFront(s, e), Position(s, e.key);
    forall k | Has(s, k) ensures Has(f, k) {
      var i :| 0 <= i < |s| && s[i].key == k;
      assert f[if i == p then 0 else if i < p then i + 1 else i].key == k;
    }
  }

  lemma StillThere(s: seq<Entry>, x: Entry)
    requires x in s
    ensures Has(s, x.key)
  {
  }

  lemma WithoutMembers(s: seq<Entry>, k: Key)
    requires Distinct(s)
    ensures forall x :: x in Without(s, k) <==> x in s && x.key != k
  {
    WithoutFacts(s, k);
    var p, w := Position(s, k), Without(s, k);
    forall x | x in s && x.key != k ensures x in w {
      var a :| 0 <= a < |s| && s[a] == x;
      assert x == w[if a < p then a else a - 1];
    }
  }

  lemma WithoutHas(s: seq<Entry>, k: Key)
    requires Distinct(s)
    ensures forall x :: Has(Without(s, k), x) <==> Has(s, x) && x != k
  {
    WithoutMembers(s, k);
    var w := Without(s, k);
    forall x | Has(w, x) ensures Has(s, x) && x != k {
      var i :| 0 <= i < |w| && w[i].key == x;
      assert w[i] in w;
      StillThere(s, w[i]);
    }
    forall x | Has(s, x) && x != k ensures Has(w, x) {
      var i :| 0 <= i < |s| && s[i].key == x;
      assert s[i] in s;
      StillThere(w, s[i]);
    }
  }

  lemma WithoutKeepsFront(s: seq<Entry>, k: Key, touches: seq<Key>)
    requires Distinct(s) && FrontIsNewer(s, touches)
    ensures FrontIsNewer(Without(s, k), touches)
  {
    WithoutFacts(s, k);
  }

  /** Moving or adding an entry to the front after touching its key. */
  lemma TouchFront(s: seq<Entry>, e: Entry, touches: seq<Key>)
    requires Distinct(s) && !Has(s, e.key) && FrontIsNewer(s, touches)
    ensures Distinct([e] + s) && FrontIsNewer([e] + s, touches + [e.key])
  {
    assert (touches + [e.key])[..|touches|] == touches;
    forall i, j | 0 <= i < j < |[e] + s|
      ensures ([e] + s)[i].key in TouchedSince(touches + [e.key], ([e] + s)[j].key)
    {
      assert ([e] + s)[j] == s[j - 1];
      assert TouchedSince(touches + [e.key], s[j - 1].key) == {e.key} + TouchedSince(touches, s[j - 1].key);
    }
  }

  lemma {:induction false} RemoveKeyAt(s: seq<Key>, k: Key, i: nat)
    requires i <= |s| && k !in s[..i] && (i < |s| ==> s[i] == k)
    ensures RemoveKey(s, k) == if i < |s| then RemoveAt(s, i) else s
  {
    if i > 0 {
      assert s[1..][..i - 1] == s[1..i];
      RemoveKeyAt(s[1..], k, i - 1);
      if i < |s| { assert [s[0]] + RemoveAt(s[1..], i - 1) == RemoveAt(s, i); }
    }
  }

  lemma {:induction false} RemoveKeyLate(s: seq<Key>, k: Key, n: nat)
    requires n <= |s| && k !in s[..n]
    ensures n <= |RemoveKey(s, k)| && RemoveKey(s, k)[..n] == s[..n]
  {
    if n > 0 {
      assert s[1..][..n - 1] == s[1..n];
      RemoveKeyLate(s[1..], k, n - 1);
    }
  }

  lemma MoveLists(s: seq<Entry>, f: seq<Entry>, r: seq<Key>, p: nat)
    requires p < |s| == |f| <= |r| && forall i :: 0 <= i < |s| ==> s[i].key == r[i]
    requires forall i {:trigger f[i]} :: 0 <= i < |f| ==>
               f[i].key == if i == 0 then s[p].key else if i <= p then s[i - 1].key else s[i].key
    ensures forall i :: 0 <= i < |f| ==> f[i].key == MoveFirst(r, p)[i]
  {
  }

  /** A bounded recency list that moves a hit to the front keeps exactly the most recent keys. */
  lemma HitRecency(s: seq<Entry>, e: Entry, touches: seq<Key>, n: nat)
    requires n > 0 && Distinct(s) && Has(s, e.key) && Lists(s, Take(Recency(touches), n))
    ensures Lists(ToFront(s, e), Take(Recency(touches + [e.key]), n))
  {
    var r, p := Recency(touches), Position(s, e.key);
    assert p < |s| && s[p].key == e.key == r[p];
    forall i | 0 <= i < p ensures r[i] != e.key {
      assert r[i] == s[i].key;
    }
    RecencyPush(touches, e.key, p);
    ToFrontFacts(s, e);
    MoveLists(s, ToFront(s, e), r, p);
  }

  /** Touching the key at place `p` moves it to the front of the recency list. */
  lemma RecencyPush(touches: seq<Key>, k: Key, p: nat)
    requires p < |Recency(touches)| && Recency(touches)[p] == k
    requires forall i :: 0 <= i < p ==> Recency(touches)[i] != k
    ensures Recency(touches + [k]) == MoveFirst(Recency(touches), p)
  {
    assert (touches + [k])[..|touches|] == touches;
    RemoveKeyAt(Recency(touches), k, p);
  }

  /** So does one that adds a new key in front and drops the last one when full. */
  lemma MissRecency(s: seq<Entry>, e: Entry, touches: seq<Key>, n: nat)
    requires n > 0 && !Has(s, e.key) && Lists(s, Take(Recency(touches), n))
    ensures Lists([e] + (if |s| < n then s else s[..n - 1]), Take(Recency(touches + [e.key]), n))
  {
    var r, k := Recency(touches), e.key;
    assert (touches + [k])[..|touches|] == touches;
    var t := Recency(touches + [k]);
    assert forall i :: 0 <= i < |s| ==> r[i] == s[i].key;
    if |s| < n {
      RemoveKeyAt(r, k, |r|);
      assert t == [k] + r;
      forall i | 0 <= i < |s| + 1 ensures ([e] + s)[i].key == t[i] {
        if i > 0 { assert t[i] == r[i - 1]; }
      }
    } else {
      RemoveKeyLate(r, k, n);
      assert t == [k] + RemoveKey(r, k);
      forall i | 0 <= i < n ensures ([e] + s[..n - 1])[i].key == t[i] {
        if i > 0 { assert t[i] == RemoveKey(r, k)[..n][i - 1] == r[i - 1]; }
      }
    }
  }

  lemma GetKeeps(r: Run, e: Event, maxSize: nat, ttl: int)
    requires maxSize > 0 && Inv(r, maxSize) && e.Get?
    ensures Inv(Step(r, e, maxSize, ttl), maxSize)
  {
    var s := r.c.entries;
    WithoutFacts(s, e.key);
    if Has(s, e.key) {
      WithoutKeepsFront(s, e.key, r.log.touches);
      var x := Lookup(s, e.key);
      if !Expired(x, e.now, ttl) {
        TouchFront(Without(s, e.key), x, r.log.touches);
        if r.log.removals == 0 { HitRecency(s, x, r.log.touches, maxSize); }
      }
    }
  }

  lemma PutKeeps(r: Run, e: Event, maxSize: nat, ttl: int)
    requires maxSize > 0 && Inv(r, maxSize) && e.Put?
    ensures Inv(Step(r, e, maxSize, ttl), maxSize)
  {
    var s, x := r.c.entries, Entry(e.key, e.value, e.now);
    if Has(s, e.key) {
      if r.log.removals == 0 { HitRecency(s, x, r.log.touches, maxSize); }
      WithoutFacts(s, e.key);
      WithoutKeepsFront(s, e.key, r.log.touches);
      TouchFront(Without(s, e.key), x, r.log.touches);
    } else {
      if r.log.removals == 0 { MissRecency(s, x, r.log.touches, maxSize); }
      TouchFront(MakeRoom(r.c, maxSize).entries, x, r.log.touches);
    }
  }

  lemma {:induction false} DropMembers(s: seq<Entry>, keys: seq<Key>)
    requires Distinct(s)
    ensures Distinct(Drop(s, keys)) && forall x :: x in Drop(s, keys) <==> x in s && x.key !in keys
  {
    if keys != [] {
      WithoutFacts(s, keys[0]);
      WithoutMembers(s, keys[0]);
      DropMembers(Without(s, keys[0]), keys[1..]);
    }
  }

  lemma {:induction false} DropKeeps(s: seq<Entry>, keys: seq<Key>, touches: seq<Key>)
    requires Distinct(s) && FrontIsNewer(s, touches)
    ensures FrontIsNewer(Drop(s, keys), touches) && |Drop(s, keys)| <= |s|
  {
    if keys != [] {
      WithoutFacts(s, keys[0]);
      WithoutKeepsFront(s, keys[0], touches);
      DropKeeps(Without(s, keys[0]), keys[1..], touches);
    }
  }

  lemma StepKeeps(r: Run, e: Event, maxSize: nat, ttl: int)
    requires maxSize > 0 && Inv(r, maxSize)
    ensures Inv(Step(r, e, maxSize, ttl), maxSize)
  {
    match e
    case Get(_, _) => GetKeeps(r, e, maxSize, ttl);
    case Put(_, _, _) => PutKeeps(r, e, maxSize, ttl);
    case Invalidate(keys) =>
      DropMembers(r.c.entries, keys);
      DropKeeps(r.c.entries, keys, r.log.touches);
      var d := Drop(r.c.entries, keys);
      forall i | 0 <= i < |d|
        ensures d[i].key in Step(r, e, maxSize, ttl).log.latest && d[i].key in r.log.touches
      {
        assert d[i] in r.c.entries;
      }
    case Clear =>
  }

  lemma {:induction false} RunsKeep(es: seq<Event>, maxSize: nat, ttl: int)
    requires maxSize > 0
    ensures Inv(Exec(es, maxSize, ttl), maxSize)
  {
    if es != [] {
      RunsKeep(es[..|es| - 1], maxSize, ttl);
      StepKeeps(Exec(es[..|es| - 1], maxSize, ttl), es[|es| - 1], maxSize, ttl);
    }
  }

  // ---------------------------------------------------------------- what every run guarantees

  /** The newest Put of a key in the events, unless it was invalidated or cleared after that. */
  function LatestPut(es: seq<Event>, k: Key): Option<Entry> {
    if es == [] then None
    else
      match es[|es| - 1]
      case Put(k', v, now) => if k' == k then Some(Entry(k, v, now)) else LatestPut(es[..|es| - 1], k)
      case Invalidate(keys) => if k in keys then None else LatestPut(es[..|es| - 1], k)
      case Clear => None
      case Get(_, _) => LatestPut(es[..|es| - 1], k)
  }

  function GetsSinceClear(es: seq<Event>): nat {
    if es == [] || es[|es| - 1].Clear? then 0
    else GetsSinceClear(es[..|es| - 1]) + if es[|es| - 1].Get? then 1 else 0
  }

  /** What the `i`-th call returned, when it was a Get. */
  function Answer(es: seq<Event>, i: nat, maxSize: nat, ttl: int): Option<Value>
    requires maxSize > 0 && i < |es| && es[i].Get?
  {
    GetStep(Exec(es[..i], maxSize, ttl).c, es[i].key, es[i].now, ttl).1
  }

  /** The `i`-th call put its key, or got it and returned a value. */
  predicate Touches(es: seq<Event>, i: nat, maxSize: nat, ttl: int)
    requires maxSize > 0 && i < |es|
  {
    es[i].Put? || (es[i].Get? && Answer(es, i, maxSize, ttl).Some?)
  }

  /** The `i`-th call removes an entry other than for capacity: it invalidates a cached key or finds one expired. */
  ghost predicate Removes(es: seq<Event>, i: nat, maxSize: nat, ttl: int)
    requires maxSize > 0 && i < |es|
  {
    var s := Exec(es[..i], maxSize, ttl).c.entries;
    match es[i]
    case Invalidate(keys) => exists k :: k in keys && Has(s, k)
    case Get(k, _) => Has(s, k) && Answer(es, i, maxSize, ttl).None?
    case _ => false
  }

  /** Where the calls after the last Clear among the first `n` begin. */
  function LastClear(es: seq<Event>, n: nat): (i: nat)
    requires n <= |es|
    ensures i <= n && (forall j :: i <= j < n ==> !es[j].Clear?) && (i > 0 ==> es[i - 1].Clear?)
  {
    if n == 0 || es[n - 1].Clear? then n else LastClear(es, n - 1)
  }

  /** The keys of the touching calls since the last Clear among the first `n`, in order. */
  function TouchedKeys(es: seq<Event>, n: nat, maxSize: nat, ttl: int): seq<Key>
    requires maxSize > 0 && n <= |es|
  {
    if n == 0 || es[n - 1].Clear? then []
    else TouchedKeys(es, n - 1, maxSize, ttl) + if Touches(es, n - 1, maxSize, ttl) then [es[n - 1].key] else []
  }

  lemma LastCall(es: seq<Event>, n: nat, maxSize: nat, ttl: int)
    requires maxSize > 0 && 0 < n <= |es|
    ensures Exec(es[..n], maxSize, ttl) == Step(Exec(es[..n - 1], maxSize, ttl), es[n - 1], maxSize, ttl)
  {
    assert es[..n][..n - 1] == es[..n - 1];
  }

  lemma {:induction false} DropsNothing(s: seq<Entry>, keys: seq<Key>)
    requires forall k :: k in keys ==> !Has(s, k)
    ensures Drop(s, keys) == s
  {
    if keys != [] {
      assert keys[0] in keys;
      DropsNothing(s, keys[1..]);
    }
  }

  lemma DropsExactly(s: seq<Entry>, keys: seq<Key>)
    requires Distinct(s)
    ensures Drop(s, keys) != s <==> exists k :: k in keys && Has(s, k)
  {
    if k :| k in keys && Has(s, k) {
      DropMembers(s, keys);
      var i :| 0 <= i < |s| && s[i].key == k;
      assert s[i] in s && s[i] !in Drop(s, keys);
    } else {
      DropsNothing(s, keys);
    }
  }

  lemma RemovalStep(es: seq<Event>, n: nat, maxSize: nat, ttl: int)
    requires maxSize > 0 && n < |es| && !es[n].Clear?
    ensures Exec(es[..n + 1], maxSize, ttl).log.removals ==
            Exec(es[..n], maxSize, ttl).log.removals + if Removes(es, n, maxSize, ttl) then 1 else 0
  {
    LastCall(es, n + 1, maxSize, ttl);
    RunsKeep(es[..n], maxSize, ttl);
    hide Exec, Next, Has, GetStep, Drop;
    if es[n].Invalidate? { DropsExactly(Exec(es[..n], maxSize, ttl).c.entries, es[n].keys); }
  }

  /** Nothing was removed since the last Clear other than for capacity. */
  ghost predicate Undisturbed(es: seq<Event>, n: nat, maxSize: nat, ttl: int)
    requires maxSize > 0 && n <= |es|
  {
    forall i :: LastClear(es, n) <= i < n ==> !Removes(es, i, maxSize, ttl)
  }

  lemma UndisturbedNext(es: seq<Event>, n: nat, maxSize: nat, ttl: int)
    requires maxSize > 0 && n < |es| && !es[n].Clear?
    ensures Undisturbed(es, n + 1, maxSize, ttl) <==> Undisturbed(es, n, maxSize, ttl) && !Removes(es, n, maxSize, ttl)
  {
    hide Removes;
    assert LastClear(es, n + 1) == LastClear(es, n);
  }

  lemma TouchStep(es: seq<Event>, n: nat, maxSize: nat, ttl: int)
    requires maxSize > 0 && n < |es|
    ensures Exec(es[..n + 1], maxSize, ttl).log.touches ==
            if es[n].Clear? then []
            else Exec(es[..n], maxSize, ttl).log.touches + if Touches(es, n, maxSize, ttl) then [es[n].key] else []
  {
    LastCall(es, n + 1, maxSize, ttl);
    hide Exec, Next, Has, GetStep, Drop;
  }

  lemma ClearStep(es: seq<Event>, n: nat, maxSize: nat, ttl: int)
    requires maxSize > 0 && n < |es| && es[n].Clear?
    ensures Exec(es[..n + 1], maxSize, ttl).log.removals == 0 && Undisturbed(es, n + 1, maxSize, ttl)
  {
    LastCall(es, n + 1, maxSize, ttl);
    hide Exec, Removes;
  }

  lemma TouchedNext(es: seq<Event>, n: nat, maxSize: nat, ttl: int)
    requires maxSize > 0 && n < |es|
    ensures TouchedKeys(es, n + 1, maxSize, ttl) ==
            if es[n].Clear? then []
            else TouchedKeys(es, n, maxSize, ttl) + if Touches(es, n, maxSize, ttl) then [es[n].key] else []
  {
    hide Touches;
  }

  lemma NothingCalled(es: seq<Event>, maxSize: nat, ttl: int)
    requires maxSize > 0
    ensures Agrees(es, 0, maxSize, ttl)
  {
    assert es[..0] == [];
  }

  /** Touches and removals of the ledger are those of the first `n` calls. */
  ghost predicate Agrees(es: seq<Event>, n: nat, maxSize: nat, ttl: int)
    requires maxSize > 0 && n <= |es|
  {
    var log := Exec(es[..n], maxSize, ttl).log;
    log.touches == TouchedKeys(es, n, maxSize, ttl) && (log.removals == 0 <==> Undisturbed(es, n, maxSize, ttl))
  }

  lemma AgreesNext(es: seq<Event>, n: nat, maxSize: nat, ttl: int)
    requires maxSize > 0 && n < |es| && Agrees(es, n, maxSize, ttl)
    ensures Agrees(es, n + 1, maxSize, ttl)
  {
    hide Exec, Touches, TouchedKeys, Undisturbed, Removes;
    TouchStep(es, n, maxSize, ttl);
    TouchedNext(es, n, maxSize, ttl);
    if es[n].Clear? {
      ClearStep(es, n, maxSize, ttl);
    } else {
      RemovalStep(es, n, maxSize, ttl);
      UndisturbedNext(es, n, maxSize, ttl);
    }
  }

  lemma {:induction false} TouchesAreCalls(es: seq<Event>, n: nat, maxSize: nat, ttl: int)
    requires maxSize > 0 && n <= |es|
    ensures Agrees(es, n, maxSize, ttl)
  {
    hide *;
    NothingCalled(es, maxSize, ttl);
    if n > 0 {
      TouchesAreCalls(es, n - 1, maxSize, ttl);
      AgreesNext(es, n - 1, maxSize, ttl);
    }
  }

  /** The record kept beside a run is what its calls and their answers say: the keys put or hit in order, the latest
      Put of each key and the Gets, all since the last Clear, and whether anything was removed since other than for
      capacity. */
  lemma LedgerIsHistory(es: seq<Event>, maxSize: nat, ttl: int, k: Key)
    requires maxSize > 0
    ensures var log := Exec(es, maxSize, ttl).log;
            && log.touches == TouchedKeys(es, |es|, maxSize, ttl)
            && (log.removals == 0 <==> Undisturbed(es, |es|, maxSize, ttl))
            && LatestPut(es, k) == (if k in log.latest then Some(log.latest[k]) else None)
            && log.gets == GetsSinceClear(es)
  {
    TouchesAreCalls(es, |es|, maxSize, ttl);
    assert es[..|es|] == es;
    PutsAndGets(es, maxSize, ttl, k);
  }

  lemma {:induction false} PutsAndGets(es: seq<Event>, maxSize: nat, ttl: int, k: Key)
    requires maxSize > 0
    ensures var log := Exec(es, maxSize, ttl).log;
            && LatestPut(es, k) == (if k in log.latest then Some(log.latest[k]) else None)
            && log.gets == GetsSinceClear(es)
  {
    if es != [] { PutsAndGets(es[..|es| - 1], maxSize, ttl, k); }
  }

  /** The cache never exceeds its size, holds each key once, and counts every Get since the last Clear. */
  lemma BoundedAndCounted(es: seq<Event>, maxSize: nat, ttl: int)
    requires maxSize > 0
    ensures var c := Exec(es, maxSize, ttl).c;
            && |c.entries| <= maxSize
            && Distinct(c.entries)
            && c.hits + c.misses == GetsSinceClear(es)
  {
    RunsKeep(es, maxSize, ttl);
    LedgerIsHistory(es, maxSize, ttl, 0);
  }

  /** A hit returns the value of the latest Put, which is not older than the TTL. */
  lemma HitIsLatestPut(es: seq<Event>, maxSize: nat, ttl: int, k: Key, now: int)
    requires maxSize > 0
    ensures var got := GetStep(Exec(es, maxSize, ttl).c, k, now, ttl).1;
            got.Some? ==> LatestPut(es, k).Some? && got.value == LatestPut(es, k).value.value
                          && now - LatestPut(es, k).value.createdAt <= ttl
  {
    RunsKeep(es, maxSize, ttl);
    LedgerIsHistory(es, maxSize, ttl, k);
    var s := Exec(es, maxSize, ttl).c.entries;
    if Has(s, k) { assert s[Position(s, k)].key == k; }
  }

  /** A Put pushes a key out only after at least maxSize distinct other keys were put or hit since
      that key itself last was. */
  lemma EvictionNeedsCrowd(es: seq<Event>, maxSize: nat, ttl: int, e: Event, x: Key)
    requires maxSize > 0 && e.Put?
    requires var r := Exec(es, maxSize, ttl);
             Has(r.c.entries, x) && !Has(Step(r, e, maxSize, ttl).c.entries, x)
    ensures var touches := Exec(es + [e], maxSize, ttl).log.touches;
            x in touches && x !in TouchedSince(touches, x) && |TouchedSince(touches, x)| >= maxSize
  {
    RunsKeep(es, maxSize, ttl);
    var r := Exec(es, maxSize, ttl);
    var s, touches, k := r.c.entries, r.log.touches, e.key;
    assert (es + [e])[..|es|] == es;
    assert (touches + [k])[..|touches|] == touches;
    WithoutFacts(s, k);
    var p := Position(s, x);
    assert s[p].key == x;
    SurvivesPut(r, e, maxSize, ttl, p);
    CrowdAhead(s, touches, p, k);
    TouchedSinceOthers(touches + [k], x);
  }

  /** Only a Put of an absent key into a full cache removes anything, and only the last entry. */
  lemma SurvivesPut(r: Run, e: Event, maxSize: nat, ttl: int, p: nat)
    requires maxSize > 0 && e.Put? && Inv(r, maxSize) && p < |r.c.entries|
    ensures Has(r.c.entries, e.key) || p != maxSize - 1 ==>
              Has(Step(r, e, maxSize, ttl).c.entries, r.c.entries[p].key)
  {
    var s, x := r.c.entries, r.c.entries[p];
    var s' := Step(r, e, maxSize, ttl).c.entries;
    WithoutMembers(s, e.key);
    assert Entry(e.key, e.value, e.now) == s'[0];
    StillThere(s', s'[0]);
    if x.key != e.key && (Has(s, e.key) || p != maxSize - 1) {
      if !Has(s, e.key) { assert x == s'[p + 1]; }
      StillThere(s', x);
    }
  }

  lemma {:induction false} TouchedSinceOthers(touches: seq<Key>, k: Key)
    ensures k !in TouchedSince(touches, k)
  {
    if touches != [] && touches[|touches| - 1] != k { TouchedSinceOthers(touches[..|touches| - 1], k); }
  }

  /** The keys ahead of position `p`, together with the incoming one, are `p + 1` distinct keys. */
  lemma CrowdAhead(s: seq<Entry>, touches: seq<Key>, p: nat, k: Key)
    requires p < |s| && Distinct(s) && FrontIsNewer(s, touches) && !Has(s, k)
    ensures |TouchedSince(touches + [k], s[p].key)| >= p + 1
  {
    assert (touches + [k])[..|touches|] == touches;
    var ahead := set i | 0 <= i < p :: s[i].key;
    AheadSize(s, p);
    assert TouchedSince(touches + [k], s[p].key) == {k} + TouchedSince(touches, s[p].key);
    assert k !in ahead;
    assert ahead + {k} <= TouchedSince(touches + [k], s[p].key);
    SubsetSize(ahead + {k}, TouchedSince(touches + [k], s[p].key));
  }

  lemma {:induction false} AheadSize(s: seq<Entry>, p: nat)
    requires p <= |s| && Distinct(s)
    ensures |set i | 0 <= i < p :: s[i].key| == p
  {
    if p > 0 {
      AheadSize(s, p - 1);
      assert (set i | 0 <= i < p :: s[i].key) == (set i | 0 <= i < p - 1 :: s[i].key) + {s[p - 1].key};
    }
  }

  // ---------------------------------------------------------------- exact LRU

  lemma NoDupCons(x: Key, s: seq<Key>)
    requires NoDup(s) && x !in s
    ensures NoDup([x] + s)
  {
  }

  lemma {:induction false} RecencyFacts(touches: seq<Key>)
    ensures NoDup(Recency(touches))
    ensures forall k :: k in Recency(touches) <==> k in touches
  {
    if touches != [] {
      var f, l := touches[..|touches| - 1], touches[|touches| - 1];
      RecencyFacts(f);
      RemoveKeyFacts(Recency(f), l);
      NoDupCons(l, RemoveKey(Recency(f), l));
      assert touches == f + [l];
    }
  }

  lemma {:induction false} RemoveKeyFacts(s: seq<Key>, k: Key)
    requires NoDup(s)
    ensures NoDup(RemoveKey(s, k))
    ensures forall x :: x in RemoveKey(s, k) <==> x in s && x != k
  {
    if s != [] {
      RemoveKeyFacts(s[1..], k);
      assert forall x :: x in s <==> x == s[0] || x in s[1..];
      assert s[0] !in s[1..] && NoDup(s[1..]);
      if s[0] != k { NoDupCons(s[0], RemoveKey(s[1..], k)); }
    }
  }

  /** A key's place in the recency list is the number of distinct keys touched since. */
  lemma {:induction false} RecencyRank(touches: seq<Key>, k: Key) returns (i: nat)
    requires k in touches
    ensures i == |TouchedSince(touches, k)| < |Recency(touches)| && Recency(touches)[i] == k
    ensures TouchedSince(touches, k) == set j | 0 <= j < i :: Recency(touches)[j]
  {
    var f, l := touches[..|touches| - 1], touches[|touches| - 1];
    if l == k {
      i := 0;
    } else {
      assert touches == f + [l];
      var h := RecencyRank(f, k);
      RecencyFacts(f);
      i := RankStep(Recency(f), l, h);
      RecencyFacts(touches);
      PrefixSize(Recency(touches), i);
    }
  }

  /** Moving `l` to the front of `r` shifts the key at `h` to `i`, and the keys before it gain `l`. */
  lemma RankStep(r: seq<Key>, l: Key, h: nat) returns (i: nat)
    requires NoDup(r) && h < |r| && r[h] != l
    ensures var r' := [l] + RemoveKey(r, l);
            && i < |r'| && r'[i] == r[h]
            && (set j | 0 <= j < i :: r'[j]) == {l} + set j | 0 <= j < h :: r[j]
  {
    var p := if l in r then FirstIndex(r, l) else |r|;
    RemoveKeyAt(r, l, p);
    var r' := [l] + RemoveKey(r, l);
    i := if p < h then h else h + 1;
    RankSet(r, r', l, p, h, i);
  }

  function FirstIndex(s: seq<Key>, k: Key): (i: nat)
    requires k in s
    ensures i < |s| && s[i] == k && k !in s[..i]
  {
    if s[0] == k then 0
    else
      var i := FirstIndex(s[1..], k);
      assert s[..i + 1] == [s[0]] + s[1..][..i];
      i + 1
  }

  lemma RankSet(r: seq<Key>, r': seq<Key>, l: Key, p: nat, h: nat, i: nat)
    requires h < |r| && p <= |r| && p != h && i == (if p < h then h else h + 1) && (p < |r| ==> r[p] == l)
    requires |r'| == (if p < |r| then |r| else |r| + 1)
    requires forall j {:trigger r'[j]} :: 0 <= j < |r'| ==>
               r'[j] == if j == 0 then l else if j - 1 < p then r[j - 1] else r[j]
    ensures (set j | 0 <= j < i :: r'[j]) == {l} + set j | 0 <= j < h :: r[j]
  {
    var a, b := set j | 0 <= j < i :: r'[j], {l} + set j | 0 <= j < h :: r[j];
    forall x | x in b ensures x in a {
      if x == l {
        assert r'[0] == l;
      } else {
        var j :| 0 <= j < h && r[j] == x;
        var m := if j < p then j + 1 else j;
        assert r'[m] == x && m < i;
      }
    }
    forall x | x in a ensures x in b {
      var j :| 0 <= j < i && r'[j] == x;
      if j > 0 {
        var m := if j - 1 < p then j - 1 else j;
        assert r[m] == x && m < h;
      }
    }
  }

  lemma {:induction false} PrefixSize(s: seq<Key>, n: nat)
    requires n <= |s| && NoDup(s)
    ensures |set j | 0 <= j < n :: s[j]| == n
  {
    if n > 0 {
      PrefixSize(s, n - 1);
      assert (set j | 0 <= j < n :: s[j]) == (set j | 0 <= j < n - 1 :: s[j]) + {s[n - 1]};
    }
  }

  /** While nothing expired or was invalidated since the last Clear, the cache is exactly LRU: it
      holds a key if and only if the key was put or hit since that Clear and fewer than maxSize
      distinct other keys were put or hit since. */
  lemma ExactlyLru(es: seq<Event>, maxSize: nat, ttl: int, k: Key)
    requires maxSize > 0 && Undisturbed(es, |es|, maxSize, ttl)
    ensures var touched := TouchedKeys(es, |es|, maxSize, ttl);
            Has(Exec(es, maxSize, ttl).c.entries, k) <==> k in touched && |TouchedSince(touched, k)| < maxSize
  {
    RunsKeep(es, maxSize, ttl);
    LedgerIsHistory(es, maxSize, ttl, k);
    var r := Exec(es, maxSize, ttl);
    var s, t := r.c.entries, r.log.touches;
    RecencyFacts(t);
    if k in t {
      var i := RecencyRank(t, k);
      if Has(s, k) {
        var p := Position(s, k);
        assert k == Recency(t)[p];
      }
      if i < maxSize {
        assert s[i].key == k;
      }
    }
  }

  // ---------------------------------------------------------------- when a Get hits

  /** Keys other than `k` named in calls of Put and Get since the last Put of `k` or the last Clear. */
  function CalledSince(es: seq<Event>, k: Key): set<Key> {
    if es == [] then {}
    else
      var rest := CalledSince(es[..|es| - 1], k);
      match es[|es| - 1]
      case Put(k', _, _) => if k' == k then {} else rest + {k'}
      case Get(k', _) => if k' == k then rest else rest + {k'}
      case Invalidate(_) => rest
      case Clear => {}
  }

  lemma {:induction false} TouchedAreCalled(es: seq<Event>, maxSize: nat, ttl: int, k: Key)
    requires maxSize > 0
    ensures TouchedSince(Exec(es, maxSize, ttl).log.touches, k) <= CalledSince(es, k)
  {
    if es != [] {
      var init, e := es[..|es| - 1], es[|es| - 1];
      TouchedAreCalled(init, maxSize, ttl, k);
      var touches := Exec(init, maxSize, ttl).log.touches;
      if e.Put? || e.Get? {
        assert (touches + [e.key])[..|touches|] == touches;
      }
    }
  }

  lemma TouchedGrows(touches: seq<Key>, j: Key, k: Key)
    requires j != k
    ensures |TouchedSince(touches, k)| <= |TouchedSince(touches + [j], k)|
  {
    assert (touches + [j])[..|touches|] == touches;
    SubsetSize(TouchedSince(touches, k), TouchedSince(touches + [j], k));
  }

  /** Cached, or pushed out by enough other keys. */
  ghost predicate CachedOrCrowded(r: Run, k: Key, maxSize: nat) {
    Has(r.c.entries, k) || |TouchedSince(r.log.touches, k)| >= maxSize
  }

  lemma PutCachesOrCrowds(r: Run, e: Event, k: Key, maxSize: nat, ttl: int)
    requires maxSize > 0 && e.Put? && Inv(r, maxSize) && (e.key == k || CachedOrCrowded(r, k, maxSize))
    ensures CachedOrCrowded(Step(r, e, maxSize, ttl), k, maxSize)
  {
    var s, s' := r.c.entries, Step(r, e, maxSize, ttl).c.entries;
    if e.key == k {
      assert s'[0].key == k;
    } else if Has(s, k) {
      var p := Position(s, k);
      SurvivesPut(r, e, maxSize, ttl, p);
      if !Has(s, e.key) && p == maxSize - 1 {
        CrowdAhead(s, r.log.touches, p, e.key);
      }
    } else {
      TouchedGrows(r.log.touches, e.key, k);
    }
  }

  lemma GetCachesOrCrowds(r: Run, e: Event, k: Key, maxSize: nat, ttl: int)
    requires maxSize > 0 && e.Get? && Inv(r, maxSize) && CachedOrCrowded(r, k, maxSize)
    requires e.key == k && k in r.log.latest ==> e.now - r.log.latest[k].createdAt <= ttl
    ensures CachedOrCrowded(Step(r, e, maxSize, ttl), k, maxSize)
  {
    var s := r.c.entries;
    if Has(s, e.key) {
      WithoutHas(s, e.key);
      var x := Lookup(s, e.key);
      assert x.key in r.log.latest && x == r.log.latest[x.key];
      ToFrontFacts(s, x);
      if e.key != k { TouchedGrows(r.log.touches, e.key, k); }
    }
  }

  lemma DropCachesOrCrowds(r: Run, keys: seq<Key>, k: Key, maxSize: nat, ttl: int)
    requires maxSize > 0 && Inv(r, maxSize) && CachedOrCrowded(r, k, maxSize) && k !in keys
    ensures CachedOrCrowded(Step(r, Invalidate(keys), maxSize, ttl), k, maxSize)
  {
    var s := r.c.entries;
    DropMembers(s, keys);
    if Has(s, k) {
      var i :| 0 <= i < |s| && s[i].key == k;
      assert s[i] in s;
      StillThere(Drop(s, keys), s[i]);
    }
  }

  /** An entry that no Get can have found expired is cached unless enough other keys were put or hit since it was. */
  lemma {:induction false} StaysCached(es: seq<Event>, maxSize: nat, ttl: int, k: Key, now: int)
    requires maxSize > 0 && LatestPut(es, k).Some? && now - LatestPut(es, k).value.createdAt <= ttl
    requires forall i :: 0 <= i < |es| && es[i].Get? ==> es[i].now <= now
    ensures CachedOrCrowded(Exec(es, maxSize, ttl), k, maxSize)
  {
    var init, e := es[..|es| - 1], es[|es| - 1];
    var r := Exec(init, maxSize, ttl);
    RunsKeep(init, maxSize, ttl);
    LedgerIsHistory(init, maxSize, ttl, k);
    if !(e.Put? && e.key == k) { StaysCached(init, maxSize, ttl, k, now); }
    assert k in r.log.latest ==> LatestPut(init, k) == Some(r.log.latest[k]);
    hide Inv, CachedOrCrowded, Exec, Next, Observe;
    assert Exec(es, maxSize, ttl) == Step(r, e, maxSize, ttl) by {
      assert es[..|es|] == es;
      LastCall(es, |es|, maxSize, ttl);
    }
    match e
    case Put(_, _, _) => PutCachesOrCrowds(r, e, k, maxSize, ttl);
    case Get(_, _) => GetCachesOrCrowds(r, e, k, maxSize, ttl);
    case Invalidate(keys) => DropCachesOrCrowds(r, keys, k, maxSize, ttl);
  }

  /** A Get returns the latest Put of its key, if that is not older than the TTL, no earlier Get looked at a later
      clock, and fewer than maxSize other keys were named in calls since. */
  lemma GetHits(es: seq<Event>, maxSize: nat, ttl: int, k: Key, now: int)
    requires maxSize > 0 && LatestPut(es, k).Some? && now - LatestPut(es, k).value.createdAt <= ttl
    requires forall i :: 0 <= i < |es| && es[i].Get? ==> es[i].now <= now
    requires |CalledSince(es, k)| < maxSize
    ensures GetStep(Exec(es, maxSize, ttl).c, k, now, ttl).1 == Some(LatestPut(es, k).value.value)
  {
    TouchedAreCalled(es, maxSize, ttl, k);
    SubsetSize(TouchedSince(Exec(es, maxSize, ttl).log.touches, k), CalledSince(es, k));
    GetHitsCrowd(es, maxSize, ttl, k, now);
  }

  /** So it does when fewer than maxSize other keys were put or hit since the key was. */
  lemma GetHitsCrowd(es: seq<Event>, maxSize: nat, ttl: int, k: Key, now: int)
    requires maxSize > 0 && LatestPut(es, k).Some? && now - LatestPut(es, k).value.createdAt <= ttl
    requires forall i :: 0 <= i < |es| && es[i].Get? ==> es[i].now <= now
    requires |TouchedSince(Exec(es, maxSize, ttl).log.touches, k)| < maxSize
    ensures GetStep(Exec(es, maxSize, ttl).c, k, now, ttl).1 == Some(LatestPut(es, k).value.value)
  {
    StaysCached(es, maxSize, ttl, k, now);
    GetMissesExactly(es, maxSize, ttl, k, now);
    HitIsLatestPut(es, maxSize, ttl, k, now);
  }

  /** A Get of a cached key misses exactly when its latest Put is older than the TTL. */
  lemma GetMissesExactly(es: seq<Event>, maxSize: nat, ttl: int, k: Key, now: int)
    requires maxSize > 0 && Has(Exec(es, maxSize, ttl).c.entries, k)
    ensures LatestPut(es, k).Some?
    ensures GetStep(Exec(es, maxSize, ttl).c, k, now, ttl).1 == None <==> now - LatestPut(es, k).value.createdAt > ttl
  {
    RunsKeep(es, maxSize, ttl);
    LedgerIsHistory(es, maxSize, ttl, k);
    var s := Exec(es, maxSize, ttl).c.entries;
    assert s[Position(s, k)].key == k;
  }

  // ---------------------------------------------------------------- the counters

  /** The `i`-th call is a Put that pushed some other key out. */
  ghost predicate Evicts(es: seq<Event>, i: nat, maxSize: nat, ttl: int)
    requires maxSize > 0 && i < |es|
  {
    var before, after := Exec(es[..i], maxSize, ttl).c.entries, Exec(es[..i + 1], maxSize, ttl).c.entries;
    es[i].Put? && exists x :: Has(before, x) && !Has(after, x)
  }

  /** Gets answered since the last Clear among the first `n` calls. */
  ghost function Answered(es: seq<Event>, n: nat, maxSize: nat, ttl: int): nat
    requires maxSize > 0 && n <= |es|
  {
    if n == 0 || es[n - 1].Clear? then 0
    else
      Answered(es, n - 1, maxSize, ttl) +
      if es[n - 1].Get? && Answer(es, n - 1, maxSize, ttl).Some? then 1 else 0
  }

  /** Puts since the last Clear among the first `n` calls that pushed a key out. */
  ghost function Evicted(es: seq<Event>, n: nat, maxSize: nat, ttl: int): nat
    requires maxSize > 0 && n <= |es|
  {
    if n == 0 || es[n - 1].Clear? then 0
    else Evicted(es, n - 1, maxSize, ttl) + if Evicts(es, n - 1, maxSize, ttl) then 1 else 0
  }

  lemma PutEvicts(r: Run, e: Event, maxSize: nat, ttl: int)
    requires maxSize > 0 && e.Put? && Inv(r, maxSize)
    ensures var c, c' := r.c, Step(r, e, maxSize, ttl).c;
            && c'.hits == c.hits
            && c'.evictions == c.evictions + if exists x :: Has(c.entries, x) && !Has(c'.entries, x) then 1 else 0
  {
    var s, s' := r.c.entries, Step(r, e, maxSize, ttl).c.entries;
    if !Has(s, e.key) && |s| == maxSize {
      var x := s[maxSize - 1].key;
      assert Has(s, x) && !Has(s', x) by {
        assert s' == [Entry(e.key, e.value, e.now)] + s[..maxSize - 1];
      }
    } else {
      forall x | Has(s, x) ensures Has(s', x) {
        var p := Position(s, x);
        SurvivesPut(r, e, maxSize, ttl, p);
      }
    }
  }

  lemma CountStep(es: seq<Event>, n: nat, maxSize: nat, ttl: int)
    requires maxSize > 0 && n < |es|
    ensures var c, c' := Exec(es[..n], maxSize, ttl).c, Exec(es[..n + 1], maxSize, ttl).c;
            if es[n].Clear? then c'.hits == c'.evictions == 0
            else
              && c'.hits == c.hits + (if es[n].Get? && Answer(es, n, maxSize, ttl).Some? then 1 else 0)
              && c'.evictions == c.evictions + if Evicts(es, n, maxSize, ttl) then 1 else 0
  {
    LastCall(es, n + 1, maxSize, ttl);
    RunsKeep(es[..n], maxSize, ttl);
    hide Exec, Has;
    if es[n].Put? { PutEvicts(Exec(es[..n], maxSize, ttl), es[n], maxSize, ttl); }
  }

  /** The counters since the last Clear: hits are the Gets that returned a value, evictions the Puts that pushed a key
      out. */
  lemma {:induction false} CountersAreHistory(es: seq<Event>, n: nat, maxSize: nat, ttl: int)
    requires maxSize > 0 && n <= |es|
    ensures Exec(es[..n], maxSize, ttl).c.hits == Answered(es, n, maxSize, ttl)
    ensures Exec(es[..n], maxSize, ttl).c.evictions == Evicted(es, n, maxSize, ttl)
  {
    if n == 0 {
      assert es[..0] == [];
    } else {
      hide Exec, Evicts;
      CountersAreHistory(es, n - 1, maxSize, ttl);
      CountStep(es, n - 1, maxSize, ttl);
    }
  }
}
