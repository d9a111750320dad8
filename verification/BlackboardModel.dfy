// The versioned blackboard of internal/blackboard with its append-only log: what a restart that
// replays the log recovers, and what compare-and-swap writers can rely on.
module BlackboardModel {
  // ---------------------------------------------------------------- keys

  const NUL: char := '\0'

  /** The map key of a namespace and a key. */
  function CompositeKey(ns: string, key: string): string { ns + [NUL] + key }

  /** Composite keys tell entries apart when namespaces hold no NUL. */
  lemma CompositeKeyInjective(ns1: string, key1: string, ns2: string, key2: string)
    requires NUL !in ns1 && NUL !in ns2
    ensures CompositeKey(ns1, key1) == CompositeKey(ns2, key2) <==> ns1 == ns2 && key1 == key2
  {
    var a, b := CompositeKey(ns1, key1), CompositeKey(ns2, key2);
    assert a[|ns1|] == NUL && b[|ns2|] == NUL;
    assert forall i :: 0 <= i < |ns1| ==> a[i] == ns1[i] && a[i] != NUL;
    assert forall i :: 0 <= i < |ns2| ==> b[i] == ns2[i] && b[i] != NUL;
    if a == b {
      assert |ns1| == |ns2|;
      assert ns1 == a[..|ns1|] && ns2 == b[..|ns2|];
      assert key1 == a[|ns1| + 1..] && key2 == b[|ns2| + 1..];
    }
  }

  /** A pair shares its composite key with another pair exactly when one of its parts holds NUL. */
  lemma CollidesExactly(ns: string, key: string)
    ensures (exists ns2, key2 :: (ns2 != ns || key2 != key) && CompositeKey(ns2, key2) == CompositeKey(ns, key))
            <==> NUL in ns || NUL in key
  {
    var c := CompositeKey(ns, key);
    if NUL in ns {
      var i :| 0 <= i < |ns| && ns[i] == NUL;
      assert CompositeKey(ns[..i], ns[i + 1..] + [NUL] + key) == c;
      assert ns[..i] != ns;
    } else if NUL in key {
      var i :| 0 <= i < |key| && key[i] == NUL;
      assert CompositeKey(ns + [NUL] + key[..i], key[i + 1..]) == c;
      assert ns + [NUL] + key[..i] != ns;
    } else {
      forall ns2, key2 | CompositeKey(ns2, key2) == c ensures ns2 == ns && key2 == key {
        var d := CompositeKey(ns2, key2);
        assert d[|ns2|] == NUL;
        assert forall j :: 0 <= j < |c| && j != |ns| ==> c[j] == (if j < |ns| then ns[j] else key[j - |ns| - 1]);
        assert |ns2| == |ns|;
        assert ns2 == d[..|ns|] && ns == c[..|ns|];
        assert key2 == d[|ns| + 1..] && key == c[|ns| + 1..];
      }
    }
  }

  // ---------------------------------------------------------------- the store

  type Slot = string

  datatype Entry = Entry(ns: string, key: string, value: nat, writer: nat,
                         version: int, ttl: int, createdAt: int, updatedAt: int)
  {
    function Slot(): Slot { CompositeKey(ns, key) }
  }

  /** `log` is the file, one entry a line; a store without a state directory keeps it empty. */
  datatype Store = Store(entries: map<Slot, Entry>, log: seq<Entry>, persistent: bool, defaultTtl: int)

  predicate CasFails(s: Store, e: Entry) {
    e.version > 0 && (e.Slot() !in s.entries || s.entries[e.Slot()].version != e.version)
  }

  /** The entry a Put stores. */
  function Stored(s: Store, e: Entry, now: int): Entry {
    var ttl := if e.ttl == 0 && s.defaultTtl > 0 then s.defaultTtl else e.ttl;
    if e.Slot() in s.entries then
      var x := s.entries[e.Slot()];
      e.(version := x.version + 1, ttl := ttl, createdAt := x.createdAt, updatedAt := now)
    else e.(version := 1, ttl := ttl, createdAt := now, updatedAt := now)
  }

  function Append(s: Store, e: Entry): seq<Entry> { if s.persistent then s.log + [e] else s.log }

  function PutStep(s: Store, e: Entry, now: int): Store {
    if CasFails(s, e) then s
    else
      var x := Stored(s, e, now);
      s.(entries := s.entries[x.Slot() := x], log := Append(s, x))
  }

  predicate Expired(e: Entry, now: int) { e.ttl > 0 && now - e.updatedAt > e.ttl }

  function GcStep(s: Store, now: int): Store {
    s.(entries := map k | k in s.entries && !Expired(s.entries[k], now) :: s.entries[k])
  }

  function SetTtlStep(s: Store, k: Slot, d: int, now: int): Store {
    if k in s.entries then s.(entries := s.entries[k := s.entries[k].(ttl := d, updatedAt := now)]) else s
  }

  /** `lines` lists every entry once, in the map's iteration order. */
  ghost predicate Lists(lines: seq<Entry>, entries: map<Slot, Entry>) {
    && (forall i, j :: 0 <= i < j < |lines| ==> lines[i].Slot() != lines[j].Slot())
    && (forall i :: 0 <= i < |lines| ==> lines[i].Slot() in entries && entries[lines[i].Slot()] == lines[i])
    && (forall k :: k in entries ==> exists i :: 0 <= i < |lines| && lines[i].Slot() == k)
  }

  lemma NothingListed()
    ensures Lists([], map[])
  {
  }

  lemma ListOneMore(lines: seq<Entry>, entries: map<Slot, Entry>, e: Entry)
    requires Lists(lines, entries) && e.Slot() !in entries
    ensures Lists(lines + [e], entries[e.Slot() := e])
  {
    hide CompositeKey;
    var l, m, k := lines + [e], entries[e.Slot() := e], e.Slot();
    assert l[|lines|] == e;
    forall x | x in m ensures exists i :: 0 <= i < |l| && l[i].Slot() == x {
      if x != k {
        var i :| 0 <= i < |lines| && lines[i].Slot() == x;
        assert l[i].Slot() == x;
      }
    }
  }

  function SnapshotStep(s: Store, lines: seq<Entry>): Store {
    if s.persistent then s.(log := lines) else s
  }

  /** Reading the file back: later lines overwrite earlier ones. */
  function Replay(log: seq<Entry>): map<Slot, Entry> {
    if log == [] then map[] else
      var last := log[|log| - 1];
      Replay(log[..|log| - 1])[last.Slot() := last]
  }

  function RestartStep(s: Store): Store { s.(entries := Replay(s.log)) }

  // ---------------------------------------------------------------- runs

  datatype Event =
    | Put(e: Entry, now: int)
    | Gc(now: int)
    | SetTtl(slot: Slot, d: int, now: int)
    | Snapshot(lines: seq<Entry>)
    | Restart

  ghost predicate Legal(s: Store, e: Event) {
    e.Snapshot? ==> Lists(e.lines, s.entries)
  }

  function Next(s: Store, e: Event): Store {
    match e
    case Put(x, now) => PutStep(s, x, now)
    case Gc(now) => GcStep(s, now)
    case SetTtl(k, d, now) => SetTtlStep(s, k, d, now)
    case Snapshot(lines) => SnapshotStep(s, lines)
    case Restart => RestartStep(s)
  }

  ghost predicate IsRun(es: seq<Event>, ss: seq<Store>) {
    && |ss| == |es| + 1 && ss[0].entries == map[] && ss[0].log == []
    && forall k {:trigger es[k]} :: 0 <= k < |es| ==> Legal(ss[k], es[k]) && ss[k + 1] == Next(ss[k], es[k])
  }

  /** Keys collected since the log was last written whole or read back, and not put again since, each with the
      entry it had. */
  function Collected(es: seq<Event>, ss: seq<Store>, k: nat): map<Slot, Entry>
    requires k <= |es| && |ss| == |es| + 1
  {
    if k == 0 then map[]
    else
      match es[k - 1]
      case Put(_, _) => Collected(es, ss, k - 1) - ss[k].entries.Keys
      case Gc(_) => Collected(es, ss, k - 1) + (ss[k - 1].entries - ss[k].entries.Keys)
      case SetTtl(_, _, _) => Collected(es, ss, k - 1)
      case Snapshot(_) => map[]
      case Restart => map[]
  }

  /** The entries the log holds: for each key what its last accepted Put stored or, if later, what the last Snapshot
      wrote. */
  function Logged(es: seq<Event>, ss: seq<Store>, k: nat): map<Slot, Entry>
    requires k <= |es| && |ss| == |es| + 1
  {
    if k == 0 then map[]
    else
      match es[k - 1]
      case Put(e, now) =>
        if CasFails(ss[k - 1], e) then Logged(es, ss, k - 1)
        else Logged(es, ss, k - 1)[e.Slot() := Stored(ss[k - 1], e, now)]
      case Snapshot(_) => ss[k - 1].entries
      case _ => Logged(es, ss, k - 1)
  }

  /** What a SetTTL gave an entry. */
  datatype Reset = Reset(ttl: int, at: int)

  /** The last SetTTL of each key since the key was last put, written whole or read back. */
  function Resets(es: seq<Event>, ss: seq<Store>, k: nat): map<Slot, Reset>
    requires k <= |es| && |ss| == |es| + 1
  {
    if k == 0 then map[]
    else
      match es[k - 1]
      case Put(e, _) => Resets(es, ss, k - 1) - if CasFails(ss[k - 1], e) then {} else {e.Slot()}
      case Gc(_) => Resets(es, ss, k - 1)
      case SetTtl(x, d, now) =>
        if x in ss[k - 1].entries then Resets(es, ss, k - 1)[x := Reset(d, now)] else Resets(es, ss, k - 1)
      case Snapshot(_) => map[]
      case Restart => map[]
  }

  /** A logged entry as memory has it. */
  function Retimed(e: Entry, k: Slot, resets: map<Slot, Reset>): Entry {
    if k in resets then e.(ttl := resets[k].ttl, updatedAt := resets[k].at) else e
  }

  /** Equal but for what SetTTL changes without logging. */
  predicate SameButTtl(a: Entry, b: Entry) {
    a == b.(ttl := a.ttl, updatedAt := a.updatedAt)
  }

  ghost predicate Filed(m: map<Slot, Entry>) {
    forall k :: k in m ==> m[k].Slot() == k && m[k].version >= 1
  }

  /** What the log says of a store. */
  ghost predicate Recoverable(s: Store, collected: map<Slot, Entry>, resets: map<Slot, Reset>) {
    && Replay(s.log).Keys == s.entries.Keys + collected.Keys
    && s.entries.Keys !! collected.Keys
    && (forall k :: k in s.entries ==> s.entries[k] == Retimed(Replay(s.log)[k], k, resets))
    && (forall k :: k in collected ==> collected[k] == Retimed(Replay(s.log)[k], k, resets))
  }

  lemma ReplayPush(log: seq<Entry>, e: Entry)
    ensures Replay(log + [e]) == Replay(log)[e.Slot() := e]
  {
    assert (log + [e])[..|log|] == log;
  }

  /** The first `n` lines are read back as they are. */
  ghost predicate ReadsBack(lines: seq<Entry>, n: nat)
    requires n <= |lines|
  {
    && (forall i :: 0 <= i < n ==>
          lines[i].Slot() in Replay(lines[..n]) && Replay(lines[..n])[lines[i].Slot()] == lines[i])
    && (forall k :: k in Replay(lines[..n]) ==> exists i :: 0 <= i < n && lines[i].Slot() == k)
  }

  lemma ReadsBackPush(lines: seq<Entry>, n: nat)
    requires n < |lines| && ReadsBack(lines, n)
    requires forall i :: 0 <= i < n ==> lines[i].Slot() != lines[n].Slot()
    ensures ReadsBack(lines, n + 1)
  {
    assert lines[..n + 1] == lines[..n] + [lines[n]];
    ReplayPush(lines[..n], lines[n]);
  }

  lemma {:induction false} ReplayOfDistinct(lines: seq<Entry>, n: nat)
    requires n <= |lines|
    requires forall i, j :: 0 <= i < j < n ==> lines[i].Slot() != lines[j].Slot()
    ensures ReadsBack(lines, n)
  {
    if n > 0 {
      ReplayOfDistinct(lines, n - 1);
      ReadsBackPush(lines, n - 1);
    }
  }

  lemma ReplayOfListing(lines: seq<Entry>, entries: map<Slot, Entry>)
    requires Lists(lines, entries)
    ensures Replay(lines) == entries
  {
    ReplayOfDistinct(lines, |lines|);
    assert lines[..|lines|] == lines;
    forall k | k in Replay(lines) ensures k in entries && Replay(lines)[k] == entries[k] {
      var i :| 0 <= i < |lines| && lines[i].Slot() == k;
    }
    forall k | k in entries ensures k in Replay(lines) {
      var i :| 0 <= i < |lines| && lines[i].Slot() == k;
    }
  }

  lemma {:induction false} ReplayFiled(log: seq<Entry>)
    requires forall i :: 0 <= i < |log| ==> log[i].version >= 1
    ensures Filed(Replay(log))
  {
    if log != [] { ReplayFiled(log[..|log| - 1]); }
  }

  ghost predicate Inv(s: Store, collected: map<Slot, Entry>, resets: map<Slot, Reset>) {
    && Filed(s.entries)
    && (forall i :: 0 <= i < |s.log| ==> s.log[i].version >= 1)
    && (s.persistent ==> Recoverable(s, collected, resets))
    && (!s.persistent ==> s.log == [])
  }

  /** One more line for an entry that is filed under its key. */
  lemma AppendRecovers(s: Store, x: Entry, collected: map<Slot, Entry>, resets: map<Slot, Reset>)
    requires Recoverable(s, collected, resets)
    ensures var t := s.(entries := s.entries[x.Slot() := x], log := s.log + [x]);
            Recoverable(t, collected - t.entries.Keys, resets - {x.Slot()})
  {
    var k := x.Slot();
    ReplayPush(s.log, x);
    hide Replay, CompositeKey;
    var entries := s.entries[k := x];
    assert entries.Keys == s.entries.Keys + {k};
    assert (collected - entries.Keys).Keys == collected.Keys - entries.Keys;
  }

  lemma PutKeeps(s: Store, e: Entry, now: int, collected: map<Slot, Entry>, resets: map<Slot, Reset>)
    requires Inv(s, collected, resets)
    ensures var t := PutStep(s, e, now);
            Inv(t, collected - t.entries.Keys, resets - if CasFails(s, e) then {} else {e.Slot()})
  {
    hide Recoverable, Replay, CompositeKey;
    if CasFails(s, e) {
      NothingToForget(s, collected, resets);
      assert resets - {} == resets;
    } else {
      var x := Stored(s, e, now);
      assert x.Slot() == e.Slot();
      if s.persistent {
        AppendRecovers(s, x, collected, resets);
      }
    }
  }

  lemma NothingToForget(s: Store, collected: map<Slot, Entry>, resets: map<Slot, Reset>)
    ensures Recoverable(s, collected, resets) ==> collected - s.entries.Keys == collected
  {
  }

  lemma GcKeeps(s: Store, now: int, collected: map<Slot, Entry>, resets: map<Slot, Reset>)
    requires Inv(s, collected, resets)
    ensures Inv(GcStep(s, now), collected + (s.entries - GcStep(s, now).entries.Keys), resets)
  {
    hide Replay, Expired, CompositeKey, Retimed;
    var t := GcStep(s, now);
    var lost := s.entries - t.entries.Keys;
    assert s.entries.Keys == t.entries.Keys + lost.Keys;
    assert (collected + lost).Keys == collected.Keys + lost.Keys;
  }

  lemma SetTtlKeeps(s: Store, k: Slot, d: int, now: int, collected: map<Slot, Entry>, resets: map<Slot, Reset>)
    requires Inv(s, collected, resets)
    ensures Inv(SetTtlStep(s, k, d, now), collected, if k in s.entries then resets[k := Reset(d, now)] else resets)
  {
    hide Replay, CompositeKey;
    assert SetTtlStep(s, k, d, now).entries.Keys == s.entries.Keys;
  }

  lemma SnapshotKeeps(s: Store, lines: seq<Entry>, collected: map<Slot, Entry>, resets: map<Slot, Reset>)
    requires Inv(s, collected, resets) && Lists(lines, s.entries)
    ensures Inv(SnapshotStep(s, lines), map[], map[])
  {
    ReplayOfListing(lines, s.entries);
    hide Replay, CompositeKey;
  }

  lemma RestartKeeps(s: Store, collected: map<Slot, Entry>, resets: map<Slot, Reset>)
    requires Inv(s, collected, resets)
    ensures Inv(RestartStep(s), map[], map[])
  {
    ReplayFiled(s.log);
    hide Replay, CompositeKey;
  }

  lemma StepKeeps(es: seq<Event>, ss: seq<Store>, k: nat)
    requires k < |es| && |ss| == |es| + 1 && Legal(ss[k], es[k]) && ss[k + 1] == Next(ss[k], es[k])
    requires Inv(ss[k], Collected(es, ss, k), Resets(es, ss, k))
    ensures Inv(ss[k + 1], Collected(es, ss, k + 1), Resets(es, ss, k + 1))
    ensures ss[k + 1].persistent == ss[k].persistent
  {
    var s, collected, resets := ss[k], Collected(es, ss, k), Resets(es, ss, k);
    hide Inv;
    match es[k]
    case Put(e, now) => PutKeeps(s, e, now, collected, resets);
    case Gc(now) => GcKeeps(s, now, collected, resets);
    case SetTtl(slot, d, now) => SetTtlKeeps(s, slot, d, now, collected, resets);
    case Snapshot(lines) => SnapshotKeeps(s, lines, collected, resets);
    case Restart => RestartKeeps(s, collected, resets);
  }

  lemma StartKeeps(s: Store)
    requires s.entries == map[] && s.log == []
    ensures Inv(s, map[], map[])
  {
  }

  lemma {:induction false} RunsKeep(es: seq<Event>, ss: seq<Store>, k: nat)
    requires IsRun(es, ss) && k <= |es|
    ensures Inv(ss[k], Collected(es, ss, k), Resets(es, ss, k)) && ss[k].persistent == ss[0].persistent
  {
    hide Inv, Next, Legal;
    if k == 0 {
      StartKeeps(ss[0]);
    } else {
      RunsKeep(es, ss, k - 1);
      StepKeeps(es, ss, k - 1);
    }
  }

  /** At every moment of every run, replaying the log yields the live entries and exactly the keys that GC collected
      since the last Snapshot or restart, each but for the SetTTLs of the key since it was last logged. */
  lemma LogRecovers(es: seq<Event>, ss: seq<Store>, k: nat)
    requires IsRun(es, ss) && k <= |es|
    ensures ss[0].persistent ==> Recoverable(ss[k], Collected(es, ss, k), Resets(es, ss, k))
    ensures !ss[0].persistent ==> ss[k].log == []
  {
    hide Recoverable;
    RunsKeep(es, ss, k);
  }

  /** A restart right after a Snapshot restores memory exactly. */
  lemma SnapshotThenRestart(s: Store, lines: seq<Entry>)
    requires s.persistent && Lists(lines, s.entries)
    ensures RestartStep(SnapshotStep(s, lines)).entries == s.entries
  {
    ReplayOfListing(lines, s.entries);
  }

  lemma {:induction false} ReplayIsLogged(es: seq<Event>, ss: seq<Store>, k: nat)
    requires IsRun(es, ss) && k <= |es| && ss[0].persistent
    ensures Replay(ss[k].log) == Logged(es, ss, k)
  {
    if k > 0 {
      ReplayIsLogged(es, ss, k - 1);
      RunsKeep(es, ss, k - 1);
      assert Legal(ss[k - 1], es[k - 1]) && ss[k] == Next(ss[k - 1], es[k - 1]);
      hide Replay, CompositeKey, Inv, Lists;
      match es[k - 1]
      case Put(e, now) => ReplayPush(ss[k - 1].log, Stored(ss[k - 1], e, now));
      case Snapshot(lines) => ReplayOfListing(lines, ss[k - 1].entries);
      case _ =>
    }
  }

  /** A restart brings back what the last Put of a key or a later Snapshot logged, with the TTL and refresh time of
      then: every live entry and every collected one, each but for its SetTTLs since. */
  lemma RestartResurrects(es: seq<Event>, ss: seq<Store>, k: nat)
    requires IsRun(es, ss) && k <= |es| && ss[0].persistent
    ensures var r, collected, resets := RestartStep(ss[k]).entries, Collected(es, ss, k), Resets(es, ss, k);
            && r == Logged(es, ss, k)
            && r.Keys == ss[k].entries.Keys + collected.Keys
            && (forall x :: x in ss[k].entries ==> ss[k].entries[x] == Retimed(r[x], x, resets))
            && (forall x :: x in collected ==> x !in ss[k].entries && collected[x] == Retimed(r[x], x, resets))
  {
    LogRecovers(es, ss, k);
    ReplayIsLogged(es, ss, k);
  }

  /** A restart changes nothing exactly when nothing is collected and the last SetTTL of every live key, if there was
      one since the key was logged, gave it the TTL and refresh time that it was logged with. */
  lemma RestartExactly(es: seq<Event>, ss: seq<Store>, k: nat)
    requires IsRun(es, ss) && k <= |es| && ss[0].persistent
    ensures var logged, resets := Logged(es, ss, k), Resets(es, ss, k);
            RestartStep(ss[k]) == ss[k] <==>
            && Collected(es, ss, k) == map[]
            && forall x :: x in ss[k].entries && x in resets ==>
                 x in logged && resets[x] == Reset(logged[x].ttl, logged[x].updatedAt)
  {
    RestartResurrects(es, ss, k);
    hide Replay, Collected, Logged, Resets, CompositeKey, IsRun;
    var collected, live := Collected(es, ss, k), ss[k].entries;
    assert collected.Keys * live.Keys == {};
    assert RestartStep(ss[k]).entries.Keys == live.Keys ==> collected.Keys == {};
  }

  /** It does happen that a live entry is lost: a restart undoes the longer TTL it was given, and GC collects it. */
  lemma ShortTtlReturns(e: Entry, now: int, d: int) returns (es: seq<Event>, ss: seq<Store>)
    requires 0 < e.ttl < d && e.version <= 0
    ensures IsRun(es, ss) && |es| == 4 && es[2].Restart? && es[3] == Gc(now + e.ttl + 1)
    ensures e.Slot() in ss[2].entries && !Expired(ss[2].entries[e.Slot()], now + e.ttl + 1)
    ensures ss[4].entries == map[]
  {
    var s0 := Store(map[], [], true, 0);
    var x := Stored(s0, e, now);
    var k := x.Slot();
    assert k == e.Slot();
    var s1 := Store(map[k := x], [x], true, 0);
    var s2 := Store(map[k := x.(ttl := d, updatedAt := now)], [x], true, 0);
    var s4 := Store(map[], [x], true, 0);
    es, ss := [Put(e, now), SetTtl(k, d, now), Restart, Gc(now + e.ttl + 1)], [s0, s1, s2, s1, s4];
    assert [x][..0] == [] && Replay([x]) == map[][k := x];
    assert Expired(x, now + e.ttl + 1);
    assert GcStep(s1, now + e.ttl + 1).entries == map[];
  }

  /** It does happen: an entry that expired and was collected is back after a restart, still expired. */
  lemma ExpiredReturns(e: Entry, now: int) returns (es: seq<Event>, ss: seq<Store>)
    requires e.ttl > 0 && e.version <= 0
    ensures IsRun(es, ss) && |es| == 3 && es[2].Restart? && e.Slot() in Collected(es, ss, 2)
    ensures ss[2].entries == map[]
    ensures ss[3].entries.Keys == {e.Slot()} && Expired(ss[3].entries[e.Slot()], now + e.ttl + 1)
  {
    var s0 := Store(map[], [], true, 0);
    var x := Stored(s0, e, now);
    assert x.Slot() == e.Slot();
    var s1 := Store(map[x.Slot() := x], [x], true, 0);
    var s2 := Store(map[], [x], true, 0);
    es, ss := [Put(e, now), Gc(now + e.ttl + 1), Restart], [s0, s1, s2, s1];
    assert Expired(x, now + e.ttl + 1);
    assert GcStep(s1, now + e.ttl + 1).entries == map[];
    assert [x][..0] == [] && Replay([x]) == map[][x.Slot() := x];
    assert Collected(es, ss, 1) == map[];
    assert Collected(es, ss, 2) == s1.entries - s2.entries.Keys;
  }

  // ---------------------------------------------------------------- versions

  predicate Wins(s: Store, e: Event, k: Slot) {
    e.Put? && e.e.Slot() == k && !CasFails(s, e.e)
  }

  /** Step `m` deletes the key. */
  predicate Loses(ss: seq<Store>, m: nat, k: Slot)
    requires m + 1 < |ss|
  {
    k in ss[m].entries && k !in ss[m + 1].entries
  }

  /** Accepted puts of a key between two moments. */
  function WinsBetween(es: seq<Event>, ss: seq<Store>, k: Slot, i: nat, j: nat): nat
    requires i <= j <= |es| && |ss| == |es| + 1
  {
    if i == j then 0 else WinsBetween(es, ss, k, i, j - 1) + if Wins(ss[j - 1], es[j - 1], k) then 1 else 0
  }

  lemma VersionStep(s: Store, e: Event, k: Slot, collected: map<Slot, Entry>, resets: map<Slot, Reset>)
    requires Inv(s, collected, resets) && Legal(s, e) && k in s.entries && k in Next(s, e).entries
    ensures Next(s, e).entries[k].version == s.entries[k].version + if Wins(s, e, k) then 1 else 0
  {
  }

  /** While a key is not deleted its version rises by exactly one with each accepted Put, also
      across restarts. */
  lemma {:induction false} VersionCountsPuts(es: seq<Event>, ss: seq<Store>, k: Slot, i: nat, j: nat)
    requires IsRun(es, ss) && i <= j <= |es| && k in ss[i].entries
    requires forall m :: i <= m < j ==> !Loses(ss, m, k)
    ensures k in ss[j].entries
    ensures ss[j].entries[k].version == ss[i].entries[k].version + WinsBetween(es, ss, k, i, j)
  {
    if i < j {
      VersionCountsPuts(es, ss, k, i, j - 1);
      RunsKeep(es, ss, j - 1);
      assert !Loses(ss, j - 1, k);
      VersionStep(ss[j - 1], es[j - 1], k, Collected(es, ss, j - 1), Resets(es, ss, j - 1));
    }
  }

  /** At most one compare-and-swap Put per expected version wins until the key is deleted. */
  lemma CasWinsOnce(es: seq<Event>, ss: seq<Store>, k: Slot, i: nat, j: nat)
    requires IsRun(es, ss) && i < j < |es|
    requires Wins(ss[i], es[i], k) && Wins(ss[j], es[j], k)
    requires es[i].e.version == es[j].e.version > 0
    ensures exists m :: i < m < j && Loses(ss, m, k)
  {
    if forall m :: i + 1 <= m < j ==> !Loses(ss, m, k) {
      VersionCountsPuts(es, ss, k, i + 1, j);
    }
  }

  // ---------------------------------------------------------------- reading

  lemma EntryStep(s: Store, e: Event, k: Slot, collected: map<Slot, Entry>, resets: map<Slot, Reset>)
    requires Inv(s, collected, resets) && Legal(s, e) && k in s.entries && k in Next(s, e).entries && !Wins(s, e, k)
    ensures SameButTtl(Next(s, e).entries[k], s.entries[k])
  {
    hide CompositeKey, Filed, Lists, SameButTtl;
    SameReflexive(s.entries[k]);
    match e
    case SetTtl(slot, d, now) => TtlIsSame(s.entries[k], d, now);
    case Restart => RetimedIsSame(Replay(s.log)[k], k, resets);
    case _ =>
  }

  lemma RetimedIsSame(e: Entry, k: Slot, resets: map<Slot, Reset>)
    ensures SameButTtl(e, Retimed(e, k, resets))
  {
  }

  lemma SameReflexive(a: Entry)
    ensures SameButTtl(a, a)
  {
  }

  lemma TtlIsSame(a: Entry, d: int, now: int)
    ensures SameButTtl(a.(ttl := d, updatedAt := now), a)
  {
  }

  /** The entry holds what the writer of `p` put, as version `version`, first created at `created`. */
  predicate IsPut(x: Entry, p: Entry, version: int, created: int) {
    && x.ns == p.ns && x.key == p.key && x.value == p.value && x.writer == p.writer
    && x.version == version && x.createdAt == created
  }

  /** A Put that expects no version, or the stored one, stores what it was given under its key, and logs it: with the
      next version and the time of creation of the entry it replaces, or version 1 created now; refreshed now; with its
      own TTL, or the default one if it has none and there is one. Any other Put changes nothing, and no Put changes
      another key. */
  lemma PutStores(s: Store, e: Entry, now: int)
    ensures var k := CompositeKey(e.ns, e.key);
            var t := PutStep(s, e, now);
            if e.version > 0 && (k !in s.entries || s.entries[k].version != e.version) then t == s
            else
              && k in t.entries
              && var x := t.entries[k];
                 && (if k in s.entries then IsPut(x, e, s.entries[k].version + 1, s.entries[k].createdAt)
                     else IsPut(x, e, 1, now))
                 && x.updatedAt == now && x.ttl == (if e.ttl == 0 && s.defaultTtl > 0 then s.defaultTtl else e.ttl)
                 && t.log == s.log + if s.persistent then [x] else []
    ensures forall k :: k != CompositeKey(e.ns, e.key) ==>
              (k in s.entries <==> k in PutStep(s, e, now).entries) &&
              (k in s.entries ==> PutStep(s, e, now).entries[k] == s.entries[k])
  {
    hide CompositeKey;
    assert e.Slot() == CompositeKey(e.ns, e.key);
  }

  /** Collection removes exactly the entries with a TTL whose last refresh is longer ago than that, and changes no
      other. */
  lemma GcRemovesExactly(s: Store, k: Slot, now: int)
    ensures k in GcStep(s, now).entries <==>
            k in s.entries && (s.entries[k].ttl <= 0 || now <= s.entries[k].updatedAt + s.entries[k].ttl)
    ensures k in GcStep(s, now).entries ==> GcStep(s, now).entries[k] == s.entries[k]
  {
  }

  /** A TTL counts from the Put or SetTTL that gave it. */
  lemma TtlCounts(s: Store, e: Entry, k: Slot, d: int, now: int, later: int)
    ensures k in s.entries ==>
              (k in GcStep(SetTtlStep(s, k, d, now), later).entries <==> d <= 0 || later <= now + d)
    ensures e.version <= 0 && e.ttl > 0 ==>
              (CompositeKey(e.ns, e.key) in GcStep(PutStep(s, e, now), later).entries <==> later <= now + e.ttl)
  {
    GcRemovesExactly(SetTtlStep(s, k, d, now), k, later);
    PutStores(s, e, now);
    GcRemovesExactly(PutStep(s, e, now), CompositeKey(e.ns, e.key), later);
    hide CompositeKey, GcStep;
  }

  /** Until a key is put again or deleted, a reader gets what the last accepted Put was given, as the version after the
      one it replaced and created when that was, also across restarts. */
  lemma {:induction false} GetReturnsLatestPut(es: seq<Event>, ss: seq<Store>, k: Slot, i: nat, j: nat)
    requires IsRun(es, ss) && i < j <= |es| && Wins(ss[i], es[i], k)
    requires forall m :: i < m < j ==> !Wins(ss[m], es[m], k) && !Loses(ss, m, k)
    ensures k in ss[j].entries
    ensures if k in ss[i].entries
            then IsPut(ss[j].entries[k], es[i].e, ss[i].entries[k].version + 1, ss[i].entries[k].createdAt)
            else IsPut(ss[j].entries[k], es[i].e, 1, es[i].now)
  {
    hide CompositeKey, Replay, Lists, Filed, SameButTtl, CasFails, Collected, Inv, IsPut;
    if j == i + 1 {
      assert ss[j] == Next(ss[i], es[i]);
      PutIsRead(ss[i], es[i], k);
    } else {
      GetReturnsLatestPut(es, ss, k, i, j - 1);
      RunsKeep(es, ss, j - 1);
      assert !Wins(ss[j - 1], es[j - 1], k) && !Loses(ss, j - 1, k);
      assert Legal(ss[j - 1], es[j - 1]) && ss[j] == Next(ss[j - 1], es[j - 1]);
      hide Next, Legal, Wins;
      EntryStep(ss[j - 1], es[j - 1], k, Collected(es, ss, j - 1), Resets(es, ss, j - 1));
      var version, created := if k in ss[i].entries then ss[i].entries[k].version + 1 else 1,
                              if k in ss[i].entries then ss[i].entries[k].createdAt else es[i].now;
      StillPut(ss[j].entries[k], ss[j - 1].entries[k], es[i].e, version, created);
    }
  }

  lemma PutIsRead(s: Store, e: Event, k: Slot)
    requires Wins(s, e, k)
    ensures k in Next(s, e).entries
    ensures if k in s.entries
            then IsPut(Next(s, e).entries[k], e.e, s.entries[k].version + 1, s.entries[k].createdAt)
            else IsPut(Next(s, e).entries[k], e.e, 1, e.now)
  {
    PutStores(s, e.e, e.now);
    hide CompositeKey;
  }

  lemma StillPut(x: Entry, y: Entry, p: Entry, version: int, created: int)
    requires SameButTtl(x, y) && IsPut(y, p, version, created)
    ensures IsPut(x, p, version, created)
  {
  }
}
