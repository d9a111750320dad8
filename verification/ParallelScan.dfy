// The directory scans of internal/discovery: the sequential loop of scanner.go, and the worker pool of
// parallel.go as a system of interleaved steps that always ends with the sequential answer.
module ParallelScan {
  import opened Common
  import opened Sorting

  /** A directory entry; names are compared as the file system orders them, `content` is what a refresh reads. */
  datatype Entry = Entry(name: nat, isDir: bool, hasRalph: bool, hasRC: bool, content: nat)

  datatype Repo = Repo(name: nat, hasRalph: bool, hasRC: bool, content: nat)

  datatype Outcome = Repos(list: seq<Repo>) | Failed

  predicate IsRepo(e: Entry) { e.hasRalph || e.hasRC }

  function RepoOf(e: Entry): Repo { Repo(e.name, e.hasRalph, e.hasRC, e.content) }

  /** The repositories among some directories, in their order. */
  function Yield(ds: seq<Entry>): seq<Repo> {
    if ds == [] then []
    else if IsRepo(ds[|ds| - 1]) then Yield(ds[..|ds| - 1]) + [RepoOf(ds[|ds| - 1])]
    else Yield(ds[..|ds| - 1])
  }

  function Dirs(es: seq<Entry>): seq<Entry> {
    if es == [] then []
    else if es[|es| - 1].isDir then Dirs(es[..|es| - 1]) + [es[|es| - 1]]
    else Dirs(es[..|es| - 1])
  }

  ghost predicate DistinctNames(es: seq<Entry>) { forall i, j :: 0 <= i < j < |es| ==> es[i].name != es[j].name }

  predicate ByName(x: Repo, y: Repo) { x.name < y.name }

  // ---------------------------------------------------------------- the sequential scan

  /** The entries as a scan reads them when `late` is what its last refresh found. */
  function CutLast(es: seq<Entry>, late: nat): seq<Entry> {
    if es == [] then [] else es[..|es| - 1] + [es[|es| - 1].(content := late)]
  }

  /** What one more entry adds. */
  lemma YieldNext(es: seq<Entry>, i: nat)
    requires i < |es|
    ensures Yield(Dirs(es[..i + 1])) ==
            Yield(Dirs(es[..i])) + if es[i].isDir && IsRepo(es[i]) then [RepoOf(es[i])] else []
  {
    assert es[..i + 1][..i] == es[..i];
    assert (Dirs(es[..i]) + [es[i]])[..|Dirs(es[..i])|] == Dirs(es[..i]);
  }

  /** `checks` context checks succeed before the cancellation; the first is made before reading the directory. A
      refresh after the last of them may be cut short and finds `late`. */
  method Scan(listing: Option<seq<Entry>>, checks: nat, late: nat) returns (o: Outcome)
    ensures listing.None? || checks == 0 ==> o.Failed?
    ensures listing.Some? && 0 < checks <= |listing.value| ==> o.Failed?
    ensures listing.Some? && checks > |listing.value| ==>
              var es := if checks == |listing.value| + 1 then CutLast(listing.value, late) else listing.value;
              o.Repos? && IsSortOf(ByName, o.list, Yield(Dirs(es))) && Names(es, o.list)
  {
    if checks == 0 || listing.None? {
      return Failed;
    }
    var es := listing.value;
    ghost var seen := if checks == |es| + 1 then CutLast(es, late) else es;
    var repos: seq<Repo> := [];
    assert seen[..0] == [] && Yield(Dirs([])) == [];
    hide Yield, Dirs, Names, SortedBy;
    for i := 0 to |es|
      invariant i < checks && (checks > |es| ==> repos == Yield(Dirs(seen[..i])))
    {
      YieldNext(seen, i);
      if i + 1 >= checks {
        return Failed;
      }
      if !es[i].isDir {
        continue;
      }
      if !es[i].hasRalph && !es[i].hasRC {
        continue;
      }
      var content := if i + 2 == checks then late else es[i].content;
      repos := repos + [Repo(es[i].name, es[i].hasRalph, es[i].hasRC, content)];
    }
    assert seen[..|es|] == seen;
    var sorted := Sort(repos, ByName);
    SortNames(seen, sorted);
    o := Repos(sorted);
  }

  /** The list names exactly the directories that hold a .ralph directory or a .ralphrc file, with what their entry
      says, in order of their names. */
  ghost predicate Names(es: seq<Entry>, list: seq<Repo>) {
    && (forall r :: r in list <==> exists i :: 0 <= i < |es| && Finds(es[i], r))
    && forall i, j :: 0 <= i < j < |list| ==> list[i].name <= list[j].name
  }

  /** An entry of a repository. */
  predicate Finds(e: Entry, r: Repo) {
    && e.isDir && (e.hasRalph || e.hasRC)
    && r.name == e.name && r.hasRalph == e.hasRalph && r.hasRC == e.hasRC && r.content == e.content
  }

  lemma {:induction false} YieldFinds(es: seq<Entry>, r: Repo)
    ensures r in Yield(Dirs(es)) <==> exists i :: 0 <= i < |es| && Finds(es[i], r)
  {
    if es != [] {
      var n := |es| - 1;
      YieldFinds(es[..n], r);
      var e := es[n];
      if e.isDir { assert (Dirs(es[..n]) + [e])[..|Dirs(es[..n])|] == Dirs(es[..n]); }
      assert (exists i :: 0 <= i < |es| && Finds(es[i], r)) <==>
             (exists i :: 0 <= i < n && Finds(es[..n][i], r)) || Finds(e, r);
    }
  }

  lemma SortNames(es: seq<Entry>, list: seq<Repo>)
    requires IsSortOf(ByName, list, Yield(Dirs(es)))
    ensures Names(es, list)
  {
    SortMembers(ByName, list, Yield(Dirs(es)));
    forall r ensures r in list <==> exists i :: 0 <= i < |es| && Finds(es[i], r) {
      YieldFinds(es, r);
    }
    forall i, j | 0 <= i < j < |list| ensures list[i].name <= list[j].name {
      assert !ByName(list[j], list[i]);
    }
  }

  // ---------------------------------------------------------------- the worker pool

  datatype Worker = Idle | Checking(dir: Entry) | Refreshing(dir: Entry) | Sending(repo: Repo) | Done

  /** `fed` directories were sent, `armed` tells that the feeder passed its check for the next one. */
  datatype State = State(
    dirs: seq<Entry>, fed: nat, armed: bool, workClosed: bool, work: seq<Entry>, workers: seq<Worker>,
    results: seq<Repo>, resultsClosed: bool, collected: seq<Repo>, cancelled: bool, outcome: Option<Outcome>)

  datatype Event =
    | Cancel | FeedCheck | FeedSend | Take(w: nat) | Exit(w: nat) | Examine(w: nat) | Refresh(w: nat, content: nat)
    | Send(w: nat) | CloseResults | Collect | Finish(sorted: seq<Repo>)

  /** Fewer than one worker means four; never more than directories. */
  function Pool(workers: int, n: nat): (p: int)
    ensures n > 0 ==> 1 <= p <= n
    ensures 1 <= workers <= n ==> p == workers
  {
    Min(if workers < 1 then 4 else workers, n)
  }

  function Start(dirs: seq<Entry>, workers: int): State
    requires dirs != []
  {
    State(dirs, 0, false, false, [], seq(Pool(workers, |dirs|), i => Idle), [], false, [], false, None)
  }

  predicate AllDone(ws: seq<Worker>) { forall i :: 0 <= i < |ws| ==> ws[i].Done? }

  /** Both channels hold at most one item per directory; a step that would block is not enabled. A refresh that a
      cancellation cut short may find anything. */
  ghost predicate Enabled(s: State, e: Event) {
    match e
    case Cancel => !s.cancelled
    case FeedCheck => !s.workClosed && !s.armed
    case FeedSend => !s.workClosed && s.armed && s.fed < |s.dirs| && |s.work| < |s.dirs|
    case Take(w) => w < |s.workers| && s.workers[w].Idle? && s.work != []
    case Exit(w) => w < |s.workers| && s.workers[w].Idle? && s.work == [] && s.workClosed
    case Examine(w) => w < |s.workers| && s.workers[w].Checking?
    case Refresh(w, content) =>
      w < |s.workers| && s.workers[w].Refreshing? && (s.cancelled || content == s.workers[w].dir.content)
    case Send(w) => w < |s.workers| && s.workers[w].Sending? && |s.results| < |s.dirs|
    case CloseResults => AllDone(s.workers) && !s.resultsClosed
    case Collect => s.results != []
    case Finish(sorted) =>
      s.results == [] && s.resultsClosed && s.outcome.None? && IsSortOf(ByName, sorted, s.collected)
  }

  function Examined(d: Entry, cancelled: bool): Worker {
    if cancelled then Done else if !d.hasRalph && !d.hasRC then Idle else Refreshing(d)
  }

  function Refreshed(d: Entry, content: nat): Worker {
    Sending(Repo(d.name, d.hasRalph, d.hasRC, content))
  }

  ghost function Next(s: State, e: Event): State
    requires Enabled(s, e)
  {
    match e
    case Cancel => s.(cancelled := true)
    case FeedCheck => if s.fed == |s.dirs| || s.cancelled then s.(workClosed := true) else s.(armed := true)
    case FeedSend => s.(work := s.work + [s.dirs[s.fed]], fed := s.fed + 1, armed := false)
    case Take(w) => s.(workers := s.workers[w := Checking(s.work[0])], work := s.work[1..])
    case Exit(w) => s.(workers := s.workers[w := Done])
    case Examine(w) => s.(workers := s.workers[w := Examined(s.workers[w].dir, s.cancelled)])
    case Refresh(w, content) => s.(workers := s.workers[w := Refreshed(s.workers[w].dir, content)])
    case Send(w) => s.(results := s.results + [s.workers[w].repo], workers := s.workers[w := Idle])
    case CloseResults => s.(resultsClosed := true)
    case Collect => s.(collected := s.collected + [s.results[0]], results := s.results[1..])
    case Finish(sorted) => s.(outcome := Some(if s.cancelled then Failed else Repos(sorted)))
  }

  ghost predicate IsRun(ss: seq<State>, es: seq<Event>, dirs: seq<Entry>, workers: int) {
    && dirs != [] && |ss| == |es| + 1 && ss[0] == Start(dirs, workers)
    && forall k {:trigger es[k]} :: 0 <= k < |es| ==> Enabled(ss[k], es[k]) && ss[k + 1] == Next(ss[k], es[k])
  }

  // ---------------------------------------------------------------- sums over the workers

  ghost function Total(ws: seq<Worker>, f: Worker -> int): int {
    if ws == [] then 0 else Total(ws[..|ws| - 1], f) + f(ws[|ws| - 1])
  }

  lemma {:induction false} TotalUpdate(ws: seq<Worker>, f: Worker -> int, w: nat, x: Worker)
    requires w < |ws|
    ensures Total(ws[w := x], f) == Total(ws, f) - f(ws[w]) + f(x)
  {
    var n := |ws| - 1;
    if w == n {
      assert ws[w := x][..n] == ws[..n];
    } else {
      assert ws[w := x][..n] == ws[..n][w := x];
      TotalUpdate(ws[..n], f, w, x);
    }
  }

  lemma {:induction false} TotalOf(ws: seq<Worker>, f: Worker -> int, c: int)
    requires forall i :: 0 <= i < |ws| ==> f(ws[i]) == c
    ensures Total(ws, f) == |ws| * c
  {
    if ws != [] {
      TotalOf(ws[..|ws| - 1], f, c);
    }
  }

  lemma {:induction false} TotalHas(ws: seq<Worker>, f: Worker -> int, w: nat)
    requires w < |ws| && forall x :: f(x) >= 0
    ensures Total(ws, f) >= f(ws[w]) && Total(ws, f) >= 0
  {
    var n := |ws| - 1;
    if n > 0 {
      TotalHas(ws[..n], f, if w < n then w else 0);
    } else {
      assert ws[..0] == [];
    }
  }

  // ---------------------------------------------------------------- capacity

  const BUSY: Worker -> int := (x: Worker) => if x.Checking? || x.Refreshing? || x.Sending? then 1 else 0

  /** Directories not yet turned into something collected or dropped. */
  ghost function Load(s: State): int {
    |s.collected| + |s.results| + Total(s.workers, BUSY) + |s.work| + (|s.dirs| - s.fed)
  }

  ghost predicate Fits(s: State) {
    && s.dirs != [] && s.workers != [] && s.fed <= |s.dirs| && Load(s) <= |s.dirs|
    && (s.armed ==> s.fed < |s.dirs| && !s.workClosed)
    && (s.outcome.Some? ==> s.results == [] && s.resultsClosed) && (s.resultsClosed ==> AllDone(s.workers))
  }

  lemma FitsStep(s: State, e: Event)
    requires Fits(s) && Enabled(s, e)
    ensures Fits(Next(s, e))
  {
    if e.Take? || e.Exit? || e.Examine? || e.Refresh? || e.Send? {
      TotalUpdate(s.workers, BUSY, e.w, Next(s, e).workers[e.w]);
    }
  }

  /** A sender always finds room: neither channel operation of the pool can block. */
  lemma SendsNeverBlock(s: State, w: nat)
    requires Fits(s)
    ensures s.armed ==> Enabled(s, FeedSend)
    ensures w < |s.workers| && s.workers[w].Sending? ==> Enabled(s, Send(w))
  {
    TotalHas(s.workers, BUSY, 0);
    if w < |s.workers| {
      TotalHas(s.workers, BUSY, w);
    }
  }

  // ---------------------------------------------------------------- progress

  const COST: Worker -> int := (x: Worker) => match x
    case Idle => 1
    case Checking(_) => 7
    case Refreshing(_) => 6
    case Sending(_) => 5
    case Done => 0

  function Flag(b: bool): nat { if b then 1 else 0 }

  ghost function Measure(s: State): int {
    9 * (|s.dirs| - s.fed) - Flag(s.armed) + Flag(!s.workClosed) + 7 * |s.work| + Total(s.workers, COST)
    + 3 * |s.results| + Flag(!s.resultsClosed) + Flag(!s.cancelled) + Flag(s.outcome.None?)
  }

  /** Every step, a cancellation included, brings the pool closer to its end. */
  lemma StepDecreases(s: State, e: Event)
    requires Fits(s) && Enabled(s, e)
    ensures Measure(Next(s, e)) < Measure(s)
  {
    if e.Take? || e.Exit? || e.Examine? || e.Refresh? || e.Send? {
      TotalUpdate(s.workers, COST, e.w, Next(s, e).workers[e.w]);
    }
  }

  lemma MeasureNotNegative(s: State)
    requires Fits(s)
    ensures Measure(s) >= 0
  {
    TotalHas(s.workers, COST, 0);
  }

  /** A pool without an outcome has an enabled step other than cancellation, so it never deadlocks. */
  lemma NeverStuck(s: State) returns (e: Event)
    requires Fits(s) && s.outcome.None?
    ensures Enabled(s, e) && !e.Cancel?
  {
    if !s.workClosed {
      e := if s.armed then FeedSend else FeedCheck;
      SendsNeverBlock(s, 0);
    } else if w :| 0 <= w < |s.workers| && !s.workers[w].Done? {
      SendsNeverBlock(s, w);
      e := match s.workers[w]
        case Idle => if s.work == [] then Exit(w) else Take(w)
        case Checking(_) => Examine(w)
        case Refreshing(d) => Refresh(w, d.content)
        case Sending(_) => Send(w)
        case Done => Cancel;
    } else if !s.resultsClosed {
      e := CloseResults;
    } else if s.results != [] {
      e := Collect;
    } else {
      var r := SortExists(ByName, s.collected);
      e := Finish(r);
    }
  }

  // ---------------------------------------------------------------- conservation

  function Copies(l: seq<Repo>, r: Repo): nat {
    if l == [] then 0 else Copies(l[..|l| - 1], r) + Flag(l[|l| - 1] == r)
  }

  function Due(ds: seq<Entry>, r: Repo): nat {
    if ds == [] then 0 else Due(ds[..|ds| - 1], r) + Flag(IsRepo(ds[|ds| - 1]) && RepoOf(ds[|ds| - 1]) == r)
  }

  function Holding(r: Repo): Worker -> int {
    (x: Worker) => match x
      case Checking(d) => Flag(IsRepo(d) && RepoOf(d) == r)
      case Refreshing(d) => Flag(RepoOf(d) == r)
      case Sending(q) => Flag(q == r)
      case Idle => 0
      case Done => 0
  }

  ghost function Count(s: State, r: Repo): int
    requires s.fed <= |s.dirs|
  {
    Copies(s.collected, r) + Copies(s.results, r) + Total(s.workers, Holding(r)) +
    Due(s.work, r) + Due(s.dirs[s.fed..], r)
  }

  lemma {:induction false} CopiesAdd(a: seq<Repo>, b: seq<Repo>, r: Repo)
    ensures Copies(a + b, r) == Copies(a, r) + Copies(b, r)
  {
    if b == [] {
      assert a + b == a;
    } else {
      assert (a + b)[..|a + b| - 1] == a + b[..|b| - 1];
      CopiesAdd(a, b[..|b| - 1], r);
    }
  }

  lemma {:induction false} DueAdd(a: seq<Entry>, b: seq<Entry>, r: Repo)
    ensures Due(a + b, r) == Due(a, r) + Due(b, r)
  {
    if b == [] {
      assert a + b == a;
    } else {
      assert (a + b)[..|a + b| - 1] == a + b[..|b| - 1];
      DueAdd(a, b[..|b| - 1], r);
    }
  }

  lemma DueFirst(ds: seq<Entry>, r: Repo)
    requires ds != []
    ensures Due(ds, r) == Flag(IsRepo(ds[0]) && RepoOf(ds[0]) == r) + Due(ds[1..], r)
  {
    assert ds == [ds[0]] + ds[1..];
    DueAdd([ds[0]], ds[1..], r);
    assert [ds[0]][..0] == [];
  }

  lemma CopiesFirst(l: seq<Repo>, r: Repo)
    requires l != []
    ensures Copies(l, r) == Flag(l[0] == r) + Copies(l[1..], r)
  {
    assert l == [l[0]] + l[1..];
    CopiesAdd([l[0]], l[1..], r);
    assert [l[0]][..0] == [];
  }

  lemma CopiesLast(l: seq<Repo>, q: Repo, r: Repo)
    ensures Copies(l + [q], r) == Copies(l, r) + Flag(q == r)
  {
    assert (l + [q])[..|l|] == l;
  }

  lemma DueLast(ds: seq<Entry>, d: Entry, r: Repo)
    ensures Due(ds + [d], r) == Due(ds, r) + Flag(IsRepo(d) && RepoOf(d) == r)
  {
    assert (ds + [d])[..|ds|] == ds;
  }

  /** Without cancellation every step keeps the number of copies of every repository, wherever they are. */
  lemma CountStep(s: State, e: Event, r: Repo)
    requires s.fed <= |s.dirs| && Enabled(s, e) && Next(s, e).fed <= |s.dirs| && !Next(s, e).cancelled
    ensures Count(Next(s, e), r) == Count(s, r)
  {
    hide Copies, Due, Total;
    var t := Next(s, e);
    if e.Take? || e.Exit? || e.Examine? || e.Refresh? || e.Send? {
      TotalUpdate(s.workers, Holding(r), e.w, t.workers[e.w]);
    }
    match e
    case FeedSend =>
      DueLast(s.work, s.dirs[s.fed], r);
      DueFirst(s.dirs[s.fed..], r);
      assert s.dirs[s.fed..][1..] == s.dirs[t.fed..];
    case Take(w) =>
      DueFirst(s.work, r);
    case Send(w) =>
      CopiesLast(s.results, s.workers[w].repo, r);
    case Collect =>
      CopiesLast(s.collected, s.results[0], r);
      CopiesFirst(s.results, r);
    case _ =>
  }

  // ---------------------------------------------------------------- runs

  ghost predicate Complete(s: State)
    requires s.fed <= |s.dirs|
  {
    && (!s.cancelled && s.workClosed ==> s.fed == |s.dirs|)
    && (!s.cancelled ==> forall i :: 0 <= i < |s.workers| && s.workers[i].Done? ==> s.workClosed && s.work == [])
    && (!s.cancelled ==> forall r :: Count(s, r) == Due(s.dirs, r))
  }

  ghost predicate Reported(s: State) {
    s.outcome.Some? ==>
      if s.outcome.value.Failed? then s.cancelled else IsSortOf(ByName, s.outcome.value.list, Yield(s.dirs))
  }

  ghost predicate Inv(s: State) { Fits(s) && Complete(s) && Reported(s) }

  lemma StartInv(dirs: seq<Entry>, workers: int)
    requires dirs != []
    ensures Inv(Start(dirs, workers)) && Measure(Start(dirs, workers)) <= 9 * |dirs| + Pool(workers, |dirs|) + 4
  {
    var s := Start(dirs, workers);
    TotalOf(s.workers, BUSY, 0);
    TotalOf(s.workers, COST, 1);
    forall r ensures Count(s, r) == Due(dirs, r) {
      TotalOf(s.workers, Holding(r), 0);
      assert dirs[0..] == dirs;
    }
  }

  lemma CompleteStep(s: State, e: Event)
    requires Fits(s) && Complete(s) && Enabled(s, e) && Fits(Next(s, e))
    ensures Complete(Next(s, e))
  {
    var t := Next(s, e);
    if !t.cancelled {
      forall r ensures Count(t, r) == Due(t.dirs, r) {
        CountStep(s, e, r);
      }
    }
  }

  lemma {:induction false} CopiesOfYield(ds: seq<Entry>, r: Repo)
    ensures Copies(Yield(ds), r) == Due(ds, r)
  {
    if ds != [] {
      var n := |ds| - 1;
      CopiesOfYield(ds[..n], r);
      CopiesLast(Yield(ds[..n]), RepoOf(ds[n]), r);
    }
  }

  lemma {:induction false} CopiesCount(l: seq<Repo>, r: Repo)
    ensures Copies(l, r) == multiset(l)[r]
  {
    if l != [] {
      CopiesCount(l[..|l| - 1], r);
      assert l == l[..|l| - 1] + [l[|l| - 1]];
    }
  }

  /** At the end nothing is left underway, so what was collected is what the directories yield. */
  lemma CollectedAll(s: State)
    requires Fits(s) && Complete(s) && !s.cancelled && s.resultsClosed && s.results == []
    ensures multiset(s.collected) == multiset(Yield(s.dirs))
  {
    assert s.workers[0].Done?;
    forall r ensures multiset(s.collected)[r] == multiset(Yield(s.dirs))[r] {
      TotalOf(s.workers, Holding(r), 0);
      assert Count(s, r) == Due(s.dirs, r);
      assert s.dirs[s.fed..] == [];
      CopiesOfYield(s.dirs, r);
      CopiesCount(s.collected, r);
      CopiesCount(Yield(s.dirs), r);
    }
  }

  lemma InvStep(s: State, e: Event)
    requires Inv(s) && Enabled(s, e)
    ensures Inv(Next(s, e)) && Next(s, e).dirs == s.dirs
  {
    FitsStep(s, e);
    CompleteStep(s, e);
    if e.Finish? && !s.cancelled {
      CollectedAll(s);
    }
  }

  /** Every interleaving keeps the invariant and has a bounded number of steps. */
  lemma {:induction false} RunsKeep(ss: seq<State>, es: seq<Event>, dirs: seq<Entry>, workers: int)
    requires IsRun(ss, es, dirs, workers)
    ensures Inv(ss[|es|]) && ss[|es|].dirs == dirs
    ensures |es| + Measure(ss[|es|]) <= 9 * |dirs| + Pool(workers, |dirs|) + 4
    ensures Measure(ss[|es|]) >= 0
    decreases |es|
  {
    if es == [] {
      StartInv(dirs, workers);
    } else {
      var n := |es| - 1;
      var fs := es[..n];
      forall k {:trigger fs[k]} | 0 <= k < n
        ensures Enabled(ss[..n + 1][k], fs[k]) && ss[..n + 1][k + 1] == Next(ss[..n + 1][k], fs[k])
      {
        assert fs[k] == es[k];
      }
      RunsKeep(ss[..n + 1], fs, dirs, workers);
      assert Enabled(ss[n], es[n]) && ss[n + 1] == Next(ss[n], es[n]);
      InvStep(ss[n], es[n]);
      StepDecreases(ss[n], es[n]);
    }
    MeasureNotNegative(ss[|es|]);
  }

  // ---------------------------------------------------------------- the sequential answer

  predicate HasName(ds: seq<Entry>, x: nat) { exists k :: 0 <= k < |ds| && ds[k].name == x }

  lemma HasNameMore(ds: seq<Entry>, n: nat, x: nat)
    requires n <= |ds| && HasName(ds[..n], x)
    ensures HasName(ds, x)
  {
    var k :| 0 <= k < n && ds[..n][k].name == x;
    assert ds[k].name == x;
  }

  lemma {:induction false} YieldNames(ds: seq<Entry>)
    requires DistinctNames(ds)
    ensures forall i, j :: 0 <= i < j < |Yield(ds)| ==> Yield(ds)[i].name != Yield(ds)[j].name
    ensures forall i :: 0 <= i < |Yield(ds)| ==> HasName(ds, Yield(ds)[i].name)
  {
    if ds != [] {
      var n := |ds| - 1;
      YieldNames(ds[..n]);
      forall i | 0 <= i < |Yield(ds[..n])| ensures HasName(ds, Yield(ds)[i].name) {
        HasNameMore(ds, n, Yield(ds[..n])[i].name);
      }
      assert HasName(ds, ds[n].name);
      assert !HasName(ds[..n], ds[n].name);
    }
  }

  ghost predicate Strict(l: seq<Repo>) { forall i, j :: 0 <= i < j < |l| ==> l[i].name < l[j].name }

  lemma {:induction false} StrictUnique(a: seq<Repo>, b: seq<Repo>)
    requires Strict(a) && Strict(b) && |a| == |b| && forall x :: x in a <==> x in b
    ensures a == b
  {
    if a != [] {
      assert a[0] in b;
      assert b[0] in a;
      assert a[0] == b[0];
      forall x ensures x in a[1..] <==> x in b[1..] {
        StrictTail(a, x);
        StrictTail(b, x);
      }
      StrictUnique(a[1..], b[1..]);
    }
  }

  lemma StrictTail(a: seq<Repo>, x: Repo)
    requires Strict(a) && a != []
    ensures x in a[1..] <==> x in a && x != a[0]
  {
    assert a == [a[0]] + a[1..];
  }

  lemma SortedStrict(a: seq<Repo>, s: seq<Repo>)
    requires IsSortOf(ByName, a, s) && forall i, j :: 0 <= i < j < |s| ==> s[i].name != s[j].name
    ensures Strict(a)
  {
    SortMembers(ByName, a, s);
    NoDupPermuted(s, a);
    forall i, j | 0 <= i < j < |a| ensures a[i].name < a[j].name {
      assert !ByName(a[j], a[i]) && a[i] != a[j];
      assert a[i] in s && a[j] in s;
    }
  }

  lemma {:induction false} DirsDistinct(es: seq<Entry>)
    requires DistinctNames(es)
    ensures DistinctNames(Dirs(es))
    ensures forall i :: 0 <= i < |Dirs(es)| ==> HasName(es, Dirs(es)[i].name)
  {
    if es != [] {
      var n := |es| - 1;
      DirsDistinct(es[..n]);
      forall i | 0 <= i < |Dirs(es[..n])| ensures HasName(es, Dirs(es)[i].name) {
        HasNameMore(es, n, Dirs(es[..n])[i].name);
      }
      assert HasName(es, es[n].name);
      assert !HasName(es[..n], es[n].name);
    }
  }

  /** What a call may return: `early` tells that the context was done before it began; a root without directories
      is answered at once; otherwise some run of the pool reached the outcome. */
  ghost predicate Returns(early: bool, listing: Option<seq<Entry>>, workers: int, ss: seq<State>, es: seq<Event>,
                          o: Outcome)
  {
    if early || listing.None? then o == Failed
    else if Dirs(listing.value) == [] then o == Repos([])
    else IsRun(ss, es, Dirs(listing.value), workers) && ss[|es|].outcome == Some(o)
  }

  /** Whatever a call with any number of workers returns is exactly the list of the sequential scan, unless
      the directory could not be read or the context was cancelled. */
  lemma MatchesScan(early: bool, listing: Option<seq<Entry>>, workers: int, ss: seq<State>, es: seq<Event>, o: Outcome,
                    scan: seq<Repo>)
    requires Returns(early, listing, workers, ss, es, o)
    requires listing.Some? ==> DistinctNames(listing.value) && IsSortOf(ByName, scan, Yield(Dirs(listing.value)))
    ensures early || listing.None? ==> o.Failed?
    ensures !early && listing.Some? && o.Failed? ==> Dirs(listing.value) != [] && ss[|es|].cancelled
    ensures !o.Failed? ==> o == Repos(scan) && Names(listing.value, scan)
  {
    if !early && listing.Some? {
      SortNames(listing.value, scan);
      var ds := Dirs(listing.value);
      if ds == [] {
        SortMembers(ByName, scan, []);
      } else {
        RunsKeep(ss, es, ds, workers);
        if !o.Failed? {
          DirsDistinct(listing.value);
          YieldNames(ds);
          SameSort(o.list, scan, Yield(ds));
        }
      }
    }
  }

  /** Repositories with different names have one sorted order. */
  lemma SameSort(a: seq<Repo>, b: seq<Repo>, s: seq<Repo>)
    requires IsSortOf(ByName, a, s) && IsSortOf(ByName, b, s)
    requires forall i, j :: 0 <= i < j < |s| ==> s[i].name != s[j].name
    ensures a == b
  {
    SortedStrict(a, s);
    SortedStrict(b, s);
    SortMembers(ByName, a, s);
    SortMembers(ByName, b, s);
    StrictUnique(a, b);
  }

  /** A cancellation inside the last refresh of the sequential scan goes unnoticed: the scan then returns another list
      than without it exactly when that refresh was of a repository and found something else. */
  lemma {:induction false} CutExactly(es: seq<Entry>, late: nat, cut: seq<Repo>, whole: seq<Repo>)
    requires DistinctNames(es)
    requires IsSortOf(ByName, cut, Yield(Dirs(CutLast(es, late)))) && IsSortOf(ByName, whole, Yield(Dirs(es)))
    ensures cut != whole <==>
            es != [] && es[|es| - 1].isDir && IsRepo(es[|es| - 1]) && es[|es| - 1].content != late
  {
    if es != [] && es[|es| - 1].isDir && IsRepo(es[|es| - 1]) && es[|es| - 1].content != late {
      var n := |es| - 1;
      var a, r, q := Yield(Dirs(es[..n])), RepoOf(es[n]), RepoOf(es[n].(content := late));
      LastYield(es[..n], es[n]);
      LastYield(es[..n], es[n].(content := late));
      assert es == es[..n] + [es[n]];
      LastIsNew(es);
      assert r !in a + [q] && r in a + [r];
      hide Yield, Dirs, DistinctNames, IsSortOf;
      SortMembers(ByName, cut, a + [q]);
      SortMembers(ByName, whole, a + [r]);
      assert r in whole && r !in cut;
    } else {
      SameYield(es, late);
      DirsDistinct(es);
      YieldNames(Dirs(es));
      SameSort(cut, whole, Yield(Dirs(es)));
    }
  }

  lemma LastIsNew(es: seq<Entry>)
    requires DistinctNames(es) && es != [] && es[|es| - 1].isDir && IsRepo(es[|es| - 1])
    ensures RepoOf(es[|es| - 1]) !in Yield(Dirs(es[..|es| - 1]))
  {
    var n := |es| - 1;
    var a := Yield(Dirs(es[..n]));
    assert es == es[..n] + [es[n]];
    LastYield(es[..n], es[n]);
    DirsDistinct(es);
    YieldNames(Dirs(es));
    hide Yield, Dirs, DistinctNames;
    forall j | 0 <= j < |a| ensures a[j] != RepoOf(es[n]) {
      assert (a + [RepoOf(es[n])])[j].name != (a + [RepoOf(es[n])])[|a|].name;
    }
  }

  lemma LastYield(es: seq<Entry>, e: Entry)
    requires e.isDir && IsRepo(e)
    ensures Yield(Dirs(es + [e])) == Yield(Dirs(es)) + [RepoOf(e)]
  {
    assert (es + [e])[..|es|] == es;
    assert (Dirs(es) + [e])[..|Dirs(es)|] == Dirs(es);
  }

  lemma SameYield(es: seq<Entry>, late: nat)
    requires es != [] ==> !es[|es| - 1].isDir || !IsRepo(es[|es| - 1]) || es[|es| - 1].content == late
    ensures Yield(Dirs(CutLast(es, late))) == Yield(Dirs(es))
  {
    if es != [] {
      var n := |es| - 1;
      var c := CutLast(es, late);
      assert c[..n] == es[..n];
      if es[n].isDir {
        assert (Dirs(es[..n]) + [es[n]])[..|Dirs(es[..n])|] == Dirs(es[..n]);
        assert (Dirs(es[..n]) + [c[n]])[..|Dirs(es[..n])|] == Dirs(es[..n]);
      }
    }
  }
}
