/** Request counters in a shared cache, updated by any number of processes one cache operation at a time
    (platform/shared/metrics.py). Cache keys are never evicted and absent at the start. */
module Metrics {

  datatype Method = GET | POST | PUT | PATCH | DELETE | HEAD | OPTIONS | OTHER

  const METHODS: seq<Method> := [GET, POST, PUT, PATCH, DELETE, HEAD, OPTIONS, OTHER]

  datatype Key = Requests(m: Method, group: int) | DurationSum | DurationCount

  /** A finished request: its upper-cased method name, status code and whole milliseconds. */
  datatype Request = Request(name: string, status: int, ms: int)

  datatype Bump = Bump(key: Key, delta: int)

  function MethodOf(name: string): Method {
    if name == "GET" then GET
    else if name == "POST" then POST
    else if name == "PUT" then PUT
    else if name == "PATCH" then PATCH
    else if name == "DELETE" then DELETE
    else if name == "HEAD" then HEAD
    else if name == "OPTIONS" then OPTIONS
    else OTHER
  }

  function ClassOf(status: int): (group: int)
    ensures 1 <= group <= 5
  {
    if 1 <= status / 100 <= 5 then status / 100 else 5
  }

  /** The three increments of one request, in order. */
  function Bumps(r: Request): (b: seq<Bump>)
    ensures |b| == 3
  {
    [Bump(Requests(MethodOf(r.name), ClassOf(r.status)), 1), Bump(DurationSum, r.ms), Bump(DurationCount, 1)]
  }

  /** Where an increment stands: about to increment, about to add after the key was missing, or about to
      increment again after another process added it first. */
  datatype Stage = Trying | Adding | Retrying

  /** One record_request call: how many of its increments have returned, and where the next one stands. */
  datatype Job = Job(request: Request, done: nat, stage: Stage)

  datatype State = State(cells: map<Key, int>, jobs: seq<Job>)

  datatype Op = Arrive(request: Request) | Go(i: nat)

  function Get(cells: map<Key, int>, k: Key): int {
    if k in cells then cells[k] else 0
  }

  /** One cache operation of one process, or a request coming in. */
  function Step(s: State, op: Op): State {
    match op
    case Arrive(request) => s.(jobs := s.jobs + [Job(request, 0, Trying)])
    case Go(i) => if i < |s.jobs| && s.jobs[i].done < 3 then Move(s, i) else s
  }

  function Move(s: State, i: nat): State
    requires i < |s.jobs| && s.jobs[i].done < 3
  {
    var job := s.jobs[i];
    var bump := Bumps(job.request)[job.done];
    var next := job.(done := job.done + 1, stage := Trying);
    var raised := s.cells[bump.key := Get(s.cells, bump.key) + bump.delta];
    match job.stage
    case Trying =>
      if bump.key in s.cells then State(raised, s.jobs[i := next])
      else s.(jobs := s.jobs[i := job.(stage := Adding)])
    case Adding =>
      if bump.key !in s.cells then State(s.cells[bump.key := bump.delta], s.jobs[i := next])
      else s.(jobs := s.jobs[i := job.(stage := Retrying)])
    case Retrying =>
      // A key missing even now is ignored, and with it the increment.
      State(if bump.key in s.cells then raised else s.cells, s.jobs[i := next])
  }

  function Run(ops: seq<Op>): State {
    if ops == [] then State(map[], []) else Step(Run(ops[..|ops| - 1]), ops[|ops| - 1])
  }

  /** What the first n increments of a request add to a key. */
  function Part(r: Request, n: nat, k: Key): int
    requires n <= 3
  {
    if n == 0 then 0 else Part(r, n - 1, k) + if Bumps(r)[n - 1].key == k then Bumps(r)[n - 1].delta else 0
  }

  /** The sum of the deltas of all increments of a key that have returned. */
  function Tally(jobs: seq<Job>, k: Key): int {
    if jobs == [] then 0
    else
      var last := jobs[|jobs| - 1];
      Tally(jobs[..|jobs| - 1], k) + Part(last.request, if last.done < 3 then last.done else 3, k)
  }

  ghost predicate Exact(s: State) {
    && (forall i :: 0 <= i < |s.jobs| ==> s.jobs[i].done <= 3)
    && (forall k: Key :: Get(s.cells, k) == Tally(s.jobs, k))
    && (forall i :: 0 <= i < |s.jobs| && s.jobs[i].stage.Retrying? ==>
          s.jobs[i].done < 3 && Bumps(s.jobs[i].request)[s.jobs[i].done].key in s.cells)
  }

  lemma {:induction false} TallyUpdate(jobs: seq<Job>, i: nat, job: Job, k: Key)
    requires i < |jobs| && jobs[i].done <= 3 && job.done <= 3
    ensures Tally(jobs[i := job], k) ==
              Tally(jobs, k) - Part(jobs[i].request, jobs[i].done, k) + Part(job.request, job.done, k)
  {
    var n := |jobs| - 1;
    if i == n {
      assert jobs[i := job][..n] == jobs[..n];
    } else {
      TallyUpdate(jobs[..n], i, job, k);
      assert jobs[i := job][..n] == jobs[..n][i := job];
    }
  }

  lemma MoveExact(s: State, i: nat)
    requires Exact(s) && i < |s.jobs| && s.jobs[i].done < 3
    ensures Exact(Move(s, i))
  {
    var t := Move(s, i);
    MoveShape(s, i);
    forall k: Key
      ensures Get(t.cells, k) == Tally(t.jobs, k)
    {
      TallyUpdate(s.jobs, i, t.jobs[i], k);
      assert Get(s.cells, k) == Tally(s.jobs, k);
    }
  }

  /** A move changes one job, and the counters by exactly what that job's progress is worth. */
  lemma MoveShape(s: State, i: nat)
    requires i < |s.jobs| && s.jobs[i].done < 3
    requires s.jobs[i].stage.Retrying? ==> Bumps(s.jobs[i].request)[s.jobs[i].done].key in s.cells
    ensures var t := Move(s, i);
            var job, next := s.jobs[i], t.jobs[i];
            && t.jobs == s.jobs[i := next] && next.request == job.request && job.done <= next.done <= 3
            && (next.stage.Retrying? ==> next.done == job.done && Bumps(job.request)[job.done].key in t.cells)
            && (forall k: Key :: k in s.cells ==> k in t.cells)
            && forall k: Key :: Get(t.cells, k) ==
                Get(s.cells, k) - Part(job.request, job.done, k) + Part(next.request, next.done, k)
  {}

  /** No update is lost or doubled: under every interleaving each counter is the sum of the deltas of the
      increments that have returned. */
  lemma {:induction false} AlwaysExact(ops: seq<Op>)
    ensures Exact(Run(ops))
  {
    if ops != [] {
      var most := ops[..|ops| - 1];
      AlwaysExact(most);
      StepExact(Run(most), ops[|ops| - 1]);
    }
  }

  lemma StepExact(s: State, op: Op)
    requires Exact(s)
    ensures Exact(Step(s, op))
  {
    match op
    case Arrive(request) =>
      var t := Step(s, op);
      assert t.jobs[..|t.jobs| - 1] == s.jobs;
      forall k: Key
        ensures Get(t.cells, k) == Tally(t.jobs, k)
      {
        assert Get(s.cells, k) == Tally(s.jobs, k);
      }
    case Go(i) =>
      if i < |s.jobs| && s.jobs[i].done < 3 {
        MoveExact(s, i);
      }
  }

  /* ---- the summary ---- */

  /** The jobs with at least this many increments returned. */
  function Past(jobs: seq<Job>, n: nat): seq<Job> {
    if jobs == [] then []
    else
      Past(jobs[..|jobs| - 1], n) + if jobs[|jobs| - 1].done >= n then [jobs[|jobs| - 1]] else []
  }

  function OfClass(jobs: seq<Job>, group: int): nat {
    if jobs == [] then 0
    else
      OfClass(jobs[..|jobs| - 1], group) + if ClassOf(jobs[|jobs| - 1].request.status) == group then 1 else 0
  }

  function Milliseconds(jobs: seq<Job>): int {
    if jobs == [] then 0 else Milliseconds(jobs[..|jobs| - 1]) + jobs[|jobs| - 1].request.ms
  }

  /** The counters of one status class over the first n methods. */
  function ClassSum(cells: map<Key, int>, group: int, n: nat): int
    requires n <= 8
  {
    if n == 0 then 0 else ClassSum(cells, group, n - 1) + Get(cells, Requests(METHODS[n - 1], group))
  }

  function TallySum(jobs: seq<Job>, group: int, n: nat): int
    requires n <= 8
  {
    if n == 0 then 0 else TallySum(jobs, group, n - 1) + Tally(jobs, Requests(METHODS[n - 1], group))
  }

  lemma {:induction false} ClassSumIsTallySum(s: State, group: int, n: nat)
    requires n <= 8 && Exact(s)
    ensures ClassSum(s.cells, group, n) == TallySum(s.jobs, group, n)
  {
    if n > 0 {
      ClassSumIsTallySum(s, group, n - 1);
      assert Get(s.cells, Requests(METHODS[n - 1], group)) == Tally(s.jobs, Requests(METHODS[n - 1], group));
    }
  }

  /** One job counts once among the eight methods, under its own. */
  function Mark(job: Job, group: int, n: nat): int
    requires n <= 8
  {
    if job.done >= 1 && ClassOf(job.request.status) == group && MethodOf(job.request.name) in METHODS[..n] then 1 else 0
  }

  lemma {:induction false} TallySumGrows(jobs: seq<Job>, job: Job, group: int, n: nat)
    requires n <= 8 && job.done <= 3
    ensures TallySum(jobs + [job], group, n) == TallySum(jobs, group, n) + Mark(job, group, n)
  {
    if n > 0 {
      TallySumGrows(jobs, job, group, n - 1);
      assert (jobs + [job])[..|jobs|] == jobs;
      var k := Requests(METHODS[n - 1], group);
      assert METHODS[..n] == METHODS[..n - 1] + [METHODS[n - 1]];
      assert METHODS[n - 1] !in METHODS[..n - 1];
      PartOfRequests(job.request, job.done, k);
    }
  }

  lemma PartOfRequests(r: Request, n: nat, k: Key)
    requires n <= 3
    ensures k.Requests? ==>
        Part(r, n, k) == if n >= 1 && k == Requests(MethodOf(r.name), ClassOf(r.status)) then 1 else 0
    ensures k == DurationSum ==> Part(r, n, k) == if n >= 2 then r.ms else 0
    ensures k == DurationCount ==> Part(r, n, k) == if n >= 3 then 1 else 0
  {
    assert n >= 1 ==> Part(r, 1, k) == Part(r, 0, k) + if Bumps(r)[0].key == k then 1 else 0;
    assert n >= 2 ==> Part(r, 2, k) == Part(r, 1, k) + if k == DurationSum then r.ms else 0;
    assert n >= 3 ==> Part(r, 3, k) == Part(r, 2, k) + if k == DurationCount then 1 else 0;
  }

  lemma {:induction false} ClassTotal(jobs: seq<Job>, group: int)
    requires forall i :: 0 <= i < |jobs| ==> jobs[i].done <= 3
    ensures TallySum(jobs, group, 8) == OfClass(Past(jobs, 1), group)
  {
    if jobs == [] {
      EmptyTallies(group, 8);
    } else {
      var most, job := jobs[..|jobs| - 1], jobs[|jobs| - 1];
      ClassTotal(most, group);
      TallySumGrows(most, job, group, 8);
      assert jobs == most + [job];
      assert METHODS[..8] == METHODS && MethodOf(job.request.name) in METHODS;
      AppendOne(Past(most, 1), job, group);
      assert Past(jobs, 1) == if job.done >= 1 then Past(most, 1) + [job] else Past(most, 1);
    }
  }

  lemma AppendOne(jobs: seq<Job>, job: Job, group: int)
    ensures OfClass(jobs + [job], group) == OfClass(jobs, group) + if ClassOf(job.request.status) == group then 1 else 0
    ensures Milliseconds(jobs + [job]) == Milliseconds(jobs) + job.request.ms
  {
    assert (jobs + [job])[..|jobs|] == jobs;
  }

  lemma {:induction false} EmptyTallies(group: int, n: nat)
    requires n <= 8
    ensures TallySum([], group, n) == 0
  {
    if n > 0 {
      EmptyTallies(group, n - 1);
    }
  }

  lemma {:induction false} DurationTotals(jobs: seq<Job>)
    requires forall i :: 0 <= i < |jobs| ==> jobs[i].done <= 3
    ensures Tally(jobs, DurationSum) == Milliseconds(Past(jobs, 2))
    ensures Tally(jobs, DurationCount) == |Past(jobs, 3)|
  {
    if jobs != [] {
      var most, job := jobs[..|jobs| - 1], jobs[|jobs| - 1];
      DurationTotals(most);
      PartOfRequests(job.request, job.done, DurationSum);
      PartOfRequests(job.request, job.done, DurationCount);
      AppendOne(Past(most, 2), job, 0);
      assert Past(jobs, 2) == if job.done >= 2 then Past(most, 2) + [job] else Past(most, 2);
    }
  }

  datatype Summary = Summary(byStatus: seq<int>, total: int, durationSum: int, durationCount: int)

  /** The summary read from the counters: per status class, in total, and the two durations its average is
      taken from. The request counters are read in one call and the two durations in one call each, so
      what the cache holds may have moved on in between. */
  method SummaryDict(cells: map<Key, int>, sums: map<Key, int>, counts: map<Key, int>) returns (r: Summary)
    ensures |r.byStatus| == 5 && forall c :: 0 <= c < 5 ==> r.byStatus[c] == ClassSum(cells, c + 1, 8)
    ensures r.total == r.byStatus[0] + r.byStatus[1] + r.byStatus[2] + r.byStatus[3] + r.byStatus[4]
    ensures r.durationSum == Get(sums, DurationSum) && r.durationCount == Get(counts, DurationCount)
  {
    var byStatus := [0, 0, 0, 0, 0];
    for n := 0 to 8
      invariant |byStatus| == 5
      invariant forall c :: 0 <= c < 5 ==> byStatus[c] == ClassSum(cells, c + 1, n)
    {
      for c := 0 to 5
        invariant |byStatus| == 5
        invariant forall d :: 0 <= d < 5 ==> byStatus[d] == ClassSum(cells, d + 1, if d < c then n + 1 else n)
      {
        if Requests(METHODS[n], c + 1) in cells {
          byStatus := byStatus[c := byStatus[c] + cells[Requests(METHODS[n], c + 1)]];
        }
      }
    }
    var total := 0;
    for c := 0 to 5
      invariant total == Prefix(byStatus, c)
    {
      total := total + byStatus[c];
    }
    assert Prefix(byStatus, 2) == byStatus[0] + byStatus[1];
    assert Prefix(byStatus, 4) == Prefix(byStatus, 2) + byStatus[2] + byStatus[3];
    r := Summary(byStatus, total, Get(sums, DurationSum), Get(counts, DurationCount));
  }

  function Prefix(xs: seq<int>, n: nat): int
    requires n <= |xs|
  {
    if n == 0 then 0 else Prefix(xs, n - 1) + xs[n - 1]
  }

  /** At every moment of every interleaving the counters are those of the calls so far: each request whose
      first increment has returned counts once, in its own status class, and the durations are those of
      the calls that got that far. */
  lemma CountersAreExact(ops: seq<Op>, group: int)
    ensures var s := Run(ops);
            && ClassSum(s.cells, group, 8) == OfClass(Past(s.jobs, 1), group)
            && Get(s.cells, DurationSum) == Milliseconds(Past(s.jobs, 2))
            && Get(s.cells, DurationCount) == |Past(s.jobs, 3)|
  {
    var s := Run(ops);
    AlwaysExact(ops);
    ClassSumIsTallySum(s, group, 8);
    ClassTotal(s.jobs, group);
    DurationTotals(s.jobs);
  }

  /** The summary's three reads, at three moments of one interleaving: each says what had returned by then. */
  lemma SummaryIsExact(ops: seq<Op>, i: nat, j: nat, k: nat, group: int)
    requires i <= j <= k <= |ops|
    ensures ClassSum(Run(ops[..i]).cells, group, 8) == OfClass(Past(Run(ops[..i]).jobs, 1), group)
    ensures Get(Run(ops[..j]).cells, DurationSum) == Milliseconds(Past(Run(ops[..j]).jobs, 2))
    ensures Get(Run(ops[..k]).cells, DurationCount) == |Past(Run(ops[..k]).jobs, 3)|
  {
    CountersAreExact(ops[..i], group);
    CountersAreExact(ops[..j], group);
    CountersAreExact(ops[..k], group);
  }

  /** The label of a request: its method where that is one of the seven, and its hundreds where they are 1 to 5;
      anything else counts as OTHER, or among the 500s. */
  lemma LabelsSay(name: string, status: int)
    ensures MethodOf(name) == GET <==> name == "GET"
    ensures MethodOf(name) == POST <==> name == "POST"
    ensures MethodOf(name) == PUT <==> name == "PUT"
    ensures MethodOf(name) == PATCH <==> name == "PATCH"
    ensures MethodOf(name) == DELETE <==> name == "DELETE"
    ensures MethodOf(name) == HEAD <==> name == "HEAD"
    ensures MethodOf(name) == OPTIONS <==> name == "OPTIONS"
    ensures 100 <= status <= 199 <==> ClassOf(status) == 1
    ensures 200 <= status <= 299 <==> ClassOf(status) == 2
    ensures 300 <= status <= 399 <==> ClassOf(status) == 3
    ensures 400 <= status <= 499 <==> ClassOf(status) == 4
    ensures status < 100 || status >= 500 <==> ClassOf(status) == 5
  {}

  function OfCell(jobs: seq<Job>, m: Method, group: int): nat {
    if jobs == [] then 0
    else
      var r := jobs[|jobs| - 1].request;
      OfCell(jobs[..|jobs| - 1], m, group) + if MethodOf(r.name) == m && ClassOf(r.status) == group then 1 else 0
  }

  lemma OneMoreCell(jobs: seq<Job>, job: Job, m: Method, group: int)
    ensures OfCell(jobs + [job], m, group) == OfCell(jobs, m, group) +
              if MethodOf(job.request.name) == m && ClassOf(job.request.status) == group then 1 else 0
  {
    assert (jobs + [job])[..|jobs|] == jobs;
  }

  lemma {:induction false} CellTotal(jobs: seq<Job>, m: Method, group: int)
    requires forall i :: 0 <= i < |jobs| ==> jobs[i].done <= 3
    ensures Tally(jobs, Requests(m, group)) == OfCell(Past(jobs, 1), m, group)
  {
    if jobs == [] {
    } else {
      var most, job := jobs[..|jobs| - 1], jobs[|jobs| - 1];
      CellTotal(most, m, group);
      PartOfRequests(job.request, job.done, Requests(m, group));
      OneMoreCell(Past(most, 1), job, m, group);
      assert Past(jobs, 1) == if job.done >= 1 then Past(most, 1) + [job] else Past(most, 1);
    }
  }

  /** Method by method and class by class: each counter is the number of requests under its label whose first
      increment has returned. */
  lemma CellsAreExact(ops: seq<Op>, m: Method, group: int)
    ensures Get(Run(ops).cells, Requests(m, group)) == OfCell(Past(Run(ops).jobs, 1), m, group)
  {
    AlwaysExact(ops);
    assert Get(Run(ops).cells, Requests(m, group)) == Tally(Run(ops).jobs, Requests(m, group));
    CellTotal(Run(ops).jobs, m, group);
  }

  /** One cache operation of a call: an increment of a key that is there raises it; one of a key that is missing
      is tried as an add, which stores the delta if the key is still missing; after an add that came too late
      the increment is tried once more, and given up if the key is missing again. */
  lemma MovesSay(s: State, i: nat, bump: Bump)
    requires i < |s.jobs| && s.jobs[i].done < 3 && bump == Bumps(s.jobs[i].request)[s.jobs[i].done]
    ensures var t := Step(s, Go(i));
            var there := bump.key in s.cells;
            var stored := there != (s.jobs[i].stage == Adding);
            && (s.jobs[i].stage == Trying && !there ==> t.jobs[i].stage == Adding && t.cells == s.cells)
            && (s.jobs[i].stage == Adding && there ==> t.jobs[i].stage == Retrying && t.cells == s.cells)
            && (s.jobs[i].stage == Retrying && !there ==> t.jobs[i].stage == Trying && t.cells == s.cells)
            && (stored ==>
                  && t.jobs[i].stage == Trying
                  && t.cells == s.cells[bump.key := (if there then s.cells[bump.key] else 0) + bump.delta])
            && t.jobs[i].done == s.jobs[i].done + (if t.jobs[i].stage == Trying then 1 else 0)
            && t.jobs[i].request == s.jobs[i].request
  {}

  /** How far a call has come, in cache operations of which an increment needs at most three. */
  function Progress(job: Job): int {
    3 * job.done + match job.stage case Trying => 0 case Adding => 1 case Retrying => 2
  }

  /** Every cache operation of a call brings it further, so a call is over after at most nine, whatever the
      others do in between; no other call moves. */
  lemma CallsProgress(s: State, i: nat)
    requires i < |s.jobs| && s.jobs[i].done < 3
    ensures var t := Step(s, Go(i));
            && |t.jobs| == |s.jobs| && Progress(s.jobs[i]) < Progress(t.jobs[i]) <= 9
            && forall j :: 0 <= j < |s.jobs| && j != i ==> t.jobs[j] == s.jobs[j]
  {}

  ghost predicate AllDone(jobs: seq<Job>) {
    forall i :: 0 <= i < |jobs| ==> jobs[i].done == 3
  }

  lemma {:induction false} PastOfDone(jobs: seq<Job>, n: nat)
    requires AllDone(jobs) && n <= 3
    ensures Past(jobs, n) == jobs
  {
    if jobs != [] {
      PastOfDone(jobs[..|jobs| - 1], n);
    }
  }

  /** With every call returned and none arriving, nothing moves. */
  lemma {:induction false} QuietRun(ops: seq<Op>, i: nat)
    requires i <= |ops| && AllDone(Run(ops[..i]).jobs)
    requires forall k :: i <= k < |ops| ==> !ops[k].Arrive?
    ensures Run(ops) == Run(ops[..i])
  {
    if i < |ops| {
      var most := ops[..|ops| - 1];
      assert most[..i] == ops[..i];
      QuietRun(most, i);
    } else {
      assert ops[..i] == ops;
    }
  }

  /** Read while no call is under way, the three reads agree: per class the requests of that class, as many
      in all as the durations count, and the sum of all their durations. */
  lemma QuietSummary(ops: seq<Op>, i: nat, j: nat, group: int)
    requires i <= j <= |ops| && AllDone(Run(ops[..i]).jobs)
    requires forall k :: i <= k < |ops| ==> !ops[k].Arrive?
    ensures var jobs := Run(ops).jobs;
            && ClassSum(Run(ops[..i]).cells, group, 8) == OfClass(jobs, group)
            && Get(Run(ops[..j]).cells, DurationSum) == Milliseconds(jobs)
            && Get(Run(ops).cells, DurationCount) == |jobs|
  {
    QuietRun(ops, i);
    assert ops[..j][..i] == ops[..i];
    QuietRun(ops[..j], i);
    CountersAreExact(ops, group);
    PastOfDone(Run(ops).jobs, 1);
    PastOfDone(Run(ops).jobs, 2);
    PastOfDone(Run(ops).jobs, 3);
  }

  /** The five classes partition the requests, so the total is their number. */
  lemma {:induction false} ClassesPartition(jobs: seq<Job>)
    ensures OfClass(jobs, 1) + OfClass(jobs, 2) + OfClass(jobs, 3) + OfClass(jobs, 4) + OfClass(jobs, 5) == |jobs|
  {
    if jobs != [] {
      ClassesPartition(jobs[..|jobs| - 1]);
    }
  }
}
