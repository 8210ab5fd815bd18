/**
 One connection's periodic requests: the job due first runs next, and is due again a period later, or now when
 behind. No job starves, none bursts, and an interval's chunks are spread over it.
 */
module Scheduler {
  import opened Chunking
  import opened Periods

  datatype Job<T> = Job(due: real, period: real, targets: seq<T>)

  /** The job due first, the earliest listed of several. */
  ghost predicate Earliest<T>(jobs: seq<Job<T>>, i: nat) {
    && i < |jobs|
    && (forall k :: 0 <= k < |jobs| ==> jobs[i].due <= jobs[k].due)
    && (forall k :: 0 <= k < i ==> jobs[i].due < jobs[k].due)
  }

  function First<T>(jobs: seq<Job<T>>): (i: nat)
    requires jobs != []
    ensures Earliest(jobs, i)
  {
    var n := |jobs| - 1;
    if n == 0 then 0 else
      var i := First(jobs[..n]);
      assert forall k :: 0 <= k < n ==> jobs[k] == jobs[..n][k];
      if jobs[n].due < jobs[i].due then n else i
  }

  lemma EarliestOnce<T>(jobs: seq<Job<T>>, i: nat, j: nat)
    requires Earliest(jobs, i) && Earliest(jobs, j)
    ensures i == j
  {
    assert jobs[i].due <= jobs[j].due && jobs[j].due <= jobs[i].due;
  }

  function Later(a: real, b: real): real {
    if a < b then b else a
  }

  /** After running the first job at `now`. */
  function Next<T>(jobs: seq<Job<T>>, now: real): seq<Job<T>>
    requires jobs != []
  {
    var i := First(jobs);
    jobs[i := jobs[i].(due := Later(jobs[i].due + jobs[i].period, now))]
  }

  /** The earliest job, and no other, is due later: a period after it was due, or `now` if that is past. */
  ghost predicate PutOff<T>(was: seq<Job<T>>, jobs: seq<Job<T>>, now: real) {
    && |jobs| == |was|
    && exists i: nat :: Earliest(was, i)
         && jobs[i].period == was[i].period && jobs[i].targets == was[i].targets
         && jobs[i].due >= was[i].due + was[i].period && jobs[i].due >= now
         && (jobs[i].due == was[i].due + was[i].period || jobs[i].due == now)
         && forall k :: 0 <= k < |jobs| && k != i ==> jobs[k] == was[k]
  }

  class Loop<T> {
    var jobs: seq<Job<T>>

    constructor (jobs: seq<Job<T>>)
      ensures this.jobs == jobs
    {
      this.jobs := jobs;
    }

    /** Picks the next job and moves it on; `now` is when the wait for it ended. */
    method RunNext(now: real) returns (job: Job<T>)
      requires jobs != []
      modifies this
      ensures job == old(jobs)[First(old(jobs))] && jobs == Next(old(jobs), now)
      ensures PutOff(old(jobs), jobs, now)
    {
      var i, k := 0, 1;
      while k < |jobs|
        invariant 1 <= k <= |jobs| && i < k
        invariant forall j :: 0 <= j < k ==> jobs[i].due <= jobs[j].due
        invariant forall j :: 0 <= j < i ==> jobs[i].due < jobs[j].due
      {
        if jobs[k].due < jobs[i].due {
          i := k;
        }
        k := k + 1;
      }
      EarliestOnce(jobs, i, First(jobs));
      job := jobs[i];
      jobs := jobs[i := job.(due := Later(job.due + job.period, now))];
      assert old(jobs) != [] && Earliest(old(jobs), i);
    }

    /** One interval's targets, chunk by chunk, spread evenly over it. */
    method Spread(now: real, interval: real, targets: seq<T>, chunk: nat)
      requires chunk > 0 && interval > 0.0 && targets != []
      modifies this
      ensures |old(jobs)| <= |jobs| && jobs[..|old(jobs)|] == old(jobs)
      ensures EvenlySpread(jobs[|old(jobs)|..], now, interval, targets, chunk)
    {
      var chunks := Chunks(targets, chunk);
      var step := interval / |chunks| as real;
      var added: seq<Job<T>> := [];
      var i := 0;
      while i < |chunks|
        invariant jobs == old(jobs)
        invariant 0 <= i <= |chunks| && Stepped(added, chunks[..i], now, interval, step)
      {
        TimesIs(i, step);
        assert chunks[..i + 1] == chunks[..i] + [chunks[i]];
        added := added + [Job(now + i as real * step, interval, chunks[i])];
        i := i + 1;
      }
      assert chunks[..i] == chunks;
      SpreadEvenly(added, now, interval, step, targets, chunk);
      jobs := jobs + added;
      assert jobs[|old(jobs)|..] == added;
    }
  }

  function TargetsOf<T>(jobs: seq<Job<T>>): seq<seq<T>> {
    seq(|jobs|, i requires 0 <= i < |jobs| => jobs[i].targets)
  }

  /** Every target once and in order, a request's worth per job, the jobs equally far apart within the interval. */
  ghost predicate EvenlySpread<T>(jobs: seq<Job<T>>, now: real, interval: real, targets: seq<T>, chunk: nat) {
    && Concat(TargetsOf(jobs)) == targets
    && (forall i :: 0 <= i < |jobs| ==> 0 < |jobs[i].targets| <= chunk && jobs[i].period == interval)
    && (forall i :: 0 <= i < |jobs| ==> now <= jobs[i].due < now + interval)
    && jobs != [] && jobs[0].due == now
    && forall i :: 0 < i < |jobs| ==> jobs[i].due - jobs[i - 1].due == interval / |jobs| as real
  }

  ghost predicate Stepped<T>(jobs: seq<Job<T>>, chunks: seq<seq<T>>, now: real, interval: real, step: real) {
    |jobs| == |chunks| && forall k :: 0 <= k < |jobs| ==> jobs[k] == Job(now + Times(k, step), interval, chunks[k])
  }

  lemma SpreadEvenly<T>(jobs: seq<Job<T>>, now: real, interval: real, step: real, targets: seq<T>, chunk: nat)
    requires chunk > 0 && interval > 0.0 && targets != []
    requires var chunks := Chunks(targets, chunk); Stepped(jobs, chunks, now, interval, step)
    requires |jobs| > 0 && step == interval / |jobs| as real
    ensures EvenlySpread(jobs, now, interval, targets, chunk)
  {
    var chunks := Chunks(targets, chunk);
    assert TargetsOf(jobs) == chunks;
    assert forall i :: 0 <= i < |chunks| ==> chunks[i] in chunks;
    Divided(interval, |jobs|);
    forall i | 0 <= i < |jobs|
      ensures now <= jobs[i].due < now + interval
      ensures i > 0 ==> jobs[i].due - jobs[i - 1].due == step
    {
      SteppedAt(jobs, chunks, now, interval, step, i);
    }
  }

  lemma SteppedAt<T>(jobs: seq<Job<T>>, chunks: seq<seq<T>>, now: real, interval: real, step: real, i: nat)
    requires Stepped(jobs, chunks, now, interval, step) && i < |jobs|
    requires step > 0.0 && Times(|jobs|, step) == interval
    ensures now <= jobs[i].due < now + interval
    ensures i > 0 ==> jobs[i].due - jobs[i - 1].due == step
  {
    TimesGrows(i + 1, |jobs|, step);
    assert Times(i + 1, step) == Times(i, step) + step;
  }

  lemma Divided(interval: real, n: nat)
    requires interval > 0.0 && n > 0
    ensures interval / n as real > 0.0 && Times(n, interval / n as real) == interval
  {
    TimesIs(n, interval / n as real);
  }

  // ------------------------------------------------------------ runs

  /** The loop waits until the first job is due, runs it, and so on: the times the waits ended. */
  function Runs<T>(jobs: seq<Job<T>>, nows: seq<real>): (r: seq<Job<T>>)
    requires jobs != []
    ensures |r| == |jobs|
    decreases |nows|
  {
    if nows == [] then jobs else Runs(Next(jobs, nows[0]), nows[1..])
  }

  /** How often job `i` runs. */
  function Count<T>(jobs: seq<Job<T>>, nows: seq<real>, i: nat): nat
    requires jobs != []
    decreases |nows|
  {
    if nows == [] then 0 else
      (if First(jobs) == i then 1 else 0) + Count(Next(jobs, nows[0]), nows[1..], i)
  }

  ghost predicate Periodic<T>(jobs: seq<Job<T>>) {
    forall i :: 0 <= i < |jobs| ==> jobs[i].period > 0.0
  }

  /** Each run puts a job's due time off by a period at least. */
  lemma {:induction false} DueGrows<T>(jobs: seq<Job<T>>, nows: seq<real>, i: nat)
    requires Periodic(jobs) && i < |jobs|
    ensures Runs(jobs, nows)[i].due >= jobs[i].due + Times(Count(jobs, nows, i), jobs[i].period)
    decreases |nows|
  {
    if nows != [] {
      DueGrows(Next(jobs, nows[0]), nows[1..], i);
    }
  }

  /** Each wait ends at the job's due time or within a period of it: the loop keeps up. */
  ghost predicate KeepsUp<T>(jobs: seq<Job<T>>, nows: seq<real>)
    decreases |nows|
  {
    nows == [] || (jobs != [] && InTime(jobs[First(jobs)], nows[0]) && KeepsUp(Next(jobs, nows[0]), nows[1..]))
  }

  predicate InTime<T>(job: Job<T>, now: real) {
    job.due <= now <= job.due + job.period
  }

  /** With a loop that keeps up, each run puts its job off by a period exactly. */
  lemma {:induction false} OnSchedule<T>(jobs: seq<Job<T>>, nows: seq<real>, i: nat)
    requires i < |jobs| && KeepsUp(jobs, nows)
    ensures Runs(jobs, nows)[i] == jobs[i].(due := jobs[i].due + Times(Count(jobs, nows, i), jobs[i].period))
    decreases |nows|
  {
    if nows != [] {
      OnSchedule(Next(jobs, nows[0]), nows[1..], i);
    }
  }

  /** In any case by no more than a period from where it was due or run, whichever is later. */
  lemma PutsOff<T>(jobs: seq<Job<T>>, now: real)
    requires jobs != [] && Periodic(jobs)
    ensures PutOff(jobs, Next(jobs, now), now)
    ensures forall i: nat :: Earliest(jobs, i) ==>
              Next(jobs, now)[i].due - jobs[i].period <= if jobs[i].due < now then now else jobs[i].due
  {
    assert Earliest(jobs, First(jobs));
    forall i: nat | Earliest(jobs, i)
      ensures i == First(jobs)
    {
      EarliestOnce(jobs, i, First(jobs));
    }
  }

  /** So each job runs exactly as often as its period fits: with none due any more up to `d`, and no wait ended past
      it, once when first due and once per period from there. */
  lemma RunsAsOften<T>(jobs: seq<Job<T>>, nows: seq<real>, i: nat, d: real)
    requires Periodic(jobs) && i < |jobs| && KeepsUp(jobs, nows)
    requires Runs(jobs, nows)[i].due > d && forall k :: 0 <= k < |nows| ==> nows[k] <= d
    ensures Count(jobs, nows, i) == Turns(jobs[i], d)
  {
    OnSchedule(jobs, nows, i);
    LastRun(jobs, nows, i, d);
    TurnsAre(jobs[i], d, Count(jobs, nows, i));
  }

  lemma TurnsAre<T>(job: Job<T>, d: real, n: nat)
    requires job.period > 0.0 && job.due + Times(n, job.period) > d
    requires n > 0 ==> job.due + Times(n - 1, job.period) <= d
    ensures Turns(job, d) == n
  {
    if n > 0 {
      TimesIs(n, job.period);
      TimesIs(n - 1, job.period);
      Fits(n, job.period, d - job.due, Times(n, job.period), Times(n - 1, job.period));
    }
  }

  lemma Fits(n: nat, p: real, room: real, more: real, less: real)
    requires n > 0 && p > 0.0 && more == n as real * p && less == (n - 1) as real * p && less <= room < more
    ensures room >= 0.0 && (room / p).Floor == n - 1
  {
    var q := room / p;
    assert q * p == room;
    if q >= n as real {
      ProductAtLeast(n as real, q, p);
    }
    if q < (n - 1) as real {
      Product(q, (n - 1) as real, p);
    }
  }

  lemma ProductAtLeast(a: real, b: real, p: real)
    requires a <= b && p > 0.0
    ensures a * p <= b * p
  {
    if a < b {
      Product(a, b, p);
    }
  }

  /** A job run was due by then. */
  lemma {:induction false} LastRun<T>(jobs: seq<Job<T>>, nows: seq<real>, i: nat, d: real)
    requires i < |jobs| && KeepsUp(jobs, nows) && forall k :: 0 <= k < |nows| ==> nows[k] <= d
    ensures Count(jobs, nows, i) > 0 ==> jobs[i].due + Times(Count(jobs, nows, i) - 1, jobs[i].period) <= d
    decreases |nows|
  {
    if nows != [] {
      LastRun(Next(jobs, nows[0]), nows[1..], i, d);
    }
  }

  /** No burst: with job `i` run at `start`, and `m` more runs of it since, the next comes `m` periods after
      `start` at the earliest. */
  lemma NoBurst<T>(jobs: seq<Job<T>>, start: real, nows: seq<real>, now: real, i: nat)
    requires Periodic(jobs) && i < |jobs| && First(jobs) == i
    requires var r := Runs(Next(jobs, start), nows); First(r) == i && r[i].due <= now
    ensures now >= start + Times(Count(Next(jobs, start), nows, i), jobs[i].period)
  {
    DueGrows(Next(jobs, start), nows, i);
  }

  /** The most runs of job `i` before one due at `d`. */
  function Turns<T>(job: Job<T>, d: real): nat
    requires job.period > 0.0
  {
    if job.due <= d then
      assert (d - job.due) / job.period >= 0.0;
      ((d - job.due) / job.period).Floor + 1
    else 0
  }

  lemma TurnsLess<T>(job: Job<T>, d: real, due: real)
    requires job.period > 0.0 && job.due <= d && due >= job.due + job.period
    ensures Turns(job.(due := due), d) + 1 <= Turns(job, d)
  {
    AtLeastOneMore(d - job.due, d - due, job.period);
  }

  lemma AtLeastOneMore(x: real, y: real, p: real)
    requires p > 0.0 && x >= y + p
    ensures x / p >= y / p + 1.0 && (x / p).Floor >= (y / p).Floor + 1
  {
    var a, b := x / p, y / p;
    assert a * p == x && b * p == y;
    if a < b + 1.0 {
      Product(a, b + 1.0, p);
    }
  }

  lemma Product(a: real, b: real, p: real)
    requires a < b && p > 0.0
    ensures a * p < b * p
  {}

  /** No starvation: until job `j`, due at `d`, runs, each other job runs at most as often as its own
      period fits before `d`, and once more. */
  lemma {:induction false} NoStarvation<T>(jobs: seq<Job<T>>, nows: seq<real>, i: nat, j: nat)
    requires Periodic(jobs) && i < |jobs| && j < |jobs| && Count(jobs, nows, j) == 0
    ensures Count(jobs, nows, i) <= Turns(jobs[i], jobs[j].due)
    decreases |nows|
  {
    if nows != [] {
      var next := Next(jobs, nows[0]);
      NoStarvation(next, nows[1..], i, j);
      if First(jobs) == i {
        TurnsLess(jobs[i], jobs[j].due, next[i].due);
      }
    }
  }

  /** The turns of all jobs together. */
  function AllTurns<T>(jobs: seq<Job<T>>, d: real): nat
    requires forall i :: 0 <= i < |jobs| ==> jobs[i].period > 0.0
  {
    if jobs == [] then 0 else
      var n := |jobs| - 1;
      AllTurns(jobs[..n], d) + Turns(jobs[n], d)
  }

  lemma {:induction false} OneTurnLess<T>(jobs: seq<Job<T>>, d: real, i: nat, due: real)
    requires Periodic(jobs) && i < |jobs| && jobs[i].due <= d && due >= jobs[i].due + jobs[i].period
    ensures AllTurns(jobs[i := jobs[i].(due := due)], d) + 1 <= AllTurns(jobs, d)
    decreases |jobs|
  {
    var n, r := |jobs| - 1, jobs[i := jobs[i].(due := due)];
    if i == n {
      assert r[..n] == jobs[..n];
      TurnsLess(jobs[n], d, due);
    } else {
      assert r[..n] == jobs[..n][i := jobs[i].(due := due)];
      OneTurnLess(jobs[..n], d, i, due);
    }
  }

  /** So every job runs: within as many requests as all the turns before its due time. */
  lemma {:induction false} EveryJobRuns<T>(jobs: seq<Job<T>>, nows: seq<real>, j: nat)
    requires Periodic(jobs) && j < |jobs| && |nows| >= AllTurns(jobs, jobs[j].due)
    ensures Count(jobs, nows, j) > 0
    decreases |nows|
  {
    TurnsOfItself(jobs, j);
    var next, i := Next(jobs, nows[0]), First(jobs);
    if i != j {
      OneTurnLess(jobs, jobs[j].due, i, next[i].due);
      TurnsOfItself(next, j);
      EveryJobRuns(next, nows[1..], j);
    }
  }

  lemma {:induction false} TurnsOfItself<T>(jobs: seq<Job<T>>, j: nat)
    requires Periodic(jobs) && j < |jobs|
    ensures AllTurns(jobs, jobs[j].due) > 0
    decreases |jobs|
  {
    var n := |jobs| - 1;
    if j < n {
      TurnsOfItself(jobs[..n], j);
    }
  }
}
