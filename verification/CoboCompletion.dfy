/** Every run of the collectives can be carried on until every rank has completed as many
    calls as one likes: there is no deadlock, and each call takes a bounded number of steps. */
module CoboCompletion {
  import opened CoboCollectives

  // An upper bound on the steps a rank with this many children still has in its call.
  function StepsLeft(kids: nat, pc: Pc): nat
  {
    match pc
    case Out => 2 * kids + 4
    case Collect(i) => i + kids + 3
    case AwaitDown => kids + 2
    case Forward(j) => if j <= kids then kids - j + 1 else 1
  }

  function Times(a: nat, b: nat): nat
  {
    if a == 0 then 0 else b + Times(a - 1, b)
  }

  // The steps a rank still has before it has completed a number of calls.
  function RankWork<T>(job: Job<T>, r: int, me: Rank<T>, calls: nat): nat
    requires 0 <= r < job.n
  {
    if |me.outs| >= calls then 0
    else Times(calls - |me.outs| - 1, StepsLeft(NumKids(job, r), Out)) + StepsLeft(NumKids(job, r), me.pc)
  }

  // The same for the first m ranks together.
  function Work<T>(job: Job<T>, ranks: seq<Rank<T>>, calls: nat, m: nat): nat
    requires |ranks| == job.n && m <= job.n
  {
    if m == 0 then 0 else Work(job, ranks, calls, m - 1) + RankWork(job, m - 1, ranks[m - 1], calls)
  }

  /** Every step of a rank that has calls left brings it closer to completing them. */
  lemma StepIsProgress<T(!new)>(job: Job<T>, s: State<T>, r: int, a: Action, calls: nat)
    requires Shape(job, s) && 0 <= r < job.n && Enabled(job, s, r, a) && |s.ranks[r].outs| < calls
    ensures RankWork(job, r, Apply(job, s, r, a).ranks[r], calls) < RankWork(job, r, s.ranks[r], calls)
    ensures forall x :: 0 <= x < job.n && x != r ==> Apply(job, s, r, a).ranks[x] == s.ranks[x]
  {
  }

  lemma {:induction false} WorkDrops<T>(job: Job<T>, ranks: seq<Rank<T>>, ranks': seq<Rank<T>>, calls: nat, r: int, m: nat)
    requires |ranks| == |ranks'| == job.n && m <= job.n && 0 <= r < job.n
    requires forall x :: 0 <= x < job.n && x != r ==> ranks'[x] == ranks[x]
    requires RankWork(job, r, ranks'[r], calls) < RankWork(job, r, ranks[r], calls)
    ensures r < m ==> Work(job, ranks', calls, m) < Work(job, ranks, calls, m)
    ensures r >= m ==> Work(job, ranks', calls, m) == Work(job, ranks, calls, m)
  {
    if m > 0 {
      WorkDrops(job, ranks, ranks', calls, r, m - 1);
    }
  }

  ghost predicate AllDone<T(!new)>(job: Job<T>, s: State<T>, calls: nat)
  {
    Shape(job, s) && forall r :: 0 <= r < job.n ==> |s.ranks[r].outs| >= calls
  }

  /** Whatever has happened so far, the run can be carried on until every rank has completed
      the given number of calls. */
  lemma {:induction false} EveryRunCompletes<T(!new)>(job: Job<T>, tr: seq<State<T>>, calls: nat) returns (tr': seq<State<T>>)
    requires Run(job, tr) && Sound(job) && Shape(job, tr[|tr| - 1])
    ensures Run(job, tr') && tr <= tr' && AllDone(job, tr'[|tr'| - 1], calls)
    decreases Work(job, tr[|tr| - 1].ranks, calls, job.n)
  {
    var s := tr[|tr| - 1];
    if AllDone(job, s, calls) {
      tr' := tr;
    } else {
      var s' := Onward(job, tr, calls);
      ExtendRun(job, tr, s');
      tr' := EveryRunCompletes(job, tr + [s'], calls);
    }
  }

  // A step that brings the run closer.
  lemma Onward<T(!new)>(job: Job<T>, tr: seq<State<T>>, calls: nat) returns (s': State<T>)
    requires Run(job, tr) && Sound(job) && Shape(job, tr[|tr| - 1]) && !AllDone(job, tr[|tr| - 1], calls)
    ensures Next(job, tr[|tr| - 1], s') && Shape(job, s')
    ensures Work(job, s'.ranks, calls, job.n) < Work(job, tr[|tr| - 1].ranks, calls, job.n)
  {
    var s := tr[|tr| - 1];
    var x := NeverStuck(job, tr, |tr| - 1, calls);
    var a :| Enabled(job, s, x, a);
    s' := Apply(job, s, x, a);
    StepIsProgress(job, s, x, a, calls);
    WorkDrops(job, s.ranks, s'.ranks, calls, x, job.n);
  }

  lemma ExtendRun<T(!new)>(job: Job<T>, tr: seq<State<T>>, s': State<T>)
    requires Run(job, tr) && Next(job, tr[|tr| - 1], s')
    ensures Run(job, tr + [s'])
  {
    var tr' := tr + [s'];
    forall i | 0 <= i < |tr'| - 1
      ensures Next(job, tr'[i], tr'[i + 1])
    {
      if i < |tr| - 1 {
        assert Next(job, tr[i], tr[i + 1]);
      }
    }
  }

  /** In particular, every job has a run in which every rank completes that many calls. */
  lemma CompleteRunExists<T(!new)>(job: Job<T>, calls: nat) returns (tr: seq<State<T>>)
    requires job.n > 0 && Sound(job)
    ensures Run(job, tr) && AllDone(job, tr[|tr| - 1], calls)
  {
    var rank := Rank(Out, job.input(0, 0), []);
    var start := State(seq(job.n, _ => rank), seq(job.n, _ => []), seq(job.n, _ => []));
    tr := EveryRunCompletes(job, [start], calls);
  }
}
