/** The work queue of a summary run: two files of jobs shared by concurrent
    drivers, as a machine whose steps interleave at every lock, call and send. */
module Summaries {
  import opened Ordre

  const MAX_ATTEMPTS: nat := 3
  const MAX_UNAVAILABLE: nat := 8
  const CHANNEL: nat := 64

  datatype Shape = Collage | Rewrite {
    function Other(): Shape {
      match this case Collage => Rewrite case Rewrite => Collage
    }
  }

  datatype Job = Job(decision: int, shape: Shape, attempts: nat, unavailable: nat)

  datatype Door = Gemini | Mistral | Luna

  /** A door and the engine it has for each shape, if any. */
  datatype Pool = Pool(door: Door, rewrite: Option<nat>, collage: Option<nat>) {
    function EngineFor(shape: Shape): Option<nat> {
      match shape case Rewrite => rewrite case Collage => collage
    }

    predicate Serves(shape: Shape) {
      EngineFor(shape).Some?
    }

    function Prefers(): Shape {
      if door.Luna? then Collage else Rewrite
    }

    function Rank(): nat {
      if door.Luna? then 0 else 1
    }
  }

  /** One file per shape. */
  datatype Files = Files(collages: seq<Job>, rewrites: seq<Job>) {
    function Of(shape: Shape): seq<Job> {
      match shape case Collage => collages case Rewrite => rewrites
    }

    function With(shape: Shape, jobs: seq<Job>): Files {
      match shape case Collage => this.(collages := jobs) case Rewrite => this.(rewrites := jobs)
    }

    function PushBack(job: Job): Files {
      With(job.shape, Of(job.shape) + [job])
    }

    function PushFront(job: Job): Files {
      With(job.shape, [job] + Of(job.shape))
    }

    /** The shape a door is served: the first it prefers, has an engine for and
        finds a job in. */
    function Served(pool: Pool): Option<Shape> {
      var first := pool.Prefers();
      if pool.Serves(first) && Of(first) != [] then Some(first)
      else if pool.Serves(first.Other()) && Of(first.Other()) != [] then Some(first.Other())
      else None
    }

    function Len(): nat {
      |collages| + |rewrites|
    }
  }

  /** The files as the program keeps them, updated in place under the lock. */
  class SharedFiles {
    var collages: seq<Job>
    var rewrites: seq<Job>

    function Value(): Files
      reads this
    {
      Files(collages, rewrites)
    }

    constructor ()
      ensures Value() == Files([], [])
    {
      collages, rewrites := [], [];
    }

    method PushBack(job: Job)
      modifies this
      ensures Value() == old(Value()).PushBack(job)
    {
      match job.shape
      case Collage => collages := collages + [job];
      case Rewrite => rewrites := rewrites + [job];
    }

    method PushFront(job: Job)
      modifies this
      ensures Value() == old(Value()).PushFront(job)
    {
      match job.shape
      case Collage => collages := [job] + collages;
      case Rewrite => rewrites := [job] + rewrites;
    }

    method PopFront(shape: Shape) returns (job: Option<Job>)
      modifies this
      ensures job == if old(Value()).Of(shape) == [] then None else Some(old(Value()).Of(shape)[0])
      ensures Value() == if job.None? then old(Value()) else old(Value()).With(shape, old(Value()).Of(shape)[1..])
    {
      match shape
      case Collage =>
        if collages == [] { return None; }
        job := Some(collages[0]);
        collages := collages[1..];
      case Rewrite =>
        if rewrites == [] { return None; }
        job := Some(rewrites[0]);
        rewrites := rewrites[1..];
    }

    /** The next job this door has an engine for, its preferred shape first. */
    method Take(pool: Pool) returns (job: Option<Job>)
      modifies this
      ensures match old(Value()).Served(pool)
              case None => job == None && Value() == old(Value())
              case Some(shape) => job == Some(old(Value()).Of(shape)[0]) && Value() == old(Value()).With(shape, old(Value()).Of(shape)[1..])
    {
      var first := pool.Prefers();
      job := None;
      if pool.Serves(first) { job := PopFront(first); }
      if job.None? && pool.Serves(first.Other()) { job := PopFront(first.Other()); }
    }

    method Len() returns (n: nat)
      ensures n == Value().Len()
    {
      n := |collages| + |rewrites|;
    }
  }

  // ---- The machine ----------------------------------------------------------

  datatype Doors = ByRank | All

  /** Where a driver stands. `Cleared` lies between the reading of the stop flag
      and the lock; `Leaving` between its last job and the count of its rank. */
  datatype Phase = Gated | Ready | Cleared | Calling(job: Job) | Sending(job: Job) | Leaving | Finished

  datatype Attempt = Written | Busy | Handover | Unavailable | Failed

  /** The pool of each driver, and which doors pull at once. */
  datatype Config = Config(pools: seq<Pool>, doors: Doors)

  datatype State = State(
    files: Files,
    drivers: seq<Phase>,
    ahead: int,
    channel: seq<int>,
    stopping: bool,
    open: bool,
    handed: bool,
    written: multiset<int>,
    dropped: multiset<int>,
    lost: multiset<int>)

  datatype Step =
    | Pass(d: nat)
    | Check(d: nat)
    | Take(d: nat)
    | Answer(d: nat, attempt: Attempt)
    | Send(d: nat)
    | Leave(d: nat)
    | Receive
    | Stop
    | Close

  function Start(c: Config, pool: Pool): Phase {
    if c.doors == ByRank && pool.Rank() > 0 then Gated else Ready
  }

  /** Drivers of rank 0 not yet finished. */
  function Lead(pools: seq<Pool>, drivers: seq<Phase>): nat
    requires |pools| == |drivers|
  {
    if drivers == [] then 0 else
    var n := |drivers| - 1;
    Lead(pools[..n], drivers[..n]) + if pools[n].Rank() == 0 && drivers[n] != Finished then 1 else 0
  }

  function Fill(jobs: seq<Job>): Files {
    if jobs == [] then Files([], []) else Fill(jobs[..|jobs|-1]).PushBack(jobs[|jobs|-1])
  }

  /** A batch about to be served: every job fresh, every driver at its start. */
  function Init(c: Config, jobs: seq<Job>): State {
    var drivers := seq(|c.pools|, d requires 0 <= d < |c.pools| => Start(c, c.pools[d]));
    State(Fill(jobs), drivers, Lead(c.pools, drivers), [], false, true, false, multiset{}, multiset{}, multiset{})
  }

  predicate Fresh(jobs: seq<Job>) {
    forall j | j in jobs :: j.attempts == 0 && j.unavailable == 0
  }

  predicate Enabled(c: Config, s: State, t: Step) {
    |s.drivers| == |c.pools| &&
    match t
    case Pass(d) => d < |s.drivers| && s.drivers[d].Gated? && s.ahead <= 0
    case Check(d) => d < |s.drivers| && s.drivers[d].Ready?
    case Take(d) => d < |s.drivers| && s.drivers[d].Cleared?
    case Answer(d, _) => d < |s.drivers| && s.drivers[d].Calling?
    case Send(d) => d < |s.drivers| && s.drivers[d].Sending? && (s.open ==> |s.channel| < CHANNEL)
    case Leave(d) => d < |s.drivers| && s.drivers[d].Leaving?
    case Receive => s.open && s.channel != []
    case Stop => !s.stopping
    case Close => s.open
  }

  function At(s: State, d: nat, p: Phase): State
    requires d < |s.drivers|
  {
    s.(drivers := s.drivers[d := p])
  }

  function Taken(s: State, d: nat, pool: Pool): State
    requires d < |s.drivers|
  {
    match s.files.Served(pool)
    case None => At(s, d, Leaving)
    case Some(shape) =>
      var jobs := s.files.Of(shape);
      At(s, d, Calling(jobs[0])).(files := s.files.With(shape, jobs[1..]))
  }

  /** A refused job is dropped once its tries are spent, else goes to the back. */
  function Refused(s: State, d: nat, again: Job, spent: bool): State
    requires d < |s.drivers|
  {
    if spent then At(s, d, Ready).(dropped := s.dropped + multiset{again.decision})
    else At(s, d, Ready).(files := s.files.PushBack(again))
  }

  function Answered(s: State, d: nat, attempt: Attempt): State
    requires d < |s.drivers| && s.drivers[d].Calling?
  {
    var job := s.drivers[d].job;
    match attempt
    case Written => At(s, d, Sending(job))
    case Busy => At(s, d, Ready).(files := s.files.PushFront(job))
    case Handover => At(s, d, Leaving).(files := s.files.PushFront(job), handed := true)
    case Unavailable =>
      var again := job.(unavailable := job.unavailable + 1);
      Refused(s, d, again, again.unavailable >= MAX_UNAVAILABLE)
    case Failed =>
      var again := job.(attempts := job.attempts + 1);
      Refused(s, d, again, again.attempts >= MAX_ATTEMPTS)
  }

  function Apply(c: Config, s: State, t: Step): State
    requires Enabled(c, s, t)
  {
    match t
    case Pass(d) => At(s, d, Ready)
    case Check(d) => At(s, d, if s.stopping then Leaving else Cleared)
    case Take(d) => Taken(s, d, c.pools[d])
    case Answer(d, attempt) => Answered(s, d, attempt)
    case Send(d) =>
      var id := s.drivers[d].job.decision;
      if s.open then At(s, d, Ready).(channel := s.channel + [id])
      else At(s, d, Leaving).(lost := s.lost + multiset{id})
    case Leave(d) => At(s, d, Finished).(ahead := if c.pools[d].Rank() == 0 then s.ahead - 1 else s.ahead)
    case Receive => s.(channel := s.channel[1..], written := s.written + multiset{s.channel[0]})
    case Stop => s.(stopping := true)
    case Close => s.(open := false, channel := [], lost := s.lost + multiset(s.channel))
  }

  /** A run from `s`: each step enabled where it is taken. */
  predicate Legal(c: Config, s: State, steps: seq<Step>)
    decreases |steps|, 0
  {
    steps == [] ||
    (Legal(c, s, steps[..|steps|-1]) && Enabled(c, After(c, s, steps[..|steps|-1]), steps[|steps|-1]))
  }

  function After(c: Config, s: State, steps: seq<Step>): State
    requires Legal(c, s, steps)
    decreases |steps|, 1
  {
    if steps == [] then s else Apply(c, After(c, s, steps[..|steps|-1]), steps[|steps|-1])
  }
}
