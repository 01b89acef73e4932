/** What holds in every state a summary run can reach, however its drivers
    interleave and whatever the models answer. */
module SummaryRuns {
  import opened Ordre
  import opened Summaries

  // ---- Every decision in exactly one place -----------------------------------

  /** How often decision `x` occurs among `jobs`. */
  function Among(jobs: seq<Job>, x: int): nat {
    if jobs == [] then 0 else Among(jobs[..|jobs|-1], x) + if jobs[|jobs|-1].decision == x then 1 else 0
  }

  function InHand(p: Phase, x: int): nat {
    if (p.Calling? || p.Sending?) && p.job.decision == x then 1 else 0
  }

  function Held(drivers: seq<Phase>, x: int): nat {
    if drivers == [] then 0 else Held(drivers[..|drivers|-1], x) + InHand(drivers[|drivers|-1], x)
  }

  function Queued(f: Files, x: int): nat {
    Among(f.collages, x) + Among(f.rewrites, x)
  }

  /** How often decision `x` occurs over every place a job can be. */
  function Everywhere(s: State, x: int): nat {
    Queued(s.files, x) + Held(s.drivers, x) + multiset(s.channel)[x] + s.written[x] + s.dropped[x] + s.lost[x]
  }

  lemma {:induction false} AmongConcat(a: seq<Job>, b: seq<Job>, x: int)
    ensures Among(a + b, x) == Among(a, x) + Among(b, x)
  {
    if b == [] {
      assert a + b == a;
    } else {
      assert (a + b)[..|a + b|-1] == a + b[..|b|-1];
      AmongConcat(a, b[..|b|-1], x);
    }
  }

  lemma {:induction false} HeldUpdate(drivers: seq<Phase>, d: nat, p: Phase, x: int)
    requires d < |drivers|
    ensures Held(drivers[d := p], x) + InHand(drivers[d], x) == Held(drivers, x) + InHand(p, x)
  {
    var n := |drivers| - 1;
    if d == n {
      assert drivers[d := p][..n] == drivers[..n];
    } else {
      assert drivers[d := p][..n] == drivers[..n][d := p];
      HeldUpdate(drivers[..n], d, p, x);
    }
  }

  lemma QueuedPush(f: Files, job: Job, x: int)
    ensures Queued(f.PushBack(job), x) == Queued(f, x) + (if job.decision == x then 1 else 0) == Queued(f.PushFront(job), x)
  {
    AmongConcat(f.Of(job.shape), [job], x);
    AmongConcat([job], f.Of(job.shape), x);
    assert Among([job], x) == if job.decision == x then 1 else 0;
  }

  lemma QueuedPop(f: Files, shape: Shape, x: int)
    requires f.Of(shape) != []
    ensures Queued(f, x) == Queued(f.With(shape, f.Of(shape)[1..]), x) + if f.Of(shape)[0].decision == x then 1 else 0
  {
    var jobs := f.Of(shape);
    assert jobs == [jobs[0]] + jobs[1..];
    AmongConcat([jobs[0]], jobs[1..], x);
    assert Among([jobs[0]], x) == if jobs[0].decision == x then 1 else 0;
  }

  lemma ChannelPop(channel: seq<int>, x: int)
    requires channel != []
    ensures multiset(channel)[x] == multiset(channel[1..])[x] + if channel[0] == x then 1 else 0
  {
    assert channel == [channel[0]] + channel[1..];
  }

  lemma MoveConserves(s: State, d: nat, p: Phase, x: int)
    requires d < |s.drivers| && !s.drivers[d].Calling? && !s.drivers[d].Sending? && !p.Calling? && !p.Sending?
    ensures Everywhere(At(s, d, p), x) == Everywhere(s, x)
  {
    HeldUpdate(s.drivers, d, p, x);
  }

  lemma SendConserves(c: Config, s: State, d: nat, x: int)
    requires Enabled(c, s, Send(d))
    ensures Everywhere(Apply(c, s, Send(d)), x) == Everywhere(s, x)
  {
    HeldUpdate(s.drivers, d, if s.open then Ready else Leaving, x);
  }

  lemma LeaveConserves(c: Config, s: State, d: nat, x: int)
    requires Enabled(c, s, Leave(d))
    ensures Everywhere(Apply(c, s, Leave(d)), x) == Everywhere(s, x)
  {
    HeldUpdate(s.drivers, d, Finished, x);
  }

  /** No step creates, loses track of or duplicates a decision. */
  lemma StepConserves(c: Config, s: State, t: Step, x: int)
    requires Enabled(c, s, t)
    ensures Everywhere(Apply(c, s, t), x) == Everywhere(s, x)
  {
    match t
    case Pass(d) => MoveConserves(s, d, Ready, x);
    case Check(d) => MoveConserves(s, d, if s.stopping then Leaving else Cleared, x);
    case Take(d) => TakeConserves(s, d, c.pools[d], x);
    case Answer(d, attempt) => AnswerConserves(s, d, attempt, x);
    case Send(d) => SendConserves(c, s, d, x);
    case Leave(d) => LeaveConserves(c, s, d, x);
    case Receive => ChannelPop(s.channel, x);
    case Stop =>
    case Close =>
  }

  lemma TakeConserves(s: State, d: nat, pool: Pool, x: int)
    requires d < |s.drivers| && s.drivers[d].Cleared?
    ensures Everywhere(Taken(s, d, pool), x) == Everywhere(s, x)
  {
    if s.files.Served(pool).Some? {
      var shape := s.files.Served(pool).value;
      QueuedPop(s.files, shape, x);
      HeldUpdate(s.drivers, d, Calling(s.files.Of(shape)[0]), x);
    } else {
      HeldUpdate(s.drivers, d, Leaving, x);
    }
  }

  lemma DroppedCount(dropped: multiset<int>, id: int, x: int)
    ensures (dropped + multiset{id})[x] == dropped[x] + if id == x then 1 else 0
  {
  }

  lemma RefusedConserves(s: State, d: nat, again: Job, spent: bool, x: int)
    requires d < |s.drivers| && s.drivers[d].Calling? && s.drivers[d].job.decision == again.decision
    ensures Everywhere(Refused(s, d, again, spent), x) == Everywhere(s, x)
  {
    HeldUpdate(s.drivers, d, Ready, x);
    if spent {
      DroppedCount(s.dropped, again.decision, x);
    } else {
      QueuedPush(s.files, again, x);
    }
  }

  lemma AnsweredRefused(s: State, d: nat)
    requires d < |s.drivers| && s.drivers[d].Calling?
    ensures var again := s.drivers[d].job.(unavailable := s.drivers[d].job.unavailable + 1);
            Answered(s, d, Unavailable) == Refused(s, d, again, again.unavailable >= MAX_UNAVAILABLE)
    ensures var again := s.drivers[d].job.(attempts := s.drivers[d].job.attempts + 1);
            Answered(s, d, Failed) == Refused(s, d, again, again.attempts >= MAX_ATTEMPTS)
  {
  }

  lemma AnswerConserves(s: State, d: nat, attempt: Attempt, x: int)
    requires d < |s.drivers| && s.drivers[d].Calling?
    ensures Everywhere(Answered(s, d, attempt), x) == Everywhere(s, x)
  {
    match attempt
    case Written => HeldUpdate(s.drivers, d, Sending(s.drivers[d].job), x);
    case Busy => HandBackConserves(s, d, Ready, s.handed, x);
    case Handover => HandBackConserves(s, d, Leaving, true, x);
    case Unavailable => UnavailableConserves(s, d, x);
    case Failed => FailedConserves(s, d, x);
  }

  lemma HandBackConserves(s: State, d: nat, p: Phase, handed: bool, x: int)
    requires d < |s.drivers| && s.drivers[d].Calling? && (p.Ready? || p.Leaving?)
    ensures Everywhere(At(s, d, p).(files := s.files.PushFront(s.drivers[d].job), handed := handed), x) == Everywhere(s, x)
  {
    HeldUpdate(s.drivers, d, p, x);
    QueuedPush(s.files, s.drivers[d].job, x);
  }

  lemma UnavailableConserves(s: State, d: nat, x: int)
    requires d < |s.drivers| && s.drivers[d].Calling?
    ensures Everywhere(Answered(s, d, Unavailable), x) == Everywhere(s, x)
  {
    var again := s.drivers[d].job.(unavailable := s.drivers[d].job.unavailable + 1);
    AnsweredRefused(s, d);
    RefusedConserves(s, d, again, again.unavailable >= MAX_UNAVAILABLE, x);
  }

  lemma FailedConserves(s: State, d: nat, x: int)
    requires d < |s.drivers| && s.drivers[d].Calling?
    ensures Everywhere(Answered(s, d, Failed), x) == Everywhere(s, x)
  {
    var again := s.drivers[d].job.(attempts := s.drivers[d].job.attempts + 1);
    AnsweredRefused(s, d);
    RefusedConserves(s, d, again, again.attempts >= MAX_ATTEMPTS, x);
  }

  lemma {:induction false} FillAmong(jobs: seq<Job>, x: int)
    ensures Queued(Fill(jobs), x) == Among(jobs, x)
  {
    if jobs != [] {
      FillAmong(jobs[..|jobs|-1], x);
      QueuedPush(Fill(jobs[..|jobs|-1]), jobs[|jobs|-1], x);
    }
  }

  lemma {:induction false} NoneHeld(drivers: seq<Phase>, x: int)
    requires forall d | 0 <= d < |drivers| :: !drivers[d].Calling? && !drivers[d].Sending?
    ensures Held(drivers, x) == 0
  {
    if drivers != [] { NoneHeld(drivers[..|drivers|-1], x); }
  }

  /** In every reachable state a decision occurs, over every place a job can be,
      exactly as often as it was enqueued: queued, in one driver's hands, on its
      way to the store, written, dropped, or lost with the receiver. */
  lemma {:induction false} JobsConserved(c: Config, jobs: seq<Job>, steps: seq<Step>, x: int)
    requires Legal(c, Init(c, jobs), steps)
    ensures Everywhere(After(c, Init(c, jobs), steps), x) == Among(jobs, x)
    decreases |steps|
  {
    if steps == [] {
      FillAmong(jobs, x);
      NoneHeld(Init(c, jobs).drivers, x);
    } else {
      JobsConserved(c, jobs, steps[..|steps|-1], x);
      StepConserves(c, After(c, Init(c, jobs), steps[..|steps|-1]), steps[|steps|-1], x);
    }
  }

  // ---- Retries, shapes, engines ------------------------------------------------

  predicate Retriable(job: Job) {
    job.attempts < MAX_ATTEMPTS && job.unavailable < MAX_UNAVAILABLE
  }

  /** Each file holds jobs of its shape that may still be tried, and no driver
      holds a shape its door has no engine for. */
  predicate Sound(c: Config, s: State) {
    && |s.drivers| == |c.pools|
    && (forall shape: Shape, k | 0 <= k < |s.files.Of(shape)| :: s.files.Of(shape)[k].shape == shape && Retriable(s.files.Of(shape)[k]))
    && (forall d | 0 <= d < |s.drivers| && (s.drivers[d].Calling? || s.drivers[d].Sending?) ::
          Retriable(s.drivers[d].job) && c.pools[d].Serves(s.drivers[d].job.shape))
  }

  lemma PushSound(c: Config, s: State, job: Job)
    requires Sound(c, s) && Retriable(job)
    ensures Sound(c, s.(files := s.files.PushBack(job))) && Sound(c, s.(files := s.files.PushFront(job)))
  {
    var (b, f) := (s.files.PushBack(job), s.files.PushFront(job));
    forall shape: Shape, k | 0 <= k < |b.Of(shape)| ensures b.Of(shape)[k].shape == shape && Retriable(b.Of(shape)[k]) {
      if k < |s.files.Of(shape)| { assert b.Of(shape)[k] == s.files.Of(shape)[k]; }
    }
    forall shape: Shape, k | 0 <= k < |f.Of(shape)| ensures f.Of(shape)[k].shape == shape && Retriable(f.Of(shape)[k]) {
      if shape != job.shape {
        assert f.Of(shape)[k] == s.files.Of(shape)[k];
      } else if k > 0 {
        assert f.Of(shape)[k] == s.files.Of(shape)[k - 1];
      }
    }
  }

  lemma AtSound(c: Config, s: State, d: nat, p: Phase)
    requires Sound(c, s) && d < |s.drivers|
    requires (p.Calling? || p.Sending?) ==> Retriable(p.job) && c.pools[d].Serves(p.job.shape)
    ensures Sound(c, At(s, d, p))
  {
  }

  lemma TakeSound(c: Config, s: State, d: nat)
    requires Sound(c, s) && d < |s.drivers|
    ensures Sound(c, Taken(s, d, c.pools[d]))
  {
    var pool := c.pools[d];
    if s.files.Served(pool).Some? {
      var shape := s.files.Served(pool).value;
      var (jobs, r) := (s.files.Of(shape), Taken(s, d, pool));
      assert jobs[0].shape == shape && Retriable(jobs[0]);
      forall z: Shape, k | 0 <= k < |r.files.Of(z)| ensures r.files.Of(z)[k].shape == z && Retriable(r.files.Of(z)[k]) {
        assert r.files.Of(z)[k] == s.files.Of(z)[if z == shape then k + 1 else k];
      }
    }
  }

  lemma AnswerSound(c: Config, s: State, d: nat, attempt: Attempt)
    requires Sound(c, s) && d < |s.drivers| && s.drivers[d].Calling?
    ensures Sound(c, Answered(s, d, attempt))
  {
    var job := s.drivers[d].job;
    match attempt
    case Written =>
      AtSound(c, s, d, Sending(job));
    case Busy =>
      AtSound(c, s, d, Ready);
      PutBackSound(c, At(s, d, Ready), job);
    case Handover =>
      AtSound(c, s, d, Leaving);
      PutBackSound(c, At(s, d, Leaving), job);
      HandingSound(c, At(s, d, Leaving).(files := s.files.PushFront(job)));
    case Unavailable =>
      RefusedSound(c, s, d, job.(unavailable := job.unavailable + 1));
    case Failed =>
      RefusedSound(c, s, d, job.(attempts := job.attempts + 1));
  }

  lemma HandingSound(c: Config, s: State)
    requires Sound(c, s)
    ensures Sound(c, s.(handed := true))
  {
  }

  lemma RefusedSound(c: Config, s: State, d: nat, again: Job)
    requires Sound(c, s) && d < |s.drivers|
    ensures !Retriable(again) ==> Sound(c, Refused(s, d, again, true))
    ensures Retriable(again) ==> Sound(c, Refused(s, d, again, false))
  {
    AtSound(c, s, d, Ready);
    PutBackSound(c, At(s, d, Ready), again);
  }

  lemma PutBackSound(c: Config, s: State, job: Job)
    requires Sound(c, s)
    ensures Retriable(job) ==> Sound(c, s.(files := s.files.PushBack(job))) && Sound(c, s.(files := s.files.PushFront(job)))
  {
    if Retriable(job) { PushSound(c, s, job); }
  }

  lemma StepSound(c: Config, s: State, t: Step)
    requires Sound(c, s) && Enabled(c, s, t)
    ensures Sound(c, Apply(c, s, t))
  {
    match t
    case Take(d) => TakeSound(c, s, d);
    case Answer(d, attempt) => AnswerSound(c, s, d, attempt);
    case _ =>
  }

  lemma {:induction false} FillSound(jobs: seq<Job>)
    requires Fresh(jobs)
    ensures forall shape: Shape, k | 0 <= k < |Fill(jobs).Of(shape)| :: Fill(jobs).Of(shape)[k].shape == shape && Retriable(Fill(jobs).Of(shape)[k])
  {
    if jobs != [] {
      FillSound(jobs[..|jobs|-1]);
      var s := State(Fill(jobs[..|jobs|-1]), [], 0, [], false, true, false, multiset{}, multiset{}, multiset{});
      assert jobs[|jobs|-1] in jobs;
      PushSound(Config([], All), s, jobs[|jobs|-1]);
    }
  }

  // ---- The rank gate ---------------------------------------------------------------

  /** The shared counter is the number of rank 0 drivers not yet finished, and a
      higher rank has passed its gate only if it is zero. */
  predicate GateKept(c: Config, s: State) {
    && |s.drivers| == |c.pools|
    && s.ahead == Lead(c.pools, s.drivers)
    && (forall d | 0 <= d < |s.drivers| && c.pools[d].Rank() == 0 :: !s.drivers[d].Gated?)
    && (c.doors == ByRank ==> forall d | 0 <= d < |s.drivers| && c.pools[d].Rank() > 0 && !s.drivers[d].Gated? :: s.ahead == 0)
  }

  lemma {:induction false} LeadUpdate(pools: seq<Pool>, drivers: seq<Phase>, d: nat, p: Phase)
    requires |pools| == |drivers| && d < |drivers|
    ensures Lead(pools, drivers[d := p]) + (if pools[d].Rank() == 0 && drivers[d] != Finished then 1 else 0)
         == Lead(pools, drivers) + (if pools[d].Rank() == 0 && p != Finished then 1 else 0)
  {
    var n := |drivers| - 1;
    if d == n {
      assert drivers[d := p][..n] == drivers[..n];
    } else {
      assert drivers[d := p][..n] == drivers[..n][d := p];
      LeadUpdate(pools[..n], drivers[..n], d, p);
    }
  }

  function DriverOf(t: Step): Option<nat> {
    match t
    case Pass(d) => Some(d) case Check(d) => Some(d) case Take(d) => Some(d) case Answer(d, _) => Some(d)
    case Send(d) => Some(d) case Leave(d) => Some(d) case _ => None
  }

  lemma AnswerMoves(s: State, d: nat, attempt: Attempt)
    requires d < |s.drivers| && s.drivers[d].Calling?
    ensures var r := Answered(s, d, attempt);
            && |r.drivers| == |s.drivers| && r.drivers == s.drivers[d := r.drivers[d]] && r.ahead == s.ahead
            && (r.drivers[d].Ready? || r.drivers[d].Leaving? || r.drivers[d].Sending?)
  {
  }

  lemma TakeMoves(s: State, d: nat, pool: Pool)
    requires d < |s.drivers|
    ensures var r := Taken(s, d, pool);
            && |r.drivers| == |s.drivers| && r.drivers == s.drivers[d := r.drivers[d]] && r.ahead == s.ahead
            && (r.drivers[d].Calling? || r.drivers[d].Leaving?)
  {
  }

  /** A step moves one driver, and only a leaving one finishes. */
  lemma StepMoves(c: Config, s: State, t: Step)
    requires Enabled(c, s, t)
    ensures var r := Apply(c, s, t);
            match DriverOf(t)
            case None => r.drivers == s.drivers && r.ahead == s.ahead
            case Some(d) =>
              && d < |s.drivers| && |r.drivers| == |s.drivers| && r.drivers == s.drivers[d := r.drivers[d]]
              && s.drivers[d] != Finished && (r.drivers[d] == Finished <==> t.Leave?)
              && !r.drivers[d].Gated? && (s.drivers[d].Gated? ==> s.ahead <= 0)
              && r.ahead == s.ahead - (if t.Leave? && c.pools[d].Rank() == 0 then 1 else 0)
  {
    match t
    case Answer(d, attempt) => AnswerMoves(s, d, attempt);
    case Take(d) => TakeMoves(s, d, c.pools[d]);
    case _ =>
  }

  lemma StepKeepsGate(c: Config, s: State, t: Step)
    requires GateKept(c, s) && Enabled(c, s, t)
    ensures GateKept(c, Apply(c, s, t)) && Apply(c, s, t).ahead <= s.ahead
  {
    StepMoves(c, s, t);
    if DriverOf(t).Some? {
      var d := DriverOf(t).value;
      LeadUpdate(c.pools, s.drivers, d, Apply(c, s, t).drivers[d]);
    }
  }

  // ---- No stranded work -----------------------------------------------------------

  predicate Working(p: Phase) {
    !p.Leaving? && !p.Finished?
  }

  predicate Served(c: Config, s: State, shape: Shape)
    requires |s.drivers| == |c.pools|
  {
    exists d :: 0 <= d < |s.drivers| && Working(s.drivers[d]) && c.pools[d].Serves(shape)
  }

  /** Nothing has yet cut the run short: no handover, no stop, no lost receiver. */
  predicate Uncut(s: State) {
    !s.handed && !s.stopping && s.open
  }

  /** A file with a job in it has a working driver to serve it. */
  predicate Attended(c: Config, s: State)
    requires |s.drivers| == |c.pools|
  {
    Uncut(s) ==> forall shape: Shape | s.files.Of(shape) != [] :: Served(c, s, shape)
  }

  lemma StillServed(c: Config, s: State, d: nat, p: Phase, shape: Shape)
    requires |s.drivers| == |c.pools| && d < |s.drivers| && Served(c, s, shape)
    requires Working(p) || !c.pools[d].Serves(shape)
    ensures Served(c, At(s, d, p), shape)
  {
    var e :| 0 <= e < |s.drivers| && Working(s.drivers[e]) && c.pools[e].Serves(shape);
    if e == d {
      assert At(s, d, p).drivers[d] == p;
    } else {
      assert At(s, d, p).drivers[e] == s.drivers[e];
    }
  }

  lemma StepAttends(c: Config, s: State, t: Step)
    requires Sound(c, s) && Attended(c, s) && Enabled(c, s, t)
    ensures |Apply(c, s, t).drivers| == |c.pools| && Attended(c, Apply(c, s, t))
  {
    StepMoves(c, s, t);
    var r := Apply(c, s, t);
    if Uncut(r) {
      forall shape: Shape | r.files.Of(shape) != [] ensures Served(c, r, shape) {
        if DriverOf(t).Some? {
          StepServes(c, s, t, shape);
        } else {
          assert Served(c, s, shape);
          assert r.drivers == s.drivers;
        }
      }
    }
  }

  lemma StepServes(c: Config, s: State, t: Step, shape: Shape)
    requires Sound(c, s) && Attended(c, s) && Enabled(c, s, t) && Uncut(Apply(c, s, t)) && DriverOf(t).Some?
    requires Apply(c, s, t).files.Of(shape) != []
    ensures |Apply(c, s, t).drivers| == |c.pools| && Served(c, Apply(c, s, t), shape)
  {
    StepMoves(c, s, t);
    if s.files.Of(shape) == [] {
      AnsweredServes(c, s, t, shape);
    } else if t.Leave? {
      LeaveServes(c, s, t, shape);
    } else {
      MovedServes(c, s, t, shape);
    }
  }

  lemma LeaveServes(c: Config, s: State, t: Step, shape: Shape)
    requires Sound(c, s) && Attended(c, s) && Enabled(c, s, t) && Uncut(Apply(c, s, t)) && t.Leave? && s.files.Of(shape) != []
    ensures |Apply(c, s, t).drivers| == |c.pools| && Served(c, Apply(c, s, t), shape)
  {
    var e :| 0 <= e < |s.drivers| && Working(s.drivers[e]) && c.pools[e].Serves(shape);
    assert Apply(c, s, t).drivers[e] == s.drivers[e];
  }

  lemma MovedServes(c: Config, s: State, t: Step, shape: Shape)
    requires Sound(c, s) && Attended(c, s) && Enabled(c, s, t) && Uncut(Apply(c, s, t)) && DriverOf(t).Some? && !t.Leave?
    requires s.files.Of(shape) != [] && Apply(c, s, t).files.Of(shape) != []
    requires |Apply(c, s, t).drivers| == |s.drivers| && DriverOf(t).value < |s.drivers|
    requires Apply(c, s, t).drivers == s.drivers[DriverOf(t).value := Apply(c, s, t).drivers[DriverOf(t).value]]
    ensures Served(c, Apply(c, s, t), shape)
  {
    var (r, d) := (Apply(c, s, t), DriverOf(t).value);
    assert At(s, d, r.drivers[d]).drivers == r.drivers;
    StillServed(c, s, d, r.drivers[d], shape);
  }

  lemma AnsweredServes(c: Config, s: State, t: Step, shape: Shape)
    requires Sound(c, s) && Enabled(c, s, t) && Uncut(Apply(c, s, t)) && DriverOf(t).Some?
    requires s.files.Of(shape) == [] && Apply(c, s, t).files.Of(shape) != []
    requires |Apply(c, s, t).drivers| == |s.drivers|
    ensures Served(c, Apply(c, s, t), shape)
  {
    assert t.Answer? && s.drivers[t.d].job.shape == shape;
    assert Working(Apply(c, s, t).drivers[t.d]) && c.pools[t.d].Serves(shape);
  }

  // ---- Along every run --------------------------------------------------------------

  /** One driver at least for each shape queued. */
  predicate Staffed(c: Config, jobs: seq<Job>) {
    forall j | j in jobs :: exists d :: 0 <= d < |c.pools| && c.pools[d].Serves(j.shape)
  }

  lemma {:induction false} FillFrom(jobs: seq<Job>)
    ensures forall shape: Shape, j | j in Fill(jobs).Of(shape) :: j in jobs && j.shape == shape
  {
    if jobs != [] {
      var (avant, last) := (jobs[..|jobs|-1], jobs[|jobs|-1]);
      FillFrom(avant);
      forall shape: Shape, j | j in Fill(jobs).Of(shape) ensures j in jobs && j.shape == shape {
        var (f, g) := (Fill(avant), Fill(jobs));
        assert g.Of(shape) == if shape == last.shape then f.Of(shape) + [last] else f.Of(shape);
        if j in f.Of(shape) { assert j in avant; } else { assert j == last && last in jobs; }
      }
    }
  }

  lemma InitAttended(c: Config, jobs: seq<Job>)
    requires Staffed(c, jobs)
    ensures Attended(c, Init(c, jobs))
  {
    FillFrom(jobs);
    var s := Init(c, jobs);
    forall shape: Shape | s.files.Of(shape) != [] ensures Served(c, s, shape) {
      var j := s.files.Of(shape)[0];
      assert j in s.files.Of(shape);
      var d :| 0 <= d < |c.pools| && c.pools[d].Serves(j.shape);
      assert Working(s.drivers[d]);
    }
  }

  /** Retries stay bounded, engines match shapes and the gate is kept in every
      reachable state. */
  lemma {:induction false} RunsSound(c: Config, jobs: seq<Job>, steps: seq<Step>)
    requires Fresh(jobs) && Legal(c, Init(c, jobs), steps)
    ensures Sound(c, After(c, Init(c, jobs), steps)) && GateKept(c, After(c, Init(c, jobs), steps))
    decreases |steps|
  {
    if steps == [] {
      FillSound(jobs);
      if c.doors == ByRank {
        forall d | 0 <= d < |c.pools| && c.pools[d].Rank() > 0 ensures Init(c, jobs).drivers[d].Gated? { }
      }
    } else {
      var avant := After(c, Init(c, jobs), steps[..|steps|-1]);
      RunsSound(c, jobs, steps[..|steps|-1]);
      StepSound(c, avant, steps[|steps|-1]);
      StepKeepsGate(c, avant, steps[|steps|-1]);
    }
  }

  /** While doors are served by rank, a higher rank takes a job only once every
      rank 0 driver has finished. */
  lemma GateHolds(c: Config, jobs: seq<Job>, steps: seq<Step>, d: nat, e: nat)
    requires Fresh(jobs) && Legal(c, Init(c, jobs), steps) && c.doors == ByRank
    requires d < |c.pools| && e < |c.pools| && c.pools[d].door != Luna && c.pools[e].door == Luna
    ensures var s := After(c, Init(c, jobs), steps);
            |s.drivers| == |c.pools| && (Enabled(c, s, Take(d)) || Enabled(c, s, Check(d)) ==> s.drivers[e].Finished?)
  {
    RunsSound(c, jobs, steps);
    var s := After(c, Init(c, jobs), steps);
    if !s.drivers[e].Finished? { LeadCounts(c.pools, s.drivers, e); }
  }

  lemma {:induction false} LeadCounts(pools: seq<Pool>, drivers: seq<Phase>, e: nat)
    requires |pools| == |drivers| && e < |drivers| && pools[e].Rank() == 0 && drivers[e] != Finished
    ensures Lead(pools, drivers) > 0
  {
    var n := |drivers| - 1;
    if e < n { LeadCounts(pools[..n], drivers[..n], e); }
  }

  lemma {:induction false} LeadWitness(pools: seq<Pool>, drivers: seq<Phase>) returns (e: nat)
    requires |pools| == |drivers| && Lead(pools, drivers) > 0
    ensures e < |drivers| && pools[e].Rank() == 0 && drivers[e] != Finished
  {
    var n := |drivers| - 1;
    if pools[n].Rank() == 0 && drivers[n] != Finished { e := n; } else { e := LeadWitness(pools[..n], drivers[..n]); }
  }

  lemma {:induction false} RunsAttended(c: Config, jobs: seq<Job>, steps: seq<Step>)
    requires Fresh(jobs) && Staffed(c, jobs) && Legal(c, Init(c, jobs), steps)
    ensures Sound(c, After(c, Init(c, jobs), steps)) && Attended(c, After(c, Init(c, jobs), steps))
    decreases |steps|
  {
    RunsSound(c, jobs, steps);
    if steps == [] {
      InitAttended(c, jobs);
    } else {
      RunsAttended(c, jobs, steps[..|steps|-1]);
      StepAttends(c, After(c, Init(c, jobs), steps[..|steps|-1]), steps[|steps|-1]);
    }
  }

  /** A run no handover, stop or lost receiver has cut leaves nothing queued once
      every driver has exited: each decision is written, on its way, or dropped. */
  lemma NothingStranded(c: Config, jobs: seq<Job>, steps: seq<Step>, x: int)
    requires Fresh(jobs) && Staffed(c, jobs) && Legal(c, Init(c, jobs), steps)
    requires Uncut(After(c, Init(c, jobs), steps))
    requires forall d | 0 <= d < |After(c, Init(c, jobs), steps).drivers| :: !Working(After(c, Init(c, jobs), steps).drivers[d])
    ensures var s := After(c, Init(c, jobs), steps);
            s.files == Files([], []) && multiset(s.channel)[x] + s.written[x] + s.dropped[x] == Among(jobs, x)
  {
    RunsAttended(c, jobs, steps);
    JobsConserved(c, jobs, steps, x);
    NoneLostWhileOpen(c, jobs, steps);
    var s := After(c, Init(c, jobs), steps);
    assert forall shape: Shape :: s.files.Of(shape) == [];
    assert s.files.Of(Collage) == [] && s.files.Of(Rewrite) == [];
    NoneHeld(s.drivers, x);
  }

  /** When the drivers are done and work is left, a handover, a stop or a lost
      receiver cut the run: the batch loop is right to stop there. */
  lemma LeftOnlyIfCut(c: Config, jobs: seq<Job>, steps: seq<Step>)
    requires Fresh(jobs) && Staffed(c, jobs) && Legal(c, Init(c, jobs), steps)
    requires forall d | 0 <= d < |After(c, Init(c, jobs), steps).drivers| :: After(c, Init(c, jobs), steps).drivers[d].Finished?
    ensures After(c, Init(c, jobs), steps).files.Len() > 0 ==> !Uncut(After(c, Init(c, jobs), steps))
  {
    if Uncut(After(c, Init(c, jobs), steps)) { NothingStranded(c, jobs, steps, 0); }
  }

  // ---- Batch accounting ---------------------------------------------------------------

  function HandsFull(drivers: seq<Phase>): nat {
    if drivers == [] then 0 else
    HandsFull(drivers[..|drivers|-1]) + if drivers[|drivers|-1].Calling? || drivers[|drivers|-1].Sending? then 1 else 0
  }

  lemma {:induction false} HandsUpdate(drivers: seq<Phase>, d: nat, p: Phase)
    requires d < |drivers|
    ensures HandsFull(drivers[d := p]) + (if drivers[d].Calling? || drivers[d].Sending? then 1 else 0)
         == HandsFull(drivers) + (if p.Calling? || p.Sending? then 1 else 0)
  {
    var n := |drivers| - 1;
    if d == n {
      assert drivers[d := p][..n] == drivers[..n];
    } else {
      assert drivers[d := p][..n] == drivers[..n][d := p];
      HandsUpdate(drivers[..n], d, p);
    }
  }

  lemma {:induction false} HandsEmpty(drivers: seq<Phase>)
    requires forall d | 0 <= d < |drivers| :: !drivers[d].Calling? && !drivers[d].Sending?
    ensures HandsFull(drivers) == 0
  {
    if drivers != [] { HandsEmpty(drivers[..|drivers|-1]); }
  }

  function Total(s: State): nat {
    s.files.Len() + HandsFull(s.drivers) + |s.channel| + |s.written| + |s.dropped| + |s.lost|
  }

  lemma MoveKeepsTotal(s: State, d: nat, p: Phase)
    requires d < |s.drivers| && !s.drivers[d].Calling? && !s.drivers[d].Sending? && !p.Calling? && !p.Sending?
    ensures Total(At(s, d, p)) == Total(s)
  {
    HandsUpdate(s.drivers, d, p);
  }

  lemma TakeKeepsTotal(s: State, d: nat, pool: Pool)
    requires d < |s.drivers| && s.drivers[d].Cleared?
    ensures Total(Taken(s, d, pool)) == Total(s)
  {
    HandsUpdate(s.drivers, d, Taken(s, d, pool).drivers[d]);
  }

  lemma SendKeepsTotal(c: Config, s: State, d: nat)
    requires Enabled(c, s, Send(d))
    ensures Total(Apply(c, s, Send(d))) == Total(s)
  {
    HandsUpdate(s.drivers, d, if s.open then Ready else Leaving);
  }

  lemma LeaveKeepsTotal(c: Config, s: State, d: nat)
    requires Enabled(c, s, Leave(d))
    ensures Total(Apply(c, s, Leave(d))) == Total(s)
  {
    HandsUpdate(s.drivers, d, Finished);
  }

  lemma CloseKeepsTotal(c: Config, s: State)
    requires Enabled(c, s, Close)
    ensures Total(Apply(c, s, Close)) == Total(s)
  {
    assert |multiset(s.channel)| == |s.channel|;
  }

  lemma StepKeepsTotal(c: Config, s: State, t: Step)
    requires Enabled(c, s, t)
    ensures Total(Apply(c, s, t)) == Total(s)
  {
    match t
    case Pass(d) => MoveKeepsTotal(s, d, Ready);
    case Check(d) => MoveKeepsTotal(s, d, if s.stopping then Leaving else Cleared);
    case Take(d) => TakeKeepsTotal(s, d, c.pools[d]);
    case Answer(d, attempt) => AnswerKeepsTotal(s, d, attempt);
    case Send(d) => SendKeepsTotal(c, s, d);
    case Leave(d) => LeaveKeepsTotal(c, s, d);
    case Receive =>
    case Stop =>
    case Close => CloseKeepsTotal(c, s);
  }

  lemma BackKeepsTotal(s: State, d: nat, p: Phase, job: Job, handed: bool)
    requires d < |s.drivers| && s.drivers[d].Calling? && !p.Calling? && !p.Sending?
    ensures Total(At(s, d, p).(files := s.files.PushFront(job), handed := handed)) == Total(s)
  {
    HandsUpdate(s.drivers, d, p);
  }

  lemma RefusedKeepsTotal(s: State, d: nat, again: Job, spent: bool)
    requires d < |s.drivers| && s.drivers[d].Calling?
    ensures Total(Refused(s, d, again, spent)) == Total(s)
  {
    HandsUpdate(s.drivers, d, Ready);
  }

  lemma AnswerKeepsTotal(s: State, d: nat, attempt: Attempt)
    requires d < |s.drivers| && s.drivers[d].Calling?
    ensures Total(Answered(s, d, attempt)) == Total(s)
  {
    var job := s.drivers[d].job;
    match attempt
    case Written => HandsUpdate(s.drivers, d, Sending(job));
    case Busy => BackKeepsTotal(s, d, Ready, job, s.handed);
    case Handover => BackKeepsTotal(s, d, Leaving, job, true);
    case Unavailable =>
      var again := job.(unavailable := job.unavailable + 1);
      RefusedKeepsTotal(s, d, again, again.unavailable >= MAX_UNAVAILABLE);
    case Failed =>
      var again := job.(attempts := job.attempts + 1);
      RefusedKeepsTotal(s, d, again, again.attempts >= MAX_ATTEMPTS);
  }

  lemma {:induction false} FillLen(jobs: seq<Job>)
    ensures Fill(jobs).Len() == |jobs|
  {
    if jobs != [] { FillLen(jobs[..|jobs|-1]); }
  }

  lemma {:induction false} TotalKept(c: Config, jobs: seq<Job>, steps: seq<Step>)
    requires Legal(c, Init(c, jobs), steps)
    ensures Total(After(c, Init(c, jobs), steps)) == |jobs|
    decreases |steps|
  {
    if steps == [] {
      FillLen(jobs);
      HandsEmpty(Init(c, jobs).drivers);
    } else {
      TotalKept(c, jobs, steps[..|steps|-1]);
      StepKeepsTotal(c, After(c, Init(c, jobs), steps[..|steps|-1]), steps[|steps|-1]);
    }
  }

  /** A batch's own count: its rows, less the jobs left, never goes below zero
      and is the rows skipped, the summaries stored and the jobs given up on. */
  lemma BatchAccounted(c: Config, jobs: seq<Job>, steps: seq<Step>, rows: nat, skipped: nat)
    requires Legal(c, Init(c, jobs), steps) && rows == |jobs| + skipped
    requires var s := After(c, Init(c, jobs), steps);
             s.open && s.channel == [] && forall d | 0 <= d < |s.drivers| :: s.drivers[d].Finished?
    ensures var s := After(c, Init(c, jobs), steps);
            s.lost == multiset{} && s.files.Len() <= rows && rows - s.files.Len() == skipped + |s.written| + |s.dropped|
  {
    TotalKept(c, jobs, steps);
    HandsEmpty(After(c, Init(c, jobs), steps).drivers);
    NoneLostWhileOpen(c, jobs, steps);
  }

  lemma StepLosesNone(c: Config, s: State, t: Step)
    requires Enabled(c, s, t) && (s.open ==> s.lost == multiset{})
    ensures Apply(c, s, t).open ==> Apply(c, s, t).lost == multiset{}
  {
  }

  lemma {:induction false} NoneLostWhileOpen(c: Config, jobs: seq<Job>, steps: seq<Step>)
    requires Legal(c, Init(c, jobs), steps)
    ensures After(c, Init(c, jobs), steps).open ==> After(c, Init(c, jobs), steps).lost == multiset{}
    decreases |steps|
  {
    if steps != [] {
      NoneLostWhileOpen(c, jobs, steps[..|steps|-1]);
      StepLosesNone(c, After(c, Init(c, jobs), steps[..|steps|-1]), steps[|steps|-1]);
    }
  }

  // ---- No deadlock ------------------------------------------------------------------

  /** While a driver has not finished, some step of a driver or of the writer can
      be taken: only the doors' own waiting can hold a run up. */
  lemma NoDeadlock(c: Config, jobs: seq<Job>, steps: seq<Step>, d: nat) returns (t: Step)
    requires Fresh(jobs) && Legal(c, Init(c, jobs), steps)
    requires d < |After(c, Init(c, jobs), steps).drivers| && !After(c, Init(c, jobs), steps).drivers[d].Finished?
    ensures Enabled(c, After(c, Init(c, jobs), steps), t) && !t.Stop? && !t.Close?
  {
    RunsSound(c, jobs, steps);
    t := SomeStep(c, After(c, Init(c, jobs), steps), d);
  }

  lemma SomeStep(c: Config, s: State, d: nat) returns (t: Step)
    requires Sound(c, s) && GateKept(c, s) && d < |s.drivers| && !s.drivers[d].Finished?
    ensures Enabled(c, s, t) && !t.Stop? && !t.Close?
  {
    if s.drivers[d].Gated? && s.ahead > 0 {
      var e := LeadWitness(c.pools, s.drivers);
      t := DriverStep(c, s, e);
    } else {
      t := DriverStep(c, s, d);
    }
  }

  lemma DriverStep(c: Config, s: State, d: nat) returns (t: Step)
    requires Sound(c, s) && d < |s.drivers| && !s.drivers[d].Finished? && (s.drivers[d].Gated? ==> s.ahead <= 0)
    ensures Enabled(c, s, t) && !t.Stop? && !t.Close?
  {
    match s.drivers[d]
    case Gated => t := Pass(d);
    case Ready => t := Check(d);
    case Cleared => t := Take(d);
    case Calling(_) => t := Answer(d, Written);
    case Sending(_) => t := if s.open && |s.channel| >= CHANNEL then Receive else Send(d);
    case Leaving => t := Leave(d);
  }

  // ---- Bounded work --------------------------------------------------------------------

  /** The refusals a job may still meet. */
  function Chances(job: Job): int {
    (MAX_ATTEMPTS - job.attempts) + (MAX_UNAVAILABLE - job.unavailable)
  }

  function Waiting(jobs: seq<Job>): int {
    if jobs == [] then 0 else Waiting(jobs[..|jobs|-1]) + 3 * Chances(jobs[|jobs|-1])
  }

  function Weight(p: Phase): int {
    match p
    case Gated => 5 case Ready => 4 case Cleared => 3
    case Calling(job) => 3 * Chances(job) + 2
    case Sending(_) => 6
    case Leaving => 1 case Finished => 0
  }

  function Weights(drivers: seq<Phase>): int {
    if drivers == [] then 0 else Weights(drivers[..|drivers|-1]) + Weight(drivers[|drivers|-1])
  }

  function Measure(s: State): int {
    Waiting(s.files.collages) + Waiting(s.files.rewrites) + Weights(s.drivers) + |s.channel| +
    (if s.stopping then 0 else 1) + (if s.open then 1 else 0)
  }

  lemma {:induction false} WaitingConcat(a: seq<Job>, b: seq<Job>)
    ensures Waiting(a + b) == Waiting(a) + Waiting(b)
  {
    if b == [] {
      assert a + b == a;
    } else {
      assert (a + b)[..|a + b|-1] == a + b[..|b|-1];
      WaitingConcat(a, b[..|b|-1]);
    }
  }

  lemma {:induction false} WeightsUpdate(drivers: seq<Phase>, d: nat, p: Phase)
    requires d < |drivers|
    ensures Weights(drivers[d := p]) + Weight(drivers[d]) == Weights(drivers) + Weight(p)
  {
    var n := |drivers| - 1;
    if d == n {
      assert drivers[d := p][..n] == drivers[..n];
    } else {
      assert drivers[d := p][..n] == drivers[..n][d := p];
      WeightsUpdate(drivers[..n], d, p);
    }
  }

  function InFiles(f: Files): int {
    Waiting(f.collages) + Waiting(f.rewrites)
  }

  lemma WaitingPush(f: Files, job: Job)
    ensures InFiles(f.PushBack(job)) == InFiles(f) + 3 * Chances(job) == InFiles(f.PushFront(job))
  {
    WaitingConcat(f.Of(job.shape), [job]);
    WaitingConcat([job], f.Of(job.shape));
    assert Waiting([job]) == 3 * Chances(job);
  }

  lemma WaitingPop(f: Files, shape: Shape)
    requires f.Of(shape) != []
    ensures InFiles(f) == InFiles(f.With(shape, f.Of(shape)[1..])) + 3 * Chances(f.Of(shape)[0])
  {
    var jobs := f.Of(shape);
    assert jobs == [jobs[0]] + jobs[1..];
    WaitingConcat([jobs[0]], jobs[1..]);
    assert Waiting([jobs[0]]) == 3 * Chances(jobs[0]);
  }

  predicate IsBusy(t: Step) {
    t.Answer? && t.attempt == Busy
  }

  lemma MoveWeighs(s: State, d: nat, p: Phase)
    requires d < |s.drivers|
    ensures Measure(At(s, d, p)) == Measure(s) - Weight(s.drivers[d]) + Weight(p)
  {
    WeightsUpdate(s.drivers, d, p);
  }

  lemma SendDescends(c: Config, s: State, d: nat)
    requires Enabled(c, s, Send(d))
    ensures Measure(Apply(c, s, Send(d))) < Measure(s)
  {
    WeightsUpdate(s.drivers, d, if s.open then Ready else Leaving);
  }

  lemma LeaveDescends(c: Config, s: State, d: nat)
    requires Enabled(c, s, Leave(d))
    ensures Measure(Apply(c, s, Leave(d))) < Measure(s)
  {
    WeightsUpdate(s.drivers, d, Finished);
  }

  lemma TakeDescends(c: Config, s: State, d: nat)
    requires Sound(c, s) && Enabled(c, s, Take(d))
    ensures Measure(Apply(c, s, Take(d))) < Measure(s)
  {
    var pool := c.pools[d];
    if s.files.Served(pool).Some? {
      var shape := s.files.Served(pool).value;
      WaitingPop(s.files, shape);
      WeightsUpdate(s.drivers, d, Calling(s.files.Of(shape)[0]));
    } else {
      WeightsUpdate(s.drivers, d, Leaving);
    }
  }

  /** Every step but a busy answer strictly lowers the measure; that one raises
      it by two. */
  lemma StepDescends(c: Config, s: State, t: Step)
    requires Sound(c, s) && Enabled(c, s, t)
    ensures if IsBusy(t) then Measure(Apply(c, s, t)) == Measure(s) + 2 else Measure(Apply(c, s, t)) < Measure(s)
  {
    match t
    case Pass(d) => MoveWeighs(s, d, Ready);
    case Check(d) => MoveWeighs(s, d, if s.stopping then Leaving else Cleared);
    case Take(d) => TakeDescends(c, s, d);
    case Answer(d, attempt) => AnswerDescends(c, s, d, attempt);
    case Send(d) => SendDescends(c, s, d);
    case Leave(d) => LeaveDescends(c, s, d);
    case Receive =>
    case Stop =>
    case Close =>
  }

  lemma RefusedDescends(s: State, d: nat, again: Job, spent: bool)
    requires d < |s.drivers| && s.drivers[d].Calling? && Retriable(s.drivers[d].job)
    requires Chances(again) == Chances(s.drivers[d].job) - 1
    ensures Measure(Refused(s, d, again, spent)) < Measure(s)
  {
    WeightsUpdate(s.drivers, d, Ready);
    WaitingPush(s.files, again);
  }

  lemma HandedBack(s: State, d: nat, p: Phase)
    requires d < |s.drivers| && s.drivers[d].Calling?
    ensures Measure(At(s, d, p).(files := s.files.PushFront(s.drivers[d].job))) == Measure(s) + Weight(p) - 2
  {
    WeightsUpdate(s.drivers, d, p);
    WaitingPush(s.files, s.drivers[d].job);
  }

  lemma AnswerDescends(c: Config, s: State, d: nat, attempt: Attempt)
    requires Sound(c, s) && d < |s.drivers| && s.drivers[d].Calling?
    ensures if attempt == Busy then Measure(Answered(s, d, attempt)) == Measure(s) + 2
            else Measure(Answered(s, d, attempt)) < Measure(s)
  {
    var job := s.drivers[d].job;
    match attempt
    case Written => WeightsUpdate(s.drivers, d, Sending(job));
    case Busy => HandedBack(s, d, Ready);
    case Handover => HandedBack(s, d, Leaving);
    case Unavailable => UnavailableDescends(s, d);
    case Failed => FailedDescends(s, d);
  }

  lemma ChancesDrop(job: Job)
    requires Retriable(job)
    ensures Chances(job.(unavailable := job.unavailable + 1)) == Chances(job) - 1
    ensures Chances(job.(attempts := job.attempts + 1)) == Chances(job) - 1
  {
  }

  lemma RefusalDescends(s: State, d: nat, again: Job, spent: bool, after: State)
    requires d < |s.drivers| && s.drivers[d].Calling? && Retriable(s.drivers[d].job)
    requires Chances(again) == Chances(s.drivers[d].job) - 1 && after == Refused(s, d, again, spent)
    ensures Measure(after) < Measure(s)
  {
    RefusedDescends(s, d, again, spent);
  }

  lemma UnavailableDescends(s: State, d: nat)
    requires d < |s.drivers| && s.drivers[d].Calling? && Retriable(s.drivers[d].job)
    ensures Measure(Answered(s, d, Unavailable)) < Measure(s)
  {
    var again := s.drivers[d].job.(unavailable := s.drivers[d].job.unavailable + 1);
    ChancesDrop(s.drivers[d].job);
    AnsweredRefused(s, d);
    RefusalDescends(s, d, again, again.unavailable >= MAX_UNAVAILABLE, Answered(s, d, Unavailable));
  }

  lemma FailedDescends(s: State, d: nat)
    requires d < |s.drivers| && s.drivers[d].Calling? && Retriable(s.drivers[d].job)
    ensures Measure(Answered(s, d, Failed)) < Measure(s)
  {
    var again := s.drivers[d].job.(attempts := s.drivers[d].job.attempts + 1);
    ChancesDrop(s.drivers[d].job);
    AnsweredRefused(s, d);
    RefusalDescends(s, d, again, again.attempts >= MAX_ATTEMPTS, Answered(s, d, Failed));
  }

  function Busies(steps: seq<Step>): nat {
    if steps == [] then 0 else Busies(steps[..|steps|-1]) + if IsBusy(steps[|steps|-1]) then 1 else 0
  }

  lemma {:induction false} MeasureFalls(c: Config, jobs: seq<Job>, steps: seq<Step>)
    requires Fresh(jobs) && Legal(c, Init(c, jobs), steps)
    ensures Measure(After(c, Init(c, jobs), steps)) + |steps| <= Measure(Init(c, jobs)) + 3 * Busies(steps)
    decreases |steps|
  {
    if steps != [] {
      MeasureFalls(c, jobs, steps[..|steps|-1]);
      RunsSound(c, jobs, steps[..|steps|-1]);
      StepDescends(c, After(c, Init(c, jobs), steps[..|steps|-1]), steps[|steps|-1]);
    }
  }

  lemma {:induction false} WaitingNonNegative(jobs: seq<Job>)
    requires forall j | j in jobs :: Retriable(j)
    ensures Waiting(jobs) >= 0
  {
    if jobs != [] {
      assert jobs[|jobs|-1] in jobs;
      WaitingNonNegative(jobs[..|jobs|-1]);
    }
  }

  lemma {:induction false} WeightsNonNegative(drivers: seq<Phase>)
    requires forall p | p in drivers :: p.Calling? ==> Retriable(p.job)
    ensures Weights(drivers) >= 0
  {
    if drivers != [] {
      assert drivers[|drivers|-1] in drivers;
      WeightsNonNegative(drivers[..|drivers|-1]);
    }
  }

  lemma {:induction false} FillWaiting(jobs: seq<Job>)
    requires Fresh(jobs)
    ensures InFiles(Fill(jobs)) == 33 * |jobs|
  {
    if jobs != [] {
      FillWaiting(jobs[..|jobs|-1]);
      assert jobs[|jobs|-1] in jobs;
      WaitingPush(Fill(jobs[..|jobs|-1]), jobs[|jobs|-1]);
    }
  }

  lemma {:induction false} WeightsAtStart(drivers: seq<Phase>)
    requires forall p | p in drivers :: p.Gated? || p.Ready?
    ensures Weights(drivers) <= 5 * |drivers|
  {
    if drivers != [] {
      assert drivers[|drivers|-1] in drivers;
      WeightsAtStart(drivers[..|drivers|-1]);
    }
  }

  /** Every run is bounded by its jobs, its drivers and the busy answers: 33
      steps a job, 5 a driver, 3 a busy answer, and 2. */
  lemma WorkBounded(c: Config, jobs: seq<Job>, steps: seq<Step>)
    requires Fresh(jobs) && Legal(c, Init(c, jobs), steps)
    ensures |steps| <= 33 * |jobs| + 5 * |c.pools| + 2 + 3 * Busies(steps)
  {
    MeasureFalls(c, jobs, steps);
    RunsSound(c, jobs, steps);
    var s := After(c, Init(c, jobs), steps);
    forall j | j in s.files.collages ensures Retriable(j) { JobOfFile(c, s, Collage, j); }
    forall j | j in s.files.rewrites ensures Retriable(j) { JobOfFile(c, s, Rewrite, j); }
    WaitingNonNegative(s.files.collages);
    WaitingNonNegative(s.files.rewrites);
    WeightsNonNegative(s.drivers);
    FillWaiting(jobs);
    WeightsAtStart(Init(c, jobs).drivers);
  }

  lemma JobOfFile(c: Config, s: State, shape: Shape, j: Job)
    requires Sound(c, s) && j in s.files.Of(shape)
    ensures Retriable(j) && j.shape == shape
  {
    var k :| 0 <= k < |s.files.Of(shape)| && s.files.Of(shape)[k] == j;
  }

  // ---- Draining on a signal ---------------------------------------------------------------

  /** Drivers past the reading of the stop flag, their lock still to come. */
  function PastCheck(drivers: seq<Phase>): nat {
    if drivers == [] then 0 else PastCheck(drivers[..|drivers|-1]) + if drivers[|drivers|-1].Cleared? then 1 else 0
  }

  lemma {:induction false} PastCheckUpdate(drivers: seq<Phase>, d: nat, p: Phase)
    requires d < |drivers|
    ensures PastCheck(drivers[d := p]) + (if drivers[d].Cleared? then 1 else 0) == PastCheck(drivers) + (if p.Cleared? then 1 else 0)
  {
    var n := |drivers| - 1;
    if d == n {
      assert drivers[d := p][..n] == drivers[..n];
    } else {
      assert drivers[d := p][..n] == drivers[..n][d := p];
      PastCheckUpdate(drivers[..n], d, p);
    }
  }

  function Takes(steps: seq<Step>): nat {
    if steps == [] then 0 else Takes(steps[..|steps|-1]) + if steps[|steps|-1].Take? then 1 else 0
  }

  /** Once the stop flag is set no new job is taken, but by the drivers that had
      already read it down: one each. */
  lemma StopDrainsStep(c: Config, s: State, t: Step)
    requires s.stopping && Enabled(c, s, t)
    ensures Apply(c, s, t).stopping
    ensures PastCheck(Apply(c, s, t).drivers) + (if t.Take? then 1 else 0) <= PastCheck(s.drivers)
  {
    StepMoves(c, s, t);
    if DriverOf(t).Some? {
      PastCheckUpdate(s.drivers, DriverOf(t).value, Apply(c, s, t).drivers[DriverOf(t).value]);
    }
  }

  lemma {:induction false} StopDrains(c: Config, s: State, steps: seq<Step>)
    requires s.stopping && Legal(c, s, steps)
    ensures After(c, s, steps).stopping
    ensures Takes(steps) + PastCheck(After(c, s, steps).drivers) <= PastCheck(s.drivers)
    decreases |steps|
  {
    if steps != [] {
      StopDrains(c, s, steps[..|steps|-1]);
      StopDrainsStep(c, After(c, s, steps[..|steps|-1]), steps[|steps|-1]);
    }
  }
}
