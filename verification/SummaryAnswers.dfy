/** What becomes of a decision, told by the answers its job has had: dropped after three
    failures or eight refusals to serve and never before, on its way to the store once
    written, and tried again otherwise. */
module SummaryAnswers {
  import opened Ordre
  import opened Summaries
  import opened SummaryRuns

  // ---- One answer ----------------------------------------------------------------

  /** `r` is `s` but that driver `d` stands at `p`, and the file of `shape` is `jobs`. */
  ghost predicate Moved(s: State, r: State, d: nat, p: Phase, shape: Shape, jobs: seq<Job>)
    requires d < |s.drivers|
  {
    && r.drivers == s.drivers[d := p] && r.files.Of(shape) == jobs && r.files.Of(shape.Other()) == s.files.Of(shape.Other())
    && r.channel == s.channel && r.written == s.written && r.lost == s.lost
  }

  /** A job that failed is tried again, last in its file, until it has failed three times;
      then it is dropped. */
  lemma FailedSaid(c: Config, s: State, d: nat)
    requires Enabled(c, s, Answer(d, Failed))
    ensures var (r, job) := (Apply(c, s, Answer(d, Failed)), s.drivers[d].job);
            var jobs := s.files.Of(job.shape);
            if job.attempts + 1 < 3 then
              Moved(s, r, d, Ready, job.shape, jobs + [job.(attempts := job.attempts + 1)]) && r.dropped == s.dropped
            else
              Moved(s, r, d, Ready, job.shape, jobs) && r.dropped == s.dropped + multiset{job.decision}
  {
  }

  /** One whose model was unavailable, until that has been so eight times. */
  lemma UnavailableSaid(c: Config, s: State, d: nat)
    requires Enabled(c, s, Answer(d, Unavailable))
    ensures var (r, job) := (Apply(c, s, Answer(d, Unavailable)), s.drivers[d].job);
            var jobs := s.files.Of(job.shape);
            if job.unavailable + 1 < 8 then
              Moved(s, r, d, Ready, job.shape, jobs + [job.(unavailable := job.unavailable + 1)]) && r.dropped == s.dropped
            else
              Moved(s, r, d, Ready, job.shape, jobs) && r.dropped == s.dropped + multiset{job.decision}
  {
  }

  /** A busy or exhausted pool puts the job back first in its file, as it was; the latter leaves. */
  lemma GivenBack(c: Config, s: State, d: nat)
    requires Enabled(c, s, Answer(d, Busy))
    ensures var job := s.drivers[d].job;
            && Moved(s, Apply(c, s, Answer(d, Busy)), d, Ready, job.shape, [job] + s.files.Of(job.shape))
            && Moved(s, Apply(c, s, Answer(d, Handover)), d, Leaving, job.shape, [job] + s.files.Of(job.shape))
            && Apply(c, s, Answer(d, Busy)).dropped == s.dropped == Apply(c, s, Answer(d, Handover)).dropped
  {
  }

  /** A door takes the first job of the shape it prefers, collages for Luna and rewritings for the
      others, if it has an engine for it and one waits; else of the other; else it leaves. */
  lemma TakeSaid(c: Config, s: State, d: nat)
    requires Enabled(c, s, Take(d))
    ensures var (pool, r) := (c.pools[d], Apply(c, s, Take(d)));
            var (collages, rewrites) := (s.files.collages, s.files.rewrites);
            var (canCollage, canRewrite) := (pool.collage.Some? && collages != [], pool.rewrite.Some? && rewrites != []);
            if canCollage && (pool.door == Luna || !canRewrite) then
              r == s.(drivers := s.drivers[d := Calling(collages[0])], files := Files(collages[1..], rewrites))
            else if canRewrite then
              r == s.(drivers := s.drivers[d := Calling(rewrites[0])], files := Files(collages, rewrites[1..]))
            else r == s.(drivers := s.drivers[d := Leaving])
  {
  }

  // ---- Answers over a run ------------------------------------------------------------

  /** Step `t` answers a call about decision `x` with `attempt`. */
  predicate Answers(s: State, t: Step, x: int, attempt: Attempt) {
    t.Answer? && t.attempt == attempt && t.d < |s.drivers| && s.drivers[t.d].Calling? && s.drivers[t.d].job.decision == x
  }

  /** How many steps of a run do. */
  function AnsweredSo(c: Config, s: State, steps: seq<Step>, x: int, attempt: Attempt): nat
    requires Legal(c, s, steps)
    decreases |steps|
  {
    if steps == [] then 0 else
    AnsweredSo(c, s, steps[..|steps|-1], x, attempt)
    + if Answers(After(c, s, steps[..|steps|-1]), steps[|steps|-1], x, attempt) then 1 else 0
  }

  // ---- Written is on its way ------------------------------------------------------------

  function SendingOf(p: Phase, x: int): nat {
    if p.Sending? && p.job.decision == x then 1 else 0
  }

  function Sendings(drivers: seq<Phase>, x: int): nat {
    if drivers == [] then 0 else Sendings(drivers[..|drivers|-1], x) + SendingOf(drivers[|drivers|-1], x)
  }

  /** How often decision `x` is on its way to the store, in it, or lost on the way. */
  function Delivered(s: State, x: int): nat {
    Sendings(s.drivers, x) + multiset(s.channel)[x] + s.written[x] + s.lost[x]
  }

  lemma {:induction false} SendingsUpdate(drivers: seq<Phase>, d: nat, p: Phase, x: int)
    requires d < |drivers|
    ensures Sendings(drivers[d := p], x) + SendingOf(drivers[d], x) == Sendings(drivers, x) + SendingOf(p, x)
    decreases |drivers|
  {
    var n := |drivers| - 1;
    if d == n {
      assert drivers[d := p][..n] == drivers[..n];
    } else {
      assert drivers[d := p][..n] == drivers[..n][d := p];
      SendingsUpdate(drivers[..n], d, p, x);
    }
  }

  lemma {:induction false} NoSendings(drivers: seq<Phase>, x: int)
    requires forall d | 0 <= d < |drivers| :: !drivers[d].Sending?
    ensures Sendings(drivers, x) == 0
    decreases |drivers|
  {
    if drivers != [] { NoSendings(drivers[..|drivers|-1], x); }
  }

  lemma MoveDelivers(s: State, d: nat, p: Phase, x: int)
    requires d < |s.drivers| && !s.drivers[d].Sending?
    ensures Delivered(At(s, d, p), x) == Delivered(s, x) + SendingOf(p, x)
  {
    SendingsUpdate(s.drivers, d, p, x);
  }

  lemma AnswerDelivers(c: Config, s: State, d: nat, attempt: Attempt, x: int)
    requires Enabled(c, s, Answer(d, attempt))
    ensures Delivered(Apply(c, s, Answer(d, attempt)), x) == Delivered(s, x) + if Answers(s, Answer(d, attempt), x, Written) then 1 else 0
  {
    SendingsUpdate(s.drivers, d, Answered(s, d, attempt).drivers[d], x);
    AnswerHands(s, d, attempt);
  }

  lemma AnswerHands(s: State, d: nat, attempt: Attempt)
    requires d < |s.drivers| && s.drivers[d].Calling?
    ensures var r := Answered(s, d, attempt);
            && |r.drivers| == |s.drivers| && r.drivers == s.drivers[d := r.drivers[d]]
            && (if attempt.Written? then r.drivers[d] == Sending(s.drivers[d].job) else !r.drivers[d].Sending?)
            && r.channel == s.channel && r.written == s.written && r.lost == s.lost
  {
  }

  lemma SendDelivers(c: Config, s: State, d: nat, x: int)
    requires Enabled(c, s, Send(d))
    ensures Delivered(Apply(c, s, Send(d)), x) == Delivered(s, x)
  {
    SendingsUpdate(s.drivers, d, if s.open then Ready else Leaving, x);
  }

  lemma TakeDelivers(c: Config, s: State, d: nat, x: int)
    requires Enabled(c, s, Take(d))
    ensures Delivered(Apply(c, s, Take(d)), x) == Delivered(s, x)
  {
    MoveDelivers(s, d, Taken(s, d, c.pools[d]).drivers[d], x);
  }

  lemma StepDelivers(c: Config, s: State, t: Step, x: int)
    requires Enabled(c, s, t)
    ensures Delivered(Apply(c, s, t), x) == Delivered(s, x) + if Answers(s, t, x, Written) then 1 else 0
  {
    match t
    case Pass(d) => MoveDelivers(s, d, Ready, x);
    case Check(d) => MoveDelivers(s, d, if s.stopping then Leaving else Cleared, x);
    case Take(d) => TakeDelivers(c, s, d, x);
    case Answer(d, attempt) => AnswerDelivers(c, s, d, attempt, x);
    case Send(d) => SendDelivers(c, s, d, x);
    case Leave(d) => MoveDelivers(s, d, Finished, x);
    case Receive => ChannelPop(s.channel, x);
    case Stop =>
    case Close =>
  }

  /** A decision is on its way, stored or lost as often as its job was answered with a text. */
  lemma {:induction false} DeliveredCount(c: Config, jobs: seq<Job>, steps: seq<Step>, x: int)
    requires Legal(c, Init(c, jobs), steps)
    ensures Delivered(After(c, Init(c, jobs), steps), x) == AnsweredSo(c, Init(c, jobs), steps, x, Written)
    decreases |steps|
  {
    if steps == [] {
      NoSendings(Init(c, jobs).drivers, x);
    } else {
      DeliveredCount(c, jobs, steps[..|steps|-1], x);
      StepDelivers(c, After(c, Init(c, jobs), steps[..|steps|-1]), steps[|steps|-1], x);
    }
  }

  // ---- Dropped at the third failure or the eighth refusal ------------------------------------

  /** Each job of decision `x`, in a file or in hand, has failed `f` times and been refused `u` times. */
  ghost predicate Tally(s: State, x: int, f: nat, u: nat) {
    && (forall shape: Shape, job | job in s.files.Of(shape) && job.decision == x :: job.attempts == f && job.unavailable == u)
    && (forall d | 0 <= d < |s.drivers| && InHand(s.drivers[d], x) == 1 :: s.drivers[d].job.attempts == f && s.drivers[d].job.unavailable == u)
  }

  lemma {:induction false} NotAmong(jobs: seq<Job>, x: int)
    requires Among(jobs, x) == 0
    ensures forall job | job in jobs :: job.decision != x
    decreases |jobs|
  {
    if jobs != [] { NotAmong(jobs[..|jobs|-1], x); }
  }

  lemma {:induction false} NotHeld(drivers: seq<Phase>, x: int, d: nat)
    requires Held(drivers, x) == 0 && d < |drivers|
    ensures InHand(drivers[d], x) == 0
    decreases |drivers|
  {
    if d < |drivers| - 1 { NotHeld(drivers[..|drivers|-1], x, d); }
  }

  lemma NotQueued(f: Files, x: int, shape: Shape, job: Job)
    requires Queued(f, x) == 0 && job in f.Of(shape)
    ensures job.decision != x
  {
    NotAmong(f.Of(shape), x);
  }

  /** Where no job of `x` is left, any tally is told of it. */
  lemma NoneLeft(s: State, x: int, f: nat, u: nat)
    requires Queued(s.files, x) == 0 && Held(s.drivers, x) == 0
    ensures Tally(s, x, f, u)
  {
    forall shape: Shape, job | job in s.files.Of(shape) ensures job.decision != x { NotQueued(s.files, x, shape, job); }
    forall d | 0 <= d < |s.drivers| ensures InHand(s.drivers[d], x) == 0 { NotHeld(s.drivers, x, d); }
  }

  lemma MoveTallies(s: State, d: nat, p: Phase, x: int, f: nat, u: nat)
    requires Tally(s, x, f, u) && d < |s.drivers|
    requires InHand(p, x) == 1 ==> p.job.attempts == f && p.job.unavailable == u
    ensures Tally(At(s, d, p), x, f, u)
  {
  }

  lemma FilesTally(s: State, files: Files, x: int, f: nat, u: nat)
    requires Tally(s, x, f, u)
    requires forall shape: Shape, job | job in files.Of(shape) && job.decision == x ::
               job in s.files.Of(shape) || (job.attempts == f && job.unavailable == u)
    ensures Tally(s.(files := files), x, f, u)
  {
  }

  lemma PushedOf(f: Files, job: Job, shape: Shape, j: Job)
    ensures j in f.PushBack(job).Of(shape) ==> j in f.Of(shape) || j == job
    ensures j in f.PushFront(job).Of(shape) ==> j in f.Of(shape) || j == job
  {
  }

  lemma PushTallies(s: State, job: Job, x: int, f: nat, u: nat)
    requires Tally(s, x, f, u) && (job.decision == x ==> job.attempts == f && job.unavailable == u)
    ensures Tally(s.(files := s.files.PushBack(job)), x, f, u) && Tally(s.(files := s.files.PushFront(job)), x, f, u)
  {
    forall shape: Shape, j ensures j in s.files.PushBack(job).Of(shape) ==> j in s.files.Of(shape) || j == job { PushedOf(s.files, job, shape, j); }
    forall shape: Shape, j ensures j in s.files.PushFront(job).Of(shape) ==> j in s.files.Of(shape) || j == job { PushedOf(s.files, job, shape, j); }
    FilesTally(s, s.files.PushBack(job), x, f, u);
    FilesTally(s, s.files.PushFront(job), x, f, u);
  }

  lemma TakeTallies(c: Config, s: State, d: nat, x: int, f: nat, u: nat)
    requires Enabled(c, s, Take(d)) && Tally(s, x, f, u)
    ensures Tally(Apply(c, s, Take(d)), x, f, u)
  {
    if s.files.Served(c.pools[d]).Some? {
      var shape := s.files.Served(c.pools[d]).value;
      var jobs := s.files.Of(shape);
      assert jobs[0] in s.files.Of(shape);
      MoveTallies(s, d, Calling(jobs[0]), x, f, u);
      FilesTally(At(s, d, Calling(jobs[0])), s.files.With(shape, jobs[1..]), x, f, u);
    } else {
      MoveTallies(s, d, Leaving, x, f, u);
    }
  }

  /** With the only job of `x` out of its hand, none is left. */
  lemma OnlyJob(s: State, d: nat, p: Phase, x: int)
    requires d < |s.drivers| && InHand(s.drivers[d], x) == 1 && InHand(p, x) == 0 && Everywhere(s, x) <= 1
    ensures Queued(s.files, x) == 0 && Held(At(s, d, p).drivers, x) == 0 && s.dropped[x] == 0
  {
    HeldUpdate(s.drivers, d, p, x);
  }

  lemma RefusedTallies(s: State, d: nat, again: Job, spent: bool, x: int, f: nat, u: nat)
    requires d < |s.drivers| && Tally(At(s, d, Ready), x, f, u)
    requires again.decision == x ==> again.attempts == f && again.unavailable == u
    ensures Tally(Refused(s, d, again, spent), x, f, u)
  {
    PushTallies(At(s, d, Ready), again, x, f, u);
  }

  /** The refusal of `x` itself, whatever it was told before. */
  lemma OwnRefusal(s: State, d: nat, again: Job, spent: bool)
    requires d < |s.drivers| && s.drivers[d].Calling? && s.drivers[d].job.decision == again.decision && Everywhere(s, again.decision) <= 1
    ensures Tally(Refused(s, d, again, spent), again.decision, again.attempts, again.unavailable)
  {
    OnlyJob(s, d, Ready, again.decision);
    NoneLeft(At(s, d, Ready), again.decision, again.attempts, again.unavailable);
    RefusedTallies(s, d, again, spent, again.decision, again.attempts, again.unavailable);
  }

  lemma OtherRefusal(s: State, d: nat, again: Job, spent: bool, x: int, f: nat, u: nat)
    requires d < |s.drivers| && again.decision != x && Tally(s, x, f, u)
    ensures Tally(Refused(s, d, again, spent), x, f, u)
  {
    MoveTallies(s, d, Ready, x, f, u);
    RefusedTallies(s, d, again, spent, x, f, u);
  }

  /** The count of an answer once step `t` is taken. */
  function Once(s: State, t: Step, x: int, attempt: Attempt): nat {
    if Answers(s, t, x, attempt) then 1 else 0
  }

  lemma RefusalTallies(s: State, d: nat, again: Job, spent: bool, x: int, f: nat, u: nat, f': nat, u': nat)
    requires d < |s.drivers| && s.drivers[d].Calling? && s.drivers[d].job.decision == again.decision
    requires Tally(s, x, f, u) && Everywhere(s, x) <= 1
    requires again.decision == x ==> again.attempts == f' && again.unavailable == u'
    requires again.decision != x ==> f' == f && u' == u
    ensures Tally(Refused(s, d, again, spent), x, f', u')
  {
    if again.decision == x { OwnRefusal(s, d, again, spent); } else { OtherRefusal(s, d, again, spent, x, f, u); }
  }

  lemma FailedTallies(s: State, d: nat, x: int, f: nat, u: nat, f': nat, u': nat)
    requires d < |s.drivers| && s.drivers[d].Calling? && Tally(s, x, f, u) && Everywhere(s, x) <= 1
    requires f' == f + (if s.drivers[d].job.decision == x then 1 else 0) && u' == u
    ensures Tally(Answered(s, d, Failed), x, f', u')
  {
    AnsweredRefused(s, d);
    TallyInHand(s, d, x, f, u);
    var again := s.drivers[d].job.(attempts := s.drivers[d].job.attempts + 1);
    RefusalTallies(s, d, again, again.attempts >= MAX_ATTEMPTS, x, f, u, f', u');
  }

  lemma TallyInHand(s: State, d: nat, x: int, f: nat, u: nat)
    requires d < |s.drivers| && s.drivers[d].Calling? && Tally(s, x, f, u)
    ensures s.drivers[d].job.decision == x ==> s.drivers[d].job.attempts == f && s.drivers[d].job.unavailable == u
  {
    assert s.drivers[d].job.decision == x ==> InHand(s.drivers[d], x) == 1;
  }

  lemma UnavailableTallies(s: State, d: nat, x: int, f: nat, u: nat, f': nat, u': nat)
    requires d < |s.drivers| && s.drivers[d].Calling? && Tally(s, x, f, u) && Everywhere(s, x) <= 1
    requires u' == u + (if s.drivers[d].job.decision == x then 1 else 0) && f' == f
    ensures Tally(Answered(s, d, Unavailable), x, f', u')
  {
    AnsweredRefused(s, d);
    TallyInHand(s, d, x, f, u);
    var again := s.drivers[d].job.(unavailable := s.drivers[d].job.unavailable + 1);
    RefusalTallies(s, d, again, again.unavailable >= MAX_UNAVAILABLE, x, f, u, f', u');
  }

  lemma OnceOf(s: State, d: nat, attempt: Attempt, x: int, other: Attempt)
    requires d < |s.drivers| && s.drivers[d].Calling?
    ensures Once(s, Answer(d, attempt), x, other) == if attempt == other && s.drivers[d].job.decision == x then 1 else 0
  {
  }

  lemma AnswerTallies(s: State, d: nat, attempt: Attempt, x: int, f: nat, u: nat, f': nat, u': nat)
    requires d < |s.drivers| && s.drivers[d].Calling? && Tally(s, x, f, u) && Everywhere(s, x) <= 1
    requires f' == f + (if attempt == Failed && s.drivers[d].job.decision == x then 1 else 0)
    requires u' == u + (if attempt == Unavailable && s.drivers[d].job.decision == x then 1 else 0)
    ensures Tally(Answered(s, d, attempt), x, f', u')
  {
    match attempt
    case Failed => FailedTallies(s, d, x, f, u, f', u');
    case Unavailable => UnavailableTallies(s, d, x, f, u, f', u');
    case _ => OtherTallies(s, d, attempt, x, f', u');
  }

  lemma OtherTallies(s: State, d: nat, attempt: Attempt, x: int, f: nat, u: nat)
    requires d < |s.drivers| && s.drivers[d].Calling? && Tally(s, x, f, u) && !attempt.Failed? && !attempt.Unavailable?
    ensures Tally(Answered(s, d, attempt), x, f, u)
  {
    match attempt
    case Written => WrittenTallies(s, d, x, f, u);
    case Busy => GivenBackTallies(s, d, Ready, s.handed, x, f, u);
    case Handover => GivenBackTallies(s, d, Leaving, true, x, f, u);
  }

  lemma WrittenTallies(s: State, d: nat, x: int, f: nat, u: nat)
    requires d < |s.drivers| && s.drivers[d].Calling? && Tally(s, x, f, u)
    ensures Tally(At(s, d, Sending(s.drivers[d].job)), x, f, u)
  {
    MoveTallies(s, d, Sending(s.drivers[d].job), x, f, u);
  }

  lemma GivenBackTallies(s: State, d: nat, p: Phase, handed: bool, x: int, f: nat, u: nat)
    requires d < |s.drivers| && s.drivers[d].Calling? && Tally(s, x, f, u) && (p.Ready? || p.Leaving?)
    ensures Tally(At(s, d, p).(files := s.files.PushFront(s.drivers[d].job), handed := handed), x, f, u)
  {
    MoveTallies(s, d, p, x, f, u);
    PushTallies(At(s, d, p), s.drivers[d].job, x, f, u);
  }

  lemma SendTallies(c: Config, s: State, d: nat, x: int, f: nat, u: nat)
    requires Enabled(c, s, Send(d)) && Tally(s, x, f, u)
    ensures Tally(Apply(c, s, Send(d)), x, f, u)
  {
    MoveTallies(s, d, if s.open then Ready else Leaving, x, f, u);
  }

  lemma LeaveTallies(c: Config, s: State, d: nat, x: int, f: nat, u: nat)
    requires Enabled(c, s, Leave(d)) && Tally(s, x, f, u)
    ensures Tally(Apply(c, s, Leave(d)), x, f, u)
  {
    MoveTallies(s, d, Finished, x, f, u);
  }

  lemma AloneTallies(c: Config, s: State, t: Step, x: int, f: nat, u: nat)
    requires Enabled(c, s, t) && Tally(s, x, f, u) && (t.Receive? || t.Stop? || t.Close?)
    ensures Tally(Apply(c, s, t), x, f, u)
  {
  }

  lemma PlainTallies(c: Config, s: State, t: Step, x: int, f: nat, u: nat)
    requires Enabled(c, s, t) && Tally(s, x, f, u) && !t.Answer?
    ensures Tally(Apply(c, s, t), x, f, u)
  {
    match t
    case Pass(d) => MoveTallies(s, d, Ready, x, f, u);
    case Check(d) => MoveTallies(s, d, if s.stopping then Leaving else Cleared, x, f, u);
    case Take(d) => TakeTallies(c, s, d, x, f, u);
    case Send(d) => SendTallies(c, s, d, x, f, u);
    case Leave(d) => LeaveTallies(c, s, d, x, f, u);
    case _ => AloneTallies(c, s, t, x, f, u);
  }

  lemma StepTallies(c: Config, s: State, t: Step, x: int, f: nat, u: nat, f': nat, u': nat)
    requires Enabled(c, s, t) && Tally(s, x, f, u) && Everywhere(s, x) <= 1
    requires f' == f + Once(s, t, x, Failed) && u' == u + Once(s, t, x, Unavailable)
    ensures Tally(Apply(c, s, t), x, f', u')
  {
    if t.Answer? {
      OnceOf(s, t.d, t.attempt, x, Failed);
      OnceOf(s, t.d, t.attempt, x, Unavailable);
      AnswerTallies(s, t.d, t.attempt, x, f, u, f', u');
    } else {
      PlainTallies(c, s, t, x, f', u');
    }
  }

  /** `x` has been dropped if and only if it has failed three times or been refused eight. */
  ghost predicate Fate(s: State, x: int, f: nat, u: nat) {
    (s.dropped[x] > 0 <==> f == 3 || u == 8) && f <= 3 && u <= 8
  }

  lemma FailedFate(c: Config, s: State, d: nat, x: int, f: nat, u: nat)
    requires Enabled(c, s, Answer(d, Failed)) && s.drivers[d].job.decision == x && Tally(s, x, f, u) && Fate(s, x, f, u) && Everywhere(s, x) <= 1
    ensures Fate(Apply(c, s, Answer(d, Failed)), x, f + 1, u)
  {
    FailedSaid(c, s, d);
    OnlyJob(s, d, Ready, x);
    assert InHand(s.drivers[d], x) == 1;
  }

  lemma UnavailableFate(c: Config, s: State, d: nat, x: int, f: nat, u: nat)
    requires Enabled(c, s, Answer(d, Unavailable)) && s.drivers[d].job.decision == x && Tally(s, x, f, u) && Fate(s, x, f, u) && Everywhere(s, x) <= 1
    ensures Fate(Apply(c, s, Answer(d, Unavailable)), x, f, u + 1)
  {
    UnavailableSaid(c, s, d);
    OnlyJob(s, d, Ready, x);
    assert InHand(s.drivers[d], x) == 1;
  }

  lemma OthersNotDropped(c: Config, s: State, t: Step, x: int)
    requires Enabled(c, s, t) && !Answers(s, t, x, Failed) && !Answers(s, t, x, Unavailable)
    ensures Apply(c, s, t).dropped[x] == s.dropped[x]
  {
    if t.Answer? && t.attempt.Failed? { FailedSaid(c, s, t.d); }
    if t.Answer? && t.attempt.Unavailable? { UnavailableSaid(c, s, t.d); }
  }

  lemma StepFate(c: Config, s: State, t: Step, x: int, f: nat, u: nat)
    requires Enabled(c, s, t) && Tally(s, x, f, u) && Fate(s, x, f, u) && Everywhere(s, x) <= 1
    ensures Fate(Apply(c, s, t), x, f + Once(s, t, x, Failed), u + Once(s, t, x, Unavailable))
  {
    if Answers(s, t, x, Failed) {
      FailedFate(c, s, t.d, x, f, u);
    } else if Answers(s, t, x, Unavailable) {
      UnavailableFate(c, s, t.d, x, f, u);
    } else {
      OthersNotDropped(c, s, t, x);
    }
  }

  lemma {:induction false} FillFresh(jobs: seq<Job>, shape: Shape, job: Job)
    requires Fresh(jobs) && job in Fill(jobs).Of(shape)
    ensures job.attempts == 0 && job.unavailable == 0
    decreases |jobs|
  {
    if jobs != [] {
      var (avant, last) := (jobs[..|jobs|-1], jobs[|jobs|-1]);
      PushedOf(Fill(avant), last, shape, job);
      if job in Fill(avant).Of(shape) { FillFresh(avant, shape, job); }
    }
  }

  lemma InitTallies(c: Config, jobs: seq<Job>, x: int)
    requires Fresh(jobs)
    ensures Tally(Init(c, jobs), x, 0, 0) && Fate(Init(c, jobs), x, 0, 0)
  {
    forall shape: Shape, job | job in Init(c, jobs).files.Of(shape) && job.decision == x ensures job.attempts == 0 && job.unavailable == 0 {
      FillFresh(jobs, shape, job);
    }
  }

  ghost predicate Told(s: State, x: int, f: nat, u: nat) {
    Tally(s, x, f, u) && Fate(s, x, f, u)
  }

  lemma StepTold(c: Config, s: State, t: Step, x: int, f: nat, u: nat)
    requires Enabled(c, s, t) && Told(s, x, f, u) && Everywhere(s, x) <= 1
    ensures Told(Apply(c, s, t), x, f + Once(s, t, x, Failed), u + Once(s, t, x, Unavailable))
  {
    StepTallies(c, s, t, x, f, u, f + Once(s, t, x, Failed), u + Once(s, t, x, Unavailable));
    StepFate(c, s, t, x, f, u);
  }

  lemma CountNext(c: Config, s: State, steps: seq<Step>, x: int, attempt: Attempt)
    requires steps != [] && Legal(c, s, steps)
    ensures AnsweredSo(c, s, steps, x, attempt) ==
            AnsweredSo(c, s, steps[..|steps|-1], x, attempt) + Once(After(c, s, steps[..|steps|-1]), steps[|steps|-1], x, attempt)
  {
  }

  lemma RunsToldNext(c: Config, s0: State, steps: seq<Step>, x: int)
    requires steps != [] && Legal(c, s0, steps) && Everywhere(After(c, s0, steps[..|steps|-1]), x) <= 1
    requires Told(After(c, s0, steps[..|steps|-1]), x,
                  AnsweredSo(c, s0, steps[..|steps|-1], x, Failed), AnsweredSo(c, s0, steps[..|steps|-1], x, Unavailable))
    ensures Told(After(c, s0, steps), x, AnsweredSo(c, s0, steps, x, Failed), AnsweredSo(c, s0, steps, x, Unavailable))
  {
    var (avant, t) := (steps[..|steps|-1], steps[|steps|-1]);
    CountNext(c, s0, steps, x, Failed);
    CountNext(c, s0, steps, x, Unavailable);
    StepTold(c, After(c, s0, avant), t, x, AnsweredSo(c, s0, avant, x, Failed), AnsweredSo(c, s0, avant, x, Unavailable));
  }

  lemma {:induction false} RunsTold(c: Config, jobs: seq<Job>, steps: seq<Step>, x: int)
    requires Legal(c, Init(c, jobs), steps) && Fresh(jobs) && Among(jobs, x) <= 1
    ensures Told(After(c, Init(c, jobs), steps), x,
                 AnsweredSo(c, Init(c, jobs), steps, x, Failed), AnsweredSo(c, Init(c, jobs), steps, x, Unavailable))
    decreases |steps|
  {
    if steps == [] {
      InitTallies(c, jobs, x);
    } else {
      RunsTold(c, jobs, steps[..|steps|-1], x);
      JobsConserved(c, jobs, steps[..|steps|-1], x);
      RunsToldNext(c, Init(c, jobs), steps, x);
    }
  }

  /** Over every run a decision that comes once is dropped if and only if its job was
      answered Failed three times or Unavailable eight times. */
  lemma DroppedIff(c: Config, jobs: seq<Job>, steps: seq<Step>, x: int)
    requires Legal(c, Init(c, jobs), steps) && Fresh(jobs) && Among(jobs, x) <= 1
    ensures var (f, u) := (AnsweredSo(c, Init(c, jobs), steps, x, Failed), AnsweredSo(c, Init(c, jobs), steps, x, Unavailable));
            (After(c, Init(c, jobs), steps).dropped[x] > 0 <==> f == 3 || u == 8) && f <= 3 && u <= 8
  {
    RunsTold(c, jobs, steps, x);
  }

  /** Until then, and until a text comes, it stands in its file or in hand, its job counting
      its failures and refusals; and it is never answered more than that. */
  lemma TriedAgain(c: Config, jobs: seq<Job>, steps: seq<Step>, x: int)
    requires Legal(c, Init(c, jobs), steps) && Fresh(jobs) && Among(jobs, x) == 1
    ensures var (s0, s) := (Init(c, jobs), After(c, Init(c, jobs), steps));
            var (w, f, u) := (AnsweredSo(c, s0, steps, x, Written), AnsweredSo(c, s0, steps, x, Failed), AnsweredSo(c, s0, steps, x, Unavailable));
            && w <= 1
            && Tally(s, x, f, u)
            && (w == 0 && f < 3 && u < 8 <==> Queued(s.files, x) + Held(s.drivers, x) - Sendings(s.drivers, x) == 1)
  {
    RunsTold(c, jobs, steps, x);
    JobsConserved(c, jobs, steps, x);
    DeliveredCount(c, jobs, steps, x);
    SendingsHeld(After(c, Init(c, jobs), steps).drivers, x);
  }

  lemma {:induction false} SendingsHeld(drivers: seq<Phase>, x: int)
    ensures Sendings(drivers, x) <= Held(drivers, x)
    decreases |drivers|
  {
    if drivers != [] { SendingsHeld(drivers[..|drivers|-1], x); }
  }

  // ---- The files at first, and the channel ------------------------------------------------------

  /** The jobs of a shape, in their order. */
  function OfShape(jobs: seq<Job>, shape: Shape): seq<Job> {
    if jobs == [] then [] else (if jobs[0].shape == shape then [jobs[0]] else []) + OfShape(jobs[1..], shape)
  }

  lemma {:induction false} OfShapeEnd(jobs: seq<Job>, job: Job, shape: Shape)
    ensures OfShape(jobs + [job], shape) == OfShape(jobs, shape) + if job.shape == shape then [job] else []
    decreases |jobs|
  {
    if jobs == [] {
      assert [] + [job] == [job];
    } else {
      OfShapeEnd(jobs[1..], job, shape);
      assert (jobs + [job])[1..] == jobs[1..] + [job];
    }
  }

  /** Each file begins with the jobs of its shape, in the order of the batch. */
  lemma {:induction false} FilledInOrder(jobs: seq<Job>, shape: Shape)
    ensures Fill(jobs).Of(shape) == OfShape(jobs, shape)
    decreases |jobs|
  {
    if jobs != [] {
      FilledInOrder(jobs[..|jobs|-1], shape);
      OfShapeEnd(jobs[..|jobs|-1], jobs[|jobs|-1], shape);
      assert jobs == jobs[..|jobs|-1] + [jobs[|jobs|-1]];
    }
  }

  lemma StepBounded(c: Config, s: State, t: Step)
    requires Enabled(c, s, t) && |s.channel| <= 64
    ensures |Apply(c, s, t).channel| <= 64
  {
    if t.Answer? { AnswerHands(s, t.d, t.attempt); }
  }

  /** No more than 64 texts wait for the store, in any run. */
  lemma {:induction false} ChannelBounded(c: Config, jobs: seq<Job>, steps: seq<Step>)
    requires Legal(c, Init(c, jobs), steps)
    ensures |After(c, Init(c, jobs), steps).channel| <= 64
    decreases |steps|
  {
    if steps != [] {
      ChannelBounded(c, jobs, steps[..|steps|-1]);
      StepBounded(c, After(c, Init(c, jobs), steps[..|steps|-1]), steps[|steps|-1]);
    }
  }
}
