/** What a handover leaves behind: when the jobs a run leaves mean that each pool
    able to serve them has handed over, and when they do not. */
module SummaryHandovers {
  import opened Ordre
  import opened Summaries
  import opened SummaryRuns

  /** Two drivers that may look for a job at one time. */
  predicate Together(c: Config, d: nat, e: nat)
    requires d < |c.pools| && e < |c.pools|
  {
    c.doors == All || c.pools[d].Rank() == c.pools[e].Rank()
  }

  /** The drivers told apart by team, those of one team alike. */
  predicate Teams(c: Config, team: seq<nat>) {
    |team| == |c.pools| &&
    forall d, e | 0 <= d < |team| && 0 <= e < |team| && team[d] == team[e] :: c.pools[d] == c.pools[e]
  }

  /** No two drivers of different teams that pull together serve one shape. */
  predicate Alone(c: Config, team: seq<nat>)
    requires |team| == |c.pools|
  {
    forall d, e, shape: Shape | 0 <= d < |team| && 0 <= e < |team| && team[d] != team[e] && Together(c, d, e) ::
      !(c.pools[d].Serves(shape) && c.pools[e].Serves(shape))
  }

  predicate AllDone(s: State) {
    forall d | 0 <= d < |s.drivers| :: s.drivers[d].Finished?
  }

  /** No signal and no lost receiver in these steps. */
  predicate Undisturbed(steps: seq<Step>) {
    Stop !in steps && Close !in steps
  }

  /** A batch served to its end, undisturbed. */
  predicate Whole(c: Config, jobs: seq<Job>, steps: seq<Step>) {
    Fresh(jobs) && Legal(c, Init(c, jobs), steps) && Undisturbed(steps) && AllDone(After(c, Init(c, jobs), steps))
  }

  /** A driver of team `t` has handed over. */
  predicate HandedOver(steps: seq<Step>, team: seq<nat>, t: nat) {
    exists d | 0 <= d < |team| :: team[d] == t && Answer(d, Handover) in steps
  }

  /** Each team that serves a shape of which jobs are left has handed over. */
  predicate Explained(c: Config, jobs: seq<Job>, steps: seq<Step>, team: seq<nat>)
    requires |team| == |c.pools| && Legal(c, Init(c, jobs), steps)
  {
    forall d, shape: Shape | 0 <= d < |team| && c.pools[d].Serves(shape) && After(c, Init(c, jobs), steps).files.Of(shape) != [] ::
      HandedOver(steps, team, team[d])
  }

  // ---- Where a team is alone ---------------------------------------------------------

  predicate TeamWorks(s: State, team: seq<nat>, t: nat)
    requires |team| == |s.drivers|
  {
    exists d | 0 <= d < |team| :: team[d] == t && Working(s.drivers[d])
  }

  /** No job of the shape is queued, and none can be put back. */
  predicate Gone(s: State, shape: Shape) {
    s.files.Of(shape) == [] && forall d | 0 <= d < |s.drivers| && s.drivers[d].Calling? :: s.drivers[d].job.shape != shape
  }

  lemma TakenGone(c: Config, s: State, d: nat, shape: Shape)
    requires Sound(c, s) && d < |s.drivers| && Gone(s, shape)
    ensures Gone(Taken(s, d, c.pools[d]), shape)
  {
    if s.files.Served(c.pools[d]).Some? {
      var other := s.files.Served(c.pools[d]).value;
      assert s.files.Of(other)[0].shape == other;
    }
  }

  lemma AnsweredGone(s: State, d: nat, attempt: Attempt, shape: Shape)
    requires d < |s.drivers| && s.drivers[d].Calling? && Gone(s, shape)
    ensures Gone(Answered(s, d, attempt), shape)
  {
  }

  lemma GoneStays(c: Config, s: State, t: Step, shape: Shape)
    requires Sound(c, s) && Enabled(c, s, t) && Gone(s, shape)
    ensures Gone(Apply(c, s, t), shape)
  {
    match t
    case Take(d) => TakenGone(c, s, d, shape);
    case Answer(d, attempt) => AnsweredGone(s, d, attempt, shape);
    case _ =>
  }

  /** While a driver looks for a job, no driver it does not pull with is at work. */
  lemma Excluded(c: Config, s: State, e: nat, f: nat)
    requires GateKept(c, s) && e < |s.drivers| && f < |s.drivers| && !Together(c, e, f)
    requires !s.drivers[e].Gated? && !s.drivers[e].Finished?
    ensures s.drivers[f].Gated? || s.drivers[f].Finished?
  {
    if c.pools[e].Rank() == 0 { LeadCounts(c.pools, s.drivers, e); }
    if c.pools[f].Rank() == 0 && !s.drivers[f].Finished? { LeadCounts(c.pools, s.drivers, f); }
  }

  lemma LastLooks(c: Config, s: State, e: nat, team: seq<nat>, shape: Shape)
    requires Sound(c, s) && GateKept(c, s) && Teams(c, team) && Alone(c, team)
    requires Enabled(c, s, Take(e)) && c.pools[e].Serves(shape) && s.files.Served(c.pools[e]).None?
    ensures |Taken(s, e, c.pools[e]).drivers| == |team|
    ensures TeamWorks(Taken(s, e, c.pools[e]), team, team[e]) || Gone(Taken(s, e, c.pools[e]), shape)
  {
    var r := Taken(s, e, c.pools[e]);
    if f :| 0 <= f < |r.drivers| && r.drivers[f].Calling? && r.drivers[f].job.shape == shape {
      assert f != e && r.drivers[f] == s.drivers[f] && c.pools[f].Serves(shape);
      if !Together(c, e, f) { Excluded(c, s, e, f); }
      assert team[f] == team[e];
    }
  }

  lemma OpenStays(c: Config, s: State, t: Step)
    requires Enabled(c, s, t) && t != Stop && t != Close
    ensures Apply(c, s, t).open == s.open && Apply(c, s, t).stopping == s.stopping
  {
  }

  /** A driver at work stops only where it finds nothing to take, if nothing cuts it. */
  lemma StopsLooking(c: Config, s: State, t: Step, e: nat)
    requires Enabled(c, s, t) && !s.stopping && s.open && e < |s.drivers| && Working(s.drivers[e])
    requires t.Answer? && t.attempt == Handover ==> t.d != e
    ensures |Apply(c, s, t).drivers| == |s.drivers|
    ensures !Working(Apply(c, s, t).drivers[e]) ==> t == Take(e) && s.files.Served(c.pools[e]).None?
  {
    StepMoves(c, s, t);
  }

  lemma StepAttendsTeam(c: Config, s: State, t: Step, team: seq<nat>, d: nat, shape: Shape)
    requires Sound(c, s) && GateKept(c, s) && Teams(c, team) && Alone(c, team) && Enabled(c, s, t)
    requires d < |team| && c.pools[d].Serves(shape) && !s.stopping && s.open && t != Stop && t != Close
    requires t.Answer? && t.attempt == Handover ==> team[t.d] != team[d]
    requires TeamWorks(s, team, team[d]) || Gone(s, shape)
    ensures |Apply(c, s, t).drivers| == |team|
    ensures TeamWorks(Apply(c, s, t), team, team[d]) || Gone(Apply(c, s, t), shape)
  {
    StepMoves(c, s, t);
    if Gone(s, shape) {
      GoneStays(c, s, t, shape);
    } else {
      var e :| 0 <= e < |team| && team[e] == team[d] && Working(s.drivers[e]);
      StopsLooking(c, s, t, e);
      if !Working(Apply(c, s, t).drivers[e]) { LastLooks(c, s, e, team, shape); }
    }
  }

  /** Until it has handed over, a team alone with a shape has a driver at work, or no
      job of the shape is to come. */
  lemma TeamStarts(c: Config, jobs: seq<Job>, team: seq<nat>, d: nat)
    requires Teams(c, team) && d < |team|
    ensures |Init(c, jobs).drivers| == |team| && TeamWorks(Init(c, jobs), team, team[d])
  {
    assert Working(Init(c, jobs).drivers[d]);
  }

  /** The team that has not handed over by the end had not before. */
  lemma NotYet(steps: seq<Step>, team: seq<nat>, t: nat)
    requires steps != [] && Undisturbed(steps) && !HandedOver(steps, team, t)
    ensures var (avant, last) := (steps[..|steps|-1], steps[|steps|-1]);
            && Undisturbed(avant) && !HandedOver(avant, team, t) && last != Stop && last != Close
            && (last.Answer? && last.attempt == Handover && last.d < |team| ==> team[last.d] != t)
  {
    var (avant, last) := (steps[..|steps|-1], steps[|steps|-1]);
    assert last in steps && forall u | u in avant :: u in steps;
    if last.Answer? && last.attempt == Handover { assert last == Answer(last.d, Handover); }
  }

  lemma {:induction false} TeamAttends(c: Config, jobs: seq<Job>, steps: seq<Step>, team: seq<nat>, d: nat, shape: Shape)
    requires Fresh(jobs) && Legal(c, Init(c, jobs), steps) && Undisturbed(steps)
    requires Teams(c, team) && Alone(c, team) && d < |team| && c.pools[d].Serves(shape) && !HandedOver(steps, team, team[d])
    ensures var s := After(c, Init(c, jobs), steps);
            |s.drivers| == |team| && !s.stopping && s.open && (TeamWorks(s, team, team[d]) || Gone(s, shape))
    decreases |steps|
  {
    if steps == [] {
      TeamStarts(c, jobs, team, d);
    } else {
      var (avant, t) := (steps[..|steps|-1], steps[|steps|-1]);
      NotYet(steps, team, team[d]);
      TeamAttends(c, jobs, avant, team, d, shape);
      RunsSound(c, jobs, avant);
      OpenStays(c, After(c, Init(c, jobs), avant), t);
      StepAttendsTeam(c, After(c, Init(c, jobs), avant), t, team, d, shape);
    }
  }

  lemma AloneExplains(c: Config, jobs: seq<Job>, steps: seq<Step>, team: seq<nat>)
    requires Teams(c, team) && Alone(c, team) && Whole(c, jobs, steps)
    ensures Explained(c, jobs, steps, team)
  {
    var s := After(c, Init(c, jobs), steps);
    forall d, shape: Shape | 0 <= d < |team| && c.pools[d].Serves(shape) && s.files.Of(shape) != []
      ensures HandedOver(steps, team, team[d])
    {
      if !HandedOver(steps, team, team[d]) { TeamAttends(c, jobs, steps, team, d, shape); }
    }
  }

  // ---- Where two teams share a shape --------------------------------------------------

  lemma LegalStep(c: Config, s: State, steps: seq<Step>, t: Step)
    requires Legal(c, s, steps) && Enabled(c, After(c, s, steps), t)
    ensures Legal(c, s, steps + [t]) && After(c, s, steps + [t]) == Apply(c, After(c, s, steps), t)
  {
    assert (steps + [t])[..|steps + [t]|-1] == steps;
  }

  /** A run under way in which nothing has been disturbed. */
  ghost predicate Under(c: Config, jobs: seq<Job>, steps: seq<Step>, s: State) {
    && Fresh(jobs) && Legal(c, Init(c, jobs), steps) && Undisturbed(steps) && s == After(c, Init(c, jobs), steps)
    && |s.drivers| == |c.pools| && !s.stopping && s.open
  }

  /** Handovers are by drivers of `who`, among what was added. */
  ghost predicate Added(steps: seq<Step>, longer: seq<Step>, who: set<nat>) {
    forall d | Answer(d, Handover) in longer :: Answer(d, Handover) in steps || d in who
  }

  lemma StillUnder(c: Config, jobs: seq<Job>, steps: seq<Step>, s: State, t: Step)
    requires Under(c, jobs, steps, s) && Enabled(c, s, t) && t != Stop && t != Close
    ensures Under(c, jobs, steps + [t], Apply(c, s, t))
  {
    LegalStep(c, Init(c, jobs), steps, t);
    StepMoves(c, s, t);
    OpenStays(c, s, t);
  }

  lemma Do(c: Config, jobs: seq<Job>, steps: seq<Step>, s: State, t: Step) returns (longer: seq<Step>, r: State)
    requires Under(c, jobs, steps, s) && Enabled(c, s, t) && t != Stop && t != Close
    ensures longer == steps + [t] && r == Apply(c, s, t) && Under(c, jobs, longer, r)
    ensures Added(steps, longer, if t.Answer? && t.attempt == Handover then {t.d} else {})
  {
    StillUnder(c, jobs, steps, s, t);
    longer, r := steps + [t], Apply(c, s, t);
  }

  /** At its start, or at the gate with no lower rank left. */
  predicate CanStart(s: State, d: nat) {
    d < |s.drivers| && (s.drivers[d].Ready? || (s.drivers[d].Gated? && s.ahead <= 0))
  }

  lemma Clear(c: Config, jobs: seq<Job>, steps: seq<Step>, s: State, d: nat) returns (longer: seq<Step>, r: State)
    requires Under(c, jobs, steps, s) && CanStart(s, d)
    ensures Under(c, jobs, longer, r) && Added(steps, longer, {}) && r == At(s, d, Cleared)
  {
    longer, r := steps, s;
    if s.drivers[d].Gated? { longer, r := Do(c, jobs, steps, s, Pass(d)); }
    longer, r := Do(c, jobs, longer, r, Check(d));
    assert r.drivers == s.drivers[d := Cleared];
  }

  /** The front of a file taken and put back is the file. */
  lemma BackInFront(c: Config, s: State, shape: Shape)
    requires Sound(c, s) && s.files.Of(shape) != []
    ensures s.files.With(shape, s.files.Of(shape)[1..]).PushFront(s.files.Of(shape)[0]) == s.files
  {
    var jobs := s.files.Of(shape);
    assert jobs[0].shape == shape && [jobs[0]] + jobs[1..] == jobs;
  }

  lemma Go(c: Config, jobs: seq<Job>, steps: seq<Step>, s: State, d: nat) returns (longer: seq<Step>, r: State)
    requires Under(c, jobs, steps, s) && d < |s.drivers| && s.drivers[d].Leaving?
    ensures Under(c, jobs, longer, r) && Added(steps, longer, {})
    ensures r.drivers == s.drivers[d := Finished] && r.files == s.files && r.ahead <= s.ahead && r.channel == s.channel
  {
    longer, r := Do(c, jobs, steps, s, Leave(d));
  }

  lemma TakeNone(c: Config, jobs: seq<Job>, steps: seq<Step>, s: State, d: nat) returns (longer: seq<Step>, r: State)
    requires Under(c, jobs, steps, s) && d < |s.drivers| && s.drivers[d].Cleared? && s.files.Served(c.pools[d]).None?
    ensures Under(c, jobs, longer, r) && Added(steps, longer, {}) && r == At(s, d, Leaving)
  {
    longer, r := Do(c, jobs, steps, s, Take(d));
  }

  lemma HandOver(c: Config, jobs: seq<Job>, steps: seq<Step>, s: State, d: nat) returns (longer: seq<Step>, r: State)
    requires Under(c, jobs, steps, s) && d < |s.drivers| && s.drivers[d].Cleared? && s.files.Served(c.pools[d]).Some?
    ensures Under(c, jobs, longer, r) && Added(steps, longer, {d}) && r == At(s, d, Leaving).(handed := true)
  {
    RunsSound(c, jobs, steps);
    BackInFront(c, s, s.files.Served(c.pools[d]).value);
    longer, r := Do(c, jobs, steps, s, Take(d));
    longer, r := Do(c, jobs, longer, r, Answer(d, Handover));
    assert r.drivers == s.drivers[d := Leaving];
  }

  /** A driver leaves: with nothing to take, or handing over what it takes. */
  lemma Exit(c: Config, jobs: seq<Job>, steps: seq<Step>, s: State, d: nat) returns (longer: seq<Step>, r: State)
    requires Under(c, jobs, steps, s) && CanStart(s, d)
    ensures Under(c, jobs, longer, r) && Added(steps, longer, if s.files == Files([], []) then {} else {d})
    ensures r.drivers == s.drivers[d := Finished] && r.files == s.files && r.ahead <= s.ahead && r.channel == s.channel
  {
    longer, r := Clear(c, jobs, steps, s, d);
    if s.files.Served(c.pools[d]).None? {
      longer, r := TakeNone(c, jobs, longer, r, d);
    } else {
      longer, r := HandOver(c, jobs, longer, r, d);
    }
    longer, r := Go(c, jobs, longer, r, d);
  }

  /** A start stays a start while others leave. */
  lemma CanStill(s: State, r: State, d: nat)
    requires CanStart(s, d) && |r.drivers| == |s.drivers| && r.drivers[d] == s.drivers[d] && r.ahead <= s.ahead
    ensures CanStart(r, d)
  {
  }

  /** Those of `who` below `n` have finished, the others stand where they stood. */
  predicate Left(s: State, r: State, who: set<nat>, n: nat) {
    |r.drivers| == |s.drivers| && forall d | 0 <= d < |s.drivers| :: r.drivers[d] == if d < n && d in who then Finished else s.drivers[d]
  }

  /** Who may hand over when `who` leave. */
  function Handing(f: Files, who: set<nat>): set<nat> {
    if f == Files([], []) then {} else who
  }

  lemma LeftSame(s: State, r: State, who: set<nat>, n: nat)
    requires 0 < n <= |s.drivers| && Left(s, r, who, n - 1) && (n - 1 in who ==> s.drivers[n - 1].Finished?)
    ensures Left(s, r, who, n)
  {
  }

  lemma HandingMore(f: Files, who: set<nat>, d: nat)
    requires d in who
    ensures Handing(f, who) + Handing(f, {d}) == Handing(f, who)
  {
  }

  lemma AddedThrough(a: seq<Step>, b: seq<Step>, c: seq<Step>, v: set<nat>, w: set<nat>)
    requires Added(a, b, v) && Added(b, c, w)
    ensures Added(a, c, v + w)
  {
  }

  lemma ExitNext(c: Config, jobs: seq<Job>, steps: seq<Step>, s: State, r: State, who: set<nat>, n: nat)
    returns (longer: seq<Step>, q: State)
    requires Under(c, jobs, steps, r) && 0 < n <= |s.drivers| && n - 1 in who && Left(s, r, who, n - 1)
    requires CanStart(s, n - 1) && r.ahead <= s.ahead
    ensures Under(c, jobs, longer, q) && q.files == r.files && q.ahead <= r.ahead && q.channel == r.channel
    ensures Added(steps, longer, Handing(r.files, {n - 1})) && Left(s, q, who, n)
  {
    CanStill(s, r, n - 1);
    longer, q := Exit(c, jobs, steps, r, n - 1);
  }

  /** Those of `who` not yet finished leave, one after another. */
  lemma {:induction false} ExitAll(c: Config, jobs: seq<Job>, steps: seq<Step>, s: State, who: set<nat>, n: nat)
    returns (longer: seq<Step>, r: State)
    requires Under(c, jobs, steps, s) && n <= |s.drivers|
    requires forall d | d in who && d < |s.drivers| :: s.drivers[d].Finished? || CanStart(s, d)
    ensures Under(c, jobs, longer, r) && r.files == s.files && r.ahead <= s.ahead && r.channel == s.channel
    ensures Added(steps, longer, Handing(s.files, who)) && Left(s, r, who, n)
  {
    if n == 0 {
      longer, r := steps, s;
    } else {
      var avant, q := ExitAll(c, jobs, steps, s, who, n - 1);
      if n - 1 in who && !s.drivers[n - 1].Finished? {
        longer, r := ExitNext(c, jobs, avant, s, q, who, n);
        HandingMore(s.files, who, n - 1);
        AddedThrough(steps, avant, longer, Handing(s.files, who), Handing(s.files, {n - 1}));
      } else {
        LeftSame(s, q, who, n);
        longer, r := avant, q;
      }
    }
  }

  /** A driver writes every job but one of the only shape queued. */
  lemma {:induction false} Drain(c: Config, jobs: seq<Job>, steps: seq<Step>, s: State, d: nat, shape: Shape)
    returns (longer: seq<Step>, r: State)
    requires Under(c, jobs, steps, s) && d < |s.drivers| && s.drivers[d].Ready? && c.pools[d].Serves(shape)
    requires s.files.Of(shape) != [] && s.files.Of(shape.Other()) == [] && s.channel == []
    ensures Under(c, jobs, longer, r) && Added(steps, longer, {}) && r.drivers == s.drivers && r.ahead == s.ahead
    ensures |r.files.Of(shape)| == 1 && r.files.Of(shape.Other()) == []
    decreases |s.files.Of(shape)|
  {
    longer, r := steps, s;
    if |s.files.Of(shape)| > 1 {
      longer, r := WriteOne(c, jobs, steps, s, d, shape);
      longer, r := Drain(c, jobs, longer, r, d, shape);
    }
  }

  lemma OnlyShape(pool: Pool, f: Files, shape: Shape)
    requires pool.Serves(shape) && f.Of(shape) != [] && f.Of(shape.Other()) == []
    ensures f.Served(pool) == Some(shape)
  {
  }

  lemma WriteOne(c: Config, jobs: seq<Job>, steps: seq<Step>, s: State, d: nat, shape: Shape)
    returns (longer: seq<Step>, r: State)
    requires Under(c, jobs, steps, s) && d < |s.drivers| && s.drivers[d].Ready? && c.pools[d].Serves(shape)
    requires s.files.Of(shape) != [] && s.files.Of(shape.Other()) == [] && s.channel == []
    ensures Under(c, jobs, longer, r) && Added(steps, longer, {}) && r.drivers == s.drivers && r.ahead == s.ahead
    ensures r.files == s.files.With(shape, s.files.Of(shape)[1..]) && r.channel == []
  {
    longer, r := TakeOne(c, jobs, steps, s, d, shape);
    longer, r := Do(c, jobs, longer, r, Answer(d, Written));
    longer, r := Do(c, jobs, longer, r, Send(d));
    longer, r := Do(c, jobs, longer, r, Receive);
    assert r.drivers == s.drivers;
  }

  lemma TakeOne(c: Config, jobs: seq<Job>, steps: seq<Step>, s: State, d: nat, shape: Shape)
    returns (longer: seq<Step>, r: State)
    requires Under(c, jobs, steps, s) && d < |s.drivers| && s.drivers[d].Ready? && c.pools[d].Serves(shape)
    requires s.files.Of(shape) != [] && s.files.Of(shape.Other()) == []
    ensures Under(c, jobs, longer, r) && Added(steps, longer, {})
    ensures r == At(s, d, Calling(s.files.Of(shape)[0])).(files := s.files.With(shape, s.files.Of(shape)[1..]))
  {
    longer, r := Do(c, jobs, steps, s, Check(d));
    OnlyShape(c.pools[d], s.files, shape);
    longer, r := Do(c, jobs, longer, r, Take(d));
    assert r.drivers == s.drivers[d := Calling(s.files.Of(shape)[0])];
  }

  predicate AllOf(jobs: seq<Job>, shape: Shape) {
    forall j | j in jobs :: j.shape == shape
  }

  lemma {:induction false} FillOne(jobs: seq<Job>, shape: Shape)
    requires AllOf(jobs, shape)
    ensures Fill(jobs).Of(shape) == jobs && Fill(jobs).Of(shape.Other()) == []
  {
    if jobs != [] {
      var (avant, last) := (jobs[..|jobs|-1], jobs[|jobs|-1]);
      assert last in jobs;
      assert AllOf(avant, shape) by { assert forall j | j in avant :: j in jobs; }
      FillOne(avant, shape);
      assert avant + [last] == jobs;
      assert Fill(jobs) == Fill(avant).PushBack(last);
    }
  }

  lemma {:induction false} NoLead(pools: seq<Pool>, drivers: seq<Phase>)
    requires |pools| == |drivers| && forall d | 0 <= d < |drivers| && pools[d].Rank() == 0 :: drivers[d].Finished?
    ensures Lead(pools, drivers) == 0
  {
    if drivers != [] { NoLead(pools[..|pools|-1], drivers[..|drivers|-1]); }
  }

  /** Two drivers of different teams that share a shape and pull together. */
  predicate Sharing(c: Config, team: seq<nat>, d: nat, e: nat, shape: Shape) {
    && Teams(c, team) && d < |team| && e < |team| && team[d] != team[e] && Together(c, d, e)
    && c.pools[d].Serves(shape) && c.pools[e].Serves(shape)
  }

  /** The drivers of rank 0, but `d` and the team of `e`. */
  function Foremost(c: Config, team: seq<nat>, d: nat, e: nat): set<nat>
    requires |team| == |c.pools| && e < |team|
  {
    set k: nat | k < |team| && c.pools[k].Rank() == 0 && k != d && team[k] != team[e]
  }

  function TeamOf(team: seq<nat>, t: nat): set<nat> {
    set k: nat | k < |team| && team[k] == t
  }

  function OthersThan(team: seq<nat>, t: nat): set<nat> {
    set k: nat | k < |team| && team[k] != t
  }

  /** Once they have left, `d` and the team of `e` can start. */
  lemma GatesOpen(c: Config, jobs: seq<Job>, steps: seq<Step>, r: State, team: seq<nat>, d: nat, e: nat, shape: Shape, k: nat)
    requires Sharing(c, team, d, e, shape) && Under(c, jobs, steps, r)
    requires Left(Init(c, jobs), r, Foremost(c, team, d, e), |team|)
    requires k < |team| && (k == d || team[k] == team[e])
    ensures CanStart(r, k)
  {
    RunsSound(c, jobs, steps);
    if r.drivers[k].Gated? { NoLead(c.pools, r.drivers); }
  }

  /** `d` comes to hold the one job left, having written the others. */
  lemma HoldLast(c: Config, jobs: seq<Job>, steps: seq<Step>, s: State, d: nat, shape: Shape) returns (longer: seq<Step>, r: State)
    requires Under(c, jobs, steps, s) && CanStart(s, d) && c.pools[d].Serves(shape)
    requires s.files.Of(shape) != [] && s.files.Of(shape.Other()) == [] && s.channel == []
    ensures Under(c, jobs, longer, r) && Added(steps, longer, {}) && r.ahead == s.ahead && r.files == Files([], [])
    ensures r.drivers[d].Calling? && r.drivers == s.drivers[d := r.drivers[d]] && r.drivers[d].job.shape == shape
  {
    longer, r := steps, s;
    if s.drivers[d].Gated? { longer, r := Do(c, jobs, steps, s, Pass(d)); }
    longer, r := Drain(c, jobs, longer, r, d, shape);
    RunsSound(c, jobs, longer);
    longer, r := TakeOne(c, jobs, longer, r, d, shape);
    assert r.files.Of(shape) == [] && r.files.Of(shape.Other()) == [];
  }

  lemma PutBack(c: Config, jobs: seq<Job>, steps: seq<Step>, s: State, d: nat) returns (longer: seq<Step>, r: State)
    requires Under(c, jobs, steps, s) && d < |s.drivers| && s.drivers[d].Calling?
    ensures Under(c, jobs, longer, r) && Added(steps, longer, {d}) && r.ahead <= s.ahead
    ensures r.files == s.files.PushFront(s.drivers[d].job) && r.drivers == s.drivers[d := Finished]
  {
    longer, r := Do(c, jobs, steps, s, Answer(d, Handover));
    longer, r := Go(c, jobs, longer, r, d);
    assert r.drivers == s.drivers[d := Finished];
  }

  /** With `d` and the team of `e` done, and the rank 0 drivers, the rest can start. */
  lemma RestStarts(c: Config, jobs: seq<Job>, steps: seq<Step>, r: State, team: seq<nat>, d: nat, e: nat, k: nat)
    requires Teams(c, team) && d < |team| && e < |team| && Under(c, jobs, steps, r) && k < |team|
    requires forall j | 0 <= j < |team| ::
      r.drivers[j] == if j in Foremost(c, team, d, e) || j == d || j in TeamOf(team, team[e]) then Finished else Init(c, jobs).drivers[j]
    ensures r.drivers[k].Finished? || CanStart(r, k)
  {
    RunsSound(c, jobs, steps);
    if r.drivers[k].Gated? { NoLead(c.pools, r.drivers); }
  }

  /** Then, whatever the number of its jobs, a batch can end with one left that the
      whole team of `e` could have served and never handed over. */
  lemma Strands(c: Config, team: seq<nat>, d: nat, e: nat, shape: Shape, jobs: seq<Job>) returns (steps: seq<Step>)
    requires Sharing(c, team, d, e, shape) && Fresh(jobs) && jobs != [] && AllOf(jobs, shape)
    ensures Whole(c, jobs, steps) && After(c, Init(c, jobs), steps).files.Of(shape) != []
    ensures !HandedOver(steps, team, team[e])
  {
    var (first, mates, n) := (Foremost(c, team, d, e), TeamOf(team, team[e]), |team|);
    var s0 := Init(c, jobs);
    FillOne(jobs, shape);
    var s1, s2, s3, s4, steps2, steps3, steps4;
    steps, s1 := ExitAll(c, jobs, [], s0, first, n);
    GatesOpen(c, jobs, steps, s1, team, d, e, shape, d);
    forall k | k in mates ensures CanStart(s1, k) { GatesOpen(c, jobs, steps, s1, team, d, e, shape, k); }
    steps2, s2 := HoldLast(c, jobs, steps, s1, d, shape);
    AddedThrough([], steps, steps2, first, {});
    forall k | k in mates ensures CanStart(s2, k) { CanStill(s1, s2, k); }
    steps3, s3 := ExitAll(c, jobs, steps2, s2, mates, n);
    AddedThrough([], steps2, steps3, first, {});
    steps4, s4 := PutBack(c, jobs, steps3, s3, d);
    AddedThrough([], steps3, steps4, first, {d});
    steps := FinishRest(c, jobs, steps4, s4, team, d, e);
    AddedThrough([], steps4, steps, first + {d}, OthersThan(team, team[e]));
  }

  lemma FinishRest(c: Config, jobs: seq<Job>, steps: seq<Step>, s: State, team: seq<nat>, d: nat, e: nat) returns (longer: seq<Step>)
    requires Teams(c, team) && d < |team| && e < |team| && Under(c, jobs, steps, s)
    requires forall j | 0 <= j < |team| ::
      s.drivers[j] == if j in Foremost(c, team, d, e) || j == d || j in TeamOf(team, team[e]) then Finished else Init(c, jobs).drivers[j]
    ensures Whole(c, jobs, longer) && After(c, Init(c, jobs), longer).files == s.files
    ensures Added(steps, longer, OthersThan(team, team[e]))
  {
    var rest := OthersThan(team, team[e]);
    forall k | k in rest ensures s.drivers[k].Finished? || CanStart(s, k) { RestStarts(c, jobs, steps, s, team, d, e, k); }
    var r;
    longer, r := ExitAll(c, jobs, steps, s, rest, |team|);
  }

  /** `n` jobs of one shape, told apart. */
  function Batch(n: nat, shape: Shape): (jobs: seq<Job>)
    ensures |jobs| == n && Fresh(jobs) && AllOf(jobs, shape)
  {
    seq(n, k => Job(k, shape, 0, 0))
  }

  /** In every undisturbed run of a batch of `n` jobs or more, jobs left mean that each
      team able to serve them has handed over, if and only if no two teams that pull
      together serve one shape. */
  lemma LeftExplainedIff(c: Config, team: seq<nat>, n: nat)
    requires Teams(c, team)
    ensures (forall jobs, steps | |jobs| >= n && Whole(c, jobs, steps) :: Explained(c, jobs, steps, team)) <==> Alone(c, team)
  {
    if Alone(c, team) {
      forall jobs, steps | |jobs| >= n && Whole(c, jobs, steps) ensures Explained(c, jobs, steps, team) {
        AloneExplains(c, jobs, steps, team);
      }
    } else {
      var d, e, shape: Shape :| 0 <= d < |team| && 0 <= e < |team| && team[d] != team[e] && Together(c, d, e)
        && c.pools[d].Serves(shape) && c.pools[e].Serves(shape);
      var jobs := Batch(n + 1, shape);
      var steps := Strands(c, team, d, e, shape, jobs);
      assert |jobs| >= n && Whole(c, jobs, steps) && !Explained(c, jobs, steps, team);
    }
  }

  /** Each driver its own team. */
  function Singly(n: nat): (team: seq<nat>)
    ensures |team| == n && forall d | 0 <= d < n :: team[d] == d
  {
    seq(n, d => d)
  }

  /** Each driver that serves a shape left has handed over. */
  predicate EachExplained(c: Config, jobs: seq<Job>, steps: seq<Step>)
    requires Legal(c, Init(c, jobs), steps)
  {
    forall d, shape: Shape | 0 <= d < |c.pools| && c.pools[d].Serves(shape) && After(c, Init(c, jobs), steps).files.Of(shape) != [] ::
      Answer(d, Handover) in steps
  }

  /** Driver by driver: if and only if no two drivers that pull together serve one shape,
      so never where a pool has two. */
  lemma EachExplainedIff(c: Config, n: nat)
    ensures (forall jobs, steps | |jobs| >= n && Whole(c, jobs, steps) :: EachExplained(c, jobs, steps)) <==>
            forall d, e, shape: Shape | 0 <= d < |c.pools| && 0 <= e < |c.pools| && d != e && Together(c, d, e) ::
              !(c.pools[d].Serves(shape) && c.pools[e].Serves(shape))
  {
    var team := Singly(|c.pools|);
    forall jobs, steps | Whole(c, jobs, steps) ensures EachExplained(c, jobs, steps) <==> Explained(c, jobs, steps, team) {
      forall d | 0 <= d < |team| ensures HandedOver(steps, team, team[d]) <==> Answer(d, Handover) in steps { }
    }
    LeftExplainedIff(c, team, n);
  }

  // ---- One such run --------------------------------------------------------------------

  /** Two models of the free door, both rewriting, and one job: the second finds the
      files empty and exits while the first holds the job, then hands over. */
  function OneHandover(): seq<Step> {
    [Check(0), Take(0), Check(1), Take(1), Leave(1), Answer(0, Handover), Leave(0)]
  }

  /** One handover leaves a job that the other pool could still have served. */
  lemma HandoverStrands(job: Job)
    requires Fresh([job]) && job.shape == Rewrite
    ensures var c := Config([Pool(Gemini, Some(0), None), Pool(Gemini, Some(1), None)], All);
            Legal(c, Init(c, [job]), OneHandover()) &&
            var s := After(c, Init(c, [job]), OneHandover());
            s.drivers == [Finished, Finished] && s.files == Files([], [job]) && !s.stopping && s.open
  {
    var c := Config([Pool(Gemini, Some(0), None), Pool(Gemini, Some(1), None)], All);
    var s := Init(c, [job]);
    assert [job][..0] == [];
    assert Fill([job]) == Files([], [job]);
    assert s.drivers == [Ready, Ready];
    var r1 := [Check(0)];
    LegalStep(c, s, [], Check(0));
    assert [] + [Check(0)] == r1;
    assert After(c, s, r1).files.Served(c.pools[0]) == Some(Rewrite);
    var r2 := r1 + [Take(0)];
    LegalStep(c, s, r1, Take(0));
    assert [job][1..] == [];
    assert After(c, s, r2).files == Files([], []) && After(c, s, r2).drivers == [Calling(job), Ready];
    var r3 := r2 + [Check(1)];
    LegalStep(c, s, r2, Check(1));
    var r4 := r3 + [Take(1)];
    LegalStep(c, s, r3, Take(1));
    var r5 := r4 + [Leave(1)];
    LegalStep(c, s, r4, Leave(1));
    var r6 := r5 + [Answer(0, Handover)];
    LegalStep(c, s, r5, Answer(0, Handover));
    LegalStep(c, s, r6, Leave(0));
    assert r6 + [Leave(0)] == OneHandover();
  }
}
