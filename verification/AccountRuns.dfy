/** Whole runs of the handlers, their statements interleaved as they come: what a
    spent token pays for, and what an account keeps. */
module AccountRuns {
  import opened Ordre
  import opened Accounts

  // ---- The machine ---------------------------------------------------------------------

  /** What a handler still has to do once it has spent a token of an address change. */
  datatype Task = IssueSecond(user: string, email: string) | WriteNew(user: string, email: string)

  /** What has happened: a token issued, by the spending of `cause` if it is a second
      one; a token spent, and when; an address written by the spending of `through`. */
  datatype Event =
    | Issued(digest: string, grant: Grant, cause: Option<string>)
    | Spent(digest: string, grant: Grant, at: int)
    | Wrote(user: string, email: string, through: string)

  /** `tasks` holds the handlers under way, each under the token it spent; `unlinking`
      the identities whose deletion has passed its guard and not yet been made. */
  datatype State = State(b: Base, tasks: map<string, Task>, unlinking: set<Identity>, log: seq<Event>)

  datatype Step =
    | NewAccount(sub: string, u: User)
    | Issue(digest: string, user: string, purpose: Purpose, newEmail: Option<string>, expires: int)
    | SpendFor(digest: string, purpose: Purpose, now: int)
    | RunTask(digest: string, second: string, expires: int)
    | Confirm(user: string)
    | SetPassword(user: string)
    | AttachId(user: string, id: Identity)
    | AdoptId(user: string, id: Identity)
    | BornFrom(sub: string, id: Identity, email: string, verified: bool)
    | BeginUnlink(user: string, id: Identity)
    | EndUnlink(id: Identity)
    | DeleteUser(user: string)

  predicate EverIssued(log: seq<Event>, digest: string) {
    exists k | 0 <= k < |log| :: log[k].Issued? && log[k].digest == digest
  }

  /** A step can be taken: tokens are drawn fresh, only the second handler of an address
      change issues a second token, and a row is deleted once the guard has been read. */
  predicate Enabled(s: State, step: Step) {
    match step
    case Issue(d, _, purpose, _, _) => !EverIssued(s.log, d) && purpose != NewAddress
    case RunTask(d, second, _) => d in s.tasks && (s.tasks[d].IssueSecond? ==> !EverIssued(s.log, second))
    case EndUnlink(id) => id in s.unlinking
    case _ => true
  }

  /** The statement of a handler that spends a token, and what it owes then. */
  function Spending(s: State, digest: string, purpose: Purpose, now: int): State {
    if !Live(s.b, digest, purpose, now) then s else
    var g := s.b.tokens[digest].grant;
    var tasks :=
      if g.newEmail.None? then s.tasks
      else if purpose == OldAddress then s.tasks[digest := IssueSecond(g.user, g.newEmail.value)]
      else if purpose == NewAddress then s.tasks[digest := WriteNew(g.user, g.newEmail.value)]
      else s.tasks;
    s.(b := Spend(s.b, digest, purpose, now), tasks := tasks, log := s.log + [Spent(digest, g, now)])
  }

  function Issuing(s: State, digest: string, g: Grant, cause: Option<string>): State {
    if CanIssue(s.b, digest, g.user) then s.(b := InsertToken(s.b, digest, g), log := s.log + [Issued(digest, g, cause)]) else s
  }

  function Writing(fold: Fold, s: State, user: string, email: string, through: string): State {
    if CanMove(fold, s.b, user, email) then s.(b := WriteEmail(fold, s.b, user, email), log := s.log + [Wrote(user, email, through)]) else s
  }

  /** A task leaves as it runs. */
  function Running(fold: Fold, s: State, digest: string, second: string, expires: int): State
    requires digest in s.tasks
  {
    var left := s.(tasks := s.tasks - {digest});
    match s.tasks[digest]
    case IssueSecond(user, email) => Issuing(left, second, Grant(user, NewAddress, Some(email), expires), Some(digest))
    case WriteNew(user, email) => Writing(fold, left, user, email, digest)
  }

  function Apply(fold: Fold, s: State, step: Step): State
    requires Enabled(s, step)
  {
    match step
    case NewAccount(sub, u) => s.(b := InsertUser(fold, s.b, sub, u))
    case Issue(d, user, purpose, newEmail, expires) => Issuing(s, d, Grant(user, purpose, newEmail, expires), None)
    case SpendFor(d, purpose, now) => Spending(s, d, purpose, now)
    case RunTask(d, second, expires) => Running(fold, s, d, second, expires)
    case Confirm(user) => s.(b := ConfirmEmail(s.b, user))
    case SetPassword(user) => s.(b := WritePassword(s.b, user))
    case AttachId(user, id) => s.(b := Attach(s.b, user, id))
    case AdoptId(user, id) => s.(b := Adopt(s.b, user, id))
    case BornFrom(sub, id, email, verified) => s.(b := CreateFrom(fold, s.b, sub, id, email, verified))
    case BeginUnlink(user, id) => if CanUnlink(s.b, user, id) then s.(unlinking := s.unlinking + {id}) else s
    case EndUnlink(id) => s.(b := s.b.(identities := s.b.identities - {id}), unlinking := s.unlinking - {id})
    case DeleteUser(user) =>
      var b := Delete(s.b, user);
      s.(b := b, unlinking := set id | id in s.unlinking && id in b.identities)
  }

  /** Accounts as they may be, no token issued yet. */
  ghost predicate Init(fold: Fold, s: State) {
    s.b.tokens == map[] && s.tasks == map[] && s.unlinking == {} && s.log == [] && AddressesUnique(fold, s.b.users) && Owned(s.b)
  }

  predicate Legal(fold: Fold, s: State, steps: seq<Step>)
    decreases |steps|
  {
    steps == [] || (Enabled(s, steps[0]) && Legal(fold, Apply(fold, s, steps[0]), steps[1..]))
  }

  function After(fold: Fold, s: State, steps: seq<Step>): State
    requires Legal(fold, s, steps)
    decreases |steps|
  {
    if steps == [] then s else After(fold, Apply(fold, s, steps[0]), steps[1..])
  }

  // ---- What the log shows ----------------------------------------------------------------

  predicate EverSpent(log: seq<Event>, digest: string) {
    exists k | 0 <= k < |log| :: log[k].Spent? && log[k].digest == digest
  }

  /** A second token was issued for the spending of `cause`. */
  predicate Paid(log: seq<Event>, cause: string) {
    exists k | 0 <= k < |log| :: log[k].Issued? && log[k].cause == Some(cause)
  }

  predicate Written(log: seq<Event>, through: string) {
    exists k | 0 <= k < |log| :: log[k].Wrote? && log[k].through == through
  }

  ghost predicate SpentAs(log: seq<Event>, digest: string, user: string, purpose: Purpose, email: string) {
    exists expires, at :: Spent(digest, Grant(user, purpose, Some(email), expires), at) in log
  }

  ghost predicate IssuedAs(log: seq<Event>, digest: string, g: Grant) {
    exists cause :: Issued(digest, g, cause) in log
  }

  /** What must have happened before an event. */
  ghost predicate Earned(before: seq<Event>, e: Event) {
    match e
    case Issued(d, g, cause) =>
      && !EverIssued(before, d)
      && (g.purpose == NewAddress <==> cause.Some?)
      && (cause.Some? ==> !Paid(before, cause.value) && g.newEmail.Some?
                          && SpentAs(before, cause.value, g.user, OldAddress, g.newEmail.value))
    case Spent(d, g, at) => !EverSpent(before, d) && IssuedAs(before, d, g) && at < g.expires
    case Wrote(user, email, through) => !Written(before, through) && SpentAs(before, through, user, NewAddress, email)
  }

  ghost predicate AllEarned(log: seq<Event>) {
    forall k | 0 <= k < |log| :: Earned(log[..k], log[k])
  }

  /** The tables and the handlers under way agree with the log. */
  ghost predicate TokensAgree(b: Base, log: seq<Event>) {
    forall d | d in b.tokens :: IssuedAs(log, d, b.tokens[d].grant) && (EverSpent(log, d) ==> b.tokens[d].used)
  }

  ghost predicate TaskAgrees(log: seq<Event>, d: string, t: Task) {
    match t
    case IssueSecond(user, email) => SpentAs(log, d, user, OldAddress, email) && !Paid(log, d)
    case WriteNew(user, email) => SpentAs(log, d, user, NewAddress, email) && !Written(log, d)
  }

  ghost predicate TasksAgree(s: State) {
    forall d | d in s.tasks :: TaskAgrees(s.log, d, s.tasks[d])
  }

  ghost predicate Kept(fold: Fold, s: State) {
    && AllEarned(s.log) && TokensAgree(s.b, s.log) && TasksAgree(s) && AddressesUnique(fold, s.b.users) && Owned(s.b)
    && forall id | id in s.unlinking :: id in s.b.identities
  }

  // ---- Logs that grow -----------------------------------------------------------------------

  lemma Grows(log: seq<Event>, e: Event)
    ensures forall x | x in log :: x in log + [e]
    ensures e in log + [e]
    ensures forall d :: EverIssued(log + [e], d) <==> EverIssued(log, d) || (e.Issued? && e.digest == d)
    ensures forall d :: EverSpent(log + [e], d) <==> EverSpent(log, d) || (e.Spent? && e.digest == d)
    ensures forall d :: Paid(log + [e], d) <==> Paid(log, d) || (e.Issued? && e.cause == Some(d))
    ensures forall d :: Written(log + [e], d) <==> Written(log, d) || (e.Wrote? && e.through == d)
  {
    var more := log + [e];
    assert more[|log|] == e;
    assert forall k | 0 <= k < |log| :: more[k] == log[k];
  }

  lemma EarnedGrows(log: seq<Event>, e: Event)
    requires AllEarned(log) && Earned(log, e)
    ensures AllEarned(log + [e])
  {
    var more := log + [e];
    forall k | 0 <= k < |more| ensures Earned(more[..k], more[k]) {
      if k < |log| { assert more[..k] == log[..k]; } else { assert more[..k] == log; }
    }
  }

  lemma SpentAsGrows(log: seq<Event>, e: Event, d: string, user: string, purpose: Purpose, email: string)
    requires SpentAs(log, d, user, purpose, email)
    ensures SpentAs(log + [e], d, user, purpose, email)
  {
    var x, at :| Spent(d, Grant(user, purpose, Some(email), x), at) in log;
    assert Spent(d, Grant(user, purpose, Some(email), x), at) in log + [e];
  }

  lemma IssuedAsGrows(log: seq<Event>, e: Event, d: string, g: Grant)
    requires IssuedAs(log, d, g)
    ensures IssuedAs(log + [e], d, g)
  {
    var c :| Issued(d, g, c) in log;
    assert Issued(d, g, c) in log + [e];
  }

  /** Events that pay for no handler leave those under way as they were. */
  lemma TaskGrows(log: seq<Event>, e: Event, d: string, t: Task)
    requires TaskAgrees(log, d, t)
    requires e.Issued? ==> e.cause != Some(d)
    requires e.Wrote? ==> e.through != d
    ensures TaskAgrees(log + [e], d, t)
  {
    Grows(log, e);
    match t
    case IssueSecond(user, email) => SpentAsGrows(log, e, d, user, OldAddress, email);
    case WriteNew(user, email) => SpentAsGrows(log, e, d, user, NewAddress, email);
  }

  // ---- Each step keeps it -------------------------------------------------------------------

  lemma IssuingTokens(s: State, d: string, g: Grant, cause: Option<string>)
    requires AllEarned(s.log) && TokensAgree(s.b, s.log) && CanIssue(s.b, d, g.user) && !EverIssued(s.log, d)
    ensures TokensAgree(InsertToken(s.b, d, g), s.log + [Issued(d, g, cause)])
  {
    var e := Issued(d, g, cause);
    var b := InsertToken(s.b, d, g);
    Grows(s.log, e);
    NeverIssuedNeverSpent(s.log, d);
    forall x | x in b.tokens ensures IssuedAs(s.log + [e], x, b.tokens[x].grant) && (EverSpent(s.log + [e], x) ==> b.tokens[x].used) {
      if x != d { IssuedAsGrows(s.log, e, x, s.b.tokens[x].grant); }
    }
  }

  lemma TasksGrow(log: seq<Event>, tasks: map<string, Task>, e: Event)
    requires forall d | d in tasks :: TaskAgrees(log, d, tasks[d])
    requires e.Issued? && e.cause.Some? ==> e.cause.value !in tasks
    requires e.Wrote? ==> e.through !in tasks
    ensures forall d | d in tasks :: TaskAgrees(log + [e], d, tasks[d])
  {
    forall d | d in tasks ensures TaskAgrees(log + [e], d, tasks[d]) { TaskGrows(log, e, d, tasks[d]); }
  }

  lemma IssuingKeeps(fold: Fold, s: State, d: string, g: Grant, cause: Option<string>)
    requires Kept(fold, s) && Earned(s.log, Issued(d, g, cause))
    requires cause.Some? ==> cause.value !in s.tasks
    ensures Kept(fold, Issuing(s, d, g, cause))
  {
    if CanIssue(s.b, d, g.user) {
      IssuingTokens(s, d, g, cause);
      TasksGrow(s.log, s.tasks, Issued(d, g, cause));
      EarnedGrows(s.log, Issued(d, g, cause));
    }
  }

  /** What was never issued was never spent. */
  lemma NeverIssuedNeverSpent(log: seq<Event>, d: string)
    requires AllEarned(log) && !EverIssued(log, d)
    ensures !EverSpent(log, d)
  {
    forall k | 0 <= k < |log| && log[k].Spent? ensures log[k].digest != d {
      assert Earned(log[..k], log[k]);
      var c :| Issued(log[k].digest, log[k].grant, c) in log[..k];
      var j :| 0 <= j < k && log[..k][j] == Issued(log[k].digest, log[k].grant, c);
      assert log[j].Issued? && log[j].digest == log[k].digest;
    }
  }

  lemma SpendingTokens(s: State, d: string, purpose: Purpose, now: int)
    requires TokensAgree(s.b, s.log) && Live(s.b, d, purpose, now)
    ensures TokensAgree(Spending(s, d, purpose, now).b, s.log + [Spent(d, s.b.tokens[d].grant, now)])
  {
    var e := Spent(d, s.b.tokens[d].grant, now);
    var more := Spending(s, d, purpose, now);
    Grows(s.log, e);
    forall x | x in more.b.tokens ensures IssuedAs(s.log + [e], x, more.b.tokens[x].grant) && (EverSpent(s.log + [e], x) ==> more.b.tokens[x].used) {
      IssuedAsGrows(s.log, e, x, s.b.tokens[x].grant);
    }
  }

  /** A task is under way only under a token spent. */
  lemma TaskSpent(s: State, d: string)
    requires TasksAgree(s) && d in s.tasks
    ensures EverSpent(s.log, d)
  {
    assert TaskAgrees(s.log, d, s.tasks[d]);
    var p := if s.tasks[d].IssueSecond? then OldAddress else NewAddress;
    var x, at :| Spent(d, Grant(s.tasks[d].user, p, Some(s.tasks[d].email), x), at) in s.log;
  }

  lemma SpentInPrefix(log: seq<Event>, k: nat, d: string, g: Grant, at: int)
    requires k <= |log| && Spent(d, g, at) in log[..k]
    ensures EverSpent(log, d)
  {
    var j :| 0 <= j < k && log[..k][j] == Spent(d, g, at);
    assert log[j].Spent? && log[j].digest == d;
  }

  lemma PaidAfterSpent(log: seq<Event>, k: nat)
    requires AllEarned(log) && k < |log|
    ensures log[k].Issued? && log[k].cause.Some? ==> EverSpent(log, log[k].cause.value)
    ensures log[k].Wrote? ==> EverSpent(log, log[k].through)
  {
    var e := log[k];
    assert Earned(log[..k], e);
    if e.Issued? && e.cause.Some? {
      var x, at :| Spent(e.cause.value, Grant(e.grant.user, OldAddress, Some(e.grant.newEmail.value), x), at) in log[..k];
      SpentInPrefix(log, k, e.cause.value, Grant(e.grant.user, OldAddress, Some(e.grant.newEmail.value), x), at);
    } else if e.Wrote? {
      var x, at :| Spent(e.through, Grant(e.user, NewAddress, Some(e.email), x), at) in log[..k];
      SpentInPrefix(log, k, e.through, Grant(e.user, NewAddress, Some(e.email), x), at);
    }
  }

  /** What was never spent has paid for nothing. */
  lemma NotPaidBefore(log: seq<Event>, d: string)
    requires AllEarned(log) && !EverSpent(log, d)
    ensures !Paid(log, d) && !Written(log, d)
  {
    forall k | 0 <= k < |log| ensures !(log[k].Issued? && log[k].cause == Some(d)) && !(log[k].Wrote? && log[k].through == d) {
      PaidAfterSpent(log, k);
    }
  }

  lemma SpendingTasks(s: State, d: string, purpose: Purpose, now: int)
    requires AllEarned(s.log) && TasksAgree(s) && Live(s.b, d, purpose, now) && !EverSpent(s.log, d)
    ensures TasksAgree(Spending(s, d, purpose, now))
  {
    var g := s.b.tokens[d].grant;
    var e := Spent(d, g, now);
    var more := Spending(s, d, purpose, now);
    Grows(s.log, e);
    NotPaidBefore(s.log, d);
    if d in s.tasks { TaskSpent(s, d); }
    forall x | x in more.tasks ensures TaskAgrees(more.log, x, more.tasks[x]) {
      if x == d {
        assert Spent(d, Grant(g.user, g.purpose, Some(g.newEmail.value), g.expires), now) in more.log;
      } else {
        TaskGrows(s.log, e, x, s.tasks[x]);
      }
    }
  }

  lemma SpendingKeeps(fold: Fold, s: State, d: string, purpose: Purpose, now: int)
    requires Kept(fold, s)
    ensures Kept(fold, Spending(s, d, purpose, now))
  {
    if Live(s.b, d, purpose, now) {
      assert !EverSpent(s.log, d);
      SpendingTokens(s, d, purpose, now);
      SpendingTasks(s, d, purpose, now);
      EarnedGrows(s.log, Spent(d, s.b.tokens[d].grant, now));
    }
  }

  lemma WriteKeepsUnique(fold: Fold, b: Base, user: string, email: string)
    requires AddressesUnique(fold, b.users)
    ensures AddressesUnique(fold, WriteEmail(fold, b, user, email).users)
  {
    if CanMove(fold, b, user, email) {
      forall t | t in b.users && t != user ensures !HasAddress(fold, b.users[t], email) {}
    }
  }

  lemma WritingKeeps(fold: Fold, s: State, user: string, email: string, through: string)
    requires Kept(fold, s) && Earned(s.log, Wrote(user, email, through)) && through !in s.tasks
    ensures Kept(fold, Writing(fold, s, user, email, through))
  {
    if CanMove(fold, s.b, user, email) {
      var e := Wrote(user, email, through);
      WritingTokens(s, e);
      TasksGrow(s.log, s.tasks, e);
      EarnedGrows(s.log, e);
      WriteKeepsUnique(fold, s.b, user, email);
    }
  }

  lemma WritingTokens(s: State, e: Event)
    requires TokensAgree(s.b, s.log) && e.Wrote?
    ensures TokensAgree(s.b, s.log + [e])
  {
    Grows(s.log, e);
    forall x | x in s.b.tokens ensures IssuedAs(s.log + [e], x, s.b.tokens[x].grant) { IssuedAsGrows(s.log, e, x, s.b.tokens[x].grant); }
  }

  lemma RunningKeeps(fold: Fold, s: State, d: string, second: string, expires: int)
    requires Kept(fold, s) && d in s.tasks && (s.tasks[d].IssueSecond? ==> !EverIssued(s.log, second))
    ensures Kept(fold, Running(fold, s, d, second, expires))
  {
    var left := s.(tasks := s.tasks - {d});
    assert TaskAgrees(s.log, d, s.tasks[d]);
    assert Kept(fold, left);
    match s.tasks[d]
    case IssueSecond(user, email) => IssuingKeeps(fold, left, second, Grant(user, NewAddress, Some(email), expires), Some(d));
    case WriteNew(user, email) => WritingKeeps(fold, left, user, email, d);
  }

  lemma InsertKeepsUnique(fold: Fold, users: map<string, User>, sub: string, u: User)
    requires AddressesUnique(fold, users) && sub !in users && (u.email.Some? ==> !Taken(fold, users, u.email.value))
    ensures AddressesUnique(fold, users[sub := u])
  {
    if u.email.Some? {
      forall t | t in users ensures !HasAddress(fold, users[t], u.email.value) {}
    }
  }

  /** Statements that touch no token and issue none keep the tables sound. */
  lemma PlainKeeps(fold: Fold, s: State, b: Base, unlinking: set<Identity>)
    requires Kept(fold, s) && AddressesUnique(fold, b.users) && Owned(b)
    requires forall d | d in b.tokens :: d in s.b.tokens && b.tokens[d] == s.b.tokens[d]
    requires forall id | id in unlinking :: id in b.identities
    ensures Kept(fold, s.(b := b, unlinking := unlinking))
  {
  }

  lemma UsersKept(fold: Fold, b: Base, step: Step)
    requires AddressesUnique(fold, b.users) && Owned(b)
    ensures step.NewAccount? ==> AddressesUnique(fold, InsertUser(fold, b, step.sub, step.u).users)
    ensures step.BornFrom? ==> AddressesUnique(fold, CreateFrom(fold, b, step.sub, step.id, step.email, step.verified).users)
  {
    if step.NewAccount? && InsertUser(fold, b, step.sub, step.u) != b { InsertKeepsUnique(fold, b.users, step.sub, step.u); }
    if step.BornFrom? && CreateFrom(fold, b, step.sub, step.id, step.email, step.verified) != b {
      InsertKeepsUnique(fold, b.users, step.sub, User(Some(step.email), false, step.verified));
    }
  }

  /** Steps that neither issue nor spend nor run a task. */
  predicate Plain(step: Step) {
    !step.Issue? && !step.SpendFor? && !step.RunTask?
  }

  lemma PlainUsers(fold: Fold, s: State, step: Step)
    requires AddressesUnique(fold, s.b.users) && Owned(s.b) && Enabled(s, step) && Plain(step)
    ensures AddressesUnique(fold, Apply(fold, s, step).b.users)
  {
    UsersKept(fold, s.b, step);
  }

  lemma PlainOwned(fold: Fold, s: State, step: Step)
    requires Owned(s.b) && Enabled(s, step) && Plain(step)
    ensures Owned(Apply(fold, s, step).b)
  {
  }

  lemma PlainTokens(fold: Fold, s: State, step: Step, d: string)
    requires Enabled(s, step) && Plain(step) && d in Apply(fold, s, step).b.tokens
    ensures d in s.b.tokens && Apply(fold, s, step).b.tokens[d] == s.b.tokens[d]
  {
  }

  lemma PlainUnlinking(fold: Fold, s: State, step: Step, id: Identity)
    requires Enabled(s, step) && Plain(step) && id in Apply(fold, s, step).unlinking
    requires forall i | i in s.unlinking :: i in s.b.identities
    ensures id in Apply(fold, s, step).b.identities
  {
  }

  lemma PlainRest(fold: Fold, s: State, step: Step)
    requires Enabled(s, step) && Plain(step)
    ensures Apply(fold, s, step) == s.(b := Apply(fold, s, step).b, unlinking := Apply(fold, s, step).unlinking)
  {
  }

  lemma PlainStepKeeps(fold: Fold, s: State, step: Step)
    requires Kept(fold, s) && Enabled(s, step) && Plain(step)
    ensures Kept(fold, Apply(fold, s, step))
  {
    var t := Apply(fold, s, step);
    PlainUsers(fold, s, step);
    PlainOwned(fold, s, step);
    PlainRest(fold, s, step);
    forall d | d in t.b.tokens ensures d in s.b.tokens && t.b.tokens[d] == s.b.tokens[d] { PlainTokens(fold, s, step, d); }
    forall id | id in t.unlinking ensures id in t.b.identities { PlainUnlinking(fold, s, step, id); }
    PlainKeeps(fold, s, t.b, t.unlinking);
  }

  /** Every step keeps it. */
  lemma StepKeeps(fold: Fold, s: State, step: Step)
    requires Kept(fold, s) && Enabled(s, step)
    ensures Kept(fold, Apply(fold, s, step))
  {
    match step
    case Issue(d, user, purpose, newEmail, expires) => IssuingKeeps(fold, s, d, Grant(user, purpose, newEmail, expires), None);
    case SpendFor(d, purpose, now) => SpendingKeeps(fold, s, d, purpose, now);
    case RunTask(d, second, expires) => RunningKeeps(fold, s, d, second, expires);
    case _ => PlainStepKeeps(fold, s, step);
  }

  // ---- Over whole runs ------------------------------------------------------------------------

  lemma {:induction false} RunKeeps(fold: Fold, s: State, steps: seq<Step>)
    requires Kept(fold, s) && Legal(fold, s, steps)
    ensures Kept(fold, After(fold, s, steps))
    decreases |steps|
  {
    if steps != [] {
      StepKeeps(fold, s, steps[0]);
      RunKeeps(fold, Apply(fold, s, steps[0]), steps[1..]);
    }
  }

  lemma RunsKept(fold: Fold, s: State, steps: seq<Step>)
    requires Init(fold, s) && Legal(fold, s, steps)
    ensures Kept(fold, After(fold, s, steps))
  {
    RunKeeps(fold, s, steps);
  }

  /** No token is spent twice, in any run. */
  lemma SpentOnce(fold: Fold, s: State, steps: seq<Step>)
    requires Init(fold, s) && Legal(fold, s, steps)
    ensures var log := After(fold, s, steps).log;
            forall i, j | 0 <= i < j < |log| && log[i].Spent? && log[j].Spent? :: log[i].digest != log[j].digest
  {
    RunsKept(fold, s, steps);
    var log := After(fold, s, steps).log;
    forall i, j | 0 <= i < j < |log| && log[i].Spent? && log[j].Spent? ensures log[i].digest != log[j].digest {
      assert Earned(log[..j], log[j]);
      assert log[..j][i] == log[i];
    }
  }

  /** None is spent once it has expired. */
  lemma SpentInTime(fold: Fold, s: State, steps: seq<Step>, k: nat)
    requires Init(fold, s) && Legal(fold, s, steps) && k < |After(fold, s, steps).log| && After(fold, s, steps).log[k].Spent?
    ensures After(fold, s, steps).log[k].at < After(fold, s, steps).log[k].grant.expires
  {
    RunsKept(fold, s, steps);
    var log := After(fold, s, steps).log;
    assert Earned(log[..k], log[k]);
  }

  /** Case-folded addresses stay apart, in any run. */
  lemma AddressesStayUnique(fold: Fold, s: State, steps: seq<Step>)
    requires Init(fold, s) && Legal(fold, s, steps)
    ensures AddressesUnique(fold, After(fold, s, steps).b.users)
  {
    RunsKept(fold, s, steps);
  }

  /** `d` issued at `h` with that grant and for that cause, and spent at `i` before it expired. */
  ghost predicate IssuedThenSpent(log: seq<Event>, d: string, user: string, purpose: Purpose, email: string, cause: Option<string>, h: nat, i: nat) {
    && h < i < |log|
    && exists x, at :: log[h] == Issued(d, Grant(user, purpose, Some(email), x), cause)
                       && log[i] == Spent(d, Grant(user, purpose, Some(email), x), at) && at < x
  }

  /** The four moments of a change: a first token issued on request, spent in time, which
      issued the second, spent in time in turn; for one account and one address. */
  ghost predicate Chain(log: seq<Event>, user: string, email: string, first: string, second: string, h: nat, i: nat, j: nat, k: nat) {
    && i < j
    && IssuedThenSpent(log, first, user, OldAddress, email, None, h, i)
    && IssuedThenSpent(log, second, user, NewAddress, email, Some(first), j, k)
  }

  lemma SpentAt(log: seq<Event>, d: string, user: string, purpose: Purpose, email: string) returns (k: nat, x: int, at: int)
    requires SpentAs(log, d, user, purpose, email)
    ensures k < |log| && log[k] == Spent(d, Grant(user, purpose, Some(email), x), at)
  {
    x, at :| Spent(d, Grant(user, purpose, Some(email), x), at) in log;
    k :| 0 <= k < |log| && log[k] == Spent(d, Grant(user, purpose, Some(email), x), at);
  }

  lemma IssuedBefore(log: seq<Event>, k: nat) returns (j: nat, cause: Option<string>)
    requires AllEarned(log) && k < |log| && log[k].Spent?
    ensures j < k && log[j] == Issued(log[k].digest, log[k].grant, cause)
    ensures log[k].grant.purpose == NewAddress <==> cause.Some?
    ensures log[k].at < log[k].grant.expires
  {
    assert Earned(log[..k], log[k]);
    cause :| Issued(log[k].digest, log[k].grant, cause) in log[..k];
    j :| 0 <= j < k && log[..k][j] == Issued(log[k].digest, log[k].grant, cause);
    assert Earned(log[..j], log[j]);
  }

  lemma CauseSpent(log: seq<Event>, j: nat)
    requires AllEarned(log) && j < |log| && log[j].Issued? && log[j].cause.Some? && log[j].grant.newEmail.Some?
    ensures SpentAs(log[..j], log[j].cause.value, log[j].grant.user, OldAddress, log[j].grant.newEmail.value)
  {
    assert Earned(log[..j], log[j]);
  }

  lemma ChainOf(log: seq<Event>, second: string, user: string, email: string)
    returns (first: string, h: nat, i: nat, j: nat, k: nat)
    requires AllEarned(log) && SpentAs(log, second, user, NewAddress, email)
    ensures Chain(log, user, email, first, second, h, i, j, k)
  {
    var x, at;
    k, x, at := SpentAt(log, second, user, NewAddress, email);
    var cause;
    j, cause := IssuedBefore(log, k);
    first := cause.value;
    CauseSpent(log, j);
    var y;
    i, y, at := SpentAt(log[..j], first, user, OldAddress, email);
    assert log[i] == log[..j][i];
    var none;
    h, none := IssuedBefore(log, i);
  }

  /** An account's address changes only by a step that writes the address of a second
      token that has been spent, whose issue a first token had been spent for, both
      for this account and this address. */
  lemma AddressChangeEarned(fold: Fold, s: State, steps: seq<Step>, step: Step, user: string)
    returns (email: string, first: string, second: string, h: nat, i: nat, j: nat, k: nat)
    requires Init(fold, s) && Legal(fold, s, steps)
    requires var t := After(fold, s, steps);
             Enabled(t, step) && user in t.b.users && user in Apply(fold, t, step).b.users
             && Apply(fold, t, step).b.users[user].email != t.b.users[user].email
    ensures var t := After(fold, s, steps);
            && step.RunTask? && step.digest == second
            && Apply(fold, t, step).b.users[user].email == Some(email)
            && Apply(fold, t, step).log == t.log + [Wrote(user, email, second)]
            && Chain(t.log, user, email, first, second, h, i, j, k)
  {
    var t := After(fold, s, steps);
    RunsKept(fold, s, steps);
    OnlyTasksMove(fold, t, step, user);
    second, email := step.digest, t.tasks[step.digest].email;
    assert TaskAgrees(t.log, second, t.tasks[second]);
    first, h, i, j, k := ChainOf(t.log, second, user, email);
  }

  lemma OnlyTasksMove(fold: Fold, s: State, step: Step, user: string)
    requires Enabled(s, step) && user in s.b.users && user in Apply(fold, s, step).b.users
    requires Apply(fold, s, step).b.users[user].email != s.b.users[user].email
    ensures step.RunTask? && s.tasks[step.digest] == WriteNew(user, s.tasks[step.digest].email)
    ensures CanMove(fold, s.b, user, s.tasks[step.digest].email)
  {
  }

  /** No two changes share a token: neither the second ones nor the first. */
  lemma ChangesPaidApart(log: seq<Event>, m: nat, n: nat, f: string, g: string, h: nat, i: nat, j: nat, k: nat, h': nat, i': nat, j': nat, k': nat)
    requires AllEarned(log) && m < n < |log| && log[m].Wrote? && log[n].Wrote?
    requires Chain(log, log[m].user, log[m].email, f, log[m].through, h, i, j, k)
    requires Chain(log, log[n].user, log[n].email, g, log[n].through, h', i', j', k')
    ensures log[m].through != log[n].through && f != g
  {
    WritesApart(log, m, n);
    SecondAt(log, log[m].user, log[m].email, f, log[m].through, h, i, j, k);
    SecondAt(log, log[n].user, log[n].email, g, log[n].through, h', i', j', k');
    FirstsApart(log, j, j', f, g);
  }

  lemma FirstsApart(log: seq<Event>, a: nat, b: nat, f: string, g: string)
    requires AllEarned(log) && a < |log| && b < |log| && log[a].Issued? && log[b].Issued?
    requires log[a].cause == Some(f) && log[b].cause == Some(g) && log[a].digest != log[b].digest
    ensures f != g
  {
    if a < b { CausesApart(log, a, b); } else if b < a { CausesApart(log, b, a); }
  }

  lemma SecondAt(log: seq<Event>, user: string, email: string, first: string, second: string, h: nat, i: nat, j: nat, k: nat)
    requires Chain(log, user, email, first, second, h, i, j, k)
    ensures j < |log| && log[j].Issued? && log[j].digest == second && log[j].cause == Some(first)
  {
  }

  lemma WritesApart(log: seq<Event>, m: nat, n: nat)
    requires AllEarned(log) && m < n < |log| && log[m].Wrote? && log[n].Wrote?
    ensures log[m].through != log[n].through
  {
    assert Earned(log[..n], log[n]);
    assert log[..n][m] == log[m];
  }

  /** Two second tokens were not issued for one first. */
  lemma CausesApart(log: seq<Event>, a: nat, b: nat)
    requires AllEarned(log) && a < b < |log| && log[a].Issued? && log[b].Issued? && log[a].cause.Some? && log[b].cause.Some?
    ensures log[a].cause != log[b].cause
  {
    assert Earned(log[..b], log[b]);
    assert log[..b][a] == log[a];
  }

  // ---- Access ------------------------------------------------------------------------------

  /** The identities of an account that are being unlinked. */
  function InFlight(s: State, user: string): (r: set<Identity>)
    ensures forall id :: id in r <==> id in s.unlinking && id in s.b.identities && s.b.identities[id] == user
  {
    set id | id in s.unlinking && id in s.b.identities && s.b.identities[id] == user
  }

  /** Each has another means of access beside it. */
  predicate Guarded(s: State, user: string) {
    forall id | id in InFlight(s, user) :: OtherAccess(s.b, user, id)
  }

  lemma OneInFlight(s: State, user: string, i: Identity, j: Identity)
    requires |InFlight(s, user)| <= 1 && i in InFlight(s, user) && j in InFlight(s, user)
    ensures i == j
  {
    var others := InFlight(s, user) - {i};
    assert |others| == 0 && j !in others;
  }

  /** Another means of access stays one, but for the deletion of an identity. */
  lemma OtherStays(fold: Fold, s: State, step: Step, user: string, id: Identity)
    requires Enabled(s, step) && Owned(s.b) && OtherAccess(s.b, user, id) && user in s.b.users && id in s.b.identities
    requires step != DeleteUser(user) && (step.EndUnlink? ==> s.b.identities.Keys >= {step.id} && s.b.identities[step.id] != user)
    ensures OtherAccess(Apply(fold, s, step).b, user, id)
  {
    var b := Apply(fold, s, step).b;
    if step.AdoptId? && step.user == user && step.id !in s.b.identities {
      assert step.id in b.identities && b.identities[step.id] == user && step.id != id;
    } else if !s.b.users[user].password {
      var i :| i in s.b.identities && s.b.identities[i] == user && i != id;
      assert i in b.identities && b.identities[i] == user;
    }
  }

  /** A step that is not their deletion leaves an account and its identities. */
  lemma IdentityStays(fold: Fold, s: State, step: Step, user: string, i: Identity)
    requires Enabled(s, step) && user in s.b.users && step != DeleteUser(user)
    requires i in s.b.identities && s.b.identities[i] == user && step != EndUnlink(i)
    ensures user in Apply(fold, s, step).b.users
    ensures i in Apply(fold, s, step).b.identities && Apply(fold, s, step).b.identities[i] == user
  {
  }

  lemma IdentityGained(fold: Fold, s: State, user: string, i: Identity)
    requires user in s.b.users && i !in s.b.identities
    ensures HasAccess(Apply(fold, s, AdoptId(user, i)).b, user)
  {
    assert Apply(fold, s, AdoptId(user, i)).b.identities[i] == user;
  }

  lemma PasswordStays(fold: Fold, s: State, step: Step, user: string)
    requires Enabled(s, step) && user in s.b.users && s.b.users[user].password && step != DeleteUser(user)
    requires step.AdoptId? && step.user == user ==> step.id in s.b.identities
    ensures HasAccess(Apply(fold, s, step).b, user)
  {
  }

  lemma UnlinkStep(fold: Fold, s: State, user: string, i: Identity)
    requires Owned(s.b) && Guarded(s, user) && i in s.unlinking && i in s.b.identities && s.b.identities[i] == user
    ensures HasAccess(Apply(fold, s, EndUnlink(i)).b, user)
  {
    assert i in InFlight(s, user);
    assert Unlink(s.b, user, i) == Apply(fold, s, EndUnlink(i)).b;
    UnlinkLeavesAccess(s.b, user, i);
  }

  lemma AccessStep(fold: Fold, s: State, step: Step, user: string)
    requires Kept(fold, s) && Enabled(s, step) && HasAccess(s.b, user) && step != DeleteUser(user)
    requires Guarded(s, user) && |InFlight(s, user)| <= 1
    ensures HasAccess(Apply(fold, s, step).b, user)
  {
    if step.EndUnlink? && step.id in s.b.identities && s.b.identities[step.id] == user {
      UnlinkStep(fold, s, user, step.id);
    } else if step.AdoptId? && step.user == user && step.id !in s.b.identities {
      IdentityGained(fold, s, user, step.id);
    } else if s.b.users[user].password {
      PasswordStays(fold, s, step, user);
    } else {
      var i :| i in s.b.identities && s.b.identities[i] == user;
      IdentityStays(fold, s, step, user, i);
    }
  }

  lemma GuardStep(fold: Fold, s: State, step: Step, user: string)
    requires Kept(fold, s) && Enabled(s, step) && HasAccess(s.b, user) && step != DeleteUser(user)
    requires Guarded(s, user) && |InFlight(s, user)| <= 1
    ensures Guarded(Apply(fold, s, step), user)
  {
    var r := Apply(fold, s, step);
    forall id | id in InFlight(r, user) ensures OtherAccess(r.b, user, id) {
      if step.EndUnlink? && s.b.identities[step.id] == user {
        OneInFlight(s, user, step.id, id);
      } else if id in s.unlinking {
        OtherStays(fold, s, step, user, id);
      }
    }
  }

  /** At no point of a run are more than `n` identities of the account being unlinked. */
  predicate AtMost(fold: Fold, s: State, steps: seq<Step>, user: string, n: nat)
    requires Legal(fold, s, steps)
    decreases |steps|
  {
    |InFlight(s, user)| <= n && (steps == [] || AtMost(fold, Apply(fold, s, steps[0]), steps[1..], user, n))
  }

  lemma {:induction false} GuardedRun(fold: Fold, s: State, steps: seq<Step>, user: string)
    requires Kept(fold, s) && Legal(fold, s, steps) && HasAccess(s.b, user) && DeleteUser(user) !in steps
    requires Guarded(s, user) && AtMost(fold, s, steps, user, 1)
    ensures HasAccess(After(fold, s, steps).b, user)
    decreases |steps|
  {
    if steps != [] {
      StepKeeps(fold, s, steps[0]);
      AccessStep(fold, s, steps[0], user);
      GuardStep(fold, s, steps[0], user);
      GuardedRun(fold, Apply(fold, s, steps[0]), steps[1..], user);
    }
  }

  /** A run of an account that can be entered without a mail link, in which it is not
      deleted and never more than `n` of its identities are being unlinked. */
  ghost predicate Unlinks(fold: Fold, s: State, steps: seq<Step>, user: string, n: nat) {
    && Kept(fold, s) && InFlight(s, user) == {} && HasAccess(s.b, user)
    && Legal(fold, s, steps) && DeleteUser(user) !in steps && AtMost(fold, s, steps, user, n)
  }

  /** No step shuts its owner out while no two of its identities are being unlinked. */
  lemma AccessKept(fold: Fold, s: State, steps: seq<Step>, user: string)
    requires Unlinks(fold, s, steps, user, 1)
    ensures HasAccess(After(fold, s, steps).b, user)
  {
    GuardedRun(fold, s, steps, user);
  }

  /** Two unlinkings, each of which reads its guard before the other deletes. */
  function Overlapping(user: string, i: Identity, j: Identity): seq<Step> {
    [BeginUnlink(user, i), BeginUnlink(user, j), EndUnlink(i), EndUnlink(j)]
  }

  lemma OneMore(fold: Fold, s: State, step: Step, r: State, rest: seq<Step>, user: string, n: nat)
    requires Enabled(s, step) && r == Apply(fold, s, step) && Legal(fold, r, rest) && AtMost(fold, r, rest, user, n)
    requires |InFlight(s, user)| <= n
    ensures Legal(fold, s, [step] + rest) && AtMost(fold, s, [step] + rest, user, n)
    ensures After(fold, s, [step] + rest) == After(fold, r, rest)
  {
    assert ([step] + rest)[1..] == rest;
  }

  /** The two deletions, both guards read. */
  lemma BothDelete(fold: Fold, s: State, user: string, i: Identity, j: Identity)
    requires i != j && i in s.unlinking && j in s.unlinking && user in s.b.users && !s.b.users[user].password
    requires forall id :: id in s.b.identities && s.b.identities[id] == user <==> id == i || id == j
    ensures Legal(fold, s, [EndUnlink(i), EndUnlink(j)]) && AtMost(fold, s, [EndUnlink(i), EndUnlink(j)], user, 2)
    ensures !HasAccess(After(fold, s, [EndUnlink(i), EndUnlink(j)]).b, user)
  {
    var r := Apply(fold, s, EndUnlink(i));
    var q := Apply(fold, r, EndUnlink(j));
    assert InFlight(s, user) == {i, j} && InFlight(r, user) == {j} && InFlight(q, user) == {};
    OneMore(fold, r, EndUnlink(j), q, [], user, 2);
    OneMore(fold, s, EndUnlink(i), r, [EndUnlink(j)], user, 2);
    assert [EndUnlink(i)] + [EndUnlink(j)] == [EndUnlink(i), EndUnlink(j)] && [EndUnlink(j)] + [] == [EndUnlink(j)];
  }

  /** Of an account without a password they delete both of two identities. */
  lemma OverlapShutsOut(fold: Fold, s: State, user: string, i: Identity, j: Identity)
    requires i != j && InFlight(s, user) == {} && user in s.b.users && !s.b.users[user].password
    requires forall id :: id in s.b.identities && s.b.identities[id] == user <==> id == i || id == j
    ensures Legal(fold, s, Overlapping(user, i, j)) && AtMost(fold, s, Overlapping(user, i, j), user, 2)
    ensures HasAccess(s.b, user) && !HasAccess(After(fold, s, Overlapping(user, i, j)).b, user)
  {
    assert CanUnlink(s.b, user, i) && CanUnlink(s.b, user, j);
    var r := Apply(fold, s, BeginUnlink(user, i));
    var q := Apply(fold, r, BeginUnlink(user, j));
    var ends := [EndUnlink(i), EndUnlink(j)];
    assert InFlight(r, user) == {i};
    BothDelete(fold, q, user, i, j);
    OneMore(fold, r, BeginUnlink(user, j), q, ends, user, 2);
    OneMore(fold, s, BeginUnlink(user, i), r, [BeginUnlink(user, j)] + ends, user, 2);
    assert [BeginUnlink(user, i)] + ([BeginUnlink(user, j)] + ends) == Overlapping(user, i, j);
  }

  /** Access is kept in every run with at most `n` identities of the account being
      unlinked at a time if and only if `n` is one at most. */
  lemma AccessKeptIff(fold: Fold, n: nat)
    ensures (forall s, steps, user | Unlinks(fold, s, steps, user, n) :: HasAccess(After(fold, s, steps).b, user)) <==> n <= 1
  {
    if n <= 1 {
      forall s, steps, user | Unlinks(fold, s, steps, user, n) ensures HasAccess(After(fold, s, steps).b, user) {
        AtMostMore(fold, s, steps, user, n, 1);
        AccessKept(fold, s, steps, user);
      }
    } else {
      var (i, j) := (Identity("", "i"), Identity("", "j"));
      assert i.name[0] != j.name[0];
      SomeOverlap(fold, i, j, n);
    }
  }

  /** An account of two identities and no password. */
  function TwoIdentities(i: Identity, j: Identity): State {
    State(Base(map["u" := User(None, false, false)], map[], map[i := "u", j := "u"]), map[], {}, [])
  }

  lemma SomeOverlap(fold: Fold, i: Identity, j: Identity, n: nat)
    requires i != j && n >= 2
    ensures var s := TwoIdentities(i, j);
            Unlinks(fold, s, Overlapping("u", i, j), "u", n) && !HasAccess(After(fold, s, Overlapping("u", i, j)).b, "u")
  {
    var s := TwoIdentities(i, j);
    OverlapShutsOut(fold, s, "u", i, j);
    AtMostMore(fold, s, Overlapping("u", i, j), "u", 2, n);
  }

  lemma {:induction false} AtMostMore(fold: Fold, s: State, steps: seq<Step>, user: string, m: nat, n: nat)
    requires Legal(fold, s, steps) && AtMost(fold, s, steps, user, m) && m <= n
    ensures AtMost(fold, s, steps, user, n)
    decreases |steps|
  {
    if steps != [] { AtMostMore(fold, Apply(fold, s, steps[0]), steps[1..], user, m, n); }
  }

  // ---- A handler alone ------------------------------------------------------------------------

  /** The statements of an address change, none of another handler between them. */
  function ChangeAlone(fold: Fold, s: State, digest: string, second: string, now: int): Base {
    var t := Spending(Spending(s, digest, OldAddress, now), digest, NewAddress, now);
    if digest in t.tasks then Running(fold, t, digest, second, now + LINK_MINUTES).b else t.b
  }

  lemma FirstAlone(fold: Fold, s: State, digest: string, second: string, now: int)
    requires digest !in s.tasks && Live(s.b, digest, OldAddress, now)
    ensures ChangeAlone(fold, s, digest, second, now) == EmailChanged(fold, s.b, digest, second, now)
  {
    var t := Spending(s, digest, OldAddress, now);
    assert !Live(t.b, digest, NewAddress, now);
    assert t.b == Spend(s.b, digest, OldAddress, now);
  }

  lemma SecondAlone(fold: Fold, s: State, digest: string, second: string, now: int)
    requires digest !in s.tasks && Live(s.b, digest, NewAddress, now)
    ensures ChangeAlone(fold, s, digest, second, now) == EmailChanged(fold, s.b, digest, second, now)
  {
    var t := Spending(s, digest, NewAddress, now);
    assert !Live(s.b, digest, OldAddress, now) && Spending(s, digest, OldAddress, now) == s;
    assert t.b == Spend(s.b, digest, NewAddress, now);
  }

  /** Run alone, the handler is its steps: spend as a first token, else as a second,
      then do what that owes. */
  lemma HandlerIsSteps(fold: Fold, s: State, digest: string, second: string, now: int)
    requires Kept(fold, s) && digest !in s.tasks
    ensures ChangeAlone(fold, s, digest, second, now) == EmailChanged(fold, s.b, digest, second, now)
  {
    if Live(s.b, digest, OldAddress, now) {
      FirstAlone(fold, s, digest, second, now);
    } else if Live(s.b, digest, NewAddress, now) {
      SecondAlone(fold, s, digest, second, now);
    }
  }

  /** So is an unlinking: its guard read, then the row deleted. */
  lemma UnlinkIsSteps(fold: Fold, s: State, user: string, id: Identity)
    requires id !in s.unlinking
    ensures var t := Apply(fold, s, BeginUnlink(user, id));
            (if Enabled(t, EndUnlink(id)) then Apply(fold, t, EndUnlink(id)).b else t.b) == Unlink(s.b, user, id)
  {
  }
}
