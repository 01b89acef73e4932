/** The account tables and the statements the handlers run on them: users, mail
    tokens, identities lent by providers. A token is named by its digest. */
module Accounts {
  import opened Ordre

  datatype Purpose = Confirmation | Recovery | Connexion | OldAddress | NewAddress

  /** What a mail link lets its bearer do. */
  datatype Grant = Grant(user: string, purpose: Purpose, newEmail: Option<string>, expires: int)

  datatype Token = Token(grant: Grant, used: bool)

  datatype User = User(email: Option<string>, password: bool, confirmed: bool)

  /** A provider, and the name it knows someone by. */
  datatype Identity = Identity(provider: string, name: string)

  datatype Base = Base(users: map<string, User>, tokens: map<string, Token>, identities: map<Identity, string>)

  /** `lower`, as the index on addresses folds them. */
  type Fold = string -> string

  predicate HasAddress(fold: Fold, u: User, email: string) {
    u.email.Some? && fold(u.email.value) == fold(email)
  }

  predicate Taken(fold: Fold, users: map<string, User>, email: string) {
    exists sub | sub in users :: HasAddress(fold, users[sub], email)
  }

  predicate TakenByAnother(fold: Fold, users: map<string, User>, email: string, user: string) {
    exists sub | sub in users :: sub != user && HasAddress(fold, users[sub], email)
  }

  // ---- Statements --------------------------------------------------------------------

  /** A new row of users, unless its key or its folded address is there already. */
  function InsertUser(fold: Fold, b: Base, sub: string, u: User): Base {
    if sub in b.users || (u.email.Some? && Taken(fold, b.users, u.email.value)) then b
    else b.(users := b.users[sub := u])
  }

  predicate CanIssue(b: Base, digest: string, user: string) {
    digest !in b.tokens && user in b.users
  }

  /** A new token for a user who exists, under a digest not there yet. */
  function InsertToken(b: Base, digest: string, g: Grant): Base {
    if CanIssue(b, digest, g.user) then b.(tokens := b.tokens[digest := Token(g, false)]) else b
  }

  /** Whether a token can be spent for a purpose at a time. */
  predicate Live(b: Base, digest: string, purpose: Purpose, now: int) {
    && digest in b.tokens
    && b.tokens[digest].grant.purpose == purpose
    && !b.tokens[digest].used
    && b.tokens[digest].grant.expires > now
  }

  function Spend(b: Base, digest: string, purpose: Purpose, now: int): Base {
    if Live(b, digest, purpose, now) then b.(tokens := b.tokens[digest := b.tokens[digest].(used := true)]) else b
  }

  predicate CanMove(fold: Fold, b: Base, user: string, email: string) {
    user in b.users && !TakenByAnother(fold, b.users, email, user)
  }

  /** The address written, unless another account has it; that confirms it. */
  function WriteEmail(fold: Fold, b: Base, user: string, email: string): Base {
    if CanMove(fold, b, user, email) then
      b.(users := b.users[user := b.users[user].(email := Some(email), confirmed := true)])
    else b
  }

  function ConfirmEmail(b: Base, user: string): Base {
    if user in b.users then b.(users := b.users[user := b.users[user].(confirmed := true)]) else b
  }

  function WritePassword(b: Base, user: string): Base {
    if user in b.users then b.(users := b.users[user := b.users[user].(password := true, confirmed := true)]) else b
  }

  /** A means to enter the account without a mail link. */
  predicate HasAccess(b: Base, user: string) {
    user in b.users && (b.users[user].password || exists i | i in b.identities :: b.identities[i] == user)
  }

  predicate OtherAccess(b: Base, user: string, id: Identity) {
    || (user in b.users && b.users[user].password)
    || exists i | i in b.identities :: b.identities[i] == user && i != id
  }

  predicate CanUnlink(b: Base, user: string, id: Identity) {
    id in b.identities && b.identities[id] == user && OtherAccess(b, user, id)
  }

  /** The identity deleted, unless it is the last means of access. */
  function Unlink(b: Base, user: string, id: Identity): Base {
    if CanUnlink(b, user, id) then b.(identities := b.identities - {id}) else b
  }

  /** The identity linked, unless it is linked already. */
  function Attach(b: Base, user: string, id: Identity): Base {
    if id in b.identities || user !in b.users then b else b.(identities := b.identities[id := user])
  }

  /** A verified address joins the account that has it: the identity is linked, the
      address confirmed, and a password set before it was confirmed dropped. */
  function Adopt(b: Base, user: string, id: Identity): Base {
    if user !in b.users || id in b.identities then b else
    var u := b.users[user];
    b.(users := b.users[user := u.(password := u.confirmed && u.password, confirmed := true)],
       identities := b.identities[id := user])
  }

  /** An account born from an identity. */
  function CreateFrom(fold: Fold, b: Base, sub: string, id: Identity, email: string, verified: bool): Base {
    if sub in b.users || id in b.identities || Taken(fold, b.users, email) then b
    else b.(users := b.users[sub := User(Some(email), false, verified)], identities := b.identities[id := sub])
  }

  /** The account and all that hangs from it. */
  function Delete(b: Base, user: string): Base {
    Base(map s | s in b.users && s != user :: b.users[s],
         map d | d in b.tokens && b.tokens[d].grant.user != user :: b.tokens[d],
         map i | i in b.identities && b.identities[i] != user :: b.identities[i])
  }

  // ---- What a base keeps -------------------------------------------------------------

  /** No two accounts have one folded address. */
  ghost predicate AddressesUnique(fold: Fold, users: map<string, User>) {
    forall s, t | s in users && t in users && s != t ::
      !(users[s].email.Some? && users[t].email.Some? && fold(users[s].email.value) == fold(users[t].email.value))
  }

  /** Tokens and identities belong to accounts that exist. */
  ghost predicate Owned(b: Base) {
    && (forall d | d in b.tokens :: b.tokens[d].grant.user in b.users)
    && (forall i | i in b.identities :: b.identities[i] in b.users)
  }

  /** An unlinking that deletes anything leaves a password or another identity. */
  lemma UnlinkLeavesAccess(b: Base, user: string, id: Identity)
    requires Owned(b) && Unlink(b, user, id) != b
    ensures HasAccess(Unlink(b, user, id), user)
    ensures id !in Unlink(b, user, id).identities
    ensures forall i | i in b.identities && i != id :: i in Unlink(b, user, id).identities
  {
    var after := Unlink(b, user, id);
    if !b.users[user].password {
      var i :| i in b.identities && b.identities[i] == user && i != id;
      assert i in after.identities && after.identities[i] == user;
    }
  }

  /** It refuses exactly the last means of access, or an identity not the user's. */
  lemma UnlinkRefuses(b: Base, user: string, id: Identity)
    requires Owned(b)
    ensures Unlink(b, user, id) == b <==>
            !(id in b.identities && b.identities[id] == user) || !HasAccess(b.(identities := b.identities - {id}), user)
  {
    var without := b.(identities := b.identities - {id});
    if id in b.identities && b.identities[id] == user {
      assert OtherAccess(b, user, id) <==> HasAccess(without, user) by {
        if exists i | i in b.identities :: b.identities[i] == user && i != id {
          var i :| i in b.identities && b.identities[i] == user && i != id;
          assert i in without.identities && without.identities[i] == user;
        }
        if exists i | i in without.identities :: without.identities[i] == user {
          var i :| i in without.identities && without.identities[i] == user;
          assert i in b.identities && b.identities[i] == user && i != id;
        }
      }
      assert id in b.identities && id !in without.identities;
    }
  }

  /** A password no address was confirmed for does not survive the linking of an identity, which
      confirms the address; nothing else of the tables changes. */
  lemma AdoptSaid(b: Base, user: string, id: Identity)
    requires user in b.users && id !in b.identities
    ensures var (u, v, after) := (b.users[user], Adopt(b, user, id).users[user], Adopt(b, user, id));
            && v.confirmed && v.email == u.email && (v.password <==> u.password && u.confirmed)
            && after.identities == b.identities[id := user] && after.tokens == b.tokens
            && after.users.Keys == b.users.Keys && forall s | s in b.users && s != user :: after.users[s] == b.users[s]
  {
  }

  /** A deletion leaves nothing of the account, and all of the others. */
  lemma DeleteSaid(b: Base, user: string)
    ensures var after := Delete(b, user);
            && (forall s :: s in after.users <==> s in b.users && s != user)
            && (forall d :: d in after.tokens <==> d in b.tokens && b.tokens[d].grant.user != user)
            && (forall i :: i in after.identities <==> i in b.identities && b.identities[i] != user)
            && (forall s | s in after.users :: after.users[s] == b.users[s])
            && (forall d | d in after.tokens :: after.tokens[d] == b.tokens[d])
            && (forall i | i in after.identities :: after.identities[i] == b.identities[i])
  {
  }

  /** What the handler of an address change does to the tables when it runs alone. */
  function EmailChanged(fold: Fold, b: Base, digest: string, second: string, now: int): Base {
    if Live(b, digest, OldAddress, now) then
      var (g, spent) := (b.tokens[digest].grant, Spend(b, digest, OldAddress, now));
      if g.newEmail.None? then spent
      else InsertToken(spent, second, Grant(g.user, NewAddress, g.newEmail, now + LINK_MINUTES))
    else if Live(b, digest, NewAddress, now) then
      var (g, spent) := (b.tokens[digest].grant, Spend(b, digest, NewAddress, now));
      if g.newEmail.None? then spent else WriteEmail(fold, spent, g.user, g.newEmail.value)
    else b
  }

  /** How long a mail link lives, in minutes. */
  const LINK_MINUTES: int := 60

  // ---- The handlers, each alone ----------------------------------------------------------

  datatype RequestOutcome = Invalid | NoAccount | NoEmail | SameAddress | Requested | NotIssued

  datatype ChangeOutcome = SecondSent(user: string, email: string) | Moved(user: string, email: string)
                         | AlreadyUsed(user: string, email: string) | DeadLink | Broken

  /** The tables, changed in place. */
  class Store {
    const fold: Fold
    /** An address as a form's text gives it, when it gives one. */
    const normal: string -> Option<string>
    /** Equality of addresses up to the case of ASCII letters. */
    const same: (string, string) -> bool
    var b: Base

    constructor (fold: Fold, normal: string -> Option<string>, same: (string, string) -> bool, b: Base)
      ensures this.b == b && this.fold == fold && this.normal == normal && this.same == same
    {
      this.fold, this.normal, this.same, this.b := fold, normal, same, b;
    }

    /** A token placed for a mail link, an hour of life. */
    method PlaceToken(digest: string, user: string, purpose: Purpose, newEmail: Option<string>, now: int) returns (ok: bool)
      modifies this`b
      ensures ok == old(CanIssue(b, digest, user))
      ensures b == InsertToken(old(b), digest, Grant(user, purpose, newEmail, now + LINK_MINUTES))
      ensures ok <==> digest !in old(b).tokens && user in old(b).users
      ensures ok ==> b == old(b).(tokens := old(b).tokens[digest := Token(Grant(user, purpose, newEmail, now + 60), false)])
    {
      ok := CanIssue(b, digest, user);
      if ok { b := b.(tokens := b.tokens[digest := Token(Grant(user, purpose, newEmail, now + LINK_MINUTES), false)]); }
    }

    /** A token spent, its bearer and address given back if it was live. */
    method SpendToken(digest: string, purpose: Purpose, now: int) returns (r: Option<(string, Option<string>)>)
      modifies this`b
      ensures r.Some? <==> digest in old(b).tokens && old(b).tokens[digest].grant.purpose == purpose
                           && !old(b).tokens[digest].used && old(b).tokens[digest].grant.expires > now
      ensures b == if r.Some? then old(b).(tokens := old(b).tokens[digest := Token(old(b).tokens[digest].grant, true)]) else old(b)
      ensures b == Spend(old(b), digest, purpose, now)
      ensures r == if old(Live(b, digest, purpose, now)) then Some((old(b).tokens[digest].grant.user, old(b).tokens[digest].grant.newEmail)) else None
    {
      if digest in b.tokens {
        var t := b.tokens[digest];
        if t.grant.purpose == purpose && !t.used && t.grant.expires > now {
          b := b.(tokens := b.tokens[digest := t.(used := true)]);
          return Some((t.grant.user, t.grant.newEmail));
        }
      }
      return None;
    }

    /** The request for a change: a first token, sent to the address of now. */
    method EmailChangeRequest(user: string, form: string, digest: string, now: int) returns (r: RequestOutcome)
      modifies this`b
      ensures r.Requested? ==>
        && normal(form).Some? && user in old(b).users && old(b).users[user].email.Some?
        && !same(old(b).users[user].email.value, normal(form).value)
        && digest !in old(b).tokens && digest in b.tokens
        && b.tokens[digest] == Token(Grant(user, OldAddress, normal(form), now + 60), false)
        && b.users == old(b).users && b.identities == old(b).identities && b.tokens == old(b).tokens[digest := b.tokens[digest]]
      ensures !r.Requested? ==> b == old(b)
      ensures r.Invalid? <==> normal(form).None?
      ensures r.NoAccount? <==> normal(form).Some? && user !in old(b).users
      ensures r.NoEmail? <==> normal(form).Some? && user in old(b).users && old(b).users[user].email.None?
      ensures r.NotIssued? ==> digest in old(b).tokens
      ensures r.SameAddress? <==> normal(form).Some? && user in old(b).users && old(b).users[user].email.Some?
                                  && same(old(b).users[user].email.value, normal(form).value)
    {
      var email := normal(form);
      if email.None? { return Invalid; }
      if user !in b.users { return NoAccount; }
      var current := b.users[user].email;
      if current.None? { return NoEmail; }
      if same(current.value, email.value) { return SameAddress; }
      var ok := PlaceToken(digest, user, OldAddress, email, now);
      r := if ok then Requested else NotIssued;
    }

    /** The change, in two tokens: the first earns the second, the second writes. */
    method EmailChange(digest: string, second: string, now: int) returns (r: ChangeOutcome)
      requires second != digest
      modifies this`b
      ensures match r
        case SecondSent(user, email) =>
          && old(Live(b, digest, OldAddress, now)) && digest in b.tokens && b.tokens[digest].used && b.users == old(b).users
          && digest in old(b).tokens && old(b).tokens[digest].grant.user == user && old(b).tokens[digest].grant.newEmail == Some(email)
          && Live(b, second, NewAddress, now) && b.tokens[second].grant == Grant(user, NewAddress, Some(email), now + LINK_MINUTES)
        case Moved(user, email) =>
          && old(Live(b, digest, NewAddress, now)) && digest in b.tokens && b.tokens[digest].used
          && digest in old(b).tokens && old(b).tokens[digest].grant.user == user && old(b).tokens[digest].grant.newEmail == Some(email)
          && user in old(b).users && !TakenByAnother(fold, old(b).users, email, user)
          && b.users == old(b).users[user := old(b).users[user].(email := Some(email), confirmed := true)]
        case AlreadyUsed(user, email) =>
          && old(Live(b, digest, NewAddress, now)) && digest in b.tokens && b.tokens[digest].used && b.users == old(b).users
          && (user in old(b).users ==> TakenByAnother(fold, old(b).users, email, user))
        case DeadLink => b == old(b) && !old(Live(b, digest, OldAddress, now)) && !old(Live(b, digest, NewAddress, now))
        case Broken => b.users == old(b).users
      ensures !r.DeadLink? ==> digest in old(b).tokens
      ensures !r.DeadLink? ==> var spent := old(b).tokens[digest := Token(old(b).tokens[digest].grant, true)];
        match r
        case SecondSent(user, email) => b == old(b).(tokens := spent[second := Token(Grant(user, NewAddress, Some(email), now + 60), false)])
        case Moved(user, email) =>
          && user in old(b).users
          && b == old(b).(tokens := spent, users := old(b).users[user := old(b).users[user].(email := Some(email), confirmed := true)])
        case _ => b == old(b).(tokens := spent)
      ensures r.DeadLink? <==>
        !(digest in old(b).tokens && !old(b).tokens[digest].used && old(b).tokens[digest].grant.expires > now
          && (old(b).tokens[digest].grant.purpose == OldAddress || old(b).tokens[digest].grant.purpose == NewAddress))
      ensures b.identities == old(b).identities
      ensures b == EmailChanged(fold, old(b), digest, second, now)
    {
      var first := SpendToken(digest, OldAddress, now);
      if first.Some? {
        var (user, email) := first.value;
        if email.None? { return Broken; }
        var ok := PlaceToken(second, user, NewAddress, email, now);
        return if ok then SecondSent(user, email.value) else Broken;
      }
      var last := SpendToken(digest, NewAddress, now);
      if last.None? { return DeadLink; }
      var (user, email) := last.value;
      if email.None? { return Broken; }
      if user in b.users && !TakenByAnother(fold, b.users, email.value, user) {
        b := b.(users := b.users[user := b.users[user].(email := email, confirmed := true)]);
        return Moved(user, email.value);
      }
      return AlreadyUsed(user, email.value);
    }

    /** The identity unlinked, unless it is the last means of access. */
    method UnlinkIdentity(user: string, id: Identity) returns (done: bool)
      modifies this`b
      ensures b == Unlink(old(b), user, id) && done == (b != old(b))
    {
      done := CanUnlink(b, user, id);
      if done {
        assert id in b.identities;
        b := b.(identities := b.identities - {id});
        assert id !in b.identities;
      }
    }
  }
}
