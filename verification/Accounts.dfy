/** Credentials and sessions: logins and credential changes, interleaved transaction by transaction. */
module Accounts {
  import opened Wrappers

  const MINIMUM_PASSWORD_LENGTH := 8

  /** A salted hash. Salts are drawn afresh, so two hashes are equal only if they are the same one. */
  datatype Hash = Hash(salt: nat, password: string)

  datatype User = User(email: string, hash: Hash, passwordChangeRequired: bool)

  /** What Authenticate hands on: the user as read; `epoch` notes how many passwords had been stored for it then. */
  datatype Login = Login(user: nat, email: string, hash: Hash, epoch: nat)

  /** A session row, with the login that registered it. */
  datatype Session = Session(user: nat, expires: int, login: Login)

  datatype NewPassword = NewPassword(user: nat, password: string)

  datatype State = State(
    users: map<nat, User>,
    sessions: map<string, Session>,
    // Snapshots taken by a login, used or not, and the checked but perhaps not yet committed changes.
    logins: set<Login>,
    newEmails: set<(nat, string)>,
    newPasswords: map<nat, NewPassword>,
    nextSalt: nat,
    epochs: map<nat, nat>)

  datatype Action =
    | CreateAdmin(user: nat, email: string, password: string, required: bool)
    | Authenticate(user: nat, email: string, password: string)
    | RegisterSession(login: Login, token: string, expires: int, now: int)
    | RevokeSession(token: string)
    | CheckEmail(user: nat, email: string, newEmail: string, password: string)
    | StoreEmail(user: nat, newEmail: string)
    | CheckPassword(user: nat, email: string, password: string, newPassword: string)
    | CheckReset(user: nat, email: string, newPassword: string)
    | StorePassword(salt: nat)

  predicate Matches(hash: Hash, password: string) {
    hash.password == password
  }

  predicate IsUser(s: State, user: nat, email: string) {
    user in s.users && s.users[user].email == email
  }

  function Without(sessions: map<string, Session>, user: nat): map<string, Session> {
    map t | t in sessions && sessions[t].user != user :: sessions[t]
  }

  function Unexpired(sessions: map<string, Session>, now: int): map<string, Session> {
    map t | t in sessions && sessions[t].expires > now :: sessions[t]
  }

  /** The check RegisterSession makes under the write lock. */
  predicate Accepts(s: State, login: Login) {
    login.user in s.users && s.users[login.user].email == login.email && s.users[login.user].hash == login.hash
  }

  predicate EmailTaken(s: State, user: nat, email: string) {
    exists other | other in s.users :: other != user && s.users[other].email == email
  }

  function Hashed(s: State, user: nat, password: string): State {
    s.(newPasswords := s.newPasswords[s.nextSalt := NewPassword(user, password)], nextSalt := s.nextSalt + 1)
  }

  /** One read or one transaction; a refused one changes nothing. */
  function Apply(s: State, a: Action): State {
    match a
    case CreateAdmin(user, email, password, required) =>
      if s.users != map[] || |password| < MINIMUM_PASSWORD_LENGTH then s
      else s.(users := map[user := User(email, Hash(s.nextSalt, password), required)],
              nextSalt := s.nextSalt + 1, epochs := s.epochs[user := 0])
    case Authenticate(user, email, password) =>
      if email == "" || password == "" || !IsUser(s, user, email) || !Matches(s.users[user].hash, password)
          || user !in s.epochs then s
      else s.(logins := s.logins + {Login(user, email, s.users[user].hash, s.epochs[user])})
    case RegisterSession(login, token, expires, now) =>
      if login !in s.logins || token == "" || !Accepts(s, login) then s
      else s.(sessions := Unexpired(s.sessions, now)[token := Session(login.user, expires, login)])
    case RevokeSession(token) =>
      s.(sessions := s.sessions - {token})
    case CheckEmail(user, email, newEmail, password) =>
      if !IsUser(s, user, email) || !Matches(s.users[user].hash, password) || email == newEmail then s
      else s.(newEmails := s.newEmails + {(user, newEmail)})
    case StoreEmail(user, newEmail) =>
      if (user, newEmail) !in s.newEmails || user !in s.users || EmailTaken(s, user, newEmail) then s
      else s.(users := s.users[user := s.users[user].(email := newEmail)], sessions := Without(s.sessions, user))
    case CheckPassword(user, email, password, newPassword) =>
      if || |newPassword| < MINIMUM_PASSWORD_LENGTH || !IsUser(s, user, email)
         || !Matches(s.users[user].hash, password) || Matches(s.users[user].hash, newPassword) then s
      else Hashed(s, user, newPassword)
    case CheckReset(user, email, newPassword) =>
      if |newPassword| < MINIMUM_PASSWORD_LENGTH || !IsUser(s, user, email) then s
      else Hashed(s, user, newPassword)
    case StorePassword(salt) =>
      if salt !in s.newPasswords then s
      else
        var change := s.newPasswords[salt];
        var user := change.user;
        if user !in s.users || user !in s.epochs then s
        else s.(users := s.users[user := s.users[user].(hash := Hash(salt, change.password),
            passwordChangeRequired := false)],
                sessions := Without(s.sessions, user),
                newPasswords := s.newPasswords - {salt},
                epochs := s.epochs[user := s.epochs[user] + 1])
  }

  function Run(s: State, actions: seq<Action>): State {
    if actions == [] then s else Apply(Run(s, actions[..|actions| - 1]), actions[|actions| - 1])
  }

  lemma {:induction false} RunConcat(s: State, a: seq<Action>, b: seq<Action>)
    ensures Run(s, a + b) == Run(Run(s, a), b)
  {
    if b == [] {
      assert a + b == a;
    } else {
      RunConcat(s, a, b[..|b| - 1]);
      assert (a + b)[..|a + b| - 1] == a + b[..|b| - 1];
    }
  }

  ghost predicate Initial(s: State) {
    s.users == map[] && s.sessions == map[] && s.logins == {} && s.newEmails == {} && s.newPasswords == map[]
        && s.epochs == map[]
  }

  ghost predicate UniqueEmails(s: State) {
    forall u, v {:trigger s.users[u], s.users[v]} | u in s.users && v in s.users
        && s.users[u].email == s.users[v].email :: u == v
  }

  /** The salts in use and the salts still to be stored are different ones. */
  ghost predicate FreshSalts(s: State) {
    && s.users.Keys == s.epochs.Keys
    && (forall u {:trigger s.users[u]} | u in s.users ::
        s.users[u].hash.salt !in s.newPasswords && s.users[u].hash.salt < s.nextSalt)
    && (forall p {:trigger p in s.newPasswords} | p in s.newPasswords ::
        p < s.nextSalt && s.newPasswords[p].user in s.users)
  }

  /** A login holds the present hash exactly while no password has been stored since it began. */
  ghost predicate LoginsKnowTheirEpoch(s: State) {
    forall l {:trigger l in s.logins} | l in s.logins ::
      && l.user in s.users && l.user in s.epochs && l.epoch <= s.epochs[l.user]
      && l.hash.salt !in s.newPasswords && l.hash.salt < s.nextSalt
      && (l.epoch == s.epochs[l.user] <==> l.hash == s.users[l.user].hash)
      && (l.epoch < s.epochs[l.user] ==> l.hash.salt != s.users[l.user].hash.salt)
  }

  /** Every session was registered by a login whose email and hash are still the user's. */
  ghost predicate SessionsAreCurrent(s: State) {
    forall t {:trigger t in s.sessions} | t in s.sessions ::
      s.sessions[t].login in s.logins && s.sessions[t].user == s.sessions[t].login.user
          && Accepts(s, s.sessions[t].login)
  }

  ghost predicate Inv(s: State) {
    UniqueEmails(s) && FreshSalts(s) && LoginsKnowTheirEpoch(s) && SessionsAreCurrent(s)
  }

  lemma StepKeepsEmails(s: State, a: Action)
    requires UniqueEmails(s)
    ensures UniqueEmails(Apply(s, a))
  {
    if a.StoreEmail? && !EmailTaken(s, a.user, a.newEmail) {
      assert forall other | other in s.users && other != a.user :: s.users[other].email != a.newEmail;
    }
  }

  lemma StepKeepsSalts(s: State, a: Action)
    requires FreshSalts(s)
    ensures FreshSalts(Apply(s, a))
  {
  }

  lemma StepKeepsEpochs(s: State, a: Action)
    requires Inv(s)
    ensures LoginsKnowTheirEpoch(Apply(s, a))
  {
  }

  lemma StepKeepsSessions(s: State, a: Action)
    requires Inv(s)
    ensures SessionsAreCurrent(Apply(s, a))
  {
  }

  lemma {:induction false} RunKeepsInv(s: State, actions: seq<Action>)
    requires Inv(s)
    ensures Inv(Run(s, actions))
  {
    if actions != [] {
      var before := Run(s, actions[..|actions| - 1]);
      RunKeepsInv(s, actions[..|actions| - 1]);
      StepKeepsEmails(before, actions[|actions| - 1]);
      StepKeepsSalts(before, actions[|actions| - 1]);
      StepKeepsEpochs(before, actions[|actions| - 1]);
      StepKeepsSessions(before, actions[|actions| - 1]);
    }
  }

  /** In every state of every run each session belongs to a login whose email and hash are still the user's. */
  lemma EverySessionIsCurrent(s: State, actions: seq<Action>, token: string)
    requires Initial(s) && token in Run(s, actions).sessions
    ensures
      var after := Run(s, actions);
      var login := after.sessions[token].login;
      && login.user in after.users && after.sessions[token].user == login.user
      && after.users[login.user].email == login.email && after.users[login.user].hash == login.hash
  {
    RunKeepsInv(s, actions);
  }

  /**
   * What a login taken earlier is still good for, at any point of any run: it is accepted exactly when no password has
   * been stored for its user since, and the user has the email the login was made with.
   */
  lemma AcceptedExactlyWhen(s: State, actions: seq<Action>, login: Login)
    requires Initial(s) && login in Run(s, actions).logins
    ensures
      var after := Run(s, actions);
      && login.user in after.users && login.user in after.epochs
      && (Accepts(after, login) <==>
          login.epoch == after.epochs[login.user] && login.email == after.users[login.user].email)
  {
    RunKeepsInv(s, actions);
  }

  predicate StoresPassword(s: State, a: Action, user: nat) {
    a.StorePassword? && a.salt in s.newPasswords && s.newPasswords[a.salt].user == user
  }

  lemma StepKeepsLogin(s: State, a: Action, login: Login)
    requires Inv(s) && login in s.logins
    ensures login in Apply(s, a).logins && login.user in s.epochs && login.user in Apply(s, a).epochs
    ensures s.epochs[login.user] <= Apply(s, a).epochs[login.user]
  {
  }

  lemma {:induction false} RunKeepsLogins(s: State, actions: seq<Action>, login: Login)
    requires Inv(s) && login in s.logins
    ensures login in Run(s, actions).logins
    ensures login.user in s.epochs && login.user in Run(s, actions).epochs
    ensures s.epochs[login.user] <= Run(s, actions).epochs[login.user]
  {
    if actions != [] {
      RunKeepsLogins(s, actions[..|actions| - 1], login);
      RunKeepsInv(s, actions[..|actions| - 1]);
      StepKeepsLogin(Run(s, actions[..|actions| - 1]), actions[|actions| - 1], login);
    }
  }

  /** A password change ends every login begun before it: none of them has a session at any later point. */
  lemma PasswordChangeEndsLogins(s: State, change: Action, rest: seq<Action>, login: Login, token: string)
    requires Inv(s) && login in s.logins && StoresPassword(s, change, login.user)
    requires token in Run(Apply(s, change), rest).sessions
    ensures Run(Apply(s, change), rest).sessions[token].login != login
  {
    RunKeepsInv(s, [change]);
    RunOne(s, change);
    RunKeepsLogins(Apply(s, change), rest, login);
    RunKeepsInv(Apply(s, change), rest);
  }

  /** No email change in the run gives the user that email. */
  ghost predicate NeverSetTo(actions: seq<Action>, user: nat, email: string) {
    forall k | 0 <= k < |actions| :: actions[k] != StoreEmail(user, email)
  }

  lemma StepStaysAway(s: State, a: Action, user: nat, email: string)
    requires user in s.users && s.users[user].email != email && a != StoreEmail(user, email)
    ensures user in Apply(s, a).users && Apply(s, a).users[user].email != email
  {
  }

  lemma {:induction false} StaysAway(s: State, actions: seq<Action>, user: nat, email: string)
    requires Inv(s) && user in s.users && s.users[user].email != email && NeverSetTo(actions, user, email)
    ensures user in Run(s, actions).users && Run(s, actions).users[user].email != email
  {
    if actions != [] {
      StaysAway(s, actions[..|actions| - 1], user, email);
      StepStaysAway(Run(s, actions[..|actions| - 1]), actions[|actions| - 1], user, email);
    }
  }

  /** An email change ends every login begun before it, as long as the user is not given the old email back. */
  lemma EmailChangeEndsLogins(s: State, change: Action, rest: seq<Action>, login: Login, token: string)
    requires Inv(s) && login in s.logins
    requires change.StoreEmail? && change.user == login.user && login.user in Apply(s, change).users
    requires Apply(s, change).users[login.user].email != login.email
    requires NeverSetTo(rest, login.user, login.email)
    requires token in Run(Apply(s, change), rest).sessions
    ensures Run(Apply(s, change), rest).sessions[token].login != login
  {
    RunOne(s, change);
    RunKeepsInv(s, [change]);
    StaysAway(Apply(s, change), rest, login.user, login.email);
    RunKeepsInv(Apply(s, change), rest);
  }

  lemma RunOne(s: State, a: Action)
    ensures Run(s, [a]) == Apply(s, a)
  {
    assert [a][..0] == [];
  }

  lemma RunTwo(s: State, a: Action, b: Action)
    ensures Run(s, [a, b]) == Apply(Apply(s, a), b)
  {
    RunOne(s, a);
    assert [a, b][..1] == [a];
  }

  /** The email is checked with the password, then stored. */
  function EmailChange(user: nat, email: string, newEmail: string, password: string): seq<Action> {
    [CheckEmail(user, email, newEmail, password), StoreEmail(user, newEmail)]
  }

  lemma ChangingEmail(s: State, user: nat, admin: User, newEmail: string, password: string)
    requires s.users == map[user := admin] && s.sessions == map[] && Matches(admin.hash, password)
    requires newEmail != admin.email
    ensures
      var after := Run(s, EmailChange(user, admin.email, newEmail, password));
      after.users == map[user := admin.(email := newEmail)] && after.sessions == map[] && after.logins == s.logins
  {
    RunTwo(s, CheckEmail(user, admin.email, newEmail, password), StoreEmail(user, newEmail));
    var checked := Apply(s, CheckEmail(user, admin.email, newEmail, password));
    assert checked.users == s.users && (user, newEmail) in checked.newEmails;
  }

  lemma FirstLogin(s: State, user: nat, email: string, password: string)
    requires Initial(s) && email != "" && |password| >= MINIMUM_PASSWORD_LENGTH
    ensures
      var begun := Run(s, [CreateAdmin(user, email, password, true), Action.Authenticate(user, email, password)]);
      var hash := Hash(s.nextSalt, password);
      && begun.users == map[user := User(email, hash, true)] && begun.sessions == map[]
      && Login(user, email, hash, 0) in begun.logins
  {
    RunTwo(s, CreateAdmin(user, email, password, true), Action.Authenticate(user, email, password));
  }

  /**
   * The one way round, from an empty table of users on: the administrator logs in, changes the email and changes it
   * back, which ends every session; then the login begun before both changes still opens one.
   */
  lemma ReturningEmailRevivesALogin(s: State, user: nat, email: string, other: string, password: string,
                                    token: string, expires: int, now: int)
    requires Initial(s) && |password| >= MINIMUM_PASSWORD_LENGTH && email != "" && other != email && token != ""
    ensures
      var begun := [CreateAdmin(user, email, password, true), Action.Authenticate(user, email, password)];
      var changed := begun + EmailChange(user, email, other, password);
      var back := changed + EmailChange(user, other, email, password);
      var login := Login(user, email, Hash(s.nextSalt, password), 0);
      var after := Run(s, back + [Action.RegisterSession(login, token, expires, now)]);
      && login in Run(s, begun).logins && !Accepts(Run(s, changed), login) && Run(s, back).sessions == map[]
      && token in after.sessions && after.sessions[token] == Session(user, expires, login)
  {
    var begun := [CreateAdmin(user, email, password, true), Action.Authenticate(user, email, password)];
    var there, again := EmailChange(user, email, other, password), EmailChange(user, other, email, password);
    var hash := Hash(s.nextSalt, password);
    hide Run, EmailChange;
    FirstLogin(s, user, email, password);
    ChangingEmail(Run(s, begun), user, User(email, hash, true), other, password);
    RunConcat(s, begun, there);
    ChangingEmail(Run(s, begun + there), user, User(other, hash, true), email, password);
    RunConcat(s, begun + there, again);
    var register := Action.RegisterSession(Login(user, email, hash, 0), token, expires, now);
    RunConcat(s, begun + there + again, [register]);
    RunOne(Run(s, begun + there + again), register);
  }

  datatype Error =
    | InvalidCredentials
    | UserNotFound
    | WeakPassword
    | PasswordMismatch
    | PasswordUnchanged
    | MissingFields
    | DuplicateEmail
    | InvalidEmail
    | InvalidRegistration
    | Database

  /** The user's sessions are gone, and everybody else's are as they were. */
  ghost predicate OnlyTheirsEnded(before: map<string, Session>, after: map<string, Session>, user: nat) {
    forall t ::
      && (t in after <==> t in before && before[t].user != user)
      && (t in after ==> after[t] == before[t])
  }

  /** The user has a hash of the new password, everybody else is as before, and no login begun so far is accepted. */
  ghost predicate PasswordReplaced(before: State, s: State, user: nat, password: string) {
    && user in before.users && user in s.users && s.users[user].hash.password == password
    && s.users == before.users[user := User(before.users[user].email, s.users[user].hash, false)]
    && OnlyTheirsEnded(before.sessions, s.sessions, user)
    && forall login | login in s.logins && login.user == user :: login.hash != s.users[user].hash && !Accepts(s, login)
  }

  lemma StoringReplaces(s: State, salt: nat)
    requires Inv(s) && salt in s.newPasswords
    ensures PasswordReplaced(s, Apply(s, Action.StorePassword(salt)), s.newPasswords[salt].user,
              s.newPasswords[salt].password)
  {
    var t := Apply(s, Action.StorePassword(salt));
    forall login | login in t.logins && login.user == s.newPasswords[salt].user
      ensures login.hash != t.users[login.user].hash && !Accepts(t, login)
    {
      assert login in s.logins;
    }
  }

  /** Nothing another request does takes back a login, a checked email or the hash waiting under a salt. */
  ghost predicate KeepsRequests(s: State, t: State, salt: nat) {
    && s.logins <= t.logins && s.newEmails <= t.newEmails && s.users.Keys <= t.users.Keys
    && (salt in s.newPasswords ==> salt in t.newPasswords && t.newPasswords[salt] == s.newPasswords[salt])
  }

  lemma StepKeepsRequests(s: State, a: Action, salt: nat)
    requires FreshSalts(s) && a != StorePassword(salt)
    ensures KeepsRequests(s, Apply(s, a), salt)
  {
  }

  /**
   * The accounts service. Reads and transactions are single steps; between a read and the transaction that follows it
   * any other requests may run, and `run` tells everything that happened during a call.
   */
  class AccountStore {
    var state: State
    // The database answers every query and commits every transaction.
    const reliable: bool

    constructor (state: State, reliable: bool)
      requires Initial(state)
      ensures this.state == state && this.reliable == reliable && Inv(this.state)
    {
      this.state, this.reliable := state, reliable;
    }

    method Perform(a: Action, ghost run: seq<Action>, ghost from: State) returns (ghost longer: seq<Action>)
      requires Inv(state) && state == Run(from, run)
      modifies this
      ensures Inv(state) && state == Apply(old(state), a) && longer == run + [a] && state == Run(from, longer)
    {
      RunKeepsInv(state, [a]);
      RunOne(state, a);
      RunConcat(from, run, [a]);
      state := Apply(state, a);
      longer := run + [a];
    }

    /** Any number of steps of other requests; only this request stores the hash waiting under its salt. */
    method OtherRequests(ghost run: seq<Action>, ghost from: State, salt: nat) returns (ghost longer: seq<Action>)
      requires Inv(state) && state == Run(from, run)
      modifies this
      ensures Inv(state) && state == Run(from, longer) && KeepsRequests(old(state), state, salt)
    {
      longer := run;
      var n: int, i := *, 0;
      while i < n
        invariant Inv(state) && state == Run(from, longer) && KeepsRequests(old(state), state, salt)
      {
        var a: Action := *;
        if a != StorePassword(salt) {
          StepKeepsRequests(state, a, salt);
          longer := Perform(a, longer, from);
        }
        i := i + 1;
      }
    }

    method FindByEmail(email: string) returns (r: Option<nat>)
      requires Inv(state)
      ensures r.Some? ==> IsUser(state, r.value, email)
      ensures r.None? ==> forall u | u in state.users :: state.users[u].email != email
    {
      if u :| u in state.users && state.users[u].email == email {
        return Some(u);
      }
      return None;
    }

    /** A query or a transaction that the database may refuse. */
    method Works() returns (ok: bool)
      ensures reliable ==> ok
    {
      ok := *;
      ok := ok || reliable;
    }

    method Authenticate(email: string, password: string) returns (r: Result<Login, Error>)
      requires Inv(state)
      modifies this
      ensures Inv(state)
      ensures r.Err? ==> state == old(state)
      ensures r == Err(MissingFields) <==> email == "" || password == ""
      ensures r.Ok? ==>
                && state == old(state).(logins := old(state).logins + {r.value}) && r.value.user in state.users
                && r.value.email == email == state.users[r.value.user].email
                && r.value.hash == state.users[r.value.user].hash && r.value.hash.password == password
                && Accepts(state, r.value)
      ensures r == Err(InvalidCredentials) ==> forall u | u in state.users ::
                state.users[u].email == email ==> state.users[u].hash.password != password
      ensures email != "" && password != "" && (forall u | u in state.users ::
                state.users[u].email == email ==> state.users[u].hash.password != password) ==>
                r == Err(InvalidCredentials) || r == Err(Database)
      ensures reliable && r.Err? ==> r.error == MissingFields || r.error == InvalidCredentials
    {
      if email == "" || password == "" {
        return Err(MissingFields);
      }
      var ok := Works();
      if !ok {
        return Err(Database);
      }
      var found := FindByEmail(email);
      if found.None? || !Matches(state.users[found.value].hash, password) {
        return Err(InvalidCredentials);
      }
      ok := Works();
      if !ok {
        return Err(Database);
      }
      var user := found.value;
      var login := Login(user, email, state.users[user].hash, state.epochs[user]);
      ghost var run := Perform(Action.Authenticate(user, email, password), [], state);
      r := Ok(login);
    }

    /**
     * RegisterSession: other requests may come first, then the credentials are checked again under the write lock.
     * `before` is the state the transaction met: of its sessions exactly the expired ones go.
     */
    method RegisterSession(login: Login, token: string, expires: int, now: int)
      returns (err: Option<Error>, ghost before: State, ghost run: seq<Action>)
      requires Inv(state) && login in state.logins
      modifies this
      ensures Inv(state) && state == Run(old(state), run)
      ensures err.None? ==>
                && state == before.(sessions := state.sessions)
                && token in state.sessions && state.sessions[token] == Session(login.user, expires, login)
                && Accepts(state, login) && login.epoch == state.epochs[login.user]
      ensures err.None? ==> forall t | t != token ::
                && (t in state.sessions <==> t in before.sessions && before.sessions[t].expires > now)
                && (t in state.sessions ==> state.sessions[t] == before.sessions[t])
      ensures err.Some? ==> state == before && err.value in {InvalidRegistration, InvalidCredentials, Database}
      ensures err == Some(InvalidRegistration) <==> token == ""
      ensures err == Some(InvalidCredentials) ==>
                || login.user !in before.users || before.users[login.user].email != login.email
                || before.users[login.user].hash != login.hash
      ensures reliable ==> err != Some(Database)
    {
      run, before := [], state;
      if token == "" {
        return Some(InvalidRegistration), before, run;
      }
      run := OtherRequests(run, state, state.nextSalt);
      before := state;
      var ok := Works();
      if !ok {
        return Some(Database), before, run;
      }
      if !Accepts(state, login) {
        return Some(InvalidCredentials), before, run;
      }
      run := Perform(Action.RegisterSession(login, token, expires, now), run, old(state));
      err := None;
    }

    /** An active session always belongs to a login that would still be accepted. */
    method IsSessionActive(user: nat, token: string, now: int) returns (active: bool)
      requires Inv(state)
      ensures active <==>
                && token != ""
                && token in state.sessions
                && state.sessions[token].user == user
                && state.sessions[token].expires > now
      ensures active ==> Accepts(state, state.sessions[token].login) && state.sessions[token].login.user == user
    {
      active := token != "" && token in state.sessions && state.sessions[token].user == user
          && state.sessions[token].expires > now;
    }

    method RevokeSession(token: string) returns (err: Option<Error>, ghost before: State, ghost run: seq<Action>)
      requires Inv(state)
      modifies this
      ensures Inv(state) && state == Run(old(state), run)
      ensures err in {None, Some(Database)} && (reliable ==> err.None?)
      ensures err.Some? || token == "" ==> state == before
      ensures err.None? && token != "" ==>
                && token !in state.sessions && state == before.(sessions := state.sessions)
                && forall t | t != token ::
                  && (t in state.sessions <==> t in before.sessions)
                  && (t in state.sessions ==> state.sessions[t] == before.sessions[t])
    {
      err, run, before := None, [], state;
      if token == "" {
        return;
      }
      run := OtherRequests(run, state, state.nextSalt);
      before := state;
      var ok := Works();
      if !ok {
        return Some(Database), before, run;
      }
      run := Perform(Action.RevokeSession(token), run, old(state));
    }

    /**
     * ChangeEmail: a change to the same email checks the password and then leaves everything, sessions included.
     * `before` is the state the transaction met.
     */
    method ChangeEmail(email: string, newEmail: string, password: string, mailbox: bool)
      returns (err: Option<Error>, ghost user: nat, ghost before: State, ghost run: seq<Action>)
      requires Inv(state)
      modifies this
      ensures Inv(state) && state == Run(old(state), run)
      ensures err.Some? ==> err.value in {InvalidEmail, UserNotFound, PasswordMismatch, DuplicateEmail, Database}
      ensures err == Some(InvalidEmail) <==> !mailbox
      ensures err.Some? ==> state == before
      ensures err in {Some(InvalidEmail), Some(UserNotFound), Some(PasswordMismatch)} ==> state == old(state)
      ensures err == Some(UserNotFound) ==> forall u | u in state.users :: state.users[u].email != email
      ensures err == Some(PasswordMismatch) ==>
                IsUser(state, user, email) && state.users[user].hash.password != password
      ensures err == Some(DuplicateEmail) ==> exists other | other in before.users ::
                other != user && before.users[other].email == newEmail
      ensures reliable ==> err != Some(Database)
      ensures err.None? ==> IsUser(old(state), user, email) && old(state).users[user].hash.password == password
      ensures err.None? && email == newEmail ==> state == old(state)
      ensures err.None? && email != newEmail ==>
                && user in before.users
                && state == before.(users := before.users[user := before.users[user].(email := newEmail)],
                                    sessions := state.sessions)
                && OnlyTheirsEnded(before.sessions, state.sessions, user)
    {
      run, user, before := [], 0, state;
      if !mailbox {
        return Some(InvalidEmail), user, before, run;
      }
      var ok := Works();
      if !ok {
        return Some(Database), user, before, run;
      }
      var found := FindByEmail(email);
      if found.None? {
        return Some(UserNotFound), user, before, run;
      }
      user := found.value;
      if !Matches(state.users[found.value].hash, password) {
        return Some(PasswordMismatch), user, before, run;
      }
      if email == newEmail {
        return None, user, before, run;
      }
      run := Perform(CheckEmail(found.value, email, newEmail, password), run, state);
      run := OtherRequests(run, old(state), state.nextSalt);
      before := state;
      ok := Works();
      if !ok {
        return Some(Database), user, before, run;
      }
      if EmailTaken(state, found.value, newEmail) {
        return Some(DuplicateEmail), user, before, run;
      }
      run := Perform(StoreEmail(found.value, newEmail), run, old(state));
      err := None;
    }

    /**
     * storePassword: the hash is made first; the transaction stores it and ends the user's sessions. `before` is the
     * state the transaction met.
     */
    method StoreHash(user: nat, password: string, salt: nat, ghost run: seq<Action>, ghost from: State)
      returns (err: Option<Error>, ghost before: State, ghost longer: seq<Action>)
      requires Inv(state) && state == Run(from, run)
      requires salt in state.newPasswords && state.newPasswords[salt] == NewPassword(user, password)
      modifies this
      ensures Inv(state) && state == Run(from, longer)
      ensures err in {None, Some(Database)} && (reliable ==> err.None?)
      ensures err.Some? ==> state == before
      ensures err.None? ==> PasswordReplaced(before, state, user, password)
    {
      longer := OtherRequests(run, from, salt);
      before := state;
      var ok := Works();
      if !ok {
        return Some(Database), before, longer;
      }
      StoringReplaces(state, salt);
      longer := Perform(Action.StorePassword(salt), longer, from);
      err := None;
    }

    /** ChangePassword. */
    method ChangePassword(email: string, password: string, newPassword: string)
      returns (err: Option<Error>, ghost user: nat, ghost before: State, ghost run: seq<Action>)
      requires Inv(state)
      modifies this
      ensures Inv(state) && state == Run(old(state), run)
      ensures err.Some? ==>
                err.value in {WeakPassword, UserNotFound, PasswordMismatch, PasswordUnchanged, Database}
      ensures err.Some? ==> state == before
      ensures err in {Some(WeakPassword), Some(UserNotFound), Some(PasswordMismatch), Some(PasswordUnchanged)} ==>
                state == old(state)
      ensures err == Some(WeakPassword) <==> |newPassword| < 8
      ensures err == Some(UserNotFound) ==> forall u | u in state.users :: state.users[u].email != email
      ensures err == Some(PasswordMismatch) ==>
                IsUser(state, user, email) && state.users[user].hash.password != password
      ensures err == Some(PasswordUnchanged) ==>
                IsUser(state, user, email) && state.users[user].hash.password == newPassword
      ensures reliable ==> err != Some(Database)
      ensures err.None? ==>
                && IsUser(old(state), user, email) && old(state).users[user].hash.password == password != newPassword
                && PasswordReplaced(before, state, user, newPassword)
    {
      run, user, before := [], 0, state;
      if |newPassword| < MINIMUM_PASSWORD_LENGTH {
        return Some(WeakPassword), user, before, run;
      }
      var ok := Works();
      if !ok {
        return Some(Database), user, before, run;
      }
      var found := FindByEmail(email);
      if found.None? {
        return Some(UserNotFound), user, before, run;
      }
      user := found.value;
      if !Matches(state.users[found.value].hash, password) {
        return Some(PasswordMismatch), user, before, run;
      }
      if Matches(state.users[found.value].hash, newPassword) {
        return Some(PasswordUnchanged), user, before, run;
      }
      var salt := state.nextSalt;
      run := Perform(CheckPassword(found.value, email, password, newPassword), run, state);
      err, before, run := StoreHash(found.value, newPassword, salt, run, old(state));
    }

    /** ResetPassword: no current password is asked for. */
    method ResetPassword(email: string, newPassword: string)
      returns (err: Option<Error>, ghost user: nat, ghost before: State, ghost run: seq<Action>)
      requires Inv(state)
      modifies this
      ensures Inv(state) && state == Run(old(state), run)
      ensures err.Some? ==> err.value in {WeakPassword, UserNotFound, Database} && state == before
      ensures err in {Some(WeakPassword), Some(UserNotFound)} ==> state == old(state)
      ensures err == Some(WeakPassword) <==> |newPassword| < 8
      ensures err == Some(UserNotFound) ==> forall u | u in state.users :: state.users[u].email != email
      ensures reliable ==> err != Some(Database)
      ensures err.None? ==>
                && IsUser(old(state), user, email)
                && PasswordReplaced(before, state, user, newPassword)
    {
      run, user, before := [], 0, state;
      if |newPassword| < MINIMUM_PASSWORD_LENGTH {
        return Some(WeakPassword), user, before, run;
      }
      var ok := Works();
      if !ok {
        return Some(Database), user, before, run;
      }
      var found := FindByEmail(email);
      if found.None? {
        return Some(UserNotFound), user, before, run;
      }
      user := found.value;
      var salt := state.nextSalt;
      run := Perform(CheckReset(found.value, email, newPassword), run, state);
      err, before, run := StoreHash(found.value, newPassword, salt, run, old(state));
    }
  }
}
