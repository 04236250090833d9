/** Forms and their email deliveries: a delivery to an address the submitter typed needs a Turnstile safeguard. */
module Safeguard {
  import opened Wrappers
  import Outbox

  datatype Error =
    | EmailInvalid
    | SourceInvalid
    | SafeguardRequired
    | SafeguardInUse
    | MailerNotFound
    | CaptchaNotFound
    | NotFound
    | FormRequired
    | Database

  /** What a request asks for; `validList` says whether a static recipient parses as an address list. */
  datatype Params = Params(enabled: bool, mailer: Option<nat>, source: string, recipient: string, validList: bool,
      replyTo: bool)

  /** A prepared delivery, without its owner. */
  datatype Settings = Settings(enabled: bool, mailer: Option<nat>, fromField: bool, recipient: string)

  datatype Delivery = Delivery(form: nat, settings: Settings)

  /** An update after its read: the delivery it took for the primary one may be gone when it commits. */
  datatype PendingUpdate = PendingUpdate(form: nat, captcha: Option<nat>, primary: Option<nat>, settings: Settings,
      requested: bool)

  datatype State = State(
    forms: map<nat, Option<nat>>,
    deliveries: map<nat, Delivery>,
    captchas: set<nat>,
    mailers: set<nat>,
    // Primary keys are never used twice.
    nextForm: nat,
    nextDelivery: nat,
    updates: set<PendingUpdate>)

  datatype Action =
    | Create(params: Params, captcha: Option<nat>)
    | ReadForUpdate(form: nat, primary: Option<nat>, params: Params, captcha: Option<nat>)
    | CommitUpdate(update: PendingUpdate)
    | CreateEmailDelivery(form: nat, params: Params)
    | UpdateEmailDelivery(form: nat, id: nat, params: Params)
    | DeleteEmailDelivery(form: nat, id: nat)
    | DeleteForm(form: nat)
    | AddProfiles(captchas: set<nat>, mailers: set<nat>)
    | DeleteCaptchaProfile(profile: nat)
    | DeleteMailerProfile(profile: nat)

  /** The settings are the requested ones, field by field. */
  ghost predicate AsAsked(settings: Settings, p: Params) {
    && settings.enabled == p.enabled && settings.mailer == p.mailer && settings.recipient == p.recipient
    && (settings.fromField <==> p.source == "field")
  }

  /** prepareEmailDelivery, as far as the recipient goes. */
  function PrepareEmailDelivery(p: Params): (r: Result<Settings, Error>)
    ensures r.Ok? ==> AsAsked(r.value, p)
    ensures r.Ok? && r.value.enabled ==> r.value.mailer.Some? && r.value.recipient != ""
    ensures r.Ok? && r.value.fromField ==> r.value.recipient != ""
    ensures r.Err? ==> r.error == SourceInvalid || r.error == EmailInvalid
    ensures r == Err(SourceInvalid) <==> p.source != "" && p.source != "static" && p.source != "field"
    ensures p.source in {"", "static", "field"} ==>
              (r == Err(EmailInvalid) <==>
                if p.recipient == "" then p.enabled || p.source == "field"
                else (p.enabled && p.mailer.None?) || (p.source != "field" && !p.validList))
  {
    if p.source !in {"", "static", "field"} then Err(SourceInvalid)
    else if p.source == "field" && p.recipient == "" then Err(EmailInvalid)
    else if p.source != "field" && p.recipient != "" && !p.validList then Err(EmailInvalid)
    else if p.enabled && (p.mailer.None? || p.recipient == "") then Err(EmailInvalid)
    else Ok(Settings(p.enabled, p.mailer, p.source == "field", p.recipient))
  }

  predicate EmailDeliveryRequested(p: Params) {
    p.enabled || p.mailer.Some? || p.recipient != "" || p.replyTo
  }

  /** Enabled, and addressed by a submitted field. */
  predicate Dynamic(settings: Settings) {
    settings.enabled && settings.fromField
  }

  /** validateDynamicRecipientSafeguard. */
  predicate PassesSafeguard(settings: Settings, captcha: Option<nat>) {
    !(Dynamic(settings) && captcha.None?)
  }

  /** validateProfileReferences. */
  predicate ReferencesExist(s: State, mailer: Option<nat>, captcha: Option<nat>) {
    (mailer.Some? ==> mailer.value in s.mailers) && (captcha.Some? ==> captcha.value in s.captchas)
  }

  /** validateAdditionalDynamicRecipients: without a safeguard no delivery but the primary one may be dynamic. */
  predicate PassesAdditional(s: State, form: nat, primary: Option<nat>, captcha: Option<nat>) {
    captcha.Some? ||
    forall d | d in s.deliveries && s.deliveries[d].form == form && Some(d) != primary ::
        !Dynamic(s.deliveries[d].settings)
  }

  predicate IsPrimary(s: State, form: nat, primary: Option<nat>) {
    match primary
    case None => forall d | d in s.deliveries :: s.deliveries[d].form != form
    case Some(id) =>
      && id in s.deliveries && s.deliveries[id].form == form
      && forall d | d in s.deliveries && s.deliveries[d].form == form :: id <= d
  }

  function Insert(s: State, form: nat, settings: Settings): State {
    s.(deliveries := s.deliveries[s.nextDelivery := Delivery(form, settings)], nextDelivery := s.nextDelivery + 1)
  }

  predicate CanCreate(s: State, p: Params, captcha: Option<nat>) {
    var prepared := PrepareEmailDelivery(p);
    prepared.Ok? && PassesSafeguard(prepared.value, captcha) && ReferencesExist(s, p.mailer, captcha)
  }

  predicate CanCommit(s: State, u: PendingUpdate) {
    && ReferencesExist(s, u.settings.mailer, u.captcha)
    && PassesAdditional(s, u.form, u.primary, u.captcha)
    // The new row's foreign key.
    && (u.primary.None? && u.requested ==> u.form in s.forms)
  }

  function Committed(s: State, u: PendingUpdate): State {
    var t := if u.form in s.forms then s.(forms := s.forms[u.form := u.captcha]) else s;
    match u.primary
    case Some(id) =>
      if id in t.deliveries then t.(deliveries := t.deliveries[id := t.deliveries[id].(settings := u.settings)]) else t
    case None =>
      if u.requested then Insert(t, u.form, u.settings) else t
  }

  predicate CanWriteDelivery(s: State, form: nat, p: Params) {
    var prepared := PrepareEmailDelivery(p);
    prepared.Ok? && form in s.forms && PassesSafeguard(prepared.value, s.forms[form])
        && ReferencesExist(s, p.mailer, None)
  }

  /** One read or one transaction; a refused one changes nothing. */
  function Apply(s: State, a: Action): State {
    match a
    case Create(p, captcha) =>
      if !CanCreate(s, p, captcha) then s
      else
        var t := s.(forms := s.forms[s.nextForm := captcha], nextForm := s.nextForm + 1);
        if EmailDeliveryRequested(p) then Insert(t, s.nextForm, PrepareEmailDelivery(p).value) else t
    case ReadForUpdate(form, primary, p, captcha) =>
      var prepared := PrepareEmailDelivery(p);
      // The form's own row was read a moment before its deliveries.
      if form >= s.nextForm || !IsPrimary(s, form, primary) || prepared.Err?
          || !PassesSafeguard(prepared.value, captcha) then s
      else s.(updates := s.updates + {PendingUpdate(form, captcha, primary, prepared.value, EmailDeliveryRequested(p))})
    case CommitUpdate(u) =>
      if u in s.updates && CanCommit(s, u) then Committed(s, u) else s
    case CreateEmailDelivery(form, p) =>
      if CanWriteDelivery(s, form, p) then Insert(s, form, PrepareEmailDelivery(p).value) else s
    case UpdateEmailDelivery(form, id, p) =>
      if CanWriteDelivery(s, form, p) && id in s.deliveries && s.deliveries[id].form == form
      then s.(deliveries := s.deliveries[id := Delivery(form, PrepareEmailDelivery(p).value)]) else s
    case DeleteEmailDelivery(form, id) =>
      if id in s.deliveries && s.deliveries[id].form == form then s.(deliveries := s.deliveries - {id}) else s
    case DeleteForm(form) =>
      s.(forms := s.forms - {form}, deliveries := map d | d in s.deliveries && s.deliveries[d].form != form ::
          s.deliveries[d])
    case AddProfiles(captchas, mailers) =>
      s.(captchas := s.captchas + captchas, mailers := s.mailers + mailers)
    case DeleteCaptchaProfile(profile) =>
      if exists f | f in s.forms :: s.forms[f] == Some(profile) then s else s.(captchas := s.captchas - {profile})
    case DeleteMailerProfile(profile) =>
      if exists d | d in s.deliveries ::
          s.deliveries[d].settings.mailer == Some(profile) then s else s.(mailers := s.mailers - {profile})
  }

  ghost function Owned(s: State, form: nat): set<nat> {
    set d | d in s.deliveries && s.deliveries[d].form == form
  }

  lemma {:induction false} LeastExists(ids: set<nat>) returns (least: nat)
    requires ids != {}
    ensures least in ids && forall d | d in ids :: least <= d
    decreases |ids|
  {
    least :| least in ids;
    if ids != {least} {
      var other := LeastExists(ids - {least});
      assert forall d | d in ids :: d == least || d in ids - {least};
      least := if least < other then least else other;
    }
  }

  /** The safeguard: an enabled delivery to a submitted address belongs to a form with an existing captcha profile. */
  ghost predicate Safeguarded(s: State) {
    && (forall d {:trigger s.deliveries[d]} | d in s.deliveries && Dynamic(s.deliveries[d].settings) ::
          s.deliveries[d].form in s.forms && s.forms[s.deliveries[d].form].Some?)
    && (forall f {:trigger s.forms[f]} | f in s.forms && s.forms[f].Some? :: s.forms[f].value in s.captchas)
  }

  /** Every row has an owner, enabled ones have an existing mailer and a recipient, and keys are below the next ones. */
  ghost predicate Linked(s: State) {
    && (forall f {:trigger f in s.forms} | f in s.forms :: f < s.nextForm)
    && (forall d {:trigger s.deliveries[d]} | d in s.deliveries ::
          && d < s.nextDelivery && s.deliveries[d].form in s.forms
          && var settings := s.deliveries[d].settings;
             && (settings.mailer.Some? ==> settings.mailer.value in s.mailers)
             && (settings.enabled ==> settings.mailer.Some? && settings.recipient != ""))
  }

  /** What an update keeps from its read: a checked delivery, and a primary key that can only ever be this form's. */
  ghost predicate UpdatesAreSound(s: State) {
    forall u {:trigger u in s.updates} | u in s.updates ::
      && u.form < s.nextForm
      && PassesSafeguard(u.settings, u.captcha)
      && (u.settings.enabled ==> u.settings.mailer.Some? && u.settings.recipient != "")
      && (u.primary.Some? ==>
            && u.primary.value < s.nextDelivery
            && (u.primary.value in s.deliveries ==> s.deliveries[u.primary.value].form == u.form))
  }

  ghost predicate Inv(s: State) {
    Safeguarded(s) && Linked(s) && UpdatesAreSound(s)
  }

  lemma StepKeepsSafeguard(s: State, a: Action)
    requires Inv(s)
    ensures Safeguarded(Apply(s, a))
  {
  }

  lemma StepKeepsLinks(s: State, a: Action)
    requires Inv(s)
    ensures Linked(Apply(s, a))
  {
  }

  lemma StepKeepsUpdates(s: State, a: Action)
    requires Inv(s)
    ensures UpdatesAreSound(Apply(s, a))
  {
  }

  function Run(s: State, actions: seq<Action>): State {
    if actions == [] then s else Apply(Run(s, actions[..|actions| - 1]), actions[|actions| - 1])
  }

  lemma RunExtended(s: State, actions: seq<Action>, a: Action)
    ensures Run(s, actions + [a]) == Apply(Run(s, actions), a)
  {
    assert (actions + [a])[..|actions|] == actions;
  }

  lemma {:induction false} RunKeepsInv(s: State, actions: seq<Action>)
    requires Inv(s)
    ensures Inv(Run(s, actions))
  {
    if actions != [] {
      var before, last := Run(s, actions[..|actions| - 1]), actions[|actions| - 1];
      RunKeepsInv(s, actions[..|actions| - 1]);
      StepKeepsSafeguard(before, last);
      StepKeepsLinks(before, last);
      StepKeepsUpdates(before, last);
    }
  }

  /**
   * In every state of every run from an empty database, an enabled delivery to a submitted address belongs to a form
   * whose captcha profile exists.
   */
  lemma EveryRunIsSafeguarded(s: State, actions: seq<Action>, d: nat)
    requires s.forms == map[] && s.deliveries == map[] && s.updates == {}
    requires d in Run(s, actions).deliveries
    requires Run(s, actions).deliveries[d].settings.enabled && Run(s, actions).deliveries[d].settings.fromField
    ensures
      var after := Run(s, actions);
      var form := after.deliveries[d].form;
      form in after.forms && after.forms[form].Some? && after.forms[form].value in after.captchas
  {
    RunKeepsInv(s, actions);
  }

  /** There are such runs: a request for an enabled field delivery leads to one whenever its profiles exist. */
  lemma DynamicDeliveriesAreMade(s: State, p: Params, captcha: nat)
    requires s.deliveries == map[] && p.enabled && p.source == "field" && p.recipient != ""
    requires p.mailer.Some? && p.mailer.value in s.mailers && captcha in s.captchas
    ensures
      var after := Run(s, [Action.Create(p, Some(captcha))]);
      && after.forms == s.forms[s.nextForm := Some(captcha)]
      && after.deliveries == map[s.nextDelivery := Delivery(s.nextForm, Settings(true, p.mailer, true, p.recipient))]
  {
    RunExtended(s, [], Action.Create(p, Some(captcha)));
    assert [] + [Action.Create(p, Some(captcha))] == [Action.Create(p, Some(captcha))];
  }

  /** So the outbox never has to pass over an enabled delivery. */
  lemma EnabledIsEligible(s: State, d: nat, snapshot: Outbox.FormSnapshot)
    requires Inv(s) && d in s.deliveries && s.deliveries[d].settings.enabled
    requires snapshot.captcha == s.forms[s.deliveries[d].form].Some?
    ensures
      var settings := s.deliveries[d].settings;
      && settings.recipient != "" && (settings.fromField ==> snapshot.captcha)
      && Outbox.EmailEligible(snapshot,
             Outbox.EmailSettings(d, settings.enabled, settings.recipient, settings.fromField))
  {
  }

  /**
   * An update that was checked against an older state commits safely exactly when the row it takes for the primary
   * delivery is gone, or its own form's, or settings of its kind suit the form that owns it now.
   */
  lemma StaleCommitIsSafeExactlyWhen(s: State, u: PendingUpdate)
    requires Safeguarded(s) && Linked(s) && PassesSafeguard(u.settings, u.captcha) && CanCommit(s, u)
               && u.form in s.forms
    ensures Safeguarded(Committed(s, u)) <==>
              (u.primary.Some? && u.primary.value in s.deliveries && s.deliveries[u.primary.value].form != u.form
               ==> PassesSafeguard(u.settings, s.forms[s.deliveries[u.primary.value].form]))
  {
    if u.primary.Some? && u.primary.value in s.deliveries {
      var t := Committed(s, u);
      assert t.deliveries[u.primary.value].settings == u.settings;
      assert t.deliveries[u.primary.value].form == s.deliveries[u.primary.value].form;
    }
  }

  /**
   * If the primary key had been given to another form's delivery, the commit would switch that one
   * to a submitted address.
   */
  lemma ReusedKeyWouldBreakTheSafeguard()
    ensures
      var fixed, dynamic := Settings(true, Some(1), false, "a@b"), Settings(true, Some(1), true, "email");
      var s := State(map[1 := Some(1), 2 := None], map[5 := Delivery(2, fixed)], {1}, {1}, 3, 6, {});
      var u := PendingUpdate(1, Some(1), Some(5), dynamic, true);
      Safeguarded(s) && Linked(s) && PassesSafeguard(dynamic, u.captcha) && CanCommit(s, u)
          && !Safeguarded(Committed(s, u))
  {
    var fixed, dynamic := Settings(true, Some(1), false, "a@b"), Settings(true, Some(1), true, "email");
    var s := State(map[1 := Some(1), 2 := None], map[5 := Delivery(2, fixed)], {1}, {1}, 3, 6, {});
    var u := PendingUpdate(1, Some(1), Some(5), dynamic, true);
    var t := Committed(s, u);
    assert 5 in t.deliveries && t.deliveries[5] == Delivery(2, dynamic) && t.forms[2].None?;
  }

  /** One more delivery, of that form and with the requested settings. */
  ghost predicate Added(before: map<nat, Delivery>, after: map<nat, Delivery>, form: nat, p: Params) {
    exists d: nat | d !in before && d in after ::
      after == before[d := after[d]] && after[d].form == form && AsAsked(after[d].settings, p)
  }

  /** The delivery has the requested settings, its owner as before, and nothing else has changed. */
  ghost predicate Changed(before: map<nat, Delivery>, after: map<nat, Delivery>, d: nat, p: Params) {
    && d in before && d in after
    && after == before[d := after[d]] && after[d].form == before[d].form && AsAsked(after[d].settings, p)
  }

  /** Neither forms nor deliveries have changed. */
  ghost predicate SameRows(before: State, after: State) {
    after.forms == before.forms && after.deliveries == before.deliveries
  }

  /** Without a captcha: another delivery of the form than the primary one is enabled and addressed by a field. */
  ghost predicate OthersAreDynamic(s: State, u: PendingUpdate) {
    u.captcha.None? && exists d | d in s.deliveries && s.deliveries[d].form == u.form ::
      Some(d) != u.primary && s.deliveries[d].settings.enabled && s.deliveries[d].settings.fromField
  }

  /** What a stored update has done to the rows. */
  ghost predicate Stored(before: State, after: State, u: PendingUpdate, p: Params) {
    && after.forms == before.forms[u.form := u.captcha]
    && if u.primary.Some? && u.primary.value in before.deliveries
       then Changed(before.deliveries, after.deliveries, u.primary.value, p)
       else if u.primary.None? && (p.enabled || p.mailer.Some? || p.recipient != "" || p.replyTo)
       then Added(before.deliveries, after.deliveries, u.form, p)
       else after.deliveries == before.deliveries
  }

  lemma CommitChanges(s: State, u: PendingUpdate, p: Params)
    requires Inv(s) && u in s.updates && CanCommit(s, u)
    requires AsAsked(u.settings, p) && u.requested == EmailDeliveryRequested(p)
    ensures if u.form in s.forms then Stored(s, Committed(s, u), u, p) else SameRows(s, Committed(s, u))
  {
    var t := Committed(s, u);
    if u.primary.None? && u.requested {
      assert s.nextDelivery !in s.deliveries;
      assert s.nextDelivery in t.deliveries;
      assert t.deliveries == s.deliveries[s.nextDelivery := Delivery(u.form, u.settings)];
    }
  }

  ghost predicate ProfilesExist(s: State, mailer: Option<nat>, captcha: Option<nat>) {
    && (mailer.None? || mailer.value in s.mailers)
    && (captcha.None? || captcha.value in s.captchas)
  }

  /**
   * The forms service. Reads and transactions are single steps; between a read and the transaction that follows it any
   * other requests may run, and `run` tells everything that happened during a call.
   */
  class FormStore {
    var state: State
    // The database answers every query and commits every transaction.
    const reliable: bool

    constructor (state: State, reliable: bool)
      requires Inv(state)
      ensures this.state == state && this.reliable == reliable
    {
      this.state, this.reliable := state, reliable;
    }

    ghost predicate Reached(from: State, run: seq<Action>)
      reads this
    {
      Inv(state) && state == Run(from, run)
    }

    method Perform(a: Action, ghost run: seq<Action>, ghost from: State) returns (ghost longer: seq<Action>)
      requires Reached(from, run)
      modifies this
      ensures Reached(from, longer) && state == Apply(old(state), a)
    {
      RunExtended(from, run, a);
      RunExtended(state, [], a);
      RunKeepsInv(state, [a]);
      longer := run + [a];
      state := Apply(state, a);
    }

    method OtherRequests(ghost run: seq<Action>, ghost from: State) returns (ghost longer: seq<Action>)
      requires Reached(from, run)
      modifies this
      ensures Reached(from, longer) && old(state).updates <= state.updates
    {
      longer := run;
      var n: int, i := *, 0;
      while i < n
        invariant Reached(from, longer) && old(state).updates <= state.updates
      {
        var a: Action := *;
        longer := Perform(a, longer, from);
        i := i + 1;
      }
    }

    /** PrimaryEmailDelivery: the form's delivery with the lowest key, if it has any. */
    method PrimaryEmailDelivery(form: nat) returns (primary: Option<nat>)
      ensures IsPrimary(state, form, primary)
    {
      var owned := set d | d in state.deliveries && state.deliveries[d].form == form;
      assert forall d | d in state.deliveries && state.deliveries[d].form == form :: d in owned;
      if owned == {} {
        return None;
      }
      ghost var least := LeastExists(owned);
      var id :| id in owned && forall d | d in owned :: id <= d;
      primary := Some(id);
    }

    /** Create: the checks need no form, so only the references are looked up inside the transaction. */
    method Create(p: Params, captcha: Option<nat>)
      returns (r: Result<nat, Error>, ghost before: State, ghost run: seq<Action>)
      requires Inv(state)
      modifies this
      ensures Reached(old(state), run)
      ensures PrepareEmailDelivery(p).Err? ==> r == Err(PrepareEmailDelivery(p).error)
      ensures r == Err(SafeguardRequired) <==>
                PrepareEmailDelivery(p).Ok? && p.enabled && p.source == "field" && captcha.None?
      ensures r == Err(MailerNotFound) ==> p.mailer.Some? && p.mailer.value !in before.mailers
      ensures r == Err(CaptchaNotFound) ==> captcha.Some? && captcha.value !in before.captchas
      ensures p.enabled && p.source == "field" && captcha.None? ==> r.Err?
      ensures r.Err? ==> SameRows(before, state)
      ensures r.Ok? ==>
                && r.value !in before.forms && state.forms == before.forms[r.value := captcha]
                && Owned(before, r.value) == {}
                && if p.enabled || p.mailer.Some? || p.recipient != "" || p.replyTo
                   then Added(before.deliveries, state.deliveries, r.value, p)
                   else state.deliveries == before.deliveries
      ensures reliable && PrepareEmailDelivery(p).Ok? && !(p.enabled && p.source == "field" && captcha.None?)
                && ProfilesExist(before, p.mailer, captcha) ==>
                r.Ok?
    {
      before, run := state, [];
      var prepared := PrepareEmailDelivery(p);
      if prepared.Err? {
        return Err(prepared.error), before, run;
      }
      if !PassesSafeguard(prepared.value, captcha) {
        return Err(SafeguardRequired), before, run;
      }
      run := OtherRequests(run, state);
      before := state;
      var fails := *;
      if fails && !reliable {
        return Err(Database), before, run;
      }
      if p.mailer.Some? && p.mailer.value !in state.mailers {
        return Err(MailerNotFound), before, run;
      }
      if captcha.Some? && captcha.value !in state.captchas {
        return Err(CaptchaNotFound), before, run;
      }
      var id := state.nextForm;
      run := Perform(Action.Create(p, captcha), run, old(state));
      assert before.nextDelivery !in before.deliveries;
      assert EmailDeliveryRequested(p) ==>
        before.nextDelivery in state.deliveries && Added(before.deliveries, state.deliveries, id, p);
      r := Ok(id);
    }

    /**
     * Update: the delivery taken for the primary one is read before the transaction. `before` is the state the
     * transaction met, `u` what the read had left in its hands.
     */
    method Update(form: nat, p: Params, captcha: Option<nat>)
      returns (err: Option<Error>, ghost before: State, ghost u: PendingUpdate, ghost run: seq<Action>)
      requires Inv(state)
      modifies this
      ensures Reached(old(state), run)
      ensures err == Some(SafeguardRequired) <==>
                && form in old(state).forms && PrepareEmailDelivery(p).Ok?
                && p.enabled && p.source == "field" && captcha.None?
      ensures err == Some(SafeguardInUse) ==>
                u.form == form && u.captcha == captcha && OthersAreDynamic(before, u)
      ensures err == Some(MailerNotFound) ==> p.mailer.Some? && p.mailer.value !in before.mailers
      ensures err == Some(CaptchaNotFound) ==> captcha.Some? && captcha.value !in before.captchas
      ensures p.enabled && p.source == "field" && captcha.None? ==> err.Some?
      ensures err.Some? ==> SameRows(before, state)
      ensures err.None? ==>
                && form in before.forms && state.forms == before.forms[form := captcha]
                && u.form == form && u.captcha == captcha && PrepareEmailDelivery(p) == Ok(u.settings)
                && IsPrimary(old(state), form, u.primary)
                && CanCommit(before, u) && state == Committed(before, u)
                && (captcha.None? ==> forall d | d in state.deliveries && state.deliveries[d].form == form ::
                    !(state.deliveries[d].settings.enabled && state.deliveries[d].settings.fromField))
      ensures err.None? ==> Stored(before, state, u, p)
      ensures reliable && form in old(state).forms && PrepareEmailDelivery(p).Ok?
                && !(p.enabled && p.source == "field" && captcha.None?)
                && ProfilesExist(before, p.mailer, captcha) && form in before.forms && !OthersAreDynamic(before, u) ==>
                err.None?
    {
      assert Run(state, []) == state;
      hide Run, Stored, Committed, Linked, UpdatesAreSound;
      before, run := state, [];
      u := PendingUpdate(form, captcha, None, Settings(false, None, false, ""), false);
      if form !in state.forms {
        return Some(NotFound), before, u, run;
      }
      var prepared := PrepareEmailDelivery(p);
      if prepared.Err? {
        return Some(prepared.error), before, u, run;
      }
      if !PassesSafeguard(prepared.value, captcha) {
        return Some(SafeguardRequired), before, u, run;
      }
      var primary := PrimaryEmailDelivery(form);
      var update := PendingUpdate(form, captcha, primary, prepared.value, EmailDeliveryRequested(p));
      u := update;
      run := Perform(ReadForUpdate(form, primary, p, captcha), run, state);
      run := OtherRequests(run, old(state));
      before := state;
      err, run := StoreUpdate(update, p, run, old(state));
    }

    /** Its transaction, and the closing GetByID. */
    method StoreUpdate(u: PendingUpdate, p: Params, ghost run: seq<Action>, ghost from: State)
      returns (err: Option<Error>, ghost longer: seq<Action>)
      requires Reached(from, run) && u in state.updates
      requires AsAsked(u.settings, p) && u.requested == EmailDeliveryRequested(p)
      modifies this
      ensures Reached(from, longer)
      ensures err in {None, Some(Database), Some(MailerNotFound), Some(CaptchaNotFound), Some(SafeguardInUse),
                      Some(NotFound)}
      ensures err == Some(SafeguardInUse) ==> OthersAreDynamic(old(state), u)
      ensures err == Some(MailerNotFound) ==> p.mailer.Some? && p.mailer.value !in old(state).mailers
      ensures err == Some(CaptchaNotFound) ==> u.captcha.Some? && u.captcha.value !in old(state).captchas
      ensures err.Some? ==> SameRows(old(state), state)
      ensures err.None? ==>
                && u.form in old(state).forms && CanCommit(old(state), u) && state == Committed(old(state), u)
                && Stored(old(state), state, u, p)
      ensures reliable && ProfilesExist(old(state), p.mailer, u.captcha) && u.form in old(state).forms
                && !OthersAreDynamic(old(state), u) ==>
                err.None?
    {
      assert u.settings.mailer == p.mailer;
      hide Run, Stored, Committed, Inv, AsAsked;
      longer := run;
      var fails := *;
      if fails && !reliable {
        return Some(Database), longer;
      }
      if p.mailer.Some? && p.mailer.value !in state.mailers {
        return Some(MailerNotFound), longer;
      }
      if u.captcha.Some? && u.captcha.value !in state.captchas {
        return Some(CaptchaNotFound), longer;
      }
      if !PassesAdditional(state, u.form, u.primary, u.captcha) {
        return Some(SafeguardInUse), longer;
      }
      if u.primary.None? && u.requested && u.form !in state.forms {
        return Some(Database), longer;
      }
      CommitChanges(state, u, p);
      longer := Perform(CommitUpdate(u), longer, from);
      if u.form !in state.forms {
        return Some(NotFound), longer;
      }
      err := None;
    }

    method CreateEmailDelivery(form: nat, p: Params)
      returns (r: Result<nat, Error>, ghost before: State, ghost run: seq<Action>)
      requires Inv(state)
      modifies this
      ensures Reached(old(state), run)
      ensures PrepareEmailDelivery(p).Err? ==> r == Err(PrepareEmailDelivery(p).error)
      ensures r == Err(SafeguardRequired) ==>
                form in before.forms && before.forms[form].None? && p.enabled && p.source == "field"
      ensures r == Err(MailerNotFound) ==> p.mailer.Some? && p.mailer.value !in before.mailers
      ensures r == Err(NotFound) ==> form !in before.forms
      ensures p.enabled && p.source == "field" && form in before.forms && before.forms[form].None? ==> r.Err?
      ensures r.Err? ==> SameRows(before, state)
      ensures r.Ok? ==>
                && form in before.forms && state.forms == before.forms && r.value !in before.deliveries
                && r.value in state.deliveries && AsAsked(state.deliveries[r.value].settings, p)
                && state.deliveries[r.value].form == form
                && state.deliveries == before.deliveries[r.value := state.deliveries[r.value]]
      ensures reliable && form != 0 && form in before.forms && PrepareEmailDelivery(p).Ok?
                && !(p.enabled && p.source == "field" && before.forms[form].None?)
                && ProfilesExist(before, p.mailer, None) ==>
                r.Ok?
    {
      before, run := state, [];
      var prepared := PrepareEmailDelivery(p);
      if prepared.Err? {
        return Err(prepared.error), before, run;
      }
      if form == 0 {
        return Err(FormRequired), before, run;
      }
      run := OtherRequests(run, state);
      before := state;
      var fails := *;
      if fails && !reliable {
        return Err(Database), before, run;
      }
      if form !in state.forms {
        return Err(NotFound), before, run;
      }
      if !PassesSafeguard(prepared.value, state.forms[form]) {
        return Err(SafeguardRequired), before, run;
      }
      if p.mailer.Some? && p.mailer.value !in state.mailers {
        return Err(MailerNotFound), before, run;
      }
      var id := state.nextDelivery;
      run := Perform(Action.CreateEmailDelivery(form, p), run, old(state));
      r := Ok(id);
    }

    method UpdateEmailDelivery(form: nat, id: nat, p: Params)
      returns (err: Option<Error>, ghost before: State, ghost run: seq<Action>)
      requires Inv(state)
      modifies this
      ensures Reached(old(state), run)
      ensures err == Some(SafeguardRequired) ==>
                form in before.forms && before.forms[form].None? && p.enabled && p.source == "field"
      ensures err == Some(MailerNotFound) ==> p.mailer.Some? && p.mailer.value !in before.mailers
      ensures err == Some(NotFound) ==>
                || form == 0 || id == 0 || form !in before.forms
                || id !in before.deliveries || before.deliveries[id].form != form
      ensures p.enabled && p.source == "field" && form in before.forms && before.forms[form].None? ==> err.Some?
      ensures err.Some? ==> SameRows(before, state)
      ensures err.None? ==>
                && form in before.forms && state.forms == before.forms
                && Changed(before.deliveries, state.deliveries, id, p) && before.deliveries[id].form == form
      ensures reliable && form != 0 && id != 0 && form in before.forms && PrepareEmailDelivery(p).Ok?
                && !(p.enabled && p.source == "field" && before.forms[form].None?)
                && ProfilesExist(before, p.mailer, None)
                && id in before.deliveries && before.deliveries[id].form == form ==>
                err.None?
    {
      before, run := state, [];
      if id == 0 || form == 0 {
        return Some(NotFound), before, run;
      }
      var prepared := PrepareEmailDelivery(p);
      if prepared.Err? {
        return Some(prepared.error), before, run;
      }
      run := OtherRequests(run, state);
      before := state;
      var fails := *;
      if fails && !reliable {
        return Some(Database), before, run;
      }
      if form !in state.forms {
        return Some(NotFound), before, run;
      }
      if !PassesSafeguard(prepared.value, state.forms[form]) {
        return Some(SafeguardRequired), before, run;
      }
      if p.mailer.Some? && p.mailer.value !in state.mailers {
        return Some(MailerNotFound), before, run;
      }
      if id !in state.deliveries || state.deliveries[id].form != form {
        return Some(NotFound), before, run;
      }
      run := Perform(Action.UpdateEmailDelivery(form, id, p), run, old(state));
      err := None;
    }

    method DeleteEmailDelivery(form: nat, id: nat)
      returns (err: Option<Error>, ghost before: State, ghost run: seq<Action>)
      requires Inv(state)
      modifies this
      ensures Reached(old(state), run)
      ensures err.None? ==>
                && id in before.deliveries && before.deliveries[id].form == form
                && state == before.(deliveries := before.deliveries - {id})
      ensures err == Some(NotFound) ==>
                && state == before
                && (form == 0 || id == 0 || id !in before.deliveries || before.deliveries[id].form != form)
      ensures reliable && form != 0 && id != 0 && id in before.deliveries && before.deliveries[id].form == form ==>
                err.None?
    {
      before, run := state, [];
      if form == 0 || id == 0 {
        return Some(NotFound), before, run;
      }
      run := OtherRequests(run, state);
      before := state;
      var fails := *;
      if fails && !reliable {
        return Some(Database), before, run;
      }
      if id !in state.deliveries || state.deliveries[id].form != form {
        return Some(NotFound), before, run;
      }
      run := Perform(Action.DeleteEmailDelivery(form, id), run, old(state));
      err := None;
    }
  }
}
