/** The rows one accepted submission adds: itself, its files and one delivery event per eligible channel. */
module Outbox {
  import opened Wrappers
  import opened StoredPaths
  import opened Records

  datatype WebhookSettings = WebhookSettings(enabled: bool, url: string)

  datatype EmailSettings = EmailSettings(id: nat, enabled: bool, recipient: string, fromField: bool)

  /** The form as the request read it, before any transaction. */
  datatype FormSnapshot = FormSnapshot(id: nat, webhook: Option<WebhookSettings>, emails: seq<EmailSettings>,
      captcha: bool)

  /** Primary keys differ. */
  ghost predicate DistinctDeliveries(form: FormSnapshot) {
    forall i, j | 0 <= i < j < |form.emails| :: form.emails[i].id != form.emails[j].id
  }

  predicate EmailEligible(form: FormSnapshot, email: EmailSettings) {
    email.enabled && email.recipient != "" && (email.fromField ==> form.captcha)
  }

  /** Which channels the form delivers a submission to. */
  predicate Eligible(form: FormSnapshot, channel: Channel) {
    match channel
    case Webhook => form.webhook.Some? && form.webhook.value.enabled && form.webhook.value.url != ""
    case Email(id) => exists i | 0 <= i < |form.emails| ::
        form.emails[i].id == id && EmailEligible(form, form.emails[i])
  }

  /** One submission's events are exactly one for each eligible channel. */
  ghost predicate OneEventEach(events: map<nat, EventRow>, submission: nat, form: FormSnapshot) {
    && (forall e | e in events && events[e].submission == submission :: Eligible(form, events[e].channel))
    && (forall channel | Eligible(form, channel) :: exists e ::
        e in events && events[e] == EventRow(submission, channel))
    && (forall d, e | d in events && e in events && events[d] == events[e] && events[d].submission == submission ::
        d == e)
  }

  predicate HasEvent(events: map<nat, EventRow>, submission: nat, channel: Channel) {
    exists e | e in events :: events[e] == EventRow(submission, channel)
  }

  /** The submission's events in terms of the form's settings: one for each channel that is ready, none for another. */
  ghost predicate Announced(events: map<nat, EventRow>, submission: nat, form: FormSnapshot) {
    && (HasEvent(events, submission, Webhook) <==>
          form.webhook.Some? && form.webhook.value.enabled && form.webhook.value.url != "")
    && (forall i | 0 <= i < |form.emails| :: HasEvent(events, submission, Email(form.emails[i].id)) <==>
          form.emails[i].enabled && form.emails[i].recipient != "" && (form.emails[i].fromField ==> form.captcha))
    && (forall id | HasEvent(events, submission, Email(id)) ::
          exists i :: 0 <= i < |form.emails| && form.emails[i].id == id)
    && (forall d, e | d in events && e in events && events[d].submission == events[e].submission == submission
          && events[d].channel == events[e].channel :: d == e)
  }

  lemma EventsAnnounce(events: map<nat, EventRow>, submission: nat, form: FormSnapshot)
    requires OneEventEach(events, submission, form) && DistinctDeliveries(form)
    ensures Announced(events, submission, form)
  {
    assert Eligible(form, Webhook) ==> HasEvent(events, submission, Webhook);
    forall i | 0 <= i < |form.emails|
      ensures HasEvent(events, submission, Email(form.emails[i].id)) <==>
                form.emails[i].enabled && form.emails[i].recipient != "" && (form.emails[i].fromField ==> form.captcha)
    {
      assert Eligible(form, Email(form.emails[i].id)) <==> EmailEligible(form, form.emails[i]);
    }
  }

  lemma {:induction false} BoundExists(ids: set<nat>) returns (bound: nat)
    ensures forall id | id in ids :: id < bound
  {
    if ids == {} {
      bound := 0;
    } else {
      var id :| id in ids;
      var rest := BoundExists(ids - {id});
      assert forall other | other in ids :: other == id || other in ids - {id};
      bound := if id < rest then rest else id + 1;
    }
  }

  /** A key the table does not use yet. */
  method NewId(ids: set<nat>) returns (id: nat)
    ensures id !in ids
  {
    ghost var bound := BoundExists(ids);
    assert bound !in ids;
    id :| id !in ids;
  }

  /** createDeliveryEvents: the webhook first, then the email deliveries in the snapshot's order. */
  method CreateDeliveryEvents(events: map<nat, EventRow>, form: FormSnapshot, submission: nat)
    returns (after: map<nat, EventRow>)
    requires DistinctDeliveries(form)
    requires forall e | e in events :: events[e].submission != submission
    ensures OneEventEach(after, submission, form) && Announced(after, submission, form)
    ensures events.Keys <= after.Keys && forall e | e in events :: after[e] == events[e]
    ensures forall e | e in after && e !in events :: after[e].submission == submission
  {
    after := events;
    if form.webhook.Some? && form.webhook.value.enabled && form.webhook.value.url != "" {
      var id := NewId(after.Keys);
      after := after[id := EventRow(submission, Webhook)];
    }
    for n := 0 to |form.emails|
      invariant events.Keys <= after.Keys && forall e | e in events :: after[e] == events[e]
      invariant forall e | e in after && e !in events :: after[e].submission == submission
      invariant OneEventEach(after, submission, form.(emails := form.emails[..n]))
    {
      var email := form.emails[n];
      ghost var before := after;
      if EmailEligible(form, email) {
        var id := NewId(after.Keys);
        after := after[id := EventRow(submission, Email(email.id))];
      }
      OneMoreEmail(before, after, submission, form, n);
    }
    assert form.emails[..|form.emails|] == form.emails;
    assert form.(emails := form.emails) == form;
    EventsAnnounce(after, submission, form);
  }

  lemma OneMoreEmail(before: map<nat, EventRow>, after: map<nat, EventRow>, submission: nat, form: FormSnapshot, n: nat)
    requires DistinctDeliveries(form) && n < |form.emails|
    requires OneEventEach(before, submission, form.(emails := form.emails[..n]))
    requires if EmailEligible(form, form.emails[n])
             then exists id: nat ::
                 id !in before && after == before[id := EventRow(submission, Email(form.emails[n].id))]
             else after == before
    ensures OneEventEach(after, submission, form.(emails := form.emails[..n + 1]))
  {
    var shorter, longer := form.(emails := form.emails[..n]), form.(emails := form.emails[..n + 1]);
    var email := form.emails[n];
    forall channel
      ensures Eligible(longer, channel) <==>
                Eligible(shorter, channel) || (EmailEligible(form, email) && channel == Email(email.id))
    {
      if channel.Email? {
        forall i | 0 <= i < n ensures longer.emails[i] == shorter.emails[i] {
        }
        assert longer.emails[n] == email;
        if Eligible(shorter, channel) {
          var i :| 0 <= i < n && shorter.emails[i].id == channel.delivery && EmailEligible(shorter, shorter.emails[i]);
          assert longer.emails[i] == shorter.emails[i];
        }
      }
    }
    assert !Eligible(shorter, Email(email.id));
    if EmailEligible(form, email) {
      var id: nat :| id !in before && after == before[id := EventRow(submission, Email(email.id))];
      forall channel | Eligible(longer, channel)
        ensures exists e :: e in after && after[e] == EventRow(submission, channel) {
        if channel == Email(email.id) {
          assert after[id] == EventRow(submission, channel);
        } else {
          var e :| e in before && before[e] == EventRow(submission, channel);
          assert e in after && after[e] == before[e];
        }
      }
    }
  }

  /** SUM(size) over the file rows. */
  ghost function StoredBytes(files: map<nat, FileRow>): nat
    decreases |files|
  {
    if files == map[] then 0
    else
      var f :| f in files;
      files[f].size + StoredBytes(files - {f})
  }

  lemma {:induction false} StoredBytesWithout(files: map<nat, FileRow>, f: nat)
    requires f in files
    ensures StoredBytes(files) == files[f].size + StoredBytes(files - {f})
    decreases |files|
  {
    var g :| g in files && StoredBytes(files) == files[g].size + StoredBytes(files - {g});
    if g != f {
      StoredBytesWithout(files - {g}, f);
      StoredBytesWithout(files - {f}, g);
      assert files - {g} - {f} == files - {f} - {g};
    }
  }

  /** Deleting rows only ever frees storage. */
  lemma {:induction false} FewerRowsFewerBytes(fewer: map<nat, FileRow>, files: map<nat, FileRow>)
    requires forall f | f in fewer :: f in files && files[f] == fewer[f]
    ensures StoredBytes(fewer) <= StoredBytes(files)
    decreases |files|
  {
    if f :| f in files {
      StoredBytesWithout(files, f);
      if f in fewer {
        StoredBytesWithout(fewer, f);
      } else {
        assert fewer - {f} == fewer;
      }
      FewerRowsFewerBytes(fewer - {f}, files - {f});
    } else {
      assert fewer == map[];
    }
  }

  ghost function TotalSize(records: seq<FileRow>): nat {
    if records == [] then 0 else TotalSize(records[..|records| - 1]) + records[|records| - 1].size
  }

  /** The records of one submission, inserted under their own fresh keys. */
  ghost predicate RowsAdded(before: map<nat, FileRow>, after: map<nat, FileRow>, ids: seq<nat>, submission: nat,
                            records: seq<FileRow>) {
    && |ids| == |records|
    && (forall i, j | 0 <= i < j < |ids| :: ids[i] != ids[j])
    && (forall i | 0 <= i < |ids| ::
        ids[i] !in before && ids[i] in after && after[ids[i]] == records[i].(submission := submission))
    && (forall f | f in before :: f in after && after[f] == before[f])
    && (forall f | f in after :: f in before || f in ids)
  }

  ghost predicate DistinctPaths(records: seq<FileRow>) {
    forall i, j | 0 <= i < j < |records| :: records[i].path != records[j].path
  }

  /** Rows for files of their own, which no row has referenced yet, keep files apart. */
  lemma AddedFilesAreDistinct(before: map<nat, FileRow>, after: map<nat, FileRow>, ids: seq<nat>, submission: nat,
                              records: seq<FileRow>)
    requires RowsAdded(before, after, ids, submission, records) && DistinctFiles(before) && DistinctPaths(records)
    requires forall i, f | 0 <= i < |records| && f in before :: before[f].path != records[i].path
    ensures DistinctFiles(after)
  {
    forall f, g | f in after && g in after && after[f].path == after[g].path ensures f == g {
      assert f in before <==> g in before;
      if f !in before {
        var i :| 0 <= i < |ids| && ids[i] == f;
        var j :| 0 <= j < |ids| && ids[j] == g;
        assert records[i].path == records[j].path;
      }
    }
  }

  lemma OneRowLess(before: map<nat, FileRow>, after: map<nat, FileRow>, ids: seq<nat>, submission: nat,
                   records: seq<FileRow>)
    requires RowsAdded(before, after, ids, submission, records) && records != []
    ensures
      var n := |records| - 1;
      ids[n] in after && after[ids[n]].size == records[n].size
      && RowsAdded(before, after - {ids[n]}, ids[..n], submission, records[..n])
  {
    var n := |records| - 1;
    assert forall f | f in after && f != ids[n] :: f in before || f in ids[..n];
  }

  lemma NoRowsAdded(before: map<nat, FileRow>, after: map<nat, FileRow>, ids: seq<nat>, submission: nat)
    requires RowsAdded(before, after, ids, submission, [])
    ensures after == before
  {
  }

  lemma {:induction false} AddedBytes(before: map<nat, FileRow>, after: map<nat, FileRow>, ids: seq<nat>,
                                submission: nat, records: seq<FileRow>)
    requires RowsAdded(before, after, ids, submission, records)
    ensures StoredBytes(after) == StoredBytes(before) + TotalSize(records)
    decreases |records|
  {
    if records == [] {
      NoRowsAdded(before, after, ids, submission);
    } else {
      var n := |records| - 1;
      OneRowLess(before, after, ids, submission, records);
      StoredBytesWithout(after, ids[n]);
      AddedBytes(before, after - {ids[n]}, ids[..n], submission, records[..n]);
    }
  }

  /** checkUploadQuota: refuses when the stored bytes exceed what the maximum leaves for the incoming ones. */
  method CheckUploadQuota(files: map<nat, FileRow>, records: seq<FileRow>, maximum: int) returns (ok: bool)
    ensures ok <==> records == [] || maximum <= 0 || StoredBytes(files) + TotalSize(records) <= maximum
  {
    if records == [] || maximum <= 0 {
      return true;
    }
    var storedBytes := SumSizes(files);
    var incomingBytes := 0;
    for n := 0 to |records|
      invariant incomingBytes == TotalSize(records[..n])
    {
      assert records[..n + 1][..n] == records[..n];
      incomingBytes := incomingBytes + records[n].size;
    }
    assert records[..|records|] == records;
    ok := storedBytes <= maximum - incomingBytes;
  }

  method SumSizes(files: map<nat, FileRow>) returns (sum: nat)
    ensures sum == StoredBytes(files)
  {
    var rest := files;
    sum := 0;
    while rest != map[]
      invariant sum + StoredBytes(rest) == StoredBytes(files)
      decreases |rest|
    {
      var f :| f in rest;
      StoredBytesWithout(rest, f);
      sum, rest := sum + rest[f].size, rest - {f};
    }
  }

  /** What a stored submission changes in the tables, all of it together. */
  ghost predicate Stores(before: Db, after: Db, submission: nat, form: FormSnapshot, spam: bool, ids: seq<nat>,
                         records: seq<FileRow>) {
    && form.id in before.forms && submission !in before.submissions
    && after.forms == before.forms
    && after.emailDeliveries == before.emailDeliveries && after.webhookDeliveries == before.webhookDeliveries
    && after.submissions == before.submissions[submission := Submission(form.id, spam)]
    && RowsAdded(before.files, after.files, ids, submission, if spam then [] else records)
    && (if spam then after.events == before.events else OneEventEach(after.events, submission, form))
    && (forall e | e in before.events :: e in after.events && after.events[e] == before.events[e])
    && (forall e | e in after.events && e !in before.events :: after.events[e].submission == submission)
  }

  /** Creates that all carry one positive maximum never take the stored bytes above it. */
  lemma QuotaIsKept(before: Db, after: Db, submission: nat, form: FormSnapshot, spam: bool, ids: seq<nat>,
                    records: seq<FileRow>, maximum: int)
    requires Stores(before, after, submission, form, spam, ids, records)
    requires StoredBytes(before.files) <= maximum
    requires records == [] || maximum <= 0 || StoredBytes(before.files) + TotalSize(records) <= maximum
    requires maximum > 0
    ensures StoredBytes(after.files) <= maximum
  {
    AddedBytes(before.files, after.files, ids, submission, if spam then [] else records);
  }

  lemma StoringKeepsLinks(before: Db, after: Db, submission: nat, form: FormSnapshot, spam: bool, ids: seq<nat>,
                          records: seq<FileRow>)
    requires Linked(before) && Stores(before, after, submission, form, spam, ids, records)
    ensures Linked(after)
  {
    forall f | f in after.files ensures after.files[f].submission in after.submissions {
      if f !in before.files {
        var i :| 0 <= i < |ids| && ids[i] == f;
      }
    }
  }

  datatype PayloadValue = Null | Text(text: string) | Other

  /** The characters strings.TrimSpace removes. */
  predicate Space(c: char) {
    c in "\t\n\U{0B}\U{0C}\r \U{85}\U{A0}\U{1680}\U{2028}\U{2029}\U{202F}\U{205F}\U{3000}"
        || '\U{2000}' <= c <= '\U{200A}'
  }

  /** The white space of ASCII is all removed, and no visible character of it. */
  lemma SpaceInAscii(c: char)
    ensures c in {' ', '\t', '\n', '\r'} ==> Space(c)
    ensures '!' <= c <= '~' ==> !Space(c)
  {
  }

  predicate TrimmedIsEmpty(text: string) {
    forall i | 0 <= i < |text| :: Space(text[i])
  }

  const HONEYPOT := "__mf_hp"
  const LEGACY_HONEYPOT := "__fl_hp"

  predicate Bait(value: PayloadValue) {
    match value
    case Null => false
    case Text(text) => !TrimmedIsEmpty(text)
    case Other => true
  }

  lemma BaitIsWritten(payload: map<string, PayloadValue>)
    ensures forall field | field in payload :: Bait(payload[field]) <==>
                || payload[field].Other?
                || (payload[field].Text? && exists i | 0 <= i < |payload[field].text| :: !Space(payload[field].text[i]))
  {
  }

  /** Both honeypot fields leave the payload whatever they hold; either one filled in marks the submission as spam. */
  method ConsumeHoneypot(payload: map<string, PayloadValue>) returns (spam: bool, rest: map<string, PayloadValue>)
    ensures rest == payload - {HONEYPOT, LEGACY_HONEYPOT}
    ensures spam <==> exists field | field in payload && (field == HONEYPOT || field == LEGACY_HONEYPOT) ::
              || payload[field].Other?
              || (payload[field].Text? && exists i | 0 <= i < |payload[field].text| :: !Space(payload[field].text[i]))
  {
    spam, rest := false, payload;
    var fields := [HONEYPOT, LEGACY_HONEYPOT];
    for n := 0 to |fields|
      invariant rest == payload - (set i | 0 <= i < n :: fields[i])
      invariant spam <==> exists i | 0 <= i < n :: fields[i] in payload && Bait(payload[fields[i]])
    {
      if fields[n] !in rest {
        continue;
      }
      spam := spam || Bait(rest[fields[n]]);
      rest := rest - {fields[n]};
    }
    assert fields[0] == HONEYPOT && fields[1] == LEGACY_HONEYPOT;
    BaitIsWritten(payload);
  }
}
