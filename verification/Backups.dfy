/** Database backups of a deployment: how they are named, and which of them are kept. */
module Backups {
  import opened Wrappers
  import opened Text

  const KEPT := 3
  const MAX_INDEX := 1_000_000

  /** A database file: what it holds, and whether it is a sound Miniform database. */
  datatype File = File(content: nat, valid: bool)

  /** A second of UTC time: its date as year, month and day, its clock as hour, minute and second. */
  datatype Second = Second(date: (nat, nat, nat), clock: (nat, nat, nat)) {
    predicate Valid() {
      && date.0 < 10000 && 1 <= date.1 <= 12 && 1 <= date.2 <= DaysIn(date.1, date.0)
      && clock.0 < 24 && clock.1 < 60 && clock.2 < 60
    }

    predicate Before(later: Second) {
      LessTriple(date, later.date) || (date == later.date && LessTriple(clock, later.clock))
    }
  }

  function DaysIn(month: nat, year: nat): nat {
    if month == 2 then (if year % 4 == 0 && (year % 100 != 0 || year % 400 == 0) then 29 else 28)
    else if month in {4, 6, 9, 11} then 30 else 31
  }

  /** The layout 20060102. */
  function Date(s: Second): string {
    PaddedTriple(s.date, 4)
  }

  /** The layout 150405. */
  function Clock(s: Second): string {
    PaddedTriple(s.clock, 2)
  }

  function Extension(index: nat): string {
    if index == 0 then ".db" else "_" + (Padded(index, 6) + ".db")
  }

  /** The index-th name availableBackupPath tries in a second. */
  function Name(s: Second, index: nat): string {
    "backup_" + (Date(s) + ("_" + (Clock(s) + Extension(index))))
  }

  /** time.Parse for the layout 20060102_150405; it lets a fraction of a second follow. */
  predicate ParsesAsStamp(date: string, clock: string) {
    && |date| == 8 && AllDigits(date)
    && |clock| >= 6 && AllDigits(clock[..6])
    && Second((Number(date[..4]), Number(date[4..6]), Number(date[6..])),
              (Number(clock[..2]), Number(clock[2..4]), Number(clock[..6][4..]))).Valid()
    && (|clock| == 6 || (|clock| >= 8 && clock[6] in ".," && AllDigits(clock[7..])))
  }

  /** strconv.Atoi succeeds on these short strings: digits, perhaps after one sign. */
  predicate ParsesAsInt(s: string) {
    var digits := if s != [] && s[0] in "+-" then s[1..] else s;
    digits != [] && AllDigits(digits)
  }

  predicate IsDatabaseBackup(name: string) {
    if !HasPrefix(name, "backup_") || !HasSuffix(name, ".db") then false
    else
      var parts := Split(TrimSuffix(TrimPrefix(name, "backup_"), ".db"), '_');
      && (|parts| == 2 || |parts| == 3)
      && ParsesAsStamp(parts[0], parts[1])
      && (|parts| == 3 ==> |parts[2]| == 6 && ParsesAsInt(parts[2]))
  }

  lemma DigitsHoldNoUnderscore(s: string)
    requires AllDigits(s)
    ensures '_' !in s
  {
    forall i | 0 <= i < |s| ensures s[i] != '_' {
      assert IsDigit(s[i]);
    }
  }

  lemma SecondFits(s: Second)
    requires s.Valid()
    ensures FitsTriple(s.date, 4) && FitsTriple(s.clock, 2)
  {
    assert Power10(4) == 10000 by {
      assert Power10(1) == 10 && Power10(2) == 100 && Power10(3) == 1000;
    }
  }

  lemma StampParses(s: Second)
    requires s.Valid()
    ensures ParsesAsStamp(Date(s), Clock(s))
  {
    SecondFits(s);
    NumbersOfTriple(s.date, 4);
    NumbersOfTriple(s.clock, 2);
    assert Clock(s)[..6] == Clock(s);
  }

  /** A generated name without what is put around it. */
  function Stem(s: Second, index: nat): string {
    Date(s) + ['_'] + if index == 0 then Clock(s) else Clock(s) + ['_'] + Padded(index, 6)
  }

  lemma NameAroundStem(s: Second, index: nat)
    ensures Name(s, index) == "backup_" + (Stem(s, index) + ".db")
  {
  }

  lemma SplitStem(s: Second, index: nat)
    ensures Split(Stem(s, index), '_') == [Date(s), Clock(s)] + if index == 0 then [] else [Padded(index, 6)]
  {
    var d, c, n := Date(s), Clock(s), Padded(index, 6);
    DigitsHoldNoUnderscore(d);
    DigitsHoldNoUnderscore(c);
    DigitsHoldNoUnderscore(n);
    SplitFirst(d, '_', if index == 0 then c else c + ['_'] + n);
    SplitWhole(c, '_');
    SplitFirst(c, '_', n);
    SplitWhole(n, '_');
  }

  /** Taking a generated name apart gives its date, its clock and, unless it is the first of its second, its index. */
  lemma PartsOfGenerated(s: Second, index: nat)
    ensures HasPrefix(Name(s, index), "backup_") && HasSuffix(Name(s, index), ".db")
    ensures Split(TrimSuffix(TrimPrefix(Name(s, index), "backup_"), ".db"), '_')
         == [Date(s), Clock(s)] + if index == 0 then [] else [Padded(index, 6)]
  {
    NameAroundStem(s, index);
    TrimmedBothEnds("backup_", Stem(s, index), ".db");
    SplitStem(s, index);
  }

  lemma IndexParses(s: string)
    requires s != [] && AllDigits(s)
    ensures ParsesAsInt(s)
  {
    assert IsDigit(s[0]);
  }

  /** Every generated name is recognised again. */
  lemma GeneratedIsRecognised(s: Second, index: nat)
    requires s.Valid()
    ensures IsDatabaseBackup(Name(s, index))
  {
    hide Name, Split, Date, Clock, Padded, ParsesAsStamp, ParsesAsInt, HasPrefix, HasSuffix, TrimPrefix, TrimSuffix;
    PartsOfGenerated(s, index);
    StampParses(s);
    IndexParses(Padded(index, 6));
  }

  /** What time.Parse lets follow the seconds: nothing, or a point or comma and digits. */
  ghost predicate IsFraction(f: string) {
    f == "" || (|f| >= 2 && (f[0] == '.' || f[0] == ',') && AllDigits(f[1..]))
  }

  /** What may follow the stamp: nothing, or an underscore and six characters, digits but for a sign in front. */
  ghost predicate IsIndexTail(tail: string) {
    tail == "" ||
    (|tail| == 7 && tail[0] == '_' && (IsDigit(tail[1]) || tail[1] == '+' || tail[1] == '-') && AllDigits(tail[2..]))
  }

  ghost function StemOf(date: string, time: string, tail: string): string {
    date + ("_" + (time + tail))
  }

  ghost function Described(s: Second, fraction: string, tail: string): string {
    "backup_" + (StemOf(Date(s), Clock(s) + fraction, tail) + ".db")
  }

  /** The names taken for backups: a second that there is, written as above, with at most these additions. */
  lemma RecognisedExactlyWhen(name: string)
    ensures IsDatabaseBackup(name) <==> exists s: Second, f, tail ::
              s.Valid() && IsFraction(f) && IsIndexTail(tail) && name == Described(s, f, tail)
  {
    if IsDatabaseBackup(name) {
      var s, f, tail := DescriptionOf(name);
    }
    if s: Second, f, tail :| s.Valid() && IsFraction(f) && IsIndexTail(tail) && name == Described(s, f, tail) {
      DescribedIsRecognised(s, f, tail);
    }
  }

  lemma DescriptionOf(name: string) returns (s: Second, f: string, tail: string)
    requires IsDatabaseBackup(name)
    ensures s.Valid() && IsFraction(f) && IsIndexTail(tail) && name == Described(s, f, tail)
  {
    var stem := TrimSuffix(TrimPrefix(name, "backup_"), ".db");
    var parts := Split(stem, '_');
    s := SecondOfStamp(parts[0], parts[1]);
    f := parts[1][6..];
    tail := if |parts| == 3 then "_" + parts[2] else "";
    assert IsIndexTail(tail) by {
      if |parts| == 3 {
        IndexTailOfInt(parts[2]);
      }
    }
    hide ParsesAsStamp, Split, Join, Date, Clock, Second.Valid, AllDigits, ParsesAsInt, IsIndexTail;
    JoinOfSplit(stem, '_');
    StemOfParts(parts, stem);
    assert parts[1] == Clock(s) + f;
    WholeOfStem(name, stem);
  }

  lemma IndexTailOfInt(s: string)
    requires |s| == 6 && ParsesAsInt(s)
    ensures IsIndexTail("_" + s)
  {
    var tail := "_" + s;
    assert tail[1] == s[0] && tail[2..] == s[1..];
    if s[0] !in "+-" {
      assert IsDigit(s[0]) && forall i | 0 <= i < |s[1..]| :: s[1..][i] == s[i + 1];
    }
  }

  lemma Associated(a: string, b: string, c: string)
    ensures a + b + c == a + (b + c)
  {
  }

  lemma StemOfParts(parts: seq<string>, stem: string)
    requires 2 <= |parts| <= 3 && stem == Join(parts, "_")
    ensures stem == StemOf(parts[0], parts[1], if |parts| == 3 then "_" + parts[2] else "")
  {
    var rest := parts[1..];
    Associated(parts[0], "_", Join(rest, "_"));
    if |parts| == 2 {
      assert rest == [parts[1]];
      assert Join(rest, "_") == parts[1] == parts[1] + "";
    } else {
      Associated(parts[1], "_", parts[2]);
      assert rest[1..] == [parts[2]];
      assert Join(rest[1..], "_") == parts[2];
    }
  }

  lemma WholeOfStem(name: string, stem: string)
    requires HasPrefix(name, "backup_") && HasSuffix(TrimPrefix(name, "backup_"), ".db")
    requires stem == TrimSuffix(TrimPrefix(name, "backup_"), ".db")
    ensures name == "backup_" + (stem + ".db")
  {
    assert name == "backup_" + name[7..] && name[7..] == stem + ".db";
  }

  lemma ClockOfStamp(clock: string)
    requires |clock| >= 6 && AllDigits(clock[..6])
    ensures PaddedTriple((Number(clock[..2]), Number(clock[2..4]), Number(clock[..6][4..])), 2) == clock[..6]
  {
    var digits := clock[..6];
    PaddedOfTriple(digits, 2);
    assert digits[..2] == clock[..2] && digits[2..4] == clock[2..4];
  }

  lemma SecondOfStamp(date: string, clock: string) returns (s: Second)
    requires ParsesAsStamp(date, clock)
    ensures s.Valid() && date == Date(s) && clock == Clock(s) + clock[6..] && IsFraction(clock[6..])
  {
    PaddedOfTriple(date, 4);
    ClockOfStamp(clock);
    s := Second((Number(date[..4]), Number(date[4..6]), Number(date[6..])),
                (Number(clock[..2]), Number(clock[2..4]), Number(clock[..6][4..])));
    hide Number, PaddedTriple, Second.Valid;
    assert clock == clock[..6] + clock[6..];
    if |clock| > 6 {
      assert clock[6..][1..] == clock[7..];
    }
  }

  lemma FractionParses(s: Second, f: string)
    requires s.Valid() && IsFraction(f)
    ensures ParsesAsStamp(Date(s), Clock(s) + f)
  {
    StampParses(s);
    var clock := Clock(s) + f;
    assert Clock(s)[..6] == Clock(s) == clock[..6];
    assert clock[..2] == Clock(s)[..2] && clock[2..4] == Clock(s)[2..4];
    if f != "" {
      assert clock[7..] == f[1..];
    }
  }

  lemma IntOfIndexTail(tail: string)
    requires IsIndexTail(tail) && tail != ""
    ensures ParsesAsInt(tail[1..]) && '_' !in tail[1..]
  {
    var s := tail[1..];
    assert s[1..] == tail[2..] && s[0] == tail[1];
    forall i | 0 <= i < |s| ensures s[i] != '_' && (i > 0 ==> IsDigit(s[i])) {
      if i > 0 {
        assert s[i] == tail[2..][i - 1] && IsDigit(tail[2..][i - 1]);
      }
    }
  }

  lemma DescribedIsRecognised(s: Second, f: string, tail: string)
    requires s.Valid() && IsFraction(f) && IsIndexTail(tail)
    ensures IsDatabaseBackup(Described(s, f, tail))
  {
    assert AllDigits(Date(s)) && AllDigits(Clock(s));
    hide ParsesAsStamp, Split, Date, Clock, AllDigits, ParsesAsInt;
    var stem := StemOf(Date(s), Clock(s) + f, tail);
    TrimmedBothEnds("backup_", stem, ".db");
    FractionParses(s, f);
    if tail != "" {
      IntOfIndexTail(tail);
    }
    DescribedParts(Date(s), Clock(s), f, tail);
  }

  lemma DescribedParts(date: string, clock: string, f: string, tail: string)
    requires AllDigits(date) && AllDigits(clock) && IsFraction(f) && IsIndexTail(tail)
    requires tail != "" ==> '_' !in tail[1..]
    ensures Split(StemOf(date, clock + f, tail), '_') == [date, clock + f] + if tail == "" then [] else [tail[1..]]
  {
    DigitsHoldNoUnderscore(date);
    DigitsHoldNoUnderscore(clock);
    FractionHoldsNoUnderscore(f);
    hide Split, AllDigits, IsFraction, IsIndexTail;
    var time := clock + f;
    SplitFirst(date, '_', time + tail);
    Associated(date, "_", time + tail);
    if tail == "" {
      assert time + tail == time;
      SplitWhole(time, '_');
    } else {
      SplitTail(time, tail);
    }
  }

  lemma SplitTail(time: string, tail: string)
    requires '_' !in time && IsIndexTail(tail) && tail != "" && '_' !in tail[1..]
    ensures Split(time + tail, '_') == [time, tail[1..]]
  {
    hide Split;
    SplitFirst(time, '_', tail[1..]);
    SplitWhole(tail[1..], '_');
    assert tail == "_" + tail[1..];
    Associated(time, "_", tail[1..]);
  }

  lemma FractionHoldsNoUnderscore(f: string)
    requires IsFraction(f)
    ensures '_' !in f
  {
    if f != "" {
      DigitsHoldNoUnderscore(f[1..]);
      assert f == [f[0]] + f[1..];
    }
  }

  lemma ExtensionOrder(i: nat, j: nat)
    requires i < MAX_INDEX && j < MAX_INDEX
    ensures Less(Extension(i), Extension(j)) <==> i < j
  {
    assert Power10(6) == MAX_INDEX by {
      assert Power10(2) == 100 && Power10(4) == 10000;
    }
    LessIsTotal(Extension(i), Extension(i));
    if i > 0 && j > 0 {
      LessAfterPrefix("_", Padded(i, 6) + ".db", Padded(j, 6) + ".db");
      PaddedOrder(i, ".db", j, ".db", 6);
      LessIsTotal(".db", ".db");
    }
  }

  /** The order of generated names is the order of their seconds, and within one second the order of their indices. */
  lemma NameOrder(s: Second, i: nat, t: Second, j: nat)
    requires s.Valid() && t.Valid() && i < MAX_INDEX && j < MAX_INDEX
    ensures Less(Name(s, i), Name(t, j)) <==> s.Before(t) || (s == t && i < j)
  {
    SecondFits(s);
    SecondFits(t);
    var x, y := Clock(s) + Extension(i), Clock(t) + Extension(j);
    ExtensionOrder(i, j);
    TripleOrder(s.clock, Extension(i), t.clock, Extension(j), 2);
    LessAfterPrefix("_", x, y);
    TripleOrder(s.date, "_" + x, t.date, "_" + y, 4);
    LessAfterPrefix("backup_", Date(s) + ("_" + x), Date(t) + ("_" + y));
  }

  ghost function Recognised(names: set<string>): set<string> {
    set n | n in names && IsDatabaseBackup(n)
  }

  ghost function Later(names: set<string>, name: string): set<string> {
    set n | n in names && Less(name, n)
  }

  /** Pruning keeps what it does not recognise, and a backup with fewer than three listed after it. */
  ghost predicate Kept(names: set<string>, name: string) {
    !IsDatabaseBackup(name) || |Later(Recognised(names), name)| < KEPT
  }

  ghost function Newest(names: set<string>): set<string> {
    set n | n in names && Kept(names, n)
  }

  ghost function Pruned(files: map<string, File>): map<string, File> {
    map n | n in Newest(files.Keys) :: files[n]
  }

  ghost predicate HasFree(taken: set<string>, s: Second) {
    exists index: nat :: FirstFree(taken, s, index)
  }

  ghost predicate FirstFree(taken: set<string>, s: Second, index: nat) {
    index < MAX_INDEX && Name(s, index) !in taken && forall j | 0 <= j < index :: Name(s, j) in taken
  }

  predicate Ascending(paths: seq<string>) {
    forall i, j | 0 <= i < j < |paths| :: Less(paths[i], paths[j])
  }

  ghost function Elements(paths: seq<string>): set<string> {
    set p | p in paths
  }

  lemma {:induction false} AscendingCount(paths: seq<string>)
    requires Ascending(paths)
    ensures |Elements(paths)| == |paths|
  {
    if paths != [] {
      AscendingCount(paths[1..]);
      assert paths[0] !in paths[1..] by {
        LessIsTotal(paths[0], paths[0]);
      }
      assert Elements(paths) == {paths[0]} + Elements(paths[1..]);
    }
  }

  lemma {:induction false} LeastExists(names: set<string>) returns (least: string)
    requires names != {}
    ensures least in names && forall n | n in names :: n == least || Less(least, n)
    decreases |names|
  {
    var one :| one in names;
    if names == {one} {
      return one;
    }
    least := LeastExists(names - {one});
    LessIsTotal(one, least);
    if Less(one, least) {
      forall n | n in names ensures n == one || Less(one, n) {
        if n != one && n != least {
          LessIsTransitive(one, least, n);
        }
      }
      least := one;
    }
  }

  ghost predicate AllBefore(paths: seq<string>, names: set<string>) {
    forall i, n | 0 <= i < |paths| && n in names :: Less(paths[i], n)
  }

  lemma TakeLeast(entries: seq<string>, rest: set<string>, least: string)
    requires Ascending(entries) && AllBefore(entries, rest)
    requires least in rest && forall n | n in rest :: n == least || Less(least, n)
    ensures Ascending(entries + [least]) && AllBefore(entries + [least], rest - {least})
    ensures Elements(entries + [least]) == Elements(entries) + {least}
  {
  }

  /** os.ReadDir: every entry, in the order of names. */
  method ReadDir(names: set<string>) returns (entries: seq<string>)
    ensures Ascending(entries) && Elements(entries) == names
  {
    entries := [];
    var rest := names;
    while rest != {}
      invariant rest <= names && Elements(entries) == names - rest
      invariant Ascending(entries)
      invariant AllBefore(entries, rest)
      decreases |rest|
    {
      ghost var first := LeastExists(rest);
      var least :| least in rest && forall n | n in rest :: n == least || Less(least, n);
      TakeLeast(entries, rest, least);
      entries := entries + [least];
      rest := rest - {least};
    }
  }

  class BackupDirectory {
    var files: map<string, File>
    const directories: set<string>
    // No file operation fails.
    const reliable: bool

    constructor (files: map<string, File>, directories: set<string>, reliable: bool)
      ensures this.files == files && this.directories == directories && this.reliable == reliable
    {
      this.files, this.directories, this.reliable := files, directories, reliable;
    }

    /** No name is both a file and a directory. */
    predicate Valid()
      reads this
    {
      files.Keys !! directories
    }

    /** availableBackupPath; looking at a path may fail. */
    method AvailableBackupPath(s: Second) returns (r: Option<string>)
      ensures r.Some? ==> exists index: nat ::
                FirstFree(files.Keys + directories, s, index) && r.value == Name(s, index)
      ensures reliable && HasFree(files.Keys + directories, s) ==> r.Some?
    {
      for index := 0 to MAX_INDEX
        invariant forall j | 0 <= j < index :: Name(s, j) in files.Keys + directories
      {
        var fails := *;
        if fails && !reliable {
          return None;
        }
        var name := Name(s, index);
        if name !in files && name !in directories {
          assert FirstFree(files.Keys + directories, s, index);
          return Some(name);
        }
      }
      return None;
    }

    /** The listing that pruning works on: every recognised backup, oldest name first. */
    method RecognisedBackups() returns (paths: seq<string>)
      requires Valid()
      ensures Ascending(paths)
      ensures Elements(paths) == Recognised(files.Keys)
    {
      var entries := ReadDir(files.Keys + directories);
      paths := [];
      for i := 0 to |entries|
        invariant Ascending(paths)
        invariant forall n :: n in paths <==> n in entries[..i] && n in files && IsDatabaseBackup(n)
        invariant forall k, j | 0 <= k < |paths| && i <= j < |entries| :: Less(paths[k], entries[j])
      {
        assert entries[..i + 1] == entries[..i] + [entries[i]];
        if entries[i] !in directories && IsDatabaseBackup(entries[i]) {
          assert entries[i] in Elements(entries);
          paths := paths + [entries[i]];
        }
      }
      assert entries[..|entries|] == entries;
      assert forall n :: n in files ==> n in Elements(entries);
    }

    /** removeOldBackups: the listing shrinks from its front until three are left; a removal may fail. */
    method RemoveOldBackups() returns (ok: bool)
      requires Valid()
      modifies this
      ensures Submap(Pruned(old(files)), files) && Submap(files, old(files))
      ensures ok ==> files == Pruned(old(files))
      ensures reliable ==> ok
    {
      hide Pruned, Trimmed, Submap, Recognised, Ascending, IsDatabaseBackup;
      var paths := RecognisedBackups();
      ghost var before := files;
      NothingTrimmed(before, paths);
      while |paths| > KEPT
        invariant Trimmed(before, files, paths) && Submap(files, before) && Submap(Pruned(before), files)
        decreases |paths|
      {
        var fails := *;
        if fails && !reliable {
          return false;
        }
        FirstIsNotKept(before, files, paths);
        StillSubmap(before, files, paths[0]);
        files := files - {paths[0]};
        paths := paths[1..];
      }
      TrimmedEnough(before, files, paths);
      ok := true;
    }

    /**
     * createDatabaseBackup: a snapshot under a free name, then pruning. Any step may fail, and then the snapshot may or
     * may not be left behind; an unsound database gives none. What is not recognised, and the two newest backups,
     * always stay.
     */
    method CreateDatabaseBackup(database: Option<File>, s: Second) returns (r: Option<string>)
      requires Valid() && s.Valid()
      modifies this
      ensures Valid()
      ensures database.None? ==> r.None? && files == old(files)
      ensures r.Some? ==>
                && (exists index: nat ::
                    FirstFree(old(files).Keys + directories, s, index) && r.value == Name(s, index))
                && database.value.valid && files == Pruned(old(files)[r.value := database.value])
      ensures reliable && database.Some? && database.value.valid && HasFree(old(files).Keys + directories, s) ==>
                r.Some?
      ensures r.Some? ==> Survives(old(files), files, r.value, database.value, s)
      ensures Submap(SafeFromOneMore(old(files)), files)
    {
      if database.None? {
        return None;
      }
      r := AvailableBackupPath(s);
      if r.None? {
        return;
      }
      var snapshot, left := *, *;
      snapshot := (snapshot || reliable) && database.value.valid;
      SafeWhenAdding(files, r.value, database.value);
      if !snapshot {
        if left {
          files := files[r.value := database.value];
        }
        return None;
      }
      ghost var before := files;
      files := files[r.value := database.value];
      var ok := RemoveOldBackups();
      if !ok {
        return None;
      }
      NewBackupSurvives(before, files, r.value, database.value, s);
    }
  }

  /** Whether the new backup is still there, by the names that were there before, and always in a later second. */
  ghost predicate Survives(before: map<string, File>, after: map<string, File>, name: string, content: File, s: Second)
  {
    && name !in before
    && (name in after <==> |Later(Recognised(before.Keys), name)| < KEPT)
    && (name in after ==> after[name] == content)
    && (AllEarlier(before.Keys, s) ==> name in after)
  }

  lemma NewBackupSurvives(before: map<string, File>, after: map<string, File>, name: string, content: File, s: Second)
    requires s.Valid() && name !in before && after == Pruned(before[name := content])
    requires exists index: nat :: index < MAX_INDEX && name == Name(s, index)
    ensures Survives(before, after, name, content, s)
  {
    var index: nat :| index < MAX_INDEX && name == Name(s, index);
    GeneratedIsRecognised(s, index);
    SurvivesExactlyWhen(before, name, content);
    if AllEarlier(before.Keys, s) {
      LaterSecondSurvives(before, s, index, content);
    }
  }

  ghost predicate Submap(small: map<string, File>, large: map<string, File>) {
    forall n | n in small :: n in large && small[n] == large[n]
  }

  /** What pruning cannot remove after one more backup. */
  ghost function SafeFromOneMore(files: map<string, File>): map<string, File> {
    map n | n in files && (IsDatabaseBackup(n) ==> |Later(Recognised(files.Keys), n)| < KEPT - 1) :: files[n]
  }

  lemma SafeWhenAdding(files: map<string, File>, name: string, content: File)
    requires name !in files
    ensures Submap(SafeFromOneMore(files), files)
    ensures Submap(SafeFromOneMore(files), Pruned(files[name := content]))
  {
    var after := files[name := content];
    forall n | n in SafeFromOneMore(files) ensures n in Pruned(after) {
      var was, now := Later(Recognised(files.Keys), n), Later(Recognised(after.Keys), n);
      assert now == was || now == was + {name};
    }
  }

  ghost predicate AllAfter(name: string, names: set<string>) {
    forall n | n in names :: Less(name, n)
  }

  /** What is listed are the backups that are left; the removed ones come before all of them. */
  ghost predicate LastOf(all: set<string>, paths: seq<string>) {
    && Ascending(paths)
    && Elements(paths) <= all
    && forall n {:trigger n in all} | n in all && n !in Elements(paths) :: AllAfter(n, Elements(paths))
  }

  /** Part of the way through pruning. */
  ghost predicate Trimmed(before: map<string, File>, files: map<string, File>, paths: seq<string>) {
    && Submap(files, before)
    && Recognised(files.Keys) == Elements(paths)
    && (forall n | n in before && n !in files :: n in Recognised(before.Keys))
    && LastOf(Recognised(before.Keys), paths)
  }

  lemma FirstOfAscending(paths: seq<string>)
    requires Ascending(paths) && paths != []
    ensures Ascending(paths[1..]) && AllAfter(paths[0], Elements(paths[1..]))
    ensures Elements(paths[1..]) == Elements(paths) - {paths[0]}
    ensures |Elements(paths[1..])| == |paths| - 1
  {
    var first, rest := paths[0], paths[1..];
    assert paths == [first] + rest;
    assert first !in rest by {
      LessIsTotal(first, first);
    }
    AscendingCount(rest);
  }

  /** In an ascending listing the k-th name has all later ones, and no others, after it. */
  lemma {:induction false} LaterInAscending(paths: seq<string>, k: nat)
    requires Ascending(paths) && k < |paths|
    ensures |Later(Elements(paths), paths[k])| == |paths| - k - 1
  {
    FirstOfAscending(paths);
    LessIsTotal(paths[0], paths[k]);
    LessIsTotal(paths[0], paths[0]);
    if k == 0 {
      assert Later(Elements(paths), paths[k]) == Elements(paths[1..]);
    } else {
      LaterInAscending(paths[1..], k - 1);
      assert paths[0] !in Later(Elements(paths), paths[k]);
      assert Later(Elements(paths), paths[k]) == Later(Elements(paths[1..]), paths[1..][k - 1]);
    }
  }

  lemma LaterAmongAll(all: set<string>, paths: seq<string>, k: nat)
    requires LastOf(all, paths) && k < |paths|
    ensures |Later(all, paths[k])| == |paths| - k - 1
  {
    forall n | n in Later(all, paths[k]) ensures n in Elements(paths) {
      LessIsTotal(n, paths[k]);
      assert paths[k] in Elements(paths);
    }
    assert Later(all, paths[k]) == Later(Elements(paths), paths[k]);
    LaterInAscending(paths, k);
  }

  lemma LastOfRest(all: set<string>, paths: seq<string>)
    requires LastOf(all, paths) && paths != []
    ensures LastOf(all, paths[1..]) && paths[0] in all && Elements(paths[1..]) == Elements(paths) - {paths[0]}
  {
    FirstOfAscending(paths);
    assert paths[0] in Elements(paths);
  }

  lemma NothingTrimmed(files: map<string, File>, paths: seq<string>)
    requires Ascending(paths) && Elements(paths) == Recognised(files.Keys)
    ensures Trimmed(files, files, paths) && Submap(files, files) && Submap(Pruned(files), files)
  {
  }

  lemma StillSubmap(before: map<string, File>, files: map<string, File>, name: string)
    requires Submap(files, before) && Submap(Pruned(before), files) && !Kept(before.Keys, name)
    ensures Submap(files - {name}, before) && Submap(Pruned(before), files - {name})
  {
  }

  lemma FirstIsNotKept(before: map<string, File>, files: map<string, File>, paths: seq<string>)
    requires Trimmed(before, files, paths) && |paths| > KEPT
    ensures paths[0] in files && !Kept(before.Keys, paths[0])
    ensures Trimmed(before, files - {paths[0]}, paths[1..])
  {
    LaterAmongAll(Recognised(before.Keys), paths, 0);
    LastOfRest(Recognised(before.Keys), paths);
    assert paths[0] in Elements(paths);
    assert Recognised((files - {paths[0]}).Keys) == Recognised(files.Keys) - {paths[0]};
  }

  lemma TrimmedEnough(before: map<string, File>, files: map<string, File>, paths: seq<string>)
    requires Trimmed(before, files, paths) && |paths| <= KEPT
    requires Submap(Pruned(before), files)
    ensures files == Pruned(before)
  {
    forall n | n in files ensures n in Newest(before.Keys) {
      if IsDatabaseBackup(n) {
        assert n in Elements(paths);
        var k :| 0 <= k < |paths| && paths[k] == n;
        LaterAmongAll(Recognised(before.Keys), paths, k);
      }
    }
  }

  /** Whether a new backup outlives its own pruning is decided by the names already there. */
  lemma SurvivesExactlyWhen(files: map<string, File>, name: string, content: File)
    requires name !in files && IsDatabaseBackup(name)
    ensures name in Pruned(files[name := content]) <==> |Later(Recognised(files.Keys), name)| < KEPT
  {
    LessIsTotal(name, name);
    assert Later(Recognised(files[name := content].Keys), name) == Later(Recognised(files.Keys), name);
  }

  lemma {:induction false} SortedExists(names: set<string>) returns (paths: seq<string>)
    ensures Ascending(paths) && Elements(paths) == names
    decreases |names|
  {
    if names == {} {
      return [];
    }
    var least := LeastExists(names);
    var rest := SortedExists(names - {least});
    assert forall i | 0 <= i < |rest| :: rest[i] in Elements(rest);
    paths := [least] + rest;
    assert Elements(paths) == {least} + Elements(rest);
  }

  ghost function Last(paths: seq<string>): seq<string> {
    if |paths| <= KEPT then paths else paths[|paths| - KEPT..]
  }

  /** Pruning leaves the three newest recognised backups, or all of them when there are no more. */
  lemma NewestCount(names: set<string>)
    ensures |Recognised(Newest(names))| == if |Recognised(names)| <= KEPT then |Recognised(names)| else KEPT
  {
    var paths := SortedExists(Recognised(names));
    AscendingCount(paths);
    var last := Last(paths);
    forall n | n in Recognised(names) ensures n in Newest(names) <==> n in last {
      assert n in Elements(paths);
      var k :| 0 <= k < |paths| && paths[k] == n;
      LaterInAscending(paths, k);
      IndexInLast(paths, k);
    }
    forall n | n in last ensures n in Recognised(names) {
      assert n in Elements(paths);
    }
    assert Recognised(Newest(names)) == Elements(last);
    AscendingCount(last);
  }

  lemma IndexInLast(paths: seq<string>, k: nat)
    requires Ascending(paths) && k < |paths|
    ensures paths[k] in Last(paths) <==> |paths| - k <= KEPT
  {
    var last := Last(paths);
    var cut := |paths| - |last|;
    if k >= cut {
      assert last[k - cut] == paths[k];
    } else {
      forall j | 0 <= j < |last| ensures last[j] != paths[k] {
        LessIsTotal(paths[k], paths[cut + j]);
      }
    }
  }

  ghost predicate MadeBefore(name: string, s: Second) {
    exists t: Second, j: nat :: t.Valid() && j < MAX_INDEX && name == Name(t, j) && t.Before(s)
  }

  /** Every recognised backup was made in an earlier second. */
  ghost predicate AllEarlier(names: set<string>, s: Second) {
    forall n | n in Recognised(names) :: MadeBefore(n, s)
  }

  lemma MadeBeforeIsLess(name: string, s: Second, index: nat)
    requires s.Valid() && index < MAX_INDEX && MadeBefore(name, s)
    ensures Less(name, Name(s, index))
  {
    var t: Second, j: nat :| t.Valid() && j < MAX_INDEX && name == Name(t, j) && t.Before(s);
    NameOrder(t, j, s, index);
  }

  lemma NoneLaterThan(names: set<string>, s: Second, index: nat)
    requires s.Valid() && index < MAX_INDEX && AllEarlier(names, s)
    ensures Later(Recognised(names), Name(s, index)) == {}
  {
    forall n | n in Recognised(names) ensures !Less(Name(s, index), n) {
      MadeBeforeIsLess(n, s, index);
      LessIsTotal(n, Name(s, index));
    }
  }

  lemma RecognisedOfOneMore(names: set<string>, name: string)
    requires IsDatabaseBackup(name)
    ensures Recognised(names + {name}) == Recognised(names) + {name}
  {
  }

  lemma OneMoreCount(names: set<string>, name: string)
    requires name !in names && IsDatabaseBackup(name)
    ensures |Recognised(Newest(names + {name}))| == if |Recognised(names)| < KEPT then |Recognised(names)| + 1 else KEPT
  {
    RecognisedOfOneMore(names, name);
    NewestCount(names + {name});
    assert name !in Recognised(names);
    hide Newest, Recognised;
    assert |Recognised(names) + {name}| == |Recognised(names)| + 1;
  }

  lemma PrunedKeys(files: map<string, File>, name: string, content: File)
    ensures Pruned(files[name := content]).Keys == Newest(files.Keys + {name})
  {
    assert files[name := content].Keys == files.Keys + {name};
  }

  /**
   * In a second later than every backup's, the new backup stays, with as many of the newest old
   * ones as three allow.
   */
  lemma LaterSecondSurvives(files: map<string, File>, s: Second, index: nat, content: File)
    requires s.Valid() && index < MAX_INDEX && AllEarlier(files.Keys, s) && Name(s, index) !in files
    ensures
      var after := Pruned(files[Name(s, index) := content]);
      && Name(s, index) in after && after[Name(s, index)] == content
      && |Recognised(after.Keys)| == if |Recognised(files.Keys)| < KEPT then |Recognised(files.Keys)| + 1 else KEPT
  {
    NoneLaterThan(files.Keys, s, index);
    GeneratedIsRecognised(s, index);
    SurvivesExactlyWhen(files, Name(s, index), content);
    OneMoreCount(files.Keys, Name(s, index));
    PrunedKeys(files, Name(s, index), content);
  }

  /** The backups of one second among the names: exactly those indices, and every other backup comes before them. */
  ghost predicate InSecond(names: set<string>, s: Second, indices: set<nat>) {
    && (forall j | 0 <= j < MAX_INDEX :: Name(s, j) in names <==> j in indices)
    && (forall j | j in indices :: j < MAX_INDEX)
    && (forall n | n in Recognised(names) :: (exists j | j in indices :: n == Name(s, j)) || Less(n, Name(s, 0)))
  }

  ghost function Beyond(indices: set<nat>, j: nat): set<nat> {
    set m | m in indices && j < m
  }

  lemma {:induction false} ImageSize(s: Second, indices: set<nat>)
    requires s.Valid() && forall m | m in indices :: m < MAX_INDEX
    ensures |set m | m in indices :: Name(s, m)| == |indices|
  {
    if indices != {} {
      var one :| one in indices;
      var rest := indices - {one};
      ImageSize(s, rest);
      forall m | m in rest ensures Name(s, m) != Name(s, one) {
        NameOrder(s, m, s, one);
        NameOrder(s, one, s, m);
        LessIsTotal(Name(s, m), Name(s, one));
      }
      assert (set m | m in indices :: Name(s, m)) == (set m | m in rest :: Name(s, m)) + {Name(s, one)};
    }
  }

  /** Within its second a backup is followed by exactly the higher indices. */
  lemma LaterInSecond(names: set<string>, s: Second, indices: set<nat>, j: nat)
    requires s.Valid() && InSecond(names, s, indices) && j in indices
    ensures |Later(Recognised(names), Name(s, j))| == |Beyond(indices, j)|
  {
    var image := set m | m in Beyond(indices, j) :: Name(s, m);
    forall n | n in Later(Recognised(names), Name(s, j)) ensures n in image {
      if m :| m in indices && n == Name(s, m) {
        NameOrder(s, j, s, m);
        assert m in Beyond(indices, j);
      } else {
        NameOrder(s, 0, s, j);
        LessIsTotal(n, Name(s, j));
        if Less(Name(s, 0), Name(s, j)) {
          LessIsTransitive(n, Name(s, 0), Name(s, j));
        }
        assert false;
      }
    }
    forall m | m in Beyond(indices, j) ensures Name(s, m) in Later(Recognised(names), Name(s, j)) {
      NameOrder(s, j, s, m);
      GeneratedIsRecognised(s, m);
    }
    assert Later(Recognised(names), Name(s, j)) == image;
    ImageSize(s, Beyond(indices, j));
  }

  /** One more backup in the second takes its lowest free index, and only those few of the second beyond it stay. */
  lemma InSecondStep(names: set<string>, s: Second, indices: set<nat>, i: nat)
    requires s.Valid() && InSecond(names, s, indices) && i < MAX_INDEX
    ensures InSecond(Newest(names + {Name(s, i)}), s, set m | m in indices + {i} && |Beyond(indices + {i}, m)| < KEPT)
  {
    var with, more := names + {Name(s, i)}, indices + {i};
    var after, left := Newest(with), set m | m in more && |Beyond(more, m)| < KEPT;
    InSecondAdd(names, s, indices, i);
    forall j | 0 <= j < MAX_INDEX ensures Name(s, j) in after <==> j in left {
      if j in more {
        LaterInSecond(with, s, more, j);
        GeneratedIsRecognised(s, j);
      }
    }
    forall n | n in Recognised(after) ensures (exists j | j in left :: n == Name(s, j)) || Less(n, Name(s, 0)) {
      assert n in Recognised(with);
      if j :| j in more && n == Name(s, j) {
        assert j in left;
      }
    }
  }

  lemma InSecondAdd(names: set<string>, s: Second, indices: set<nat>, i: nat)
    requires s.Valid() && InSecond(names, s, indices) && i < MAX_INDEX
    ensures InSecond(names + {Name(s, i)}, s, indices + {i})
  {
    var with, more := names + {Name(s, i)}, indices + {i};
    forall j | 0 <= j < MAX_INDEX ensures Name(s, j) in with <==> j in more {
      NameOrder(s, i, s, j);
      NameOrder(s, j, s, i);
      LessIsTotal(Name(s, i), Name(s, j));
    }
    forall n | n in Recognised(with) ensures (exists j | j in more :: n == Name(s, j)) || Less(n, Name(s, 0)) {
      if n in names {
        assert n in Recognised(names);
        if j :| j in indices && n == Name(s, j) {
          assert j in more;
        }
      } else {
        assert i in more && n == Name(s, i);
      }
    }
  }

  lemma FirstFreeInSecond(names: set<string>, s: Second, indices: set<nat>, i: nat, free: nat)
    requires InSecond(names, s, indices) && FirstFree(names, s, i)
    requires free < MAX_INDEX && free !in indices && forall j | 0 <= j < free :: j in indices
    ensures i == free
  {
    assert i !in indices;
    assert Name(s, free) !in names;
  }

  /** The names after each of a run of backups all made in one second. */
  ghost predicate RunInSecond(states: seq<set<string>>, s: Second, indices: seq<nat>) {
    && |states| == |indices| + 1
    && forall k | 0 <= k < |indices| ::
        FirstFree(states[k], s, indices[k]) && states[k + 1] == Newest(states[k] + {Name(s, indices[k])})
  }

  lemma NoneInSecond(names: set<string>, s: Second)
    requires s.Valid() && AllEarlier(names, s)
    ensures InSecond(names, s, {})
  {
    forall j | 0 <= j < MAX_INDEX ensures Name(s, j) !in names {
      GeneratedIsRecognised(s, j);
      LessIsTotal(Name(s, j), Name(s, j));
      if Name(s, j) in Recognised(names) {
        MadeBeforeIsLess(Name(s, j), s, j);
      }
    }
    forall n | n in Recognised(names) ensures Less(n, Name(s, 0)) {
      MadeBeforeIsLess(n, s, 0);
    }
  }

  /** Which indices of the second are present after k of its backups. */
  function Present(k: nat): set<nat> {
    if k == 0 then {} else if k == 1 then {0} else if k == 2 then {0, 1} else if k == 3 then {0, 1, 2} else {1, 2, 3}
  }

  lemma PresentStep(k: nat)
    ensures
      var i := if k < 4 then k else 0;
      && i !in Present(k) && (forall j | 0 <= j < i :: j in Present(k))
      && Present(k + 1) == set m | m in Present(k) + {i} && |Beyond(Present(k) + {i}, m)| < KEPT
  {
    var more := Present(k) + {if k < 4 then k else 0};
    assert forall m | m in more :: m < 4;
    if k >= 3 {
      assert more == {0, 1, 2, 3};
      assert Beyond(more, 0) == {1, 2, 3} && Beyond(more, 1) == {2, 3} && Beyond(more, 2) == {3}
          && Beyond(more, 3) == {};
    } else {
      forall m | m in more ensures |Beyond(more, m)| < KEPT {
        SubsetOfThree(Beyond(more, m), m);
      }
    }
  }

  lemma SubsetOfThree(beyond: set<nat>, m: nat)
    requires forall j | j in beyond :: m < j < 3
    ensures |beyond| < KEPT
  {
    assert beyond <= {1, 2};
    assert beyond == {} || beyond == {1} || beyond == {2} || beyond == {1, 2};
  }

  lemma {:induction false} PresentAfter(states: seq<set<string>>, s: Second, indices: seq<nat>, k: nat)
    requires s.Valid() && RunInSecond(states, s, indices) && InSecond(states[0], s, {}) && k <= |indices|
    ensures InSecond(states[k], s, Present(k))
    ensures k < |indices| ==> indices[k] == if k < 4 then k else 0
  {
    hide InSecond, FirstFree, Newest;
    PresentStep(k);
    if k > 0 {
      PresentAfter(states, s, indices, k - 1);
      PresentStep(k - 1);
      InSecondStep(states[k - 1], s, Present(k - 1), indices[k - 1]);
    }
    if k < |indices| {
      FirstFreeInSecond(states[k], s, Present(k), indices[k], if k < 4 then k else 0);
    }
  }

  lemma NewestPresent(k: nat)
    ensures (if k < 4 then k else 0) in Present(k + 1) <==> k < 4
  {
  }

  lemma StaysExactlyWhenPresent(after: set<string>, s: Second, k: nat, i: nat)
    requires InSecond(after, s, Present(k + 1)) && i == if k < 4 then k else 0
    ensures Name(s, i) in after <==> k < 4
  {
    NewestPresent(k);
  }

  /**
   * The limit of one-second names. The first four backups of a second stay when made. From the fifth on each takes the
   * first name, which pruning has freed, and is pruned at once: exactly the later ones are lost.
   */
  lemma LostFromTheFifthOn(states: seq<set<string>>, s: Second, indices: seq<nat>, k: nat)
    requires s.Valid() && RunInSecond(states, s, indices) && AllEarlier(states[0], s)
    requires k < |indices|
    ensures Name(s, indices[k]) in states[k + 1] <==> k < 4
    ensures k >= 4 ==> indices[k] == 0
  {
    NoneInSecond(states[0], s);
    PresentAfter(states, s, indices, k);
    PresentAfter(states, s, indices, k + 1);
    StaysExactlyWhenPresent(states[k + 1], s, k, indices[k]);
  }
}
