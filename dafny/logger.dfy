// The log commands of src-tauri/src/logger.rs: the daily log file
// `~/.kgc-toolkit/logs/app-YYYY-MM-DD.log`, the layout of one log line, the
// last lines of today's log, and the sweep that deletes logs older than a
// number of days. The clock and the home directory are parameters; the
// file system is a map from path to text, or the outcome of each call.

module Logger {
  import opened Wrappers
  import opened Text

  // ---- calendar dates ----

  datatype Date = Date(year: int, month: int, day: int)

  predicate IsLeap(y: int) {
    y % 4 == 0 && (y % 100 != 0 || y % 400 == 0)
  }

  function MonthLength(y: int, m: int): int
    requires 1 <= m <= 12
  {
    if m == 2 then (if IsLeap(y) then 29 else 28)
    else if m == 4 || m == 6 || m == 9 || m == 11 then 30
    else 31
  }

  /** A date `%Y-%m-%d` writes with four year digits. */
  predicate ValidDate(d: Date) {
    0 <= d.year <= 9999 && 1 <= d.month <= 12 && 1 <= d.day <= MonthLength(d.year, d.month)
  }

  function YearLength(y: int): int {
    if IsLeap(y) then 366 else 365
  }

  function DaysBeforeYear(y: nat): nat {
    if y == 0 then 0 else DaysBeforeYear(y - 1) + YearLength(y - 1)
  }

  function DaysBeforeMonth(y: int, m: int): int
    requires 1 <= m <= 13
  {
    [0, 31, 59, 90, 120, 151, 181, 212, 243, 273, 304, 334, 365][m - 1]
      + (if IsLeap(y) && m > 2 then 1 else 0)
  }

  /** The number of days from 0000-01-01 to `d`. */
  function DayNumber(d: Date): int
    requires ValidDate(d)
  {
    DaysBeforeYear(d.year) + DaysBeforeMonth(d.year, d.month) + d.day - 1
  }

  /** Calendar order: year, then month, then day. */
  predicate Earlier(a: Date, b: Date) {
    a.year < b.year
    || (a.year == b.year && a.month < b.month)
    || (a.year == b.year && a.month == b.month && a.day < b.day)
  }

  lemma MonthsAddUp(y: int, m: int)
    requires 1 <= m <= 12
    ensures DaysBeforeMonth(y, m) + MonthLength(y, m) == DaysBeforeMonth(y, m + 1)
    ensures DaysBeforeMonth(y, 13) == YearLength(y)
  {
  }

  lemma {:induction false} YearsIncrease(a: nat, b: nat)
    requires a <= b
    ensures DaysBeforeYear(a) + (if a < b then YearLength(a) else 0) <= DaysBeforeYear(b)
    decreases b - a
  {
    if a < b {
      YearsIncrease(a + 1, b);
    }
  }

  lemma MonthsIncrease(y: int, a: int, b: int)
    requires 1 <= a < b <= 12
    ensures DaysBeforeMonth(y, a) + MonthLength(y, a) <= DaysBeforeMonth(y, b)
  {
    MonthsAddUp(y, a);
  }

  /** A date's day of the year stays within its year. */
  lemma WithinYear(d: Date)
    requires ValidDate(d)
    ensures DaysBeforeYear(d.year) <= DayNumber(d) < DaysBeforeYear(d.year) + YearLength(d.year)
  {
    MonthsAddUp(d.year, d.month);
    if d.month < 12 {
      MonthsIncrease(d.year, d.month, 12);
      MonthsAddUp(d.year, 12);
    }
  }

  /** Day numbers follow calendar order. */
  lemma EarlierIffBefore(a: Date, b: Date)
    requires ValidDate(a) && ValidDate(b)
    ensures Earlier(a, b) <==> DayNumber(a) < DayNumber(b)
  {
    WithinYear(a);
    WithinYear(b);
    if a.year < b.year {
      YearsIncrease(a.year, b.year);
    } else if b.year < a.year {
      YearsIncrease(b.year, a.year);
    } else if a.month < b.month {
      MonthsIncrease(a.year, a.month, b.month);
    } else if b.month < a.month {
      MonthsIncrease(a.year, b.month, a.month);
    }
  }

  // ---- `%Y-%m-%d` ----

  function Pow10(w: nat): nat {
    if w == 0 then 1 else 10 * Pow10(w - 1)
  }

  /** `n` in exactly `w` digits, with leading zeros. */
  function Fixed(n: nat, w: nat): (r: string)
    requires n < Pow10(w)
    ensures |r| == w && AllDigits(r) && DecValue(r) == n
  {
    if w == 0 then ""
    else
      var r := Fixed(n / 10, w - 1) + [DigitChar(n % 10)];
      assert r[..|r| - 1] == Fixed(n / 10, w - 1);
      r
  }

  lemma {:induction false} DecBound(t: string)
    requires AllDigits(t)
    ensures DecValue(t) < Pow10(|t|)
  {
    if t != [] {
      DecBound(t[..|t| - 1]);
    }
  }

  /** Writing the value of a digit string back in as many digits gives it
      back. */
  lemma {:induction false} FixedOfDigits(t: string)
    requires AllDigits(t)
    ensures DecValue(t) < Pow10(|t|) && Fixed(DecValue(t), |t|) == t
  {
    DecBound(t);
    if t != [] {
      var init := t[..|t| - 1];
      FixedOfDigits(init);
      assert DecValue(t) / 10 == DecValue(init);
      assert DigitChar(DecValue(t) % 10) == t[|t| - 1];
      assert t == init + [t[|t| - 1]];
    }
  }

  function FormatDate(d: Date): (r: string)
    requires ValidDate(d)
    ensures |r| == 10
  {
    Fixed(d.year, 4) + "-" + Fixed(d.month, 2) + "-" + Fixed(d.day, 2)
  }

  /** `NaiveDate::parse_from_str(s, "%Y-%m-%d")` on the padded form. */
  function ParseDate(s: string): Option<Date> {
    if |s| != 10 || s[4] != '-' || s[7] != '-' then None
    else if !AllDigits(s[..4]) || !AllDigits(s[5..7]) || !AllDigits(s[8..]) then None
    else
      var d := Date(DecValue(s[..4]), DecValue(s[5..7]), DecValue(s[8..]));
      if ValidDate(d) then Some(d) else None
  }

  /** A string parses as a date exactly when it is that date written out. */
  lemma DateRoundTrip(s: string, d: Date)
    ensures ParseDate(s) == Some(d) <==> ValidDate(d) && s == FormatDate(d)
  {
    if ValidDate(d) && s == FormatDate(d) {
      assert s[..4] == Fixed(d.year, 4);
      assert s[5..7] == Fixed(d.month, 2);
      assert s[8..] == Fixed(d.day, 2);
    }
    if ParseDate(s) == Some(d) {
      FixedOfDigits(s[..4]);
      FixedOfDigits(s[5..7]);
      FixedOfDigits(s[8..]);
      assert s == s[..4] + "-" + s[5..7] + "-" + s[8..];
    }
  }

  // ---- file names and paths ----

  const NoHome := "Cannot find home directory"

  /** `get_log_directory`. */
  function LogDirectory(home: Option<string>): (r: Result<string>)
    ensures home.None? <==> r == Err(NoHome)
    ensures home.Some? ==> r == Ok(home.value + "/.kgc-toolkit/logs")
  {
    match home
    case None => Err(NoHome)
    case Some(h) => Ok(h + "/.kgc-toolkit/logs")
  }

  function LogFileName(d: Date): string
    requires ValidDate(d)
  {
    "app-" + FormatDate(d) + ".log"
  }

  /** `get_log_file_path`: the log of day `today`. */
  function LogFilePath(home: Option<string>, today: Date): (r: Result<string>)
    requires ValidDate(today)
    ensures home.None? <==> r.Err?
    ensures r.Ok? ==> r.value == home.value + "/.kgc-toolkit/logs/" + LogFileName(today)
  {
    match LogDirectory(home)
    case Err(e) => Err(e)
    case Ok(dir) => Ok(dir + "/" + LogFileName(today))
  }

  /** The date in a log file's name, as `clear_old_logs` reads it. */
  function LogDateOf(name: string): Option<Date> {
    if !IsPrefix("app-", name) || !IsSuffix(".log", name) then None
    else
      var rest := name[4..];
      if !IsSuffix(".log", rest) then None
      else ParseDate(rest[..|rest| - 4])
  }

  /** A name carries a date exactly when it is that date's log file name. */
  lemma LogNameRoundTrip(name: string, d: Date)
    ensures LogDateOf(name) == Some(d) <==> ValidDate(d) && name == LogFileName(d)
  {
    if ValidDate(d) && name == LogFileName(d) {
      var rest := name[4..];
      assert rest == FormatDate(d) + ".log";
      assert rest[..|rest| - 4] == FormatDate(d);
      DateRoundTrip(FormatDate(d), d);
    }
    if LogDateOf(name) == Some(d) {
      var rest := name[4..];
      DateRoundTrip(rest[..|rest| - 4], d);
      assert name == "app-" + rest[..|rest| - 4] + ".log";
    }
  }

  // ---- one log line ----

  /** `LogEntry`. */
  datatype LogEntry = LogEntry(level: string, message: string, timestamp: string, context: string, data: string)

  /** The line `write_log_entry` appends, without its "\n". */
  function LineText(e: LogEntry): string {
    "[" + e.timestamp + "] [" + ToUpper(e.level) + "] "
      + (if e.context == "" then "" else "[") + e.context + ": "
      + (if e.context == "" then "" else "] ") + e.message
      + (if e.data == "" then "" else " | Data: " + e.data)
  }

  function FormatLine(e: LogEntry): string {
    LineText(e) + "\n"
  }

  /** No line break characters. */
  predicate NoBreaks(s: string) {
    forall i :: 0 <= i < |s| ==> s[i] != '\n' && s[i] != '\r'
  }

  /** An entry whose fields hold no line breaks. */
  predicate Loggable(e: LogEntry) {
    NoBreaks(e.level) && NoBreaks(e.message) && NoBreaks(e.timestamp) && NoBreaks(e.context) && NoBreaks(e.data)
  }

  lemma NoBreaksJoin(a: string, b: string)
    requires NoBreaks(a) && NoBreaks(b)
    ensures NoBreaks(a + b)
  {
    forall i | 0 <= i < |a + b| ensures (a + b)[i] != '\n' && (a + b)[i] != '\r' {
      if i >= |a| {
        assert (a + b)[i] == b[i - |a|];
      }
    }
  }

  lemma NoBreaksPlain(s: string)
    requires NoBreaks(s)
    ensures IsPlainLine(s)
  {
    forall i: nat | i + 1 <= |s| ensures !OccursAt(s, "\n", i) {
      assert s[i..i + 1][0] == s[i];
    }
  }

  /** A loggable entry is written as exactly one line. */
  lemma LineIsPlain(e: LogEntry)
    requires Loggable(e)
    ensures IsPlainLine(LineText(e))
  {
    var up := ToUpper(e.level);
    assert NoBreaks(up);
    var ctxOpen := if e.context == "" then "" else "[";
    var ctxClose := if e.context == "" then "" else "] ";
    var tail := if e.data == "" then "" else " | Data: " + e.data;
    NoBreaksJoin(" | Data: ", e.data);
    var s1 := "[" + e.timestamp;
    NoBreaksJoin("[", e.timestamp);
    var s2 := s1 + "] [";
    NoBreaksJoin(s1, "] [");
    var s3 := s2 + up;
    NoBreaksJoin(s2, up);
    var s4 := s3 + "] ";
    NoBreaksJoin(s3, "] ");
    var s5 := s4 + ctxOpen;
    NoBreaksJoin(s4, ctxOpen);
    var s6 := s5 + e.context;
    NoBreaksJoin(s5, e.context);
    var s7 := s6 + ": ";
    NoBreaksJoin(s6, ": ");
    var s8 := s7 + ctxClose;
    NoBreaksJoin(s7, ctxClose);
    var s9 := s8 + e.message;
    NoBreaksJoin(s8, e.message);
    NoBreaksJoin(s9, tail);
    assert LineText(e) == s9 + tail;
    NoBreaksPlain(s9 + tail);
  }

  // ---- writing and reading today's log ----

  /** The text of the file at `path`, empty when it does not exist. */
  function FileText(files: map<string, string>, path: string): string {
    if path in files then files[path] else ""
  }

  /** `write_log_entry` on a file system mapping paths to text: the line is
      appended to today's log, which is created when missing. */
  function WriteLogEntry(home: Option<string>, today: Date, e: LogEntry, files: map<string, string>): (r: Result<map<string, string>>)
    requires ValidDate(today)
    ensures home.None? <==> r.Err?
    ensures r.Ok? ==> var path := LogFilePath(home, today).value;
      r.value == files[path := FileText(files, path) + FormatLine(e)]
  {
    match LogFilePath(home, today)
    case Err(msg) => Err(msg)
    case Ok(path) => Ok(files[path := FileText(files, path) + FormatLine(e)])
  }

  /** Writing `es` one after another. */
  function WriteAll(home: string, today: Date, es: seq<LogEntry>, files: map<string, string>): map<string, string>
    requires ValidDate(today)
    decreases |es|
  {
    if es == [] then files
    else WriteAll(home, today, es[1..], WriteLogEntry(Some(home), today, es[0], files).value)
  }

  function Texts(es: seq<LogEntry>): (r: seq<string>)
    ensures |r| == |es| && forall k :: 0 <= k < |es| ==> r[k] == LineText(es[k])
  {
    seq(|es|, k requires 0 <= k < |es| => LineText(es[k]))
  }

  /** One write appends one line to today's log. */
  lemma WriteOne(home: string, today: Date, e: LogEntry, files: map<string, string>, path: string)
    requires ValidDate(today) && path == LogFilePath(Some(home), today).value
    ensures FileText(WriteLogEntry(Some(home), today, e, files).value, path) == FileText(files, path) + (LineText(e) + "\n")
  {
  }

  /** Writes append their lines, in order, to today's log. */
  lemma {:induction false} WriteAllText(home: string, today: Date, es: seq<LogEntry>, files: map<string, string>, path: string)
    requires ValidDate(today) && path == LogFilePath(Some(home), today).value
    ensures FileText(WriteAll(home, today, es, files), path) == FileText(files, path) + Terminated(Texts(es))
    decreases |es|
  {
    if es != [] {
      var next := WriteLogEntry(Some(home), today, es[0], files).value;
      WriteOne(home, today, es[0], files, path);
      WriteAllText(home, today, es[1..], next, path);
      assert Texts(es)[1..] == Texts(es[1..]);
      var a, l, t := FileText(files, path), LineText(es[0]), Terminated(Texts(es[1..]));
      assert Terminated(Texts(es)) == l + "\n" + t;
      AppendAssoc(a, l + "\n", t);
    }
  }

  const DefaultLines := 100
  const ReadLogPrefix := "Failed to read log file: "

  function Reverse<T>(s: seq<T>): (r: seq<T>)
    ensures |r| == |s| && forall k :: 0 <= k < |s| ==> r[k] == s[|s| - 1 - k]
  {
    seq(|s|, k requires 0 <= k < |s| => s[|s| - 1 - k])
  }

  function Take<T>(s: seq<T>, n: nat): seq<T> {
    if n < |s| then s[..n] else s
  }

  /** `lines().rev().take(n)` then `rev()` again. */
  function Recent(ls: seq<string>, n: nat): seq<string> {
    Reverse(Take(Reverse(ls), n))
  }

  /** The recent lines are the last `min(n, |ls|)` lines, in order. */
  lemma RecentIsSuffix(ls: seq<string>, n: nat)
    ensures |Recent(ls, n)| == (if n < |ls| then n else |ls|)
    ensures Recent(ls, n) == ls[|ls| - |Recent(ls, n)|..]
  {
    var r := Recent(ls, n);
    var m := |r|;
    forall k | 0 <= k < m ensures r[k] == ls[|ls| - m + k] {
    }
  }

  /** `get_recent_logs`: `exists` says whether today's log exists, `file`
      is its text or the error reading it. */
  function GetRecentLogs(home: Option<string>, today: Date, exists_: bool, file: Result<string>, lines: Option<nat>): (r: Result<seq<string>>)
    requires ValidDate(today)
    ensures home.None? ==> r == Err(NoHome)
    ensures home.Some? && !exists_ ==> r == Ok([])
    ensures home.Some? && exists_ && file.Err? ==> r == Err(ReadLogPrefix + file.error)
    ensures home.Some? && exists_ && file.Ok? ==>
      r.Ok? && r.value == Recent(Lines(file.value), lines.GetOr(DefaultLines))
  {
    match LogFilePath(home, today)
    case Err(msg) => Err(msg)
    case Ok(_) =>
      if !exists_ then Ok([])
      else
        match file
        case Err(e) => Err(ReadLogPrefix + e)
        case Ok(content) => Ok(Recent(Lines(content), lines.GetOr(DefaultLines)))
  }

  /** Writing entries to a fresh day's log and reading it back gives the
      last `n` of their lines, in order. */
  lemma WrittenThenRead(home: string, today: Date, es: seq<LogEntry>, files: map<string, string>, n: nat)
    requires ValidDate(today)
    requires LogFilePath(Some(home), today).value !in files
    requires forall k :: 0 <= k < |es| ==> Loggable(es[k])
    ensures var path := LogFilePath(Some(home), today).value;
      var ls := Texts(es);
      GetRecentLogs(Some(home), today, true, Ok(FileText(WriteAll(home, today, es, files), path)), Some(n))
        == Ok(ls[|ls| - (if n < |ls| then n else |ls|)..])
  {
    var path := LogFilePath(Some(home), today).value;
    WriteAllText(home, today, es, files, path);
    assert FileText(files, path) + Terminated(Texts(es)) == Terminated(Texts(es));
    ReadBack(es, n);
  }

  /** The last `n` lines of the text written for `es`. */
  lemma ReadBack(es: seq<LogEntry>, n: nat)
    requires forall k :: 0 <= k < |es| ==> Loggable(es[k])
    ensures var ls := Texts(es);
      Recent(Lines(Terminated(ls)), n) == ls[|ls| - (if n < |ls| then n else |ls|)..]
  {
    var ls := Texts(es);
    assert Lines(Terminated(ls)) == ls by { LinesWritten(es); }
    RecentIsSuffix(ls, n);
  }

  /** The lines of loggable entries read back as written. */
  lemma LinesWritten(es: seq<LogEntry>)
    requires forall k :: 0 <= k < |es| ==> Loggable(es[k])
    ensures Lines(Terminated(Texts(es))) == Texts(es)
  {
    forall k | 0 <= k < |es| ensures IsPlainLine(Texts(es)[k]) {
      LineIsPlain(es[k]);
    }
    LinesOfTerminated(Texts(es));
  }

  // ---- clearing old logs ----

  const DefaultDays := 7
  const ListPrefix := "Failed to read log directory: "
  const EntryPrefix := "Failed to read directory entry: "

  /** An entry of the log directory: its file name and whether removing it
      succeeds. */
  datatype DirEntry = DirEntry(name: string, removable: bool)

  /** A log named for a day strictly before `today` minus `days` days. */
  predicate Expired(name: string, today: Date, days: nat)
    requires ValidDate(today)
  {
    match LogDateOf(name)
    case None => false
    case Some(d) => ValidDate(d) && DayNumber(d) < DayNumber(today) - days
  }

  /** The expiry test of a sweep on day `today` keeping `days` days. */
  function ExpiredOn(today: Date, days: nat): string -> bool {
    name => ValidDate(today) && Expired(name, today, days)
  }

  /** The sweep of `entries` with the expiry test `expired`: the names
      removed, and the error of the first entry that could not be read,
      which stops the sweep. */
  datatype Sweep = Sweep(removed: seq<string>, failure: Option<string>)

  /** What the sweep removes of one readable entry. */
  function Removes(entry: DirEntry, expired: string -> bool): seq<string> {
    if expired(entry.name) && entry.removable then [entry.name] else []
  }

  function SweepOf(entries: seq<Result<DirEntry>>, expired: string -> bool): Sweep {
    if entries == [] then Sweep([], None)
    else
      match entries[0]
      case Err(e) => Sweep([], Some(e))
      case Ok(entry) =>
        var rest := SweepOf(entries[1..], expired);
        Sweep(Removes(entry, expired) + rest.removed, rest.failure)
  }

  /** `clear_old_logs`: `dirExists` says whether the log directory exists,
      `listing` is its entries or the error listing it; `removed` are the
      files deleted. */
  method ClearOldLogs(home: Option<string>, today: Date, daysToKeep: Option<nat>, dirExists: bool,
                      listing: Result<seq<Result<DirEntry>>>)
    returns (r: Result<nat>, removed: seq<string>)
    requires ValidDate(today)
    ensures home.None? ==> r == Err(NoHome) && removed == []
    ensures home.Some? && !dirExists ==> r == Ok(0) && removed == []
    ensures home.Some? && dirExists && listing.Err? ==> r == Err(ListPrefix + listing.error) && removed == []
    ensures home.Some? && dirExists && listing.Ok? ==>
      var s := SweepOf(listing.value, ExpiredOn(today, daysToKeep.GetOr(DefaultDays)));
      removed == s.removed
      && (s.failure.None? ==> r == Ok(|removed|))
      && (s.failure.Some? ==> r == Err(EntryPrefix + s.failure.value))
  {
    removed := [];
    if home.None? {
      return Err(NoHome), removed;
    }
    var days := daysToKeep.GetOr(DefaultDays);
    if !dirExists {
      return Ok(0), removed;
    }
    if listing.Err? {
      return Err(ListPrefix + listing.error), removed;
    }
    var failure;
    removed, failure := SweepEntries(listing.value, ExpiredOn(today, days));
    if failure.Some? {
      return Err(EntryPrefix + failure.value), removed;
    }
    r := Ok(|removed|);
  }

  /** One entry of the sweep. */
  lemma SweepStep(entries: seq<Result<DirEntry>>, i: nat, expired: string -> bool)
    requires i < |entries| && entries[i].Ok?
    ensures SweepOf(entries[i..], expired).removed
      == Removes(entries[i].value, expired) + SweepOf(entries[i + 1..], expired).removed
    ensures SweepOf(entries[i..], expired).failure == SweepOf(entries[i + 1..], expired).failure
  {
    assert entries[i..][1..] == entries[i + 1..];
  }

  /** The loop of `clear_old_logs` over the directory's entries, counting
      the files it removes. */
  method SweepEntries(entries: seq<Result<DirEntry>>, expired: string -> bool)
    returns (removed: seq<string>, failure: Option<string>)
    ensures Sweep(removed, failure) == SweepOf(entries, expired)
  {
    removed := [];
    var count := 0;
    var i := 0;
    assert entries[0..] == entries;
    while i < |entries|
      invariant 0 <= i <= |entries|
      invariant count == |removed|
      invariant SweepOf(entries, expired).removed == removed + SweepOf(entries[i..], expired).removed
      invariant SweepOf(entries, expired).failure == SweepOf(entries[i..], expired).failure
    {
      if entries[i].Err? {
        assert SweepOf(entries[i..], expired) == Sweep([], Some(entries[i].error));
        return removed, Some(entries[i].error);
      }
      SweepStep(entries, i, expired);
      var entry := entries[i].value;
      ghost var before := removed;
      ghost var rest := SweepOf(entries[i + 1..], expired).removed;
      if expired(entry.name) && entry.removable {
        removed := removed + [entry.name];
        count := count + 1;
      }
      AppendAssoc(before, Removes(entry, expired), rest);
      i := i + 1;
    }
    failure := None;
  }

  /** Only names that pass the test are removed, and every removable one
      before the first unreadable entry is. */
  lemma {:induction false} SweepRemovesExpired(entries: seq<Result<DirEntry>>, expired: string -> bool)
    ensures forall n :: n in SweepOf(entries, expired).removed ==> expired(n)
    ensures forall k ::
              0 <= k < |entries| && (forall j :: 0 <= j <= k ==> entries[j].Ok?)
              && entries[k].value.removable && expired(entries[k].value.name)
              ==> entries[k].value.name in SweepOf(entries, expired).removed
  {
    if entries != [] && entries[0].Ok? {
      SweepRemovesExpired(entries[1..], expired);
      var s := SweepOf(entries, expired);
      forall k | 0 <= k < |entries| && (forall j :: 0 <= j <= k ==> entries[j].Ok?)
        && entries[k].value.removable && expired(entries[k].value.name)
        ensures entries[k].value.name in s.removed
      {
        if k > 0 {
          assert entries[1..][k - 1] == entries[k];
          assert forall j :: 0 <= j <= k - 1 ==> entries[1..][j] == entries[j + 1];
        }
      }
    }
  }

  /** Today's log is never expired, so it is never removed. */
  lemma TodayKept(entries: seq<Result<DirEntry>>, today: Date, days: nat)
    requires ValidDate(today)
    ensures LogFileName(today) !in SweepOf(entries, ExpiredOn(today, days)).removed
  {
    SweepRemovesExpired(entries, ExpiredOn(today, days));
    LogNameRoundTrip(LogFileName(today), today);
  }

  /** With no days kept, a log expires exactly when its date is earlier
      than today. */
  lemma ExpiredIffEarlier(name: string, today: Date)
    requires ValidDate(today)
    ensures Expired(name, today, 0) <==> LogDateOf(name).Some? && Earlier(LogDateOf(name).value, today)
  {
    if LogDateOf(name).Some? {
      var d := LogDateOf(name).value;
      LogNameRoundTrip(name, d);
      EarlierIffBefore(d, today);
    }
  }
}
