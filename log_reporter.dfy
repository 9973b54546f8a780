/**
  The read side of the log engine (pkg/logging/logReporter.go): `filterLogs` lists the files of
  a window of days, newest day first, and `getLogs` groups the records of those files by the
  date in their file name and by workplace, then appends the unflushed buffer to today's entry.
*/
module LogReporter {
  import opened Wrappers
  import opened Json
  import opened LogStore
  import Dates
  import LogWriter

  /** LogReport: date, then workplace, then the records in the order they were found. */
  type Report = map<Dates.Date, map<string, seq<LogRecord>>>

  // ---------------------------------------------------------------- the day window

  /** The date text of the day `d` days before today. */
  function DayPrefix(today: Dates.Date, d: nat): string
    requires Dates.Valid(today)
  {
    Dates.Format(Dates.DaysBefore(today, d))
  }

  /** The glob prefixes of days 0 to `days` before today, in the order filterLogs tries them. */
  function DayPrefixes(today: Dates.Date, days: int): (ps: seq<string>)
    requires Dates.Valid(today)
    ensures |ps| == if days < 0 then 0 else days + 1
    ensures forall d: nat :: d < |ps| ==> ps[d] == DayPrefix(today, d)
    decreases days + 1
  {
    if days < 0 then [] else DayPrefixes(today, days - 1) + [DayPrefix(today, days)]
  }

  /** The names the globs for the prefixes `ps` list, glob after glob, each in directory order. */
  function Listing(es: seq<FileEntry>, ps: seq<string>): seq<string>
  {
    if ps == [] then [] else Listing(es, ps[..|ps| - 1]) + Names(Glob(es, ps[|ps| - 1]))
  }

  /** The names filterLogs collects for days 0 to `days` before today. */
  function Window(es: seq<FileEntry>, today: Dates.Date, days: int): seq<string>
    requires Dates.Valid(today)
  {
    Listing(es, DayPrefixes(today, days))
  }

  lemma {:induction false} NamesMember(ms: seq<FileEntry>, name: string)
    ensures name in Names(ms) <==> exists e :: e in ms && e.name == name
  {
    if ms != [] {
      NamesMember(ms[1..], name);
      assert ms == [ms[0]] + ms[1..];
    }
  }

  /** A name is listed by the glob of one prefix exactly when it is a file starting with it. */
  lemma DayMembers(es: seq<FileEntry>, prefix: string, name: string)
    ensures name in Names(Glob(es, prefix)) <==> (exists e :: e in es && e.name == name) && HasPrefix(name, prefix)
  {
    NamesMember(Glob(es, prefix), name);
    if exists e :: e in es && e.name == name {
      var e :| e in es && e.name == name;
      GlobMembers(es, prefix, e);
    }
    if name in Names(Glob(es, prefix)) {
      var e :| e in Glob(es, prefix) && e.name == name;
      GlobMembers(es, prefix, e);
    }
  }

  lemma {:induction false} ListingMembers(es: seq<FileEntry>, ps: seq<string>, name: string)
    ensures name in Listing(es, ps) <==>
      (exists e :: e in es && e.name == name) && exists i :: 0 <= i < |ps| && HasPrefix(name, ps[i])
  {
    if ps != [] {
      var init := ps[..|ps| - 1];
      ListingMembers(es, init, name);
      DayMembers(es, ps[|ps| - 1], name);
      if exists i :: 0 <= i < |ps| && HasPrefix(name, ps[i]) {
        var i :| 0 <= i < |ps| && HasPrefix(name, ps[i]);
        if i < |init| {
          assert init[i] == ps[i];
        }
      }
      if exists i :: 0 <= i < |init| && HasPrefix(name, init[i]) {
        var i :| 0 <= i < |init| && HasPrefix(name, init[i]);
        assert ps[i] == init[i];
      }
    }
  }

  /**
    A name is in the window exactly when it is a file of the directory starting with the date
    text of one of the days 0 to `days` before today.
  */
  lemma WindowMembers(es: seq<FileEntry>, today: Dates.Date, days: int, name: string)
    requires Dates.Valid(today)
    ensures name in Window(es, today, days) <==>
      (exists e :: e in es && e.name == name) && exists d: nat :: d <= days && HasPrefix(name, DayPrefix(today, d))
  {
    var ps := DayPrefixes(today, days);
    ListingMembers(es, ps, name);
    if exists i :: 0 <= i < |ps| && HasPrefix(name, ps[i]) {
      var i :| 0 <= i < |ps| && HasPrefix(name, ps[i]);
      assert ps[i] == DayPrefix(today, i);
    }
    if exists d: nat :: d <= days && HasPrefix(name, DayPrefix(today, d)) {
      var d: nat :| d <= days && HasPrefix(name, DayPrefix(today, d));
      assert ps[d] == DayPrefix(today, d);
    }
  }

  /**
    The glob pattern `<date>*` holds no metacharacter other than the final `*`, so fs.Glob
    cannot report ErrBadPattern and filterLogs' nil-on-error branch is never taken.
  */
  lemma DatePatternIsLiteral(d: Dates.Date)
    ensures forall c :: c in Dates.Format(d) ==> c != '*' && c != '?' && c != '[' && c != '\\'
  {
    Dates.FormatChars(d);
  }

  // ---------------------------------------------------------------- one file's contribution

  /** strings.Split(name, "_")[0]: the text before the first underscore. */
  function BeforeUnderscore(s: string): (p: string)
    ensures HasPrefix(s, p) && '_' !in p
    ensures p == s || s[|p|] == '_'
  {
    if s == [] || s[0] == '_' then [] else [s[0]] + BeforeUnderscore(s[1..])
  }

  lemma {:induction false} BeforeUnderscoreOf(a: string, b: string)
    requires '_' !in a
    ensures BeforeUnderscore(a + "_" + b) == a
  {
    if a != [] {
      assert (a + "_" + b)[1..] == a[1..] + "_" + b;
      BeforeUnderscoreOf(a[1..], b);
    }
  }

  /**
    The date and records one listed file adds to the report, or None when getLogs skips it:
    it cannot be read, its content does not decode as a record array (a zero-length file does
    not), or its name before the first underscore is not a `YYYY-MM-DD` date.
  */
  function Contribution(es: seq<FileEntry>, name: string, unreadable: set<string>): Option<(Dates.Date, seq<LogRecord>)>
  {
    if name in unreadable then None
    else
      match DecodeRecords(ContentOf(es, name))
      case None => None
      case Some(recs) =>
        match Dates.Parse(BeforeUnderscore(name))
        case None => None
        case Some(date) => Some((date, recs))
  }

  /** Files that are empty or corrupt never contribute. */
  lemma SkipsUndecodable(es: seq<FileEntry>, name: string, unreadable: set<string>)
    ensures (|ContentOf(es, name)| == 0 || DecodeRecords(ContentOf(es, name)).None?) ==>
      Contribution(es, name, unreadable) == None
  {
    if |ContentOf(es, name)| == 0 {
      DecodeEmptyFails();
    }
  }

  // ---------------------------------------------------------------- the report

  /** Appends `recs` under lr[date][wp], creating the inner map and the slice as needed. */
  function Append(lr: Report, date: Dates.Date, wp: string, recs: seq<LogRecord>): Report
  {
    var inner := if date in lr then lr[date] else map[];
    lr[date := inner[wp := (if wp in inner then inner[wp] else []) + recs]]
  }

  /** getLogs' loop over the listed files. */
  function Scan(es: seq<FileEntry>, files: seq<string>, unreadable: set<string>, wp: string): Report
    decreases |files|
  {
    if files == [] then map[]
    else
      AddContribution(Scan(es, files[..|files| - 1], unreadable, wp), Contribution(es, files[|files| - 1], unreadable), wp)
  }

  function AddContribution(lr: Report, c: Option<(Dates.Date, seq<LogRecord>)>, wp: string): Report
  {
    match c
    case None => lr
    case Some((date, recs)) => Append(lr, date, wp, recs)
  }

  /** The buffer is appended to lr[today][wp] only if that entry exists and the buffer is not empty. */
  function Merge(lr: Report, stack: seq<LogRecord>, today: Dates.Date, wp: string): Report
  {
    if |stack| > 0 && today in lr && wp in lr[today] then lr[today := lr[today][wp := lr[today][wp] + stack]]
    else lr
  }

  /** getLogs(days, wp, sev): severity plays no part. */
  function GetLogsSpec(es: seq<FileEntry>, stack: seq<LogRecord>, days: int, wp: string, today: Dates.Date, unreadable: set<string>): Report
    requires Dates.Valid(today)
  {
    Merge(Scan(es, Window(es, today, days), unreadable, wp), stack, today, wp)
  }

  // ---------------------------------------------------------------- reference view of the report

  /** The file `name` contributes records dated `date`. */
  predicate DatedOn(es: seq<FileEntry>, name: string, unreadable: set<string>, date: Dates.Date)
  {
    Contribution(es, name, unreadable).Some? && Contribution(es, name, unreadable).value.0 == date
  }

  /** Some listed file contributes records dated `date`. */
  predicate Contributes(es: seq<FileEntry>, files: seq<string>, unreadable: set<string>, date: Dates.Date)
  {
    exists i :: 0 <= i < |files| && DatedOn(es, files[i], unreadable, date)
  }

  function RecordsOfFile(es: seq<FileEntry>, name: string, unreadable: set<string>, date: Dates.Date): seq<LogRecord>
  {
    if DatedOn(es, name, unreadable, date) then Contribution(es, name, unreadable).value.1 else []
  }

  /** The records of all files dated `date`, concatenated in listing order. */
  function RecordsOn(es: seq<FileEntry>, files: seq<string>, unreadable: set<string>, date: Dates.Date): seq<LogRecord>
  {
    if files == [] then [] else RecordsOfFile(es, files[0], unreadable, date) + RecordsOn(es, files[1..], unreadable, date)
  }

  lemma {:induction false} RecordsOnSnoc(es: seq<FileEntry>, files: seq<string>, name: string, unreadable: set<string>, date: Dates.Date)
    ensures RecordsOn(es, files + [name], unreadable, date)
      == RecordsOn(es, files, unreadable, date) + RecordsOfFile(es, name, unreadable, date)
  {
    if files != [] {
      assert (files + [name])[1..] == files[1..] + [name];
      RecordsOnSnoc(es, files[1..], name, unreadable, date);
    }
  }

  lemma {:induction false} RecordsOnAbsent(es: seq<FileEntry>, files: seq<string>, unreadable: set<string>, date: Dates.Date)
    requires !Contributes(es, files, unreadable, date)
    ensures RecordsOn(es, files, unreadable, date) == []
  {
    if files != [] {
      assert !DatedOn(es, files[0], unreadable, date);
      assert forall i :: 0 <= i < |files[1..]| ==> files[1..][i] == files[i + 1];
      RecordsOnAbsent(es, files[1..], unreadable, date);
    }
  }

  lemma ContributesSnoc(es: seq<FileEntry>, init: seq<string>, last: string, unreadable: set<string>, date: Dates.Date)
    ensures Contributes(es, init + [last], unreadable, date)
      <==> Contributes(es, init, unreadable, date) || DatedOn(es, last, unreadable, date)
  {
    var files := init + [last];
    if Contributes(es, files, unreadable, date) {
      var i :| 0 <= i < |files| && DatedOn(es, files[i], unreadable, date);
      if i < |init| {
        assert init[i] == files[i];
      }
    }
    if Contributes(es, init, unreadable, date) {
      var i :| 0 <= i < |init| && DatedOn(es, init[i], unreadable, date);
      assert files[i] == init[i];
    }
    if DatedOn(es, last, unreadable, date) {
      assert files[|init|] == last;
    }
  }

  /** One step of the scan keeps the shape of the report entry for `date`. */
  lemma AppendSpec(lr: Report, d: Dates.Date, wp: string, recs: seq<LogRecord>, date: Dates.Date)
    requires date in lr ==> lr[date].Keys == {wp}
    ensures var lr' := Append(lr, d, wp, recs);
      && (date in lr' <==> date in lr || date == d)
      && (date in lr' ==> lr'[date].Keys == {wp})
      && (date in lr' ==> lr'[date][wp] == (if date in lr then lr[date][wp] else []) + (if date == d then recs else []))
  {
  }

  /**
    The scan has an entry for exactly the dates some listed file contributes to; each entry has
    the one workplace `wp`, holding that date's records in listing order.
  */
  lemma {:induction false} ScanSpec(es: seq<FileEntry>, files: seq<string>, unreadable: set<string>, wp: string, date: Dates.Date)
    ensures var lr := Scan(es, files, unreadable, wp);
      && (date in lr <==> Contributes(es, files, unreadable, date))
      && (date in lr ==> lr[date].Keys == {wp} && lr[date][wp] == RecordsOn(es, files, unreadable, date))
    decreases |files|
  {
    if files != [] {
      var init, last := files[..|files| - 1], files[|files| - 1];
      assert files == init + [last];
      ScanSpec(es, init, unreadable, wp, date);
      RecordsOnSnoc(es, init, last, unreadable, date);
      ContributesSnoc(es, init, last, unreadable, date);
      if !Contributes(es, init, unreadable, date) {
        RecordsOnAbsent(es, init, unreadable, date);
      }
      var lr := Scan(es, init, unreadable, wp);
      var c := Contribution(es, last, unreadable);
      if c.Some? {
        AppendSpec(lr, c.value.0, wp, c.value.1, date);
      }
    }
  }

  /**
    What getLogs reports, for every date: an entry exists exactly when some file of the window
    contributes to that date; the entry holds only the workplace `wp`; it lists that date's file
    records in listing order, followed, for today only, by the buffered records. The buffer
    never creates an entry.
  */
  lemma GetLogsReport(es: seq<FileEntry>, stack: seq<LogRecord>, days: int, wp: string, today: Dates.Date, unreadable: set<string>, date: Dates.Date)
    requires Dates.Valid(today)
    ensures var files := Window(es, today, days);
      var lr := GetLogsSpec(es, stack, days, wp, today, unreadable);
      && (date in lr <==> Contributes(es, files, unreadable, date))
      && (date in lr ==> lr[date].Keys == {wp})
      && (date in lr ==> lr[date][wp] == RecordsOn(es, files, unreadable, date) + (if date == today then stack else []))
  {
    MergedScan(es, stack, Window(es, today, days), wp, today, unreadable, date);
  }

  /** GetLogsReport for any listing of files. */
  lemma MergedScan(es: seq<FileEntry>, stack: seq<LogRecord>, files: seq<string>, wp: string, today: Dates.Date, unreadable: set<string>, date: Dates.Date)
    ensures var lr := Merge(Scan(es, files, unreadable, wp), stack, today, wp);
      && (date in lr <==> Contributes(es, files, unreadable, date))
      && (date in lr ==> lr[date].Keys == {wp})
      && (date in lr ==> lr[date][wp] == RecordsOn(es, files, unreadable, date) + (if date == today then stack else []))
  {
    ScanSpec(es, files, unreadable, wp, date);
    ScanSpec(es, files, unreadable, wp, today);
  }

  lemma ContributionDate(es: seq<FileEntry>, name: string, unreadable: set<string>)
    requires Contribution(es, name, unreadable).Some?
    ensures Dates.Parse(BeforeUnderscore(name)) == Some(Contribution(es, name, unreadable).value.0)
    ensures DecodeRecords(ContentOf(es, name)) == Some(Contribution(es, name, unreadable).value.1)
  {
  }

  /** A file listed under the glob of `day` whose name yields a date is dated `day` itself. */
  lemma DatedFileDay(name: string, day: Dates.Date, date: Dates.Date)
    requires Dates.Valid(day) && 0 <= day.year < 10000
    requires HasPrefix(name, Dates.Format(day))
    requires Dates.Parse(BeforeUnderscore(name)) == Some(date)
    ensures date == day
  {
    Dates.FormatShape(day);
    Dates.ParseFormat(day);
    var bu := BeforeUnderscore(name);
    assert |bu| == 10;
    assert bu == name[..10] == Dates.Format(day);
  }

  /**
    Every date in the report is one of the window's days, provided those days have four-digit
    years (so that their text is exactly ten characters long).
  */
  lemma GetLogsDatesInWindow(es: seq<FileEntry>, stack: seq<LogRecord>, days: int, wp: string, today: Dates.Date, unreadable: set<string>, date: Dates.Date)
    requires Dates.Valid(today)
    requires forall d: nat :: d <= days ==> 0 <= Dates.DaysBefore(today, d).year < 10000
    requires date in GetLogsSpec(es, stack, days, wp, today, unreadable)
    ensures exists d: nat :: d <= days && date == Dates.DaysBefore(today, d)
  {
    var files := Window(es, today, days);
    GetLogsReport(es, stack, days, wp, today, unreadable, date);
    var i :| 0 <= i < |files| && DatedOn(es, files[i], unreadable, date);
    var name := files[i];
    WindowMembers(es, today, days, name);
    var d: nat :| d <= days && HasPrefix(name, DayPrefix(today, d));
    ContributionDate(es, name, unreadable);
    DatedFileDay(name, Dates.DaysBefore(today, d), date);
  }

  // ---------------------------------------------------------------- the reporter object

  /** logReporter: the directory it reads and the buffer it shares with the writer. */
  class LogReporter {
    const folder: Folder
    const stack: RecordStack

    constructor (folder: Folder, stack: RecordStack)
      ensures this.folder == folder && this.stack == stack
    {
      this.folder := folder;
      this.stack := stack;
    }

    /** filterLogs: `sev` is accepted and ignored. */
    method FilterLogs(days: int, sev: string, today: Dates.Date) returns (files: seq<string>)
      requires Dates.Valid(today)
      ensures files == Window(folder.entries, today, days)
    {
      files := [];
      var d := 0;
      while d <= days
        invariant 0 <= d <= if days < 0 then 0 else days + 1
        invariant files == Window(folder.entries, today, d - 1)
      {
        assert DayPrefixes(today, d)[..d] == DayPrefixes(today, d - 1);
        var logs := Names(Glob(folder.entries, DayPrefix(today, d)));
        files := files + logs;
        d := d + 1;
      }
    }

    /**
      getLogs: reads the directory and the buffer and changes neither (it has no modifies
      clause); `sev` is ignored.
    */
    method GetLogs(days: int, wp: string, sev: string, today: Dates.Date, unreadable: set<string>) returns (lr: Report)
      requires Dates.Valid(today)
      ensures lr == GetLogsSpec(folder.entries, stack.records, days, wp, today, unreadable)
    {
      lr := map[];
      var files := FilterLogs(days, sev, today);
      var i := 0;
      while i < |files|
        invariant 0 <= i <= |files|
        invariant lr == Scan(folder.entries, files[..i], unreadable, wp)
      {
        ScanStep(folder.entries, files, i, unreadable, wp);
        lr := AddFile(folder.entries, lr, files[i], unreadable, wp);
        i := i + 1;
      }
      assert files[..|files|] == files;
      if |stack.records| > 0 {
        if today in lr && wp in lr[today] {
          lr := lr[today := lr[today][wp := lr[today][wp] + stack.records]];
        }
      }
    }
  }

  lemma ScanStep(es: seq<FileEntry>, files: seq<string>, i: nat, unreadable: set<string>, wp: string)
    requires i < |files|
    ensures Scan(es, files[..i + 1], unreadable, wp)
         == AddContribution(Scan(es, files[..i], unreadable, wp), Contribution(es, files[i], unreadable), wp)
  {
    assert files[..i + 1][..i] == files[..i];
  }

  /** The body of getLogs' loop: one file's records appended under its date and the work package. */
  method AddFile(es: seq<FileEntry>, lr: Report, name: string, unreadable: set<string>, wp: string) returns (lr': Report)
    ensures lr' == AddContribution(lr, Contribution(es, name, unreadable), wp)
  {
    lr' := lr;
    if name in unreadable {
      return;
    }
    var decoded := DecodeRecords(ContentOf(es, name));
    if decoded.None? {
      return;
    }
    var parsed := Dates.Parse(BeforeUnderscore(name));
    if parsed.None? {
      return;
    }
    var date := parsed.value;
    if date !in lr' {
      lr' := lr'[date := map[]];
    }
    var prev := if wp in lr'[date] then lr'[date][wp] else [];
    lr' := lr'[date := lr'[date][wp := prev + decoded.value]];
  }

  // ---------------------------------------------------------------- writer and reporter together

  /** A sequence of Write calls, each seeing the state the previous one left. */
  function WriteAll(es: seq<FileEntry>, stack: seq<LogRecord>, bs: seq<Bytes>, today: Dates.Date, now: int, io: LogWriter.IoFaults)
    : (seq<FileEntry>, seq<LogRecord>)
    decreases |bs|
  {
    if bs == [] then (es, stack)
    else
      var w := LogWriter.WriteStep(es, stack, bs[0], today, now, io);
      WriteAll(w.entries, w.stack, bs[1..], today, now, io)
  }

  /** The bytes slog hands to Write for each record. */
  function Encoded(rs: seq<LogRecord>): (bs: seq<Bytes>)
    ensures |bs| == |rs|
  {
    if rs == [] then [] else [EncodeRecord(rs[0])] + Encoded(rs[1..])
  }

  /** The first MaxStackSize - 1 writes into an empty buffer only fill the buffer. */
  lemma {:induction false} WritesFillBuffer(es: seq<FileEntry>, stack: seq<LogRecord>, rs: seq<LogRecord>, today: Dates.Date, now: int, io: LogWriter.IoFaults)
    requires |stack| + |rs| < LogWriter.MaxStackSize
    ensures WriteAll(es, stack, Encoded(rs), today, now, io) == (es, stack + rs)
    decreases |rs|
  {
    if rs != [] {
      var bs := Encoded(rs);
      assert bs[0] == EncodeRecord(rs[0]) && bs[1..] == Encoded(rs[1..]);
      DecodeEncodeRecord(rs[0]);
      LogWriter.WriteBelowThreshold(es, stack, bs[0], rs[0], today, now, io);
      var w := LogWriter.WriteStep(es, stack, bs[0], today, now, io);
      assert w.entries == es && w.stack == stack + [rs[0]];
      assert WriteAll(es, stack, bs, today, now, io) == WriteAll(es, stack + [rs[0]], bs[1..], today, now, io);
      WritesFillBuffer(es, stack + [rs[0]], rs[1..], today, now, io);
      assert stack + [rs[0]] + rs[1..] == stack + rs;
    } else {
      assert Encoded(rs) == [] && stack + rs == stack;
    }
  }

  /** The file the first flush into an empty directory leaves. */
  function FirstFile(today: Dates.Date, now: int, rs: seq<LogRecord>): FileEntry
  {
    FileEntry(LogWriter.FileName(today, 0), EncodeRecords(rs), now)
  }

  lemma FirstFlush(today: Dates.Date, now: int, rs: seq<LogRecord>)
    ensures LogWriter.FlushStep([], rs, today, now, LogWriter.NoFaults)
      == LogWriter.FlushResult([FirstFile(today, now, rs)], [], None)
  {
    var name := LogWriter.FileName(today, 0);
    assert LogWriter.TodaysFiles([], today) == [];
    assert LogWriter.Target(today, []) == Success(name);
    var e := FileEntry(name, [], now);
    assert LogWriter.OpenTarget([], today, now, false) == (Success(name), [e]);
    assert ContentOf([e], name) == [];
    assert Put([e], e) == [e];
    assert Put([e], FirstFile(today, now, rs)) == [FirstFile(today, now, rs)];
    assert [] + rs == rs;
  }

  lemma ScenarioWrites(today: Dates.Date, now: int, rs: seq<LogRecord>)
    requires |rs| == LogWriter.MaxStackSize + 1
    ensures WriteAll([], [], Encoded(rs), today, now, LogWriter.NoFaults) == ([FirstFile(today, now, rs[..5])], [rs[5]])
  {
    var io := LogWriter.NoFaults;
    var bs := Encoded(rs);
    var pre := WriteAll([], [], bs[..4], today, now, io);
    assert pre == ([], rs[..4]) by {
      EncodedPrefix(rs, 4);
      WritesFillBuffer([], [], rs[..4], today, now, io);
      assert [] + rs[..4] == rs[..4];
    }
    calc {
      WriteAll([], [], bs, today, now, io);
      { WriteAllSplit([], [], bs, 4, today, now, io); }
      WriteAll(pre.0, pre.1, bs[4..], today, now, io);
      WriteAll([], rs[..4], bs[4..], today, now, io);
      { EncodedAt(rs, 4);
        EncodedAt(rs, 5);
        assert bs[4..] == [EncodeRecord(rs[4]), EncodeRecord(rs[5])];
        ScenarioLastWrites(today, now, rs[..4], rs[4], rs[5], bs[4..]); }
      ([FirstFile(today, now, rs[..4] + [rs[4]])], [rs[5]]);
      { assert rs[..4] + [rs[4]] == rs[..5]; }
      ([FirstFile(today, now, rs[..5])], [rs[5]]);
    }
  }

  /** The fifth write flushes the buffer into `<today>_0.log.json`; the sixth is buffered. */
  lemma ScenarioLastWrites(today: Dates.Date, now: int, four: seq<LogRecord>, r4: LogRecord, r5: LogRecord, bs: seq<Bytes>)
    requires |four| == 4
    requires bs == [EncodeRecord(r4), EncodeRecord(r5)]
    ensures WriteAll([], four, bs, today, now, LogWriter.NoFaults) == ([FirstFile(today, now, four + [r4])], [r5])
  {
    var io := LogWriter.NoFaults;
    var file := FirstFile(today, now, four + [r4]);
    FirstFlush(today, now, four + [r4]);
    DecodeEncodeRecord(r4);
    DecodeEncodeRecord(r5);
    LogWriter.WriteAtThreshold([], four, bs[0], r4, today, now, io);
    LogWriter.WriteBelowThreshold([file], [], bs[1], r5, today, now, io);
    assert bs[1..] == [EncodeRecord(r5)] && bs[1..][1..] == [];
    var w := LogWriter.WriteStep([], four, bs[0], today, now, io);
    assert w.entries == [file] && w.stack == [];
    assert WriteAll([], four, bs, today, now, io) == WriteAll([file], [], bs[1..], today, now, io);
    assert [] + [r5] == [r5];
  }

  lemma {:induction false} EncodedPrefix(rs: seq<LogRecord>, k: nat)
    requires k <= |rs|
    ensures Encoded(rs)[..k] == Encoded(rs[..k])
  {
    if k > 0 {
      EncodedPrefix(rs[1..], k - 1);
      assert rs[..k][1..] == rs[1..][..k - 1];
    }
  }

  lemma {:induction false} EncodedAt(rs: seq<LogRecord>, i: nat)
    requires i < |rs|
    ensures Encoded(rs)[i] == EncodeRecord(rs[i])
  {
    if i > 0 {
      EncodedAt(rs[1..], i - 1);
    }
  }

  lemma {:induction false} WriteAllSplit(es: seq<FileEntry>, stack: seq<LogRecord>, bs: seq<Bytes>, k: nat, today: Dates.Date, now: int, io: LogWriter.IoFaults)
    requires k <= |bs|
    ensures var (es1, stack1) := WriteAll(es, stack, bs[..k], today, now, io);
      WriteAll(es, stack, bs, today, now, io) == WriteAll(es1, stack1, bs[k..], today, now, io)
    decreases k
  {
    if k > 0 {
      var w := LogWriter.WriteStep(es, stack, bs[0], today, now, io);
      var pre := WriteAll(es, stack, bs[..k], today, now, io);
      assert pre == WriteAll(w.entries, w.stack, bs[1..][..k - 1], today, now, io) by {
        assert bs[..k][0] == bs[0] && bs[..k][1..] == bs[1..][..k - 1];
      }
      calc {
        WriteAll(es, stack, bs, today, now, io);
        WriteAll(w.entries, w.stack, bs[1..], today, now, io);
        { WriteAllSplit(w.entries, w.stack, bs[1..], k - 1, today, now, io); }
        WriteAll(pre.0, pre.1, bs[1..][k - 1..], today, now, io);
        { assert bs[1..][k - 1..] == bs[k..]; }
        WriteAll(pre.0, pre.1, bs[k..], today, now, io);
      }
    }
  }

  lemma ContributionOf(es: seq<FileEntry>, name: string, unreadable: set<string>, date: Dates.Date, recs: seq<LogRecord>)
    requires name !in unreadable
    requires DecodeRecords(ContentOf(es, name)) == Some(recs)
    requires Dates.Parse(BeforeUnderscore(name)) == Some(date)
    ensures Contribution(es, name, unreadable) == Some((date, recs))
  {
  }

  lemma ScanSingle(es: seq<FileEntry>, name: string, unreadable: set<string>, wp: string)
    ensures Scan(es, [name], unreadable, wp) == AddContribution(map[], Contribution(es, name, unreadable), wp)
  {
    assert [name][..0] == [];
  }

  lemma MergeSingle(date: Dates.Date, wp: string, recs: seq<LogRecord>, stack: seq<LogRecord>)
    requires |stack| > 0
    ensures Merge(Append(map[], date, wp, recs), stack, date, wp) == map[date := map[wp := recs + stack]]
  {
    assert [] + recs == recs;
    var lr := Append(map[], date, wp, recs);
    assert lr == map[date := map[wp := recs]];
    assert lr[date][wp := recs + stack] == map[wp := recs + stack];
  }

  /** A window of one file, dated today, and a non-empty buffer. */
  lemma OneFileReport(es: seq<FileEntry>, today: Dates.Date, name: string, recs: seq<LogRecord>, stack: seq<LogRecord>, wp: string)
    requires Dates.Valid(today)
    requires Window(es, today, 0) == [name]
    requires Contribution(es, name, {}) == Some((today, recs))
    requires |stack| > 0
    ensures GetLogsSpec(es, stack, 0, wp, today, {}) == map[today := map[wp := recs + stack]]
  {
    calc {
      GetLogsSpec(es, stack, 0, wp, today, {});
      Merge(Scan(es, [name], {}, wp), stack, today, wp);
      { ScanSingle(es, name, {}, wp); }
      Merge(AddContribution(map[], Some((today, recs)), wp), stack, today, wp);
      Merge(Append(map[], today, wp, recs), stack, today, wp);
      { MergeSingle(today, wp, recs, stack); }
      map[today := map[wp := recs + stack]];
    }
  }

  lemma ScenarioWindow(today: Dates.Date, file: FileEntry)
    requires Dates.Valid(today)
    requires HasPrefix(file.name, Dates.Format(today))
    ensures Window([file], today, 0) == [file.name]
  {
    var prefix := Dates.Format(today);
    assert DayPrefixes(today, 0) == [prefix];
    assert Glob([file], prefix) == [file];
    assert Names([file]) == [file.name];
    assert Listing([file], [prefix]) == Listing([file], []) + [file.name];
  }

  /** `<today>_0.log.json` starts with today's text and is dated today. */
  lemma FileNameDated(today: Dates.Date, n: nat)
    requires Dates.Valid(today) && 0 <= today.year < 10000
    ensures HasPrefix(LogWriter.FileName(today, n), Dates.Format(today))
    ensures Dates.Parse(BeforeUnderscore(LogWriter.FileName(today, n))) == Some(today)
  {
    var prefix := Dates.Format(today);
    var rest := Dates.Decimal(n) + ".log.json";
    assert LogWriter.FileName(today, n) == prefix + "_" + rest;
    Dates.FormatChars(today);
    BeforeUnderscoreOf(prefix, rest);
    Dates.ParseFormat(today);
  }

  /** A report for today over the one file of the scenario and a non-empty buffer. */
  lemma ScenarioReport(today: Dates.Date, now: int, flushed: seq<LogRecord>, stack: seq<LogRecord>, wp: string)
    requires Dates.Valid(today) && 0 <= today.year < 10000
    requires |stack| > 0
    ensures GetLogsSpec([FirstFile(today, now, flushed)], stack, 0, wp, today, {}) == map[today := map[wp := flushed + stack]]
  {
    var file := FirstFile(today, now, flushed);
    FileNameDated(today, 0);
    ScenarioWindow(today, file);
    DecodeEncodeRecords(flushed);
    assert ContentOf([file], file.name) == EncodeRecords(flushed);
    ContributionOf([file], file.name, {}, today, flushed);
    OneFileReport([file], today, file.name, flushed, stack, wp);
  }

  /**
    MaxStackSize + 1 records written into an empty directory on one day give one file,
    `<today>_0.log.json`, holding the first MaxStackSize records, and one buffered record; a
    report for that day (days = 0) lists all of them in order under workplace `wp`.
  */
  lemma WriteThenReport(today: Dates.Date, now: int, rs: seq<LogRecord>, wp: string)
    requires Dates.Valid(today) && 0 <= today.year < 10000
    requires |rs| == LogWriter.MaxStackSize + 1
    ensures var (es, stack) := WriteAll([], [], Encoded(rs), today, now, LogWriter.NoFaults);
      && Names(es) == [LogWriter.FileName(today, 0)]
      && stack == [rs[5]]
      && GetLogsSpec(es, stack, 0, wp, today, {}) == map[today := map[wp := rs]]
  {
    ScenarioWrites(today, now, rs);
    ScenarioState(today, now, rs, wp);
  }

  /** The state the scenario's writes leave: one file of today, and what a report for today lists. */
  lemma ScenarioState(today: Dates.Date, now: int, rs: seq<LogRecord>, wp: string)
    requires Dates.Valid(today) && 0 <= today.year < 10000
    requires |rs| == LogWriter.MaxStackSize + 1
    ensures Names([FirstFile(today, now, rs[..5])]) == [LogWriter.FileName(today, 0)]
    ensures GetLogsSpec([FirstFile(today, now, rs[..5])], [rs[5]], 0, wp, today, {}) == map[today := map[wp := rs]]
  {
    ScenarioReport(today, now, rs[..5], [rs[5]], wp);
    assert rs[..5] + [rs[5]] == rs;
  }
}
