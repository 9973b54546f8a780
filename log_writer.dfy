/**
  The intake and persistence path of the log engine (pkg/logging/logWriter.go): `Write` decodes
  one JSON record and appends it to the shared buffer; once the buffer holds `MaxStackSize`
  records it is flushed into the file that `findLatestFile` picks, by reading that file,
  appending the buffer to its records and rewriting it from offset zero.

  The wall clock is two parameters, `today` (the civil date) and `now` (the modification time
  given to a file that is created or written); the outcome of the operating system's open,
  read and write calls is the parameter `io`.
*/
module LogWriter {
  import opened Wrappers
  import opened Json
  import opened LogStore
  import Dates

  /** The buffer is flushed once it holds this many records. */
  const MaxStackSize: nat := 5
  /** A latest file of at least this many bytes makes the writer start a new file. */
  const MaxFileSize: nat := 5096000

  datatype LogError =
    | DecodeError       // decoding failed (the written bytes or the target file)
    | OpenError         // os.OpenFile failed
    | ReadError         // io.ReadAll failed
    | WriteError        // the rewrite failed after the file was truncated
    | NilFileInfoPanic  // no file of today is newer than the zero time: latestFile.Size() on nil

  /** Which of the operating-system calls of one flush fail. */
  datatype IoFaults = IoFaults(openFails: bool, readFails: bool, writeFails: bool)

  const NoFaults := IoFaults(false, false, false)

  /** `<today>_<n>.log.json`. */
  function FileName(today: Dates.Date, n: nat): string
  {
    Dates.Format(today) + "_" + Dates.Decimal(n) + ".log.json"
  }

  /** The files matched by the glob `<today>*`, in directory order. */
  function TodaysFiles(es: seq<FileEntry>, today: Dates.Date): seq<FileEntry>
  {
    Glob(es, Dates.Format(today))
  }

  // ---------------------------------------------------------------- rotation selection

  /**
    The index findLatestFile's loop ends with in `latestFile`: a file replaces the current
    choice only if its modification time is strictly after `lMod`, which starts at the zero time.
  */
  function LatestIdx(ms: seq<FileEntry>): (r: Option<nat>)
    ensures r.Some? ==> r.value < |ms|
  {
    if ms == [] then None
    else
      var prev := LatestIdx(ms[..|ms| - 1]);
      var lMod := if prev.None? then ZeroTime else ms[prev.value].mtime;
      if ms[|ms| - 1].mtime > lMod then Some(|ms| - 1) else prev
  }

  /**
    `k` is the latest file: newer than the zero time, no file is newer, and every file before it
    in glob order is strictly older.
  */
  predicate IsLatest(ms: seq<FileEntry>, k: int)
  {
    && 0 <= k < |ms|
    && ms[k].mtime > ZeroTime
    && (forall j :: 0 <= j < |ms| ==> ms[j].mtime <= ms[k].mtime)
    && (forall j :: 0 <= j < k ==> ms[j].mtime < ms[k].mtime)
  }

  /** The loop picks the file with the strictly greatest time, the first one among equals. */
  lemma {:induction false} LatestIdxSpec(ms: seq<FileEntry>)
    ensures LatestIdx(ms).None? <==> (forall j :: 0 <= j < |ms| ==> ms[j].mtime <= ZeroTime)
    ensures LatestIdx(ms).Some? ==> IsLatest(ms, LatestIdx(ms).value)
  {
    if ms != [] {
      var init := ms[..|ms| - 1];
      LatestIdxSpec(init);
      assert forall j :: 0 <= j < |init| ==> init[j] == ms[j];
    }
  }

  lemma LatestUnique(ms: seq<FileEntry>, k: int, k': int)
    requires IsLatest(ms, k) && IsLatest(ms, k')
    ensures k == k'
  {
  }

  /** The name findLatestFile opens, or the panic it runs into. */
  function Target(today: Dates.Date, ms: seq<FileEntry>): Result<string, LogError>
  {
    if |ms| > 0 then
      match LatestIdx(ms)
      case None => Failure(NilFileInfoPanic)
      case Some(k) =>
        if |ms[k].content| >= MaxFileSize then Success(FileName(today, |ms|))
        else Success(FileName(today, 0))
    else Success(FileName(today, 0))
  }

  /**
    Rotation: with no file of today the target is index 0; with a latest file of at least
    MaxFileSize bytes it is the number of today's files; with a smaller latest file it is
    index 0 again, whatever higher indices exist; with no file newer than the zero time the
    writer panics.
  */
  lemma RotationTarget(today: Dates.Date, ms: seq<FileEntry>)
    ensures ms == [] ==> Target(today, ms) == Success(FileName(today, 0))
    ensures forall k :: IsLatest(ms, k) ==>
      Target(today, ms) == Success(if |ms[k].content| >= MaxFileSize then FileName(today, |ms|) else FileName(today, 0))
    ensures (|ms| > 0 && forall j :: 0 <= j < |ms| ==> ms[j].mtime <= ZeroTime) ==>
      Target(today, ms) == Failure(NilFileInfoPanic)
  {
    LatestIdxSpec(ms);
    forall k | IsLatest(ms, k)
      ensures Target(today, ms) == Success(if |ms[k].content| >= MaxFileSize then FileName(today, |ms|) else FileName(today, 0))
    {
      LatestUnique(ms, k, LatestIdx(ms).value);
    }
  }

  /** findLatestFile: pick the target and open it with O_CREATE, creating an empty file if needed. */
  function OpenTarget(es: seq<FileEntry>, today: Dates.Date, now: int, openFails: bool)
    : (Result<string, LogError>, seq<FileEntry>)
  {
    match Target(today, TodaysFiles(es, today))
    case Failure(e) => (Failure(e), es)
    case Success(name) =>
      if openFails then (Failure(OpenError), es)
      else (Success(name), if Find(es, name).Some? then es else Put(es, FileEntry(name, [], now)))
  }

  // ---------------------------------------------------------------- flush and write

  /** The records already in a file: none for a zero-length file, otherwise its decoding. */
  function PriorRecords(content: Bytes): Option<seq<LogRecord>>
  {
    if |content| == 0 then Some([]) else DecodeRecords(content)
  }

  datatype FlushResult = FlushResult(entries: seq<FileEntry>, stack: seq<LogRecord>, err: Option<LogError>)

  /** flush: read, decode, append the buffer, truncate, rewrite, and clear the buffer on success. */
  function FlushStep(es: seq<FileEntry>, stack: seq<LogRecord>, today: Dates.Date, now: int, io: IoFaults)
    : FlushResult
  {
    var (target, afterOpen) := OpenTarget(es, today, now, io.openFails);
    match target
    case Failure(e) => FlushResult(afterOpen, stack, Some(e))
    case Success(name) =>
      if io.readFails then FlushResult(afterOpen, stack, Some(ReadError))
      else
        match PriorRecords(ContentOf(afterOpen, name))
        case None => FlushResult(afterOpen, stack, Some(DecodeError))
        case Some(prev) =>
          var truncated := Put(afterOpen, FileEntry(name, [], now));
          if io.writeFails then FlushResult(truncated, stack, Some(WriteError))
          else FlushResult(Put(truncated, FileEntry(name, EncodeRecords(prev + stack), now)), [], None)
  }

  datatype WriteResult = WriteResult(entries: seq<FileEntry>, stack: seq<LogRecord>, n: int, err: Option<LogError>)

  /** Write: decode, append, flush at the threshold, report the buffer length. */
  function WriteStep(es: seq<FileEntry>, stack: seq<LogRecord>, b: Bytes, today: Dates.Date, now: int, io: IoFaults)
    : WriteResult
  {
    match DecodeRecord(b)
    case None => WriteResult(es, stack, 0, Some(DecodeError))
    case Some(r) =>
      var pushed := stack + [r];
      if |pushed| >= MaxStackSize then
        var f := FlushStep(es, pushed, today, now, io);
        if f.err.Some? then WriteResult(f.entries, f.stack, 0, f.err)
        else WriteResult(f.entries, f.stack, |f.stack|, None)
      else WriteResult(es, pushed, |pushed|, None)
  }

  // ---------------------------------------------------------------- properties of the steps

  lemma OpenTargetSorted(es: seq<FileEntry>, today: Dates.Date, now: int, openFails: bool)
    requires Sorted(es)
    ensures Sorted(OpenTarget(es, today, now, openFails).1)
  {
    match Target(today, TodaysFiles(es, today))
    case Failure(_) =>
    case Success(name) => PutSorted(es, FileEntry(name, [], now));
  }

  lemma FlushSorted(es: seq<FileEntry>, stack: seq<LogRecord>, today: Dates.Date, now: int, io: IoFaults)
    requires Sorted(es)
    ensures Sorted(FlushStep(es, stack, today, now, io).entries)
  {
    OpenTargetSorted(es, today, now, io.openFails);
    var (target, afterOpen) := OpenTarget(es, today, now, io.openFails);
    if target.Success? {
      var name := target.value;
      PutSorted(afterOpen, FileEntry(name, [], now));
      var truncated := Put(afterOpen, FileEntry(name, [], now));
      if PriorRecords(ContentOf(afterOpen, name)).Some? {
        PutSorted(truncated, FileEntry(name, EncodeRecords(PriorRecords(ContentOf(afterOpen, name)).value + stack), now));
      }
    }
  }

  /** Opening never changes the content of a file that already exists. */
  lemma OpenKeepsContent(es: seq<FileEntry>, today: Dates.Date, now: int, openFails: bool, name: string)
    ensures ContentOf(OpenTarget(es, today, now, openFails).1, name) == ContentOf(es, name)
  {
    match Target(today, TodaysFiles(es, today))
    case Failure(_) =>
    case Success(t) =>
      if !openFails && Find(es, t).None? {
        FindPut(es, FileEntry(t, [], now), name);
      }
  }

  /**
    A successful flush leaves the target file holding the file's earlier records followed by
    the whole buffer, in order, stamped with `now`; it empties the buffer; it touches no other
    file. A zero-length earlier file counts as no records.
  */
  lemma FlushSuccess(es: seq<FileEntry>, stack: seq<LogRecord>, today: Dates.Date, now: int, io: IoFaults)
    requires FlushStep(es, stack, today, now, io).err == None
    ensures Target(today, TodaysFiles(es, today)).Success?
    ensures var name := Target(today, TodaysFiles(es, today)).value;
      var f := FlushStep(es, stack, today, now, io);
      && PriorRecords(ContentOf(es, name)).Some?
      && f.stack == []
      && Find(f.entries, name).Some?
      && Find(f.entries, name).value.mtime == now
      && DecodeRecords(ContentOf(f.entries, name)) == Some(PriorRecords(ContentOf(es, name)).value + stack)
      && (forall other :: other != name ==> Find(f.entries, other) == Find(es, other))
  {
    var (target, afterOpen) := OpenTarget(es, today, now, io.openFails);
    var name := target.value;
    OpenKeepsContent(es, today, now, io.openFails, name);
    var prev := PriorRecords(ContentOf(afterOpen, name)).value;
    var truncated := Put(afterOpen, FileEntry(name, [], now));
    var written := FileEntry(name, EncodeRecords(prev + stack), now);
    FindPut(truncated, written, name);
    DecodeEncodeRecords(prev + stack);
    forall other | other != name
      ensures Find(Put(truncated, written), other) == Find(es, other)
    {
      FindPut(truncated, written, other);
      FindPut(afterOpen, FileEntry(name, [], now), other);
      if Find(es, name).None? {
        FindPut(es, FileEntry(name, [], now), other);
      }
    }
  }

  /** A failed flush never clears the buffer, so no buffered record is lost from memory. */
  lemma FlushFailureKeepsBuffer(es: seq<FileEntry>, stack: seq<LogRecord>, today: Dates.Date, now: int, io: IoFaults)
    requires FlushStep(es, stack, today, now, io).err.Some?
    ensures FlushStep(es, stack, today, now, io).stack == stack
  {
  }

  /**
    A corrupt (non-empty, undecodable) target file fails the flush with DecodeError before
    anything is written.
  */
  lemma FlushCorruptTarget(es: seq<FileEntry>, stack: seq<LogRecord>, today: Dates.Date, now: int, io: IoFaults)
    requires Target(today, TodaysFiles(es, today)).Success?
    requires !io.openFails && !io.readFails
    requires var name := Target(today, TodaysFiles(es, today)).value;
      |ContentOf(es, name)| > 0 && DecodeRecords(ContentOf(es, name)) == None
    ensures FlushStep(es, stack, today, now, io) ==
      FlushResult(OpenTarget(es, today, now, false).1, stack, Some(DecodeError))
    ensures OpenTarget(es, today, now, false).1 == es
  {
    var name := Target(today, TodaysFiles(es, today)).value;
    OpenKeepsContent(es, today, now, false, name);
  }

  /** A record that does not decode is refused and nothing changes. */
  lemma WriteUndecodable(es: seq<FileEntry>, stack: seq<LogRecord>, b: Bytes, today: Dates.Date, now: int, io: IoFaults)
    requires DecodeRecord(b) == None
    ensures WriteStep(es, stack, b, today, now, io) == WriteResult(es, stack, 0, Some(DecodeError))
  {
  }

  /**
    Below the threshold a decoded record is appended at the end of the buffer, no file is
    touched, and the result is the new buffer length.
  */
  lemma WriteBelowThreshold(es: seq<FileEntry>, stack: seq<LogRecord>, b: Bytes, r: LogRecord, today: Dates.Date, now: int, io: IoFaults)
    requires DecodeRecord(b) == Some(r)
    requires |stack| + 1 < MaxStackSize
    ensures WriteStep(es, stack, b, today, now, io) == WriteResult(es, stack + [r], |stack| + 1, None)
  {
  }

  /**
    At the threshold the buffer with the new record at its end is flushed: on success the
    buffer is empty and Write returns 0; on failure Write returns (0, the flush error) and the
    buffer keeps every record including the new one.
  */
  lemma WriteAtThreshold(es: seq<FileEntry>, stack: seq<LogRecord>, b: Bytes, r: LogRecord, today: Dates.Date, now: int, io: IoFaults)
    requires DecodeRecord(b) == Some(r)
    requires |stack| + 1 >= MaxStackSize
    ensures var w := WriteStep(es, stack, b, today, now, io);
      var f := FlushStep(es, stack + [r], today, now, io);
      && w.entries == f.entries
      && w.err == f.err
      && w.n == 0
      && (f.err == None ==> w.stack == [])
      && (f.err.Some? ==> w.stack == stack + [r])
  {
    var f := FlushStep(es, stack + [r], today, now, io);
    if f.err == None {
      FlushSuccess(es, stack + [r], today, now, io);
    }
  }

  /**
    The buffer bound: a successful Write keeps the buffer below MaxStackSize, so across the
    public write path a flush happens exactly when the threshold is reached.
  */
  lemma WriteKeepsBufferBound(es: seq<FileEntry>, stack: seq<LogRecord>, b: Bytes, today: Dates.Date, now: int, io: IoFaults)
    requires |stack| < MaxStackSize
    requires WriteStep(es, stack, b, today, now, io).err == None
    ensures |WriteStep(es, stack, b, today, now, io).stack| < MaxStackSize
    ensures WriteStep(es, stack, b, today, now, io).n == |WriteStep(es, stack, b, today, now, io).stack|
  {
    var r := DecodeRecord(b).value;
    if |stack| + 1 >= MaxStackSize {
      FlushSuccess(es, stack + [r], today, now, io);
    }
  }

  /** findLatestFile's loop over today's files: the index of the latest one, if any. */
  method LatestFile(entries: seq<FileEntry>) returns (latest: Option<nat>)
    ensures latest == LatestIdx(entries)
    ensures latest.None? <==> (forall j :: 0 <= j < |entries| ==> entries[j].mtime <= ZeroTime)
    ensures latest.Some? ==> IsLatest(entries, latest.value)
  {
    latest := None;
    var lMod := ZeroTime;
    var i := 0;
    while i < |entries|
      invariant 0 <= i <= |entries|
      invariant latest == LatestIdx(entries[..i])
      invariant lMod == if latest.None? then ZeroTime else entries[latest.value].mtime
    {
      assert entries[..i + 1][..i] == entries[..i];
      if entries[i].mtime > lMod {
        latest := Some(i);
        lMod := entries[i].mtime;
      }
      i := i + 1;
    }
    assert entries[..|entries|] == entries;
    LatestIdxSpec(entries);
  }

  // ---------------------------------------------------------------- the writer object

  /** logFileWriter: the shared buffer and the directory `folder` it flushes into. */
  class LogFileWriter {
    const stack: RecordStack
    const folder: Folder

    constructor (folder: Folder, stack: RecordStack)
      ensures this.folder == folder && this.stack == stack
    {
      this.folder := folder;
      this.stack := stack;
    }

    /** findLatestFile. */
    method FindLatestFile(today: Dates.Date, now: int, openFails: bool) returns (target: Result<string, LogError>)
      requires Sorted(folder.entries)
      modifies folder
      ensures (target, folder.entries) == OpenTarget(old(folder.entries), today, now, openFails)
      ensures Sorted(folder.entries)
    {
      OpenTargetSorted(folder.entries, today, now, openFails);
      var entries := TodaysFiles(folder.entries, today);
      var latest := LatestFile(entries);
      var name := FileName(today, 0);
      if |entries| > 0 {
        if latest.None? {
          return Failure(NilFileInfoPanic);
        }
        if |entries[latest.value].content| >= MaxFileSize {
          name := FileName(today, |entries|);
        }
      }
      if openFails {
        return Failure(OpenError);
      }
      if Find(folder.entries, name).None? {
        folder.entries := Put(folder.entries, FileEntry(name, [], now));
      }
      return Success(name);
    }

    /** flush. */
    method Flush(today: Dates.Date, now: int, io: IoFaults) returns (err: Option<LogError>)
      requires Sorted(folder.entries)
      modifies folder, stack
      ensures FlushResult(folder.entries, stack.records, err)
        == FlushStep(old(folder.entries), old(stack.records), today, now, io)
      ensures Sorted(folder.entries)
    {
      FlushSorted(folder.entries, stack.records, today, now, io);
      var target := FindLatestFile(today, now, io.openFails);
      if target.Failure? {
        return Some(target.error);
      }
      var name := target.value;
      if io.readFails {
        return Some(ReadError);
      }
      var content := ContentOf(folder.entries, name);
      var prevLogs: seq<LogRecord> := [];
      if |content| > 0 {
        var decoded := DecodeRecords(content);
        if decoded.None? {
          return Some(DecodeError);
        }
        prevLogs := decoded.value;
      }
      prevLogs := prevLogs + stack.records;
      var data := EncodeRecords(prevLogs);
      folder.entries := Put(folder.entries, FileEntry(name, [], now));
      if io.writeFails {
        return Some(WriteError);
      }
      folder.entries := Put(folder.entries, FileEntry(name, data, now));
      stack.records := [];
      return None;
    }

    /** Write: returns the buffer length after the call, not a byte count. */
    method Write(b: Bytes, today: Dates.Date, now: int, io: IoFaults) returns (n: int, err: Option<LogError>)
      requires Sorted(folder.entries)
      modifies folder, stack
      ensures WriteResult(folder.entries, stack.records, n, err)
        == WriteStep(old(folder.entries), old(stack.records), b, today, now, io)
      ensures Sorted(folder.entries)
    {
      var record := DecodeRecord(b);
      if record.None? {
        return 0, Some(DecodeError);
      }
      stack.records := stack.records + [record.value];
      if |stack.records| >= MaxStackSize {
        err := Flush(today, now, io);
        if err.Some? {
          return 0, err;
        }
      }
      return |stack.records|, None;
    }
  }
}
