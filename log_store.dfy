/**
  The state the log engine works on, shared by the writer and the reporter: one log directory
  (`<Dir>/<name>`) and the record buffer (`*[]LogRecord`) that NewDCSlogger hands to both.

  The directory is a sequence of files kept in strictly increasing name order, the order in
  which os.ReadDir and fs.Glob list names. A glob `<prefix>*` over the directory is the
  order-preserving filter of the names that start with the prefix (log-file patterns carry no
  metacharacters of their own, so fs.Glob cannot fail on them).
*/
module LogStore {
  import opened Wrappers
  import opened Json

  /** Go's zero time.Time, the starting value of findLatestFile's `lMod`. */
  const ZeroTime: int := 0

  /** One regular file of the log directory: name, bytes and modification time. */
  datatype FileEntry = FileEntry(name: string, content: Bytes, mtime: int)

  // ---------------------------------------------------------------- name order

  /** Byte-wise lexicographic order of names. */
  predicate NameLess(a: string, b: string)
    decreases |a|
  {
    if |a| == 0 then |b| > 0
    else if |b| == 0 then false
    else if a[0] != b[0] then a[0] < b[0]
    else NameLess(a[1..], b[1..])
  }

  lemma {:induction false} NameLessIrreflexive(a: string)
    ensures !NameLess(a, a)
    decreases |a|
  {
    if |a| > 0 {
      NameLessIrreflexive(a[1..]);
    }
  }

  lemma {:induction false} NameLessTransitive(a: string, b: string, c: string)
    requires NameLess(a, b) && NameLess(b, c)
    ensures NameLess(a, c)
    decreases |a|
  {
    if |a| > 0 && a[0] == b[0] && b[0] == c[0] {
      NameLessTransitive(a[1..], b[1..], c[1..]);
    }
  }

  lemma {:induction false} NameLessTotal(a: string, b: string)
    requires a != b
    ensures NameLess(a, b) || NameLess(b, a)
    decreases |a|
  {
    if |a| > 0 && |b| > 0 && a[0] == b[0] {
      assert a == [a[0]] + a[1..] && b == [b[0]] + b[1..];
      NameLessTotal(a[1..], b[1..]);
    }
  }

  predicate Sorted(es: seq<FileEntry>)
  {
    forall i, j :: 0 <= i < j < |es| ==> NameLess(es[i].name, es[j].name)
  }

  // ---------------------------------------------------------------- lookups and updates

  function Find(es: seq<FileEntry>, name: string): Option<FileEntry>
  {
    if es == [] then None
    else if es[0].name == name then Some(es[0])
    else Find(es[1..], name)
  }

  /** The content of a file, or nothing for a file that does not exist (yet). */
  function ContentOf(es: seq<FileEntry>, name: string): Bytes
  {
    match Find(es, name)
    case Some(e) => e.content
    case None => []
  }

  /** Creates or overwrites a file, keeping the directory in name order. */
  function Put(es: seq<FileEntry>, e: FileEntry): seq<FileEntry>
  {
    if es == [] then [e]
    else if es[0].name == e.name then [e] + es[1..]
    else if NameLess(e.name, es[0].name) then [e] + es
    else [es[0]] + Put(es[1..], e)
  }

  lemma {:induction false} FindFound(es: seq<FileEntry>, name: string)
    requires Find(es, name).Some?
    ensures Find(es, name).value in es && Find(es, name).value.name == name
  {
    if es[0].name != name {
      FindFound(es[1..], name);
    }
  }

  lemma {:induction false} FindMissing(es: seq<FileEntry>, name: string)
    requires forall i :: 0 <= i < |es| ==> es[i].name != name
    ensures Find(es, name) == None
  {
    if es != [] {
      FindMissing(es[1..], name);
    }
  }

  /** After Put, the new file is there and every other file reads as before. */
  lemma {:induction false} FindPut(es: seq<FileEntry>, e: FileEntry, name: string)
    ensures Find(Put(es, e), name) == if name == e.name then Some(e) else Find(es, name)
  {
    if es != [] && es[0].name != e.name && !NameLess(e.name, es[0].name) {
      FindPut(es[1..], e, name);
    }
  }

  lemma {:induction false} PutNames(es: seq<FileEntry>, e: FileEntry, x: FileEntry)
    requires x in Put(es, e)
    ensures x == e || x in es
  {
    if es != [] && es[0].name != e.name && !NameLess(e.name, es[0].name) {
      if x != es[0] {
        PutNames(es[1..], e, x);
      }
    }
  }

  /** Put keeps the directory in strictly increasing name order. */
  lemma {:induction false} PutSorted(es: seq<FileEntry>, e: FileEntry)
    requires Sorted(es)
    ensures Sorted(Put(es, e))
  {
    if es == [] {
    } else if es[0].name == e.name {
      var r := Put(es, e);
      assert r[1..] == es[1..];
      forall i, j | 0 <= i < j < |r| ensures NameLess(r[i].name, r[j].name) {
        if i == 0 {
          assert NameLess(es[0].name, es[j].name);
        } else {
          assert r[i] == es[i] && r[j] == es[j];
        }
      }
    } else if NameLess(e.name, es[0].name) {
      var r := Put(es, e);
      forall i, j | 0 <= i < j < |r| ensures NameLess(r[i].name, r[j].name) {
        if i == 0 {
          assert r[j] == es[j - 1];
          if j > 1 {
            NameLessTransitive(e.name, es[0].name, es[j - 1].name);
          }
        } else {
          assert r[i] == es[i - 1] && r[j] == es[j - 1];
        }
      }
    } else {
      NameLessTotal(e.name, es[0].name);
      var tail := Put(es[1..], e);
      PutSorted(es[1..], e);
      var r := [es[0]] + tail;
      forall i, j | 0 <= i < j < |r| ensures NameLess(r[i].name, r[j].name) {
        if i == 0 {
          assert r[j] == tail[j - 1];
          PutNames(es[1..], e, tail[j - 1]);
          if tail[j - 1] != e {
            var k :| 0 <= k < |es[1..]| && es[1..][k] == tail[j - 1];
            assert es[k + 1] == tail[j - 1];
          }
        } else {
          assert r[i] == tail[i - 1] && r[j] == tail[j - 1];
        }
      }
    }
  }

  // ---------------------------------------------------------------- glob

  predicate HasPrefix(s: string, p: string)
  {
    |p| <= |s| && s[..|p|] == p
  }

  /** fs.Glob(os.DirFS(folder), prefix + "*"), as the files it names. */
  function Glob(es: seq<FileEntry>, prefix: string): (ms: seq<FileEntry>)
    ensures |ms| <= |es|
  {
    if es == [] then []
    else (if HasPrefix(es[0].name, prefix) then [es[0]] else []) + Glob(es[1..], prefix)
  }

  function Names(es: seq<FileEntry>): (ns: seq<string>)
    ensures |ns| == |es|
    ensures forall i :: 0 <= i < |es| ==> ns[i] == es[i].name
  {
    if es == [] then [] else [es[0].name] + Names(es[1..])
  }

  /** A glob lists exactly the files whose names start with the prefix. */
  lemma {:induction false} GlobMembers(es: seq<FileEntry>, prefix: string, x: FileEntry)
    ensures x in Glob(es, prefix) <==> x in es && HasPrefix(x.name, prefix)
  {
    if es != [] {
      GlobMembers(es[1..], prefix, x);
      assert es == [es[0]] + es[1..];
    }
  }

  /** A glob of a sorted directory is itself sorted (so no name appears twice). */
  lemma {:induction false} GlobSorted(es: seq<FileEntry>, prefix: string)
    requires Sorted(es)
    ensures Sorted(Glob(es, prefix))
  {
    if es != [] {
      GlobSorted(es[1..], prefix);
      var tail := Glob(es[1..], prefix);
      if HasPrefix(es[0].name, prefix) {
        var r := [es[0]] + tail;
        forall i, j | 0 <= i < j < |r| ensures NameLess(r[i].name, r[j].name) {
          if i == 0 {
            GlobMembers(es[1..], prefix, r[j]);
            var k :| 0 <= k < |es[1..]| && es[1..][k] == r[j];
            assert es[k + 1] == r[j];
          } else {
            assert r[i] == tail[i - 1] && r[j] == tail[j - 1];
          }
        }
      }
    }
  }

  // ---------------------------------------------------------------- shared objects

  /** The directory `<Dir>/<name>` that one logger writes and reports from. */
  class Folder {
    var entries: seq<FileEntry>

    constructor (es: seq<FileEntry>)
      requires Sorted(es)
      ensures entries == es
    {
      entries := es;
    }
  }

  /** The record buffer: the slice that the writer and the reporter share by pointer. */
  class RecordStack {
    var records: seq<LogRecord>

    constructor ()
      ensures records == []
    {
      records := [];
    }
  }
}
