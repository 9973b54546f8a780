/**
  The row/column dataframe of pkg/utils/dataframe.go: rows of string fields, columns named
  from a header row, text parsing with explicit separators, record cleaning, header
  interpretation, row filtering (`clean`), the half-open `Drop`, projection with `Get` and
  construction from options with `NewDataframe`.

  Go runtime panics (an index out of range, slices.Delete with bad bounds) are the outcome
  `Panic`; the state at the panic is the state the source has reached at that point.
*/
module Dataframe {
  import opened Wrappers
  import opened Ascii

  type Record = seq<string>

  datatype Column = Column(name: string, idx: int, content: seq<string>)

  datatype DfError =
    | HeaderInterpretErr(provided: Record, found: Record)
    | ColumnsNotFoundErr(available: seq<string>, required: seq<string>)
    | Panic

  /** The fields of a Dataframe, as a value. */
  datatype Frame = Frame(columns: seq<Column>, rows: seq<Record>, interpret: bool)

  const EmptyFrame := Frame([], [], false)

  /** Header(): the column names in column order. */
  function HeaderOf(cols: seq<Column>): (h: seq<string>)
    ensures |h| == |cols|
    ensures forall i :: 0 <= i < |cols| ==> h[i] == cols[i].name
  {
    if cols == [] then [] else [cols[0].name] + HeaderOf(cols[1..])
  }

  // ---------------------------------------------------------------- trimming and cleanRecord

  /** The cutset " +-" that cleanRecord trims. */
  predicate IsCut(c: char)
  {
    c == ' ' || c == '+' || c == '-'
  }

  function TrimLeft(s: string): string
  {
    if s != [] && IsCut(s[0]) then TrimLeft(s[1..]) else s
  }

  function TrimRight(s: string): string
  {
    if s != [] && IsCut(s[|s| - 1]) then TrimRight(s[..|s| - 1]) else s
  }

  /** TrimLeft removes exactly the leading run of cutset characters. */
  lemma {:induction false} TrimLeftSpec(s: string)
    ensures var t := TrimLeft(s);
      && |t| <= |s| && t == s[|s| - |t|..]
      && (t == [] || !IsCut(t[0]))
      && (forall k :: 0 <= k < |s| - |t| ==> IsCut(s[k]))
  {
    if s != [] && IsCut(s[0]) {
      TrimLeftSpec(s[1..]);
      var t := TrimLeft(s);
      assert s[1..][|s| - 1 - |t|..] == s[|s| - |t|..];
      forall k | 0 <= k < |s| - |t| ensures IsCut(s[k]) {
        if k > 0 {
          assert s[k] == s[1..][k - 1];
        }
      }
    }
  }

  /** TrimRight removes exactly the trailing run of cutset characters. */
  lemma {:induction false} TrimRightSpec(s: string)
    ensures var t := TrimRight(s);
      && |t| <= |s| && t == s[..|t|]
      && (t == [] || !IsCut(t[|t| - 1]))
      && (forall k :: |t| <= k < |s| ==> IsCut(s[k]))
  {
    if s != [] && IsCut(s[|s| - 1]) {
      TrimRightSpec(s[..|s| - 1]);
      var t := TrimRight(s);
      assert s[..|s| - 1][..|t|] == s[..|t|];
      forall k | |t| <= k < |s| ensures IsCut(s[k]) {
        if k < |s| - 1 {
          assert s[k] == s[..|s| - 1][k];
        }
      }
    }
  }

  /** strings.Trim(s, " +-"). */
  function Trim(s: string): string
  {
    TrimRight(TrimLeft(s))
  }

  lemma SliceOfSuffix(s: string, i: nat, n: nat)
    requires i + n <= |s|
    ensures s[i..][..n] == s[i..i + n]
  {
  }

  /**
    Trim removes exactly a leading and a trailing run of cutset characters: the result is a
    slice of the input, everything cut away is in the cutset, and the result neither starts
    nor ends with a cutset character.
  */
  lemma TrimSpec(s: string)
    ensures var t := Trim(s);
      && (t == [] || (!IsCut(t[0]) && !IsCut(t[|t| - 1])))
      && exists i, j :: 0 <= i <= j <= |s| && t == s[i..j]
           && (forall k :: 0 <= k < i ==> IsCut(s[k]))
           && (forall k :: j <= k < |s| ==> IsCut(s[k]))
  {
    var u := TrimLeft(s);
    var t := TrimRight(u);
    TrimLeftSpec(s);
    TrimRightSpec(u);
    var i := |s| - |u|;
    var j := i + |t|;
    SliceOfSuffix(s, i, |t|);
    assert t == s[i..j];
    forall k | j <= k < |s| ensures IsCut(s[k]) {
      assert s[k] == u[k - i];
    }
  }

  /** cleanRecord, as a value: the non-empty fields, trimmed, in order. */
  function Cleaned(r: Record): Record
  {
    if r == [] then [] else Cleaned(r[..|r| - 1]) + (if |r[|r| - 1]| > 0 then [Trim(r[|r| - 1])] else [])
  }

  lemma CleanedSingle(s: string)
    ensures Cleaned([s]) == if |s| > 0 then [Trim(s)] else []
  {
    assert [s][..0] == [];
  }

  lemma CleanedSnoc(r: Record, x: string)
    ensures Cleaned(r + [x]) == Cleaned(r) + (if |x| > 0 then [Trim(x)] else [])
  {
    assert (r + [x])[..|r|] == r;
  }

  /** Cleaning works field by field: it distributes over concatenation. */
  lemma {:induction false} CleanedAppend(a: Record, b: Record)
    ensures Cleaned(a + b) == Cleaned(a) + Cleaned(b)
    decreases |b|
  {
    if b == [] {
      assert a + b == a;
    } else {
      var b', x := b[..|b| - 1], b[|b| - 1];
      var tail := if |x| > 0 then [Trim(x)] else [];
      calc {
        Cleaned(a + b);
        { assert a + b == (a + b') + [x]; }
        Cleaned((a + b') + [x]);
        { CleanedSnoc(a + b', x); }
        Cleaned(a + b') + tail;
        { CleanedAppend(a, b'); }
        (Cleaned(a) + Cleaned(b')) + tail;
        Cleaned(a) + (Cleaned(b') + tail);
        { assert b == b' + [x]; CleanedSnoc(b', x); }
        Cleaned(a) + Cleaned(b);
      }
    }
  }

  /** Emptiness is tested before trimming: a lone "-" survives as an empty field. */
  lemma CleanedDash()
    ensures Cleaned(["-"]) == [""]
  {
    CleanedSingle("-");
    assert TrimLeft("-") == TrimLeft("") == "";
  }

  /** cleanRecord. */
  method CleanRecord(r: Record) returns (newR: Record)
    ensures newR == Cleaned(r)
  {
    newR := [];
    var i := 0;
    while i < |r|
      invariant 0 <= i <= |r|
      invariant newR == Cleaned(r[..i])
    {
      assert r[..i + 1][..i] == r[..i];
      if |r[i]| > 0 {
        newR := newR + [Trim(r[i])];
      }
      i := i + 1;
    }
    assert r[..|r|] == r;
  }

  // ---------------------------------------------------------------- bytes.Split

  /** Whether `sep` occurs in `s` at position k. */
  predicate OccursAt(s: string, sep: string, k: int)
  {
    0 <= k && k + |sep| <= |s| && s[k..k + |sep|] == sep
  }

  predicate Occurs(s: string, sep: string)
  {
    exists k :: 0 <= k <= |s| && OccursAt(s, sep, k)
  }

  /** The first occurrence of a non-empty separator at or after position p. */
  function FindFrom(s: string, sep: string, p: nat): (r: Option<nat>)
    requires |sep| > 0
    ensures r.Some? ==> p <= r.value && OccursAt(s, sep, r.value)
    ensures forall k :: p <= k && (r.None? || k < r.value) ==> !OccursAt(s, sep, k)
    decreases |s| - p
  {
    if p + |sep| > |s| then None
    else if s[p..p + |sep|] == sep then Some(p)
    else FindFrom(s, sep, p + 1)
  }

  /** The first occurrence of a non-empty separator. */
  function FindSep(s: string, sep: string): (r: Option<nat>)
    requires |sep| > 0
    ensures r.Some? ==> OccursAt(s, sep, r.value)
    ensures forall k :: 0 <= k && (r.None? || k < r.value) ==> !OccursAt(s, sep, k)
  {
    FindFrom(s, sep, 0)
  }

  function SplitSep(s: string, sep: string): (parts: seq<string>)
    requires |sep| > 0
    ensures |parts| >= 1
    decreases |s|
  {
    var r := FindSep(s, sep);
    if r.None? then [s] else [s[..r.value]] + SplitSep(s[r.value + |sep|..], sep)
  }

  /** bytes.Split(s, sep): an empty separator splits after every character. */
  function SplitOn(s: string, sep: string): seq<string>
  {
    if |sep| == 0 then seq(|s|, i requires 0 <= i < |s| => [s[i]]) else SplitSep(s, sep)
  }

  function Join(parts: seq<string>, sep: string): string
  {
    if |parts| == 0 then [] else if |parts| == 1 then parts[0] else parts[0] + sep + Join(parts[1..], sep)
  }

  lemma Slices(s: string, i: nat, j: nat)
    requires i <= j <= |s|
    ensures s == s[..i] + s[i..j] + s[j..]
  {
  }

  lemma JoinCons(h: string, tail: seq<string>, sep: string)
    requires |tail| >= 1
    ensures Join([h] + tail, sep) == h + sep + Join(tail, sep)
  {
    assert ([h] + tail)[0] == h && ([h] + tail)[1..] == tail;
  }

  /** A separator at position i cuts the text into the part before it and the rest after it. */
  lemma SplitAt(s: string, sep: string, i: nat)
    requires OccursAt(s, sep, i)
    ensures s == s[..i] + sep + s[i + |sep|..]
  {
    Slices(s, i, i + |sep|);
  }

  lemma {:induction false} JoinSplitSep(s: string, sep: string)
    requires |sep| > 0
    ensures Join(SplitSep(s, sep), sep) == s
    decreases |s|
  {
    var r := FindSep(s, sep);
    if r.Some? {
      var i := r.value;
      var rest := s[i + |sep|..];
      var tail := SplitSep(rest, sep);
      calc {
        Join(SplitSep(s, sep), sep);
        Join([s[..i]] + tail, sep);
        { JoinCons(s[..i], tail, sep); }
        s[..i] + sep + Join(tail, sep);
        { JoinSplitSep(rest, sep); }
        s[..i] + sep + rest;
        { SplitAt(s, sep, i); }
        s;
      }
    }
  }

  lemma {:induction false} JoinExplode(s: string)
    ensures Join(SplitOn(s, ""), "") == s
    decreases |s|
  {
    if |s| > 1 {
      JoinExplode(s[1..]);
      assert SplitOn(s, "")[1..] == SplitOn(s[1..], "");
      assert s == [s[0]] + "" + s[1..];
    }
  }

  /** Joining the parts with the separator gives the input back, for every separator. */
  lemma JoinSplit(s: string, sep: string)
    ensures Join(SplitOn(s, sep), sep) == s
  {
    if |sep| == 0 {
      JoinExplode(s);
    } else {
      JoinSplitSep(s, sep);
    }
  }

  lemma PrefixOccursAt(s: string, sep: string, i: nat, k: nat)
    requires k + |sep| <= i <= |s|
    ensures OccursAt(s[..i], sep, k) <==> OccursAt(s, sep, k)
  {
    assert s[..i][k..k + |sep|] == s[k..k + |sep|];
  }

  /** No part of a split by a non-empty separator contains that separator. */
  lemma {:induction false} SplitPartsFree(s: string, sep: string)
    requires |sep| > 0
    ensures forall p :: p in SplitSep(s, sep) ==> !Occurs(p, sep)
    decreases |s|
  {
    var r := FindSep(s, sep);
    if r.None? {
      assert SplitSep(s, sep) == [s];
    } else {
      var i := r.value;
      var rest := s[i + |sep|..];
      SplitPartsFree(rest, sep);
      var head := s[..i];
      assert SplitSep(s, sep) == [head] + SplitSep(rest, sep);
      forall k | 0 <= k <= |head| ensures !OccursAt(head, sep, k) {
        if k + |sep| <= i {
          PrefixOccursAt(s, sep, i, k);
        }
      }
    }
  }

  /** With an empty separator every part is one character. */
  lemma ExplodeParts(s: string)
    ensures |SplitOn(s, "")| == |s|
    ensures forall i :: 0 <= i < |s| ==> SplitOn(s, "")[i] == [s[i]]
  {
  }

  /** The rows WithRecordsFromText adds: one per line, one field per separated segment. */
  function TextRows(b: string, newLine: string, sep: string): (rs: seq<Record>)
  {
    var lines := SplitOn(b, newLine);
    seq(|lines|, i requires 0 <= i < |lines| => SplitOn(lines[i], sep))
  }

  /**
    Joining each row with `sep` and the rows with `newLine` gives the text back, so no byte of
    the input is lost or invented.
  */
  lemma TextRowsRoundTrip(b: string, newLine: string, sep: string)
    ensures var rs := TextRows(b, newLine, sep);
      && |rs| == |SplitOn(b, newLine)|
      && Join(seq(|rs|, i requires 0 <= i < |rs| => Join(rs[i], sep)), newLine) == b
  {
    var lines := SplitOn(b, newLine);
    var rs := TextRows(b, newLine, sep);
    forall i | 0 <= i < |rs| ensures Join(rs[i], sep) == lines[i] {
      JoinSplit(lines[i], sep);
    }
    assert seq(|rs|, i requires 0 <= i < |rs| => Join(rs[i], sep)) == lines;
    JoinSplit(b, newLine);
  }

  // ---------------------------------------------------------------- header interpretation

  function RemoveSpaces(s: string): (t: string)
    ensures ' ' !in t
  {
    if s == [] then [] else (if s[0] == ' ' then [] else [s[0]]) + RemoveSpaces(s[1..])
  }

  /** strings.ToLower(strings.ReplaceAll(str, " ", "")). */
  function ColumnName(s: string): string
  {
    Lower(RemoveSpaces(s))
  }

  /** Column names carry no space and no upper-case letter. */
  lemma ColumnNameShape(s: string)
    ensures ' ' !in ColumnName(s)
    ensures forall c :: c in ColumnName(s) ==> !IsUpper(c)
  {
    LowerHasNoUpper(RemoveSpaces(s));
  }

  /** The columns interpretColumns creates from a header: one per entry, idx = position. */
  function ColumnsFrom(h: Record): (cs: seq<Column>)
    ensures |cs| == |h|
    ensures forall i :: 0 <= i < |h| ==> cs[i] == Column(ColumnName(h[i]), i, [])
  {
    seq(|h|, i requires 0 <= i < |h| => Column(ColumnName(h[i]), i, []))
  }

  /** interpretColumns(d, h). */
  function InterpretSpec(f: Frame, h: Record): (Frame, Option<DfError>)
  {
    if f.rows == [] then (f, Some(Panic))
    else if h != f.rows[0] then (f, Some(HeaderInterpretErr(h, f.rows[0])))
    else (f.(columns := f.columns + ColumnsFrom(h), rows := f.rows[1..]), None)
  }

  /**
    interpretColumns fails, changing nothing, exactly when there is no first row (the index
    panics) or the first row differs from the header (HeaderInterpretErr); on success the new columns follow the old ones and the first row is gone.
  */
  lemma InterpretOutcome(f: Frame, h: Record)
    ensures var (g, err) := InterpretSpec(f, h);
      && (err == None <==> f.rows != [] && h == f.rows[0])
      && (f.rows == [] ==> err == Some(Panic))
      && (f.rows != [] && h != f.rows[0] ==> err == Some(HeaderInterpretErr(h, f.rows[0])))
      && (err.Some? ==> g == f)
      && (err == None ==>
            (&& |g.columns| == |f.columns| + |h| && g.columns[..|f.columns|] == f.columns
             && g.rows == f.rows[1..] && g.interpret == f.interpret))
      && (err == None ==>
            forall i :: 0 <= i < |h| ==>
              (g.columns[|f.columns| + i].idx == i && g.columns[|f.columns| + i].name == ColumnName(h[i])))
  {
  }

  // ---------------------------------------------------------------- clean

  /** The row makes clean panic: Header()[0] with no columns, or cleanRecord(r)[0] with no field left. */
  predicate RowPanics(cols: seq<Column>, r: Record)
  {
    |r| == |cols| && (|cols| == 0 || |Cleaned(r)| == 0)
  }

  predicate AnyRowPanics(cols: seq<Column>, rs: seq<Record>)
  {
    exists i :: 0 <= i < |rs| && RowPanics(cols, rs[i])
  }

  /** The row is kept: as wide as the header and its first cleaned field is not the first header name. */
  predicate Keep(cols: seq<Column>, r: Record)
  {
    |r| == |cols| && |cols| > 0 && |Cleaned(r)| > 0 && !EqualFold(cols[0].name, Cleaned(r)[0])
  }

  function CleanRows(cols: seq<Column>, rs: seq<Record>): seq<Record>
  {
    if rs == [] then [] else CleanRows(cols, rs[..|rs| - 1]) + (if Keep(cols, rs[|rs| - 1]) then [rs[|rs| - 1]] else [])
  }

  /** clean(). */
  function CleanSpec(f: Frame): (Frame, Option<DfError>)
  {
    if AnyRowPanics(f.columns, f.rows) then (f, Some(Panic))
    else (f.(rows := CleanRows(f.columns, f.rows)), None)
  }

  lemma {:induction false} CleanRowsAppend(cols: seq<Column>, a: seq<Record>, b: seq<Record>)
    ensures CleanRows(cols, a + b) == CleanRows(cols, a) + CleanRows(cols, b)
    decreases |b|
  {
    if b == [] {
      assert a + b == a;
    } else {
      var b' := b[..|b| - 1];
      CleanRowsAppend(cols, a, b');
      assert (a + b)[..|a + b| - 1] == a + b';
    }
  }

  lemma {:induction false} CleanRowsMembers(cols: seq<Column>, rs: seq<Record>, r: Record)
    ensures r in CleanRows(cols, rs) <==> r in rs && Keep(cols, r)
  {
    if rs != [] {
      CleanRowsMembers(cols, rs[..|rs| - 1], r);
      assert rs == rs[..|rs| - 1] + [rs[|rs| - 1]];
    }
  }

  /** clean keeps, in order, exactly the rows for which Keep holds. */
  lemma CleanRowsOrder(cols: seq<Column>, a: seq<Record>, r: Record, b: seq<Record>)
    ensures CleanRows(cols, a + [r] + b) == CleanRows(cols, a) + (if Keep(cols, r) then [r] else []) + CleanRows(cols, b)
  {
    CleanRowsAppend(cols, a + [r], b);
    CleanRowsAppend(cols, a, [r]);
    assert [r][..0] == [];
  }

  /** A clean frame is a fixpoint of clean: running clean again neither panics nor drops a row. */
  lemma CleanIdempotent(f: Frame)
    requires CleanSpec(f).1 == None
    ensures CleanSpec(CleanSpec(f).0) == (CleanSpec(f).0, None)
  {
    var g := CleanSpec(f).0;
    if AnyRowPanics(g.columns, g.rows) {
      var i :| 0 <= i < |g.rows| && RowPanics(g.columns, g.rows[i]);
      CleanRowsMembers(f.columns, f.rows, g.rows[i]);
    }
    forall r | r in g.rows ensures Keep(g.columns, r) {
      CleanRowsMembers(f.columns, f.rows, r);
    }
    CleanRowsKeepAll(g.columns, g.rows);
  }

  lemma {:induction false} CleanRowsKeepAll(cols: seq<Column>, rs: seq<Record>)
    requires forall r :: r in rs ==> Keep(cols, r)
    ensures CleanRows(cols, rs) == rs
  {
    if rs != [] {
      var init, last := rs[..|rs| - 1], rs[|rs| - 1];
      forall r | r in init ensures Keep(cols, r) {
        assert r in rs;
      }
      CleanRowsKeepAll(cols, init);
      assert last in rs;
      assert CleanRows(cols, rs) == CleanRows(cols, init) + [last];
      assert rs == init + [last];
    }
  }

  /** Any panic-free clean removes exactly the rows Keep rejects; the columns never change. */
  lemma CleanOutcome(f: Frame)
    ensures var (g, err) := CleanSpec(f);
      && g.columns == f.columns && g.interpret == f.interpret
      && (err.Some? <==> AnyRowPanics(f.columns, f.rows))
      && (err == None ==> forall r :: r in g.rows <==> r in f.rows && Keep(f.columns, r))
  {
    forall r ensures (r in CleanRows(f.columns, f.rows) <==> r in f.rows && Keep(f.columns, r)) {
      CleanRowsMembers(f.columns, f.rows, r);
    }
  }

  // ---------------------------------------------------------------- Drop

  function Min(xs: seq<int>): (m: int)
    requires |xs| > 0
    ensures m in xs && forall x :: x in xs ==> m <= x
  {
    if |xs| == 1 then xs[0]
    else
      var t := Min(xs[1..]);
      assert forall x :: x in xs ==> x == xs[0] || x in xs[1..];
      if xs[0] <= t then xs[0] else t
  }

  function Max(xs: seq<int>): (m: int)
    requires |xs| > 0
    ensures m in xs && forall x :: x in xs ==> x <= m
  {
    if |xs| == 1 then xs[0]
    else
      var t := Max(xs[1..]);
      assert forall x :: x in xs ==> x == xs[0] || x in xs[1..];
      if xs[0] >= t then xs[0] else t
  }

  /** Drop(i...): sorted, i[0] is the least and i[len-1] the greatest index. */
  function DropSpec(f: Frame, idx: seq<int>): (Frame, Option<DfError>)
  {
    if idx == [] then (f, Some(Panic))
    else
      var lo, hi := Min(idx), Max(idx);
      if !(0 <= lo && hi <= |f.rows|) then (f, Some(Panic))
      else CleanSpec(f.(rows := f.rows[..lo] + f.rows[hi..]))
  }

  /**
    slices.Delete(rows, lo, hi) removes the half-open range [lo, hi): the row at hi moves to
    position lo and is kept; lo == hi deletes nothing.
  */
  lemma DeleteRange(rows: seq<Record>, lo: int, hi: int)
    requires 0 <= lo <= hi <= |rows|
    ensures var d := rows[..lo] + rows[hi..];
      && |d| == |rows| - (hi - lo)
      && d[..lo] == rows[..lo]
      && (forall k :: lo <= k < |d| ==> d[k] == rows[k + (hi - lo)])
      && (lo == hi ==> d == rows)
  {
    if lo == hi {
      assert rows[..lo] + rows[hi..] == rows;
    }
  }

  /** Drop with a single index deletes nothing and only cleans. */
  lemma DropSingle(f: Frame, i: int)
    requires 0 <= i <= |f.rows|
    ensures DropSpec(f, [i]) == CleanSpec(f)
  {
    DeleteRange(f.rows, i, i);
    assert f.(rows := f.rows[..i] + f.rows[i..]) == f;
  }

  /** Drop panics exactly for no index, or a least index below 0 or a greatest one past the rows. */
  lemma DropBounds(f: Frame, idx: seq<int>)
    requires idx != [] && (Min(idx) < 0 || Max(idx) > |f.rows|)
    ensures DropSpec(f, idx) == (f, Some(Panic))
  {
  }

  // ---------------------------------------------------------------- Get

  /** slices.ContainsFunc(columns, EqualFold(_, name)). */
  predicate Requested(names: seq<string>, name: string)
  {
    exists k :: 0 <= k < |names| && EqualFold(names[k], name)
  }

  /** The columns of the frame that some requested name matches, in frame order. */
  function Matching(cols: seq<Column>, names: seq<string>): seq<Column>
  {
    if cols == [] then []
    else Matching(cols[..|cols| - 1], names) + (if Requested(names, cols[|cols| - 1].name) then [cols[|cols| - 1]] else [])
  }

  /** The matched column's index is outside the row: r[c.idx] panics. */
  predicate BadIndex(cs: seq<Column>, r: Record)
  {
    exists k :: 0 <= k < |cs| && !(0 <= cs[k].idx < |r|)
  }

  function Values(cs: seq<Column>, r: Record): (vs: Record)
    requires !BadIndex(cs, r)
    ensures |vs| == |cs|
    ensures forall k :: 0 <= k < |cs| ==> vs[k] == r[cs[k].idx]
  {
    if cs == [] then [] else Values(cs[..|cs| - 1], r) + [r[cs[|cs| - 1].idx]]
  }

  /** The dataframe Get returns, as its columns and its one row. */
  datatype View = View(columns: seq<Column>, rows: seq<Record>)

  /** Get(row, columns...). */
  function GetSpec(cols: seq<Column>, rows: seq<Record>, row: int, names: seq<string>): Result<View, DfError>
  {
    if !(0 <= row < |rows|) then Failure(Panic)
    else if names == [] then Success(View(cols, [rows[row]]))
    else
      var m := Matching(cols, names);
      if BadIndex(m, rows[row]) then Failure(Panic)
      else if |m| != |names| then Failure(ColumnsNotFoundErr(HeaderOf(cols), names))
      else Success(View(m, [Values(m, rows[row])]))
  }

  lemma {:induction false} MatchingMembers(cols: seq<Column>, names: seq<string>, c: Column)
    ensures c in Matching(cols, names) <==> c in cols && Requested(names, c.name)
  {
    if cols != [] {
      MatchingMembers(cols[..|cols| - 1], names, c);
      assert cols == cols[..|cols| - 1] + [cols[|cols| - 1]];
    }
  }

  lemma {:induction false} MatchingAppend(a: seq<Column>, b: seq<Column>, names: seq<string>)
    ensures Matching(a + b, names) == Matching(a, names) + Matching(b, names)
    decreases |b|
  {
    if b == [] {
      assert a + b == a;
    } else {
      var b' := b[..|b| - 1];
      MatchingAppend(a, b', names);
      assert (a + b)[..|a + b| - 1] == a + b';
    }
  }

  /** One more column for the matching loop. */
  lemma MatchingStep(cols: seq<Column>, i: nat, names: seq<string>)
    requires i < |cols|
    ensures Matching(cols[..i + 1], names)
      == Matching(cols[..i], names) + (if Requested(names, cols[i].name) then [cols[i]] else [])
  {
    assert cols[..i + 1][..i] == cols[..i];
  }

  lemma ValuesStep(cs: seq<Column>, c: Column, r: Record)
    requires !BadIndex(cs, r) && 0 <= c.idx < |r|
    ensures !BadIndex(cs + [c], r)
    ensures Values(cs + [c], r) == Values(cs, r) + [r[c.idx]]
  {
    assert (cs + [c])[..|cs|] == cs;
  }

  /** A matched column whose index is outside the row makes the whole projection panic. */
  lemma BadIndexAbort(cols: seq<Column>, i: nat, names: seq<string>, r: Record)
    requires i < |cols| && Requested(names, cols[i].name) && !(0 <= cols[i].idx < |r|)
    ensures BadIndex(Matching(cols, names), r)
  {
    var picked := Matching(cols[..i], names);
    MatchingStep(cols, i, names);
    assert BadIndex(picked + [cols[i]], r) by {
      assert (picked + [cols[i]])[|picked|] == cols[i];
    }
    MatchingAppend(cols[..i + 1], cols[i + 1..], names);
    assert cols[..i + 1] + cols[i + 1..] == cols;
    BadIndexExtends(picked + [cols[i]], Matching(cols[i + 1..], names), r);
  }

  lemma BadIndexExtends(a: seq<Column>, b: seq<Column>, r: Record)
    requires BadIndex(a, r)
    ensures BadIndex(a + b, r)
  {
    var k :| 0 <= k < |a| && !(0 <= a[k].idx < |r|);
    assert (a + b)[k] == a[k];
  }

  /**
    Get: with no names, the row with all columns; otherwise the columns some name matches
    case-insensitively, in frame order, with the row's values at their indices; it fails with
    ColumnsNotFoundErr exactly when the number of matched columns differs from the number of
    names.
  */
  lemma GetOutcome(cols: seq<Column>, rows: seq<Record>, row: int, names: seq<string>)
    requires 0 <= row < |rows|
    requires forall c :: c in cols ==> 0 <= c.idx < |rows[row]|
    ensures names == [] ==> GetSpec(cols, rows, row, names) == Success(View(cols, [rows[row]]))
    ensures names != [] ==> var m := Matching(cols, names);
      && (GetSpec(cols, rows, row, names).Failure? <==> |m| != |names|)
      && (|m| != |names| ==> GetSpec(cols, rows, row, names) == Failure(ColumnsNotFoundErr(HeaderOf(cols), names)))
      && (|m| == |names| ==> var v := GetSpec(cols, rows, row, names).value;
            && (forall c :: c in v.columns <==> c in cols && Requested(names, c.name))
            && |v.rows| == 1 && |v.rows[0]| == |m|
            && (forall k :: 0 <= k < |m| ==> v.rows[0][k] == rows[row][m[k].idx]))
  {
    if names != [] {
      var m := Matching(cols, names);
      forall c ensures c in m <==> c in cols && Requested(names, c.name) {
        MatchingMembers(cols, names, c);
      }
      forall k | 0 <= k < |m| ensures 0 <= m[k].idx < |rows[row]| {
        assert m[k] in m;
      }
    }
  }

  /**
    The count check can be fooled: two columns matching one name make up for a name that
    matches nothing, so Get succeeds although "b" is not a column.
  */
  lemma GetCountQuirk(cols: seq<Column>, rows: seq<Record>, names: seq<string>)
    requires cols == [Column("a", 0, []), Column("A", 1, [])]
    requires rows == [["x", "y"]] && names == ["a", "b"]
    ensures GetSpec(cols, rows, 0, names) == Success(View(cols, rows))
    ensures !(exists c :: c in cols && EqualFold(c.name, names[1]))
  {
    QuirkMatching(cols);
    assert Values(cols, rows[0]) == rows[0] by {
      assert !BadIndex(cols, rows[0]);
    }
    GetAllMatch(cols, rows, 0, names);
    QuirkNoB(cols);
  }

  lemma QuirkMatching(cols: seq<Column>)
    requires cols == [Column("a", 0, []), Column("A", 1, [])]
    ensures Matching(cols, ["a", "b"]) == cols
  {
    var names := ["a", "b"];
    assert Lower("a") == "a" && Lower("A") == "a";
    assert Requested(names, "a") by { assert EqualFold(names[0], "a"); }
    assert Requested(names, "A") by { assert EqualFold(names[0], "A"); }
    MatchingStep(cols, 0, names);
    MatchingStep(cols, 1, names);
    assert cols[..0] == [] && cols[..2] == cols;
  }

  lemma QuirkNoB(cols: seq<Column>)
    requires cols == [Column("a", 0, []), Column("A", 1, [])]
    ensures !(exists c :: c in cols && EqualFold(c.name, "b"))
  {
    assert Lower("a") == "a" && Lower("A") == "a" && Lower("b") == "b";
    forall c | c in cols ensures !EqualFold(c.name, "b") {
      assert c == cols[0] || c == cols[1];
    }
  }

  /** Get when every column matches and there are as many names as columns. */
  lemma GetAllMatch(cols: seq<Column>, rows: seq<Record>, row: int, names: seq<string>)
    requires 0 <= row < |rows| && names != []
    requires Matching(cols, names) == cols && |cols| == |names|
    requires !BadIndex(cols, rows[row])
    ensures GetSpec(cols, rows, row, names) == Success(View(cols, [Values(cols, rows[row])]))
  {
  }

  /** A requested name twice over one column: Get fails although the column exists. */
  lemma GetDuplicateNameQuirk(cols: seq<Column>, rows: seq<Record>, names: seq<string>)
    requires cols == [Column("a", 0, [])] && rows == [["x"]] && names == ["a", "a"]
    ensures GetSpec(cols, rows, 0, names) == Failure(ColumnsNotFoundErr(["a"], names))
  {
    assert Requested(names, "a") by { assert EqualFold(names[0], "a"); }
    assert cols[..0] == [];
    assert Matching(cols, names) == cols;
    assert !BadIndex(cols, rows[0]);
    assert HeaderOf(cols) == ["a"];
  }

  // ---------------------------------------------------------------- options and NewDataframe

  datatype DfOption =
    | RecordsFromText(b: string, newLine: string, sep: string)  // WithRecordsFromText
    | ProvidedColumns(h: Record)                                // WithProvidedColumns
    | InterpretedColumns                                        // WithInterpretedColumns

  function ApplySpec(f: Frame, o: DfOption): (Frame, Option<DfError>)
  {
    match o
    case RecordsFromText(b, newLine, sep) => (f.(rows := f.rows + TextRows(b, newLine, sep)), None)
    case ProvidedColumns(h) => InterpretSpec(f, h)
    case InterpretedColumns => (f.(interpret := true), None)
  }

  /** The options in order, stopping at the first error. */
  function ApplyAllSpec(f: Frame, opts: seq<DfOption>): (Frame, Option<DfError>)
  {
    if opts == [] then (f, None)
    else
      var (g, err) := ApplyAllSpec(f, opts[..|opts| - 1]);
      if err.Some? then (g, err) else ApplySpec(g, opts[|opts| - 1])
  }

  /** NewDataframe(opts...). */
  function NewSpec(opts: seq<DfOption>): Result<Frame, DfError>
  {
    var (f, err) := ApplyAllSpec(EmptyFrame, opts);
    if err.Some? then Failure(err.value)
    else if f.interpret && f.rows == [] then Failure(Panic)
    else
      var g := if f.interpret then InterpretSpec(f, f.rows[0]).0 else f;
      var (h, cerr) := CleanSpec(g);
      if cerr.Some? then Failure(Panic) else Success(h)
  }

  /** A frame's own first row always interprets: the error of the flag path cannot occur. */
  lemma InterpretFirstRow(f: Frame)
    requires f.rows != []
    ensures InterpretSpec(f, f.rows[0]).1 == None
  {
  }

  /** WithRecordsFromText never fails and only appends rows. */
  lemma TextOptionNeverFails(f: Frame, b: string, newLine: string, sep: string)
    ensures ApplySpec(f, RecordsFromText(b, newLine, sep)).1 == None
    ensures ApplySpec(f, RecordsFromText(b, newLine, sep)).0.rows[..|f.rows|] == f.rows
  {
  }

  /** If option k is the first to fail, NewDataframe returns its error. */
  lemma {:induction false} NewFirstError(opts: seq<DfOption>, k: nat)
    requires k < |opts|
    requires ApplyAllSpec(EmptyFrame, opts[..k]).1 == None
    requires ApplySpec(ApplyAllSpec(EmptyFrame, opts[..k]).0, opts[k]).1.Some?
    ensures NewSpec(opts) == Failure(ApplySpec(ApplyAllSpec(EmptyFrame, opts[..k]).0, opts[k]).1.value)
  {
    FirstErrorSticks(opts, k, |opts|);
    assert opts[..|opts|] == opts;
  }

  lemma {:induction false} FirstErrorSticks(opts: seq<DfOption>, k: nat, n: nat)
    requires k < n <= |opts|
    requires ApplyAllSpec(EmptyFrame, opts[..k]).1 == None
    requires ApplySpec(ApplyAllSpec(EmptyFrame, opts[..k]).0, opts[k]).1.Some?
    ensures ApplyAllSpec(EmptyFrame, opts[..n]) == ApplySpec(ApplyAllSpec(EmptyFrame, opts[..k]).0, opts[k])
  {
    ApplyAllStep(EmptyFrame, opts, k);
    ErrorSticks(EmptyFrame, opts, k + 1, n);
  }

  /** Once an option has failed, the options after it change nothing. */
  lemma {:induction false} ErrorSticks(f: Frame, opts: seq<DfOption>, m: nat, n: nat)
    requires m <= n <= |opts|
    requires ApplyAllSpec(f, opts[..m]).1.Some?
    ensures ApplyAllSpec(f, opts[..n]) == ApplyAllSpec(f, opts[..m])
    decreases n
  {
    if n > m {
      ErrorSticks(f, opts, m, n - 1);
      ErrorStep(f, opts, n - 1);
    }
  }

  lemma ErrorStep(f: Frame, opts: seq<DfOption>, n: nat)
    requires n < |opts|
    requires ApplyAllSpec(f, opts[..n]).1.Some?
    ensures ApplyAllSpec(f, opts[..n + 1]) == ApplyAllSpec(f, opts[..n])
  {
    assert opts[..n + 1][..n] == opts[..n];
  }

  lemma ApplyAllStep(f: Frame, opts: seq<DfOption>, n: nat)
    requires n < |opts|
    ensures ApplyAllSpec(f, opts[..n + 1])
         == if ApplyAllSpec(f, opts[..n]).1.Some? then ApplyAllSpec(f, opts[..n])
            else ApplySpec(ApplyAllSpec(f, opts[..n]).0, opts[n])
  {
    assert opts[..n + 1][..n] == opts[..n];
  }

  /** Whatever NewDataframe returns has been through clean: cleaning it again changes nothing. */
  lemma NewIsClean(opts: seq<DfOption>)
    requires NewSpec(opts).Success?
    ensures CleanSpec(NewSpec(opts).value) == (NewSpec(opts).value, None)
  {
    var (f, err) := ApplyAllSpec(EmptyFrame, opts);
    var g := if f.interpret then InterpretSpec(f, f.rows[0]).0 else f;
    CleanIdempotent(g);
  }

  // ---------------------------------------------------------------- the dataframe object

  class Dataframe {
    var columns: seq<Column>
    var rows: seq<Record>
    var interpret: bool

    function State(): Frame
      reads this
    {
      Frame(columns, rows, interpret)
    }

    /** new(Dataframe). */
    constructor ()
      ensures State() == EmptyFrame
    {
      columns := [];
      rows := [];
      interpret := false;
    }

    /** Header(). */
    method Header() returns (header: seq<string>)
      ensures header == HeaderOf(columns)
    {
      var a := new string[|columns|];
      var i := 0;
      while i < |columns|
        invariant 0 <= i <= |columns|
        invariant forall k :: 0 <= k < i ==> a[k] == columns[k].name
      {
        a[i] := columns[i].name;
        i := i + 1;
      }
      header := a[..];
    }

    /** The closure of WithRecordsFromText(b, newLine, sep). */
    method WithRecordsFromText(b: string, newLine: string, sep: string) returns (err: Option<DfError>)
      modifies this
      ensures (State(), err) == ApplySpec(old(State()), RecordsFromText(b, newLine, sep))
    {
      var csvRecords := SplitOn(b, newLine);
      ghost var rows0 := rows;
      var i := 0;
      while i < |csvRecords|
        invariant 0 <= i <= |csvRecords|
        invariant columns == old(columns) && interpret == old(interpret)
        invariant |rows| == |rows0| + i && rows[..|rows0|] == rows0
        invariant forall k :: 0 <= k < i ==> rows[|rows0| + k] == SplitOn(csvRecords[k], sep)
      {
        rows := rows + [SplitOn(csvRecords[i], sep)];
        i := i + 1;
      }
      assert rows == rows0 + TextRows(b, newLine, sep);
      return None;
    }

    /** interpretColumns(d, h). */
    method InterpretColumns(h: Record) returns (err: Option<DfError>)
      modifies this
      ensures (State(), err) == InterpretSpec(old(State()), h)
    {
      if rows == [] {
        return Some(Panic);
      }
      if h != rows[0] {
        return Some(HeaderInterpretErr(h, rows[0]));
      }
      ghost var cols0 := columns;
      var idx := 0;
      while idx < |h|
        invariant 0 <= idx <= |h|
        invariant rows == old(rows) && interpret == old(interpret)
        invariant |columns| == |cols0| + idx && columns[..|cols0|] == cols0
        invariant forall k :: 0 <= k < idx ==> columns[|cols0| + k] == Column(ColumnName(h[k]), k, [])
      {
        columns := columns + [Column(ColumnName(h[idx]), idx, [])];
        idx := idx + 1;
      }
      assert columns == cols0 + ColumnsFrom(h);
      rows := rows[1..];
      return None;
    }

    /** Applies one option closure. */
    method Apply(o: DfOption) returns (err: Option<DfError>)
      modifies this
      ensures (State(), err) == ApplySpec(old(State()), o)
    {
      match o
      case RecordsFromText(b, newLine, sep) =>
        err := WithRecordsFromText(b, newLine, sep);
      case ProvidedColumns(h) =>
        err := InterpretColumns(h);
      case InterpretedColumns =>
        interpret := true;
        err := None;
    }

    /** clean(). */
    method Clean() returns (err: Option<DfError>)
      modifies this
      ensures (State(), err) == CleanSpec(old(State()))
    {
      var dfWidth := |columns|;
      var cleanRecords: seq<Record> := [];
      var i := 0;
      while i < |rows|
        invariant 0 <= i <= |rows|
        invariant columns == old(columns) && rows == old(rows) && interpret == old(interpret)
        invariant !AnyRowPanics(columns, rows[..i])
        invariant cleanRecords == CleanRows(columns, rows[..i])
      {
        var r := rows[i];
        assert rows[..i + 1] == rows[..i] + [r];
        if |r| == dfWidth {
          var header := Header();
          if |header| == 0 {
            assert RowPanics(columns, rows[i]);
            return Some(Panic);
          }
          var cr := CleanRecord(r);
          if |cr| == 0 {
            assert RowPanics(columns, rows[i]);
            return Some(Panic);
          }
          if !EqualFold(header[0], cr[0]) {
            cleanRecords := cleanRecords + [r];
          }
        }
        assert !RowPanics(columns, r);
        i := i + 1;
      }
      assert rows[..|rows|] == rows;
      rows := cleanRecords;
      return None;
    }

    /** Drop(i...). */
    method Drop(idx: seq<int>) returns (err: Option<DfError>)
      modifies this
      ensures (State(), err) == DropSpec(old(State()), idx)
    {
      if idx == [] {
        return Some(Panic);
      }
      var lo, hi := Min(idx), Max(idx);
      if lo < 0 || hi > |rows| {
        return Some(Panic);
      }
      rows := rows[..lo] + rows[hi..];
      err := Clean();
    }

    /** Get(row, columns...). */
    method Get(row: int, names: seq<string>) returns (res: Result<View, DfError>)
      ensures res == GetSpec(columns, rows, row, names)
    {
      if row < 0 || row >= |rows| {
        return Failure(Panic);
      }
      var r := rows[row];
      if |names| == 0 {
        return Success(View(columns, [r]));
      }
      var result: Record := [];
      var picked: seq<Column> := [];
      var i := 0;
      while i < |columns|
        invariant 0 <= i <= |columns|
        invariant picked == Matching(columns[..i], names)
        invariant !BadIndex(picked, r)
        invariant result == Values(picked, r)
      {
        var c := columns[i];
        MatchingStep(columns, i, names);
        if Requested(names, c.name) {
          if c.idx < 0 || c.idx >= |r| {
            BadIndexAbort(columns, i, names, r);
            return Failure(Panic);
          }
          ValuesStep(picked, c, r);
          result := result + [r[c.idx]];
          picked := picked + [c];
        }
        i := i + 1;
      }
      assert columns[..|columns|] == columns;
      if |picked| != |names| {
        var available := Header();
        return Failure(ColumnsNotFoundErr(available, names));
      }
      return Success(View(picked, [result]));
    }
  }

  /** NewDataframe(opts...): the new dataframe, or no dataframe and the error. */
  method NewDataframe(opts: seq<DfOption>) returns (df: Dataframe?, err: Option<DfError>)
    ensures err.None? <==> NewSpec(opts).Success?
    ensures err.None? ==> df != null && fresh(df) && df.State() == NewSpec(opts).value
    ensures err.Some? ==> df == null && err.value == NewSpec(opts).error
  {
    var d := new Dataframe();
    var i := 0;
    while i < |opts|
      invariant 0 <= i <= |opts|
      invariant fresh(d)
      invariant ApplyAllSpec(EmptyFrame, opts[..i]) == (d.State(), None)
    {
      assert opts[..i + 1][..i] == opts[..i];
      var e := d.Apply(opts[i]);
      if e.Some? {
        FirstErrorSticks(opts, i, |opts|);
        assert opts[..|opts|] == opts;
        return null, e;
      }
      i := i + 1;
    }
    assert opts[..|opts|] == opts;
    if d.interpret {
      if |d.rows| == 0 {
        return null, Some(Panic);
      }
      var ignored := d.InterpretColumns(d.rows[0]);
    }
    var cerr := d.Clean();
    if cerr.Some? {
      return null, Some(Panic);
    }
    return d, None;
  }
}
