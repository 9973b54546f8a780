/**
  The part of encoding/json that the log engine relies on.

  A log record (logWriter.go's `LogRecord`, a map from string keys to values) is modelled as
  a JSON object whose values are strings, kept as an ordered list of fields; a log file holds a
  JSON array of such objects. Encoding escapes `"` and `\`; decoding accepts exactly what the
  encoder produces, surrounded by optional whitespace, and fails on anything else. This is a
  codec of its own, not encoding/json: the differences are listed in the README. The round
  trips `DecodeRecord(EncodeRecord(r)) == Some(r)` and
  `DecodeRecords(EncodeRecords(rs)) == Some(rs)` are proved below.
*/
module Json {
  import opened Wrappers

  newtype byte = x: int | 0 <= x < 256
  type Bytes = seq<byte>

  const QUOTE: byte := 34
  const BACKSLASH: byte := 92
  const COLON: byte := 58
  const COMMA: byte := 44
  const LBRACE: byte := 123
  const RBRACE: byte := 125
  const LBRACKET: byte := 91
  const RBRACKET: byte := 93

  predicate IsSpace(b: byte) {
    b == 32 || b == 9 || b == 10 || b == 13
  }

  datatype Field = Field(key: Bytes, value: Bytes)
  datatype LogRecord = LogRecord(fields: seq<Field>)

  // ---------------------------------------------------------------- encoding

  function Escape(s: Bytes): Bytes
  {
    if s == [] then []
    else (if s[0] == QUOTE || s[0] == BACKSLASH then [BACKSLASH, s[0]] else [s[0]]) + Escape(s[1..])
  }

  function EncodeString(s: Bytes): Bytes
  {
    [QUOTE] + Escape(s) + [QUOTE]
  }

  function EncodeField(f: Field): Bytes
  {
    EncodeString(f.key) + [COLON] + EncodeString(f.value)
  }

  /** The fields of a non-empty object, comma separated, followed by the closing brace. */
  function EncodeFieldList(fs: seq<Field>): Bytes
    requires |fs| > 0
    decreases |fs|
  {
    EncodeField(fs[0]) + (if |fs| == 1 then [RBRACE] else [COMMA] + EncodeFieldList(fs[1..]))
  }

  function EncodeRecord(r: LogRecord): Bytes
  {
    if r.fields == [] then [LBRACE, RBRACE] else [LBRACE] + EncodeFieldList(r.fields)
  }

  /** The records of a non-empty array, comma separated, followed by the closing bracket. */
  function EncodeRecordList(rs: seq<LogRecord>): Bytes
    requires |rs| > 0
    decreases |rs|
  {
    EncodeRecord(rs[0]) + (if |rs| == 1 then [RBRACKET] else [COMMA] + EncodeRecordList(rs[1..]))
  }

  /** The model's encoding of a []LogRecord as a JSON array (the role json.Marshal plays in flush). */
  function EncodeRecords(rs: seq<LogRecord>): Bytes
  {
    if rs == [] then [LBRACKET, RBRACKET] else [LBRACKET] + EncodeRecordList(rs)
  }

  // ---------------------------------------------------------------- decoding
  // Each parser returns what it read and the input left over, which is strictly shorter.

  /** The body of a string after its opening quote, up to and including the closing quote. */
  function ParseStringBody(s: Bytes): (r: Option<(Bytes, Bytes)>)
    ensures r.Some? ==> |r.value.1| < |s|
    decreases |s|
  {
    if |s| == 0 then None
    else if s[0] == QUOTE then Some(([], s[1..]))
    else if s[0] == BACKSLASH then
      if |s| >= 2 && (s[1] == QUOTE || s[1] == BACKSLASH) then
        match ParseStringBody(s[2..])
        case None => None
        case Some((body, rest)) => Some(([s[1]] + body, rest))
      else None
    else
      match ParseStringBody(s[1..])
      case None => None
      case Some((body, rest)) => Some(([s[0]] + body, rest))
  }

  function ParseString(s: Bytes): (r: Option<(Bytes, Bytes)>)
    ensures r.Some? ==> |r.value.1| < |s|
  {
    if |s| > 0 && s[0] == QUOTE then ParseStringBody(s[1..]) else None
  }

  function ParseField(s: Bytes): (r: Option<(Field, Bytes)>)
    ensures r.Some? ==> |r.value.1| < |s|
  {
    match ParseString(s)
    case None => None
    case Some((k, r1)) =>
      if |r1| > 0 && r1[0] == COLON then
        match ParseString(r1[1..])
        case None => None
        case Some((v, r2)) => Some((Field(k, v), r2))
      else None
  }

  function ParseFieldList(s: Bytes): (r: Option<(seq<Field>, Bytes)>)
    ensures r.Some? ==> |r.value.1| < |s|
    decreases |s|
  {
    match ParseField(s)
    case None => None
    case Some((f, r1)) =>
      if |r1| > 0 && r1[0] == RBRACE then Some(([f], r1[1..]))
      else if |r1| > 0 && r1[0] == COMMA then
        match ParseFieldList(r1[1..])
        case None => None
        case Some((fs, r2)) => Some(([f] + fs, r2))
      else None
  }

  function ParseRecord(s: Bytes): (r: Option<(LogRecord, Bytes)>)
    ensures r.Some? ==> |r.value.1| < |s|
  {
    if |s| >= 2 && s[0] == LBRACE && s[1] == RBRACE then Some((LogRecord([]), s[2..]))
    else if |s| > 0 && s[0] == LBRACE then
      match ParseFieldList(s[1..])
      case None => None
      case Some((fs, rest)) => Some((LogRecord(fs), rest))
    else None
  }

  function ParseRecordList(s: Bytes): (r: Option<(seq<LogRecord>, Bytes)>)
    ensures r.Some? ==> |r.value.1| < |s|
    decreases |s|
  {
    match ParseRecord(s)
    case None => None
    case Some((x, r1)) =>
      if |r1| > 0 && r1[0] == RBRACKET then Some(([x], r1[1..]))
      else if |r1| > 0 && r1[0] == COMMA then
        match ParseRecordList(r1[1..])
        case None => None
        case Some((xs, r2)) => Some(([x] + xs, r2))
      else None
  }

  function ParseRecords(s: Bytes): Option<(seq<LogRecord>, Bytes)>
  {
    if |s| >= 2 && s[0] == LBRACKET && s[1] == RBRACKET then Some(([], s[2..]))
    else if |s| > 0 && s[0] == LBRACKET then ParseRecordList(s[1..])
    else None
  }

  function SkipSpace(s: Bytes): Bytes
  {
    if |s| > 0 && IsSpace(s[0]) then SkipSpace(s[1..]) else s
  }

  predicate AllSpace(s: Bytes)
  {
    forall i :: 0 <= i < |s| ==> IsSpace(s[i])
  }

  /** The model's decoding of one JSON object into a LogRecord (the role json.Unmarshal plays in Write). */
  function DecodeRecord(b: Bytes): Option<LogRecord>
  {
    match ParseRecord(SkipSpace(b))
    case Some((r, rest)) => if AllSpace(rest) then Some(r) else None
    case None => None
  }

  /** The model's decoding of a JSON array into a []LogRecord (the role json.Unmarshal plays in flush and getLogs). */
  function DecodeRecords(b: Bytes): Option<seq<LogRecord>>
  {
    match ParseRecords(SkipSpace(b))
    case Some((rs, rest)) => if AllSpace(rest) then Some(rs) else None
    case None => None
  }

  // ---------------------------------------------------------------- round trips

  lemma ConcatAssoc(a: Bytes, b: Bytes, c: Bytes)
    ensures (a + b) + c == a + (b + c)
  {
  }

  lemma {:induction false} StringBodyRoundTrip(s: Bytes, rest: Bytes)
    ensures ParseStringBody(Escape(s) + [QUOTE] + rest) == Some((s, rest))
  {
    if s == [] {
      assert Escape(s) + [QUOTE] + rest == [QUOTE] + rest;
    } else {
      StringBodyRoundTrip(s[1..], rest);
      StringBodyConsRoundTrip(s, rest);
    }
  }

  lemma StringBodyConsRoundTrip(s: Bytes, rest: Bytes)
    requires s != []
    requires ParseStringBody(Escape(s[1..]) + [QUOTE] + rest) == Some((s[1..], rest))
    ensures ParseStringBody(Escape(s) + [QUOTE] + rest) == Some((s, rest))
  {
    var e := Escape(s[1..]);
    var tail := e + [QUOTE] + rest;
    var h := if s[0] == QUOTE || s[0] == BACKSLASH then [BACKSLASH, s[0]] else [s[0]];
    assert Escape(s) == h + e;
    assert Escape(s) + [QUOTE] + rest == h + tail by {
      ConcatAssoc(h, e, [QUOTE]);
      ConcatAssoc(h, e + [QUOTE], rest);
    }
    if s[0] == QUOTE || s[0] == BACKSLASH {
      assert (h + tail)[2..] == tail;
    } else {
      assert (h + tail)[1..] == tail;
    }
    assert [s[0]] + s[1..] == s;
  }

  lemma StringRoundTrip(s: Bytes, rest: Bytes)
    ensures ParseString(EncodeString(s) + rest) == Some((s, rest))
  {
    var t := EncodeString(s) + rest;
    assert t[1..] == Escape(s) + [QUOTE] + rest;
    StringBodyRoundTrip(s, rest);
  }

  lemma FieldRoundTrip(f: Field, rest: Bytes)
    ensures ParseField(EncodeField(f) + rest) == Some((f, rest))
  {
    var t := EncodeField(f) + rest;
    var r1 := [COLON] + EncodeString(f.value) + rest;
    assert t == EncodeString(f.key) + r1;
    StringRoundTrip(f.key, r1);
    assert r1[1..] == EncodeString(f.value) + rest;
    StringRoundTrip(f.value, rest);
  }

  lemma ParseFieldListLast(t: Bytes, f: Field, rest: Bytes)
    requires ParseField(t) == Some((f, [RBRACE] + rest))
    ensures ParseFieldList(t) == Some(([f], rest))
  {
    assert ([RBRACE] + rest)[1..] == rest;
  }

  lemma ParseFieldListCons(t: Bytes, f: Field, u: Bytes, fs: seq<Field>, rest: Bytes)
    requires ParseField(t) == Some((f, [COMMA] + u))
    requires ParseFieldList(u) == Some((fs, rest))
    ensures ParseFieldList(t) == Some(([f] + fs, rest))
  {
    assert ([COMMA] + u)[1..] == u;
  }

  lemma FieldListSplit(fs: seq<Field>, rest: Bytes)
    requires |fs| > 0
    ensures EncodeFieldList(fs) + rest
         == EncodeField(fs[0]) + (if |fs| == 1 then [RBRACE] + rest else [COMMA] + (EncodeFieldList(fs[1..]) + rest))
  {
    var h := EncodeField(fs[0]);
    if |fs| == 1 {
      assert EncodeFieldList(fs) == h + [RBRACE];
      ConcatAssoc(h, [RBRACE], rest);
    } else {
      var m := [COMMA] + EncodeFieldList(fs[1..]);
      assert EncodeFieldList(fs) == h + m;
      ConcatAssoc(h, m, rest);
    }
  }

  lemma {:induction false} FieldListRoundTrip(fs: seq<Field>, rest: Bytes)
    requires |fs| > 0
    ensures ParseFieldList(EncodeFieldList(fs) + rest) == Some((fs, rest))
    decreases |fs|
  {
    if |fs| == 1 {
      LastFieldRoundTrip(fs, rest);
    } else {
      FieldListRoundTrip(fs[1..], rest);
      FieldConsRoundTrip(fs, rest);
    }
  }

  lemma LastFieldRoundTrip(fs: seq<Field>, rest: Bytes)
    requires |fs| == 1
    ensures ParseFieldList(EncodeFieldList(fs) + rest) == Some((fs, rest))
  {
    var t := EncodeFieldList(fs) + rest;
    FieldListSplit(fs, rest);
    FieldRoundTrip(fs[0], [RBRACE] + rest);
    ParseFieldListLast(t, fs[0], rest);
    assert [fs[0]] == fs;
  }

  lemma FieldConsRoundTrip(fs: seq<Field>, rest: Bytes)
    requires |fs| > 1
    requires ParseFieldList(EncodeFieldList(fs[1..]) + rest) == Some((fs[1..], rest))
    ensures ParseFieldList(EncodeFieldList(fs) + rest) == Some((fs, rest))
  {
    var t := EncodeFieldList(fs) + rest;
    var u := EncodeFieldList(fs[1..]) + rest;
    FieldListSplit(fs, rest);
    FieldRoundTrip(fs[0], [COMMA] + u);
    ParseFieldListCons(t, fs[0], u, fs[1..], rest);
    assert [fs[0]] + fs[1..] == fs;
  }

  lemma FieldListStartsWithQuote(fs: seq<Field>)
    requires |fs| > 0
    ensures EncodeFieldList(fs)[0] == QUOTE
  {
  }

  lemma RecordRoundTrip(r: LogRecord, rest: Bytes)
    ensures ParseRecord(EncodeRecord(r) + rest) == Some((r, rest))
  {
    var t := EncodeRecord(r) + rest;
    if r.fields == [] {
      assert t[2..] == rest;
    } else {
      FieldListStartsWithQuote(r.fields);
      assert t[1..] == EncodeFieldList(r.fields) + rest;
      FieldListRoundTrip(r.fields, rest);
    }
  }

  lemma ParseRecordListLast(t: Bytes, x: LogRecord, rest: Bytes)
    requires ParseRecord(t) == Some((x, [RBRACKET] + rest))
    ensures ParseRecordList(t) == Some(([x], rest))
  {
    assert ([RBRACKET] + rest)[1..] == rest;
  }

  lemma ParseRecordListCons(t: Bytes, x: LogRecord, u: Bytes, xs: seq<LogRecord>, rest: Bytes)
    requires ParseRecord(t) == Some((x, [COMMA] + u))
    requires ParseRecordList(u) == Some((xs, rest))
    ensures ParseRecordList(t) == Some(([x] + xs, rest))
  {
    assert ([COMMA] + u)[1..] == u;
  }

  lemma RecordListSplit(rs: seq<LogRecord>, rest: Bytes)
    requires |rs| > 0
    ensures EncodeRecordList(rs) + rest
         == EncodeRecord(rs[0]) + (if |rs| == 1 then [RBRACKET] + rest else [COMMA] + (EncodeRecordList(rs[1..]) + rest))
  {
    var h := EncodeRecord(rs[0]);
    if |rs| == 1 {
      assert EncodeRecordList(rs) == h + [RBRACKET];
      ConcatAssoc(h, [RBRACKET], rest);
    } else {
      var m := [COMMA] + EncodeRecordList(rs[1..]);
      assert EncodeRecordList(rs) == h + m;
      ConcatAssoc(h, m, rest);
    }
  }

  lemma {:induction false} RecordListRoundTrip(rs: seq<LogRecord>, rest: Bytes)
    requires |rs| > 0
    ensures ParseRecordList(EncodeRecordList(rs) + rest) == Some((rs, rest))
    decreases |rs|
  {
    if |rs| == 1 {
      LastRecordRoundTrip(rs, rest);
    } else {
      RecordListRoundTrip(rs[1..], rest);
      RecordConsRoundTrip(rs, rest);
    }
  }

  lemma LastRecordRoundTrip(rs: seq<LogRecord>, rest: Bytes)
    requires |rs| == 1
    ensures ParseRecordList(EncodeRecordList(rs) + rest) == Some((rs, rest))
  {
    var t := EncodeRecordList(rs) + rest;
    RecordListSplit(rs, rest);
    RecordRoundTrip(rs[0], [RBRACKET] + rest);
    ParseRecordListLast(t, rs[0], rest);
    assert [rs[0]] == rs;
  }

  lemma RecordConsRoundTrip(rs: seq<LogRecord>, rest: Bytes)
    requires |rs| > 1
    requires ParseRecordList(EncodeRecordList(rs[1..]) + rest) == Some((rs[1..], rest))
    ensures ParseRecordList(EncodeRecordList(rs) + rest) == Some((rs, rest))
  {
    var t := EncodeRecordList(rs) + rest;
    var u := EncodeRecordList(rs[1..]) + rest;
    RecordListSplit(rs, rest);
    RecordRoundTrip(rs[0], [COMMA] + u);
    ParseRecordListCons(t, rs[0], u, rs[1..], rest);
    assert [rs[0]] + rs[1..] == rs;
  }

  lemma RecordListStartsWithBrace(rs: seq<LogRecord>)
    requires |rs| > 0
    ensures EncodeRecordList(rs)[0] == LBRACE
  {
  }

  /** Encoding a record and decoding it again gives the record back. */
  lemma DecodeEncodeRecord(r: LogRecord)
    ensures DecodeRecord(EncodeRecord(r)) == Some(r)
  {
    var b := EncodeRecord(r);
    assert SkipSpace(b) == b;
    RecordRoundTrip(r, []);
    assert b + [] == b;
  }

  /** Encoding a record sequence and decoding it again gives the sequence back. */
  lemma DecodeEncodeRecords(rs: seq<LogRecord>)
    ensures DecodeRecords(EncodeRecords(rs)) == Some(rs)
  {
    var b := EncodeRecords(rs);
    assert SkipSpace(b) == b;
    if rs != [] {
      var body := EncodeRecordList(rs);
      RecordListStartsWithBrace(rs);
      assert b == [LBRACKET] + body && b[1] == LBRACE && b[1..] == body;
      RecordListRoundTrip(rs, []);
      assert body + [] == body;
      assert ParseRecords(b) == Some((rs, []));
    }
  }

  /** A zero-length input never decodes, neither as one record nor as an array. */
  lemma DecodeEmptyFails()
    ensures DecodeRecord([]) == None && DecodeRecords([]) == None
  {
  }

  /** Encoded arrays are never empty, so a rewritten log file always has content. */
  lemma EncodeRecordsNonEmpty(rs: seq<LogRecord>)
    ensures |EncodeRecords(rs)| >= 2
  {
  }
}
