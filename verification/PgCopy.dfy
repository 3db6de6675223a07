/**
 The PostgreSQL binary COPY writer (pgBinaryCopyWriter) and a reader for the documented
 "Binary Format" of COPY: signature, flags, header extension, then tuples of a 16-bit field
 count and, per field, a 32-bit length and the bytes, until a field count of -1.
 */
module PgCopy {
  import opened Common

  type Row = seq<seq<Byte>>

  /** A field as the server reads it: length -1 is NULL. */
  datatype Field = Null | Value(bytes: seq<Byte>)

  // ---------------------------------------------------------------------------------
  // Writing
  // ---------------------------------------------------------------------------------

  /** BigEndian.PutUint16 and PutUint32 of a length, cut to the width. */
  function Put16(n: nat): (s: seq<Byte>)
    ensures |s| == 2
  {
    [(n / 256) % 256, n % 256]
  }

  function Put32(n: nat): (s: seq<Byte>)
    ensures |s| == 4
  {
    [(n / 0x100_0000) % 256, (n / 0x1_0000) % 256, (n / 256) % 256, n % 256]
  }

  const SIGNATURE: seq<Byte> := [0x50, 0x47, 0x43, 0x4f, 0x50, 0x59, 0x0a, 0xff, 0x0d, 0x0a, 0x00]

  const HEADER: seq<Byte> := SIGNATURE + [0, 0, 0, 0] + [0, 0, 0, 0]

  const TRAILER: seq<Byte> := [0xff, 0xff]

  function FieldBytes(f: seq<Byte>): seq<Byte> { Put32(|f|) + f }

  function FieldsBytes(row: Row): seq<Byte> {
    if row == [] then [] else FieldBytes(row[0]) + FieldsBytes(row[1..])
  }

  function RowBytes(row: Row): seq<Byte> { Put16(|row|) + FieldsBytes(row) }

  function RowsBytes(rows: seq<Row>): seq<Byte> {
    if rows == [] then [] else RowBytes(rows[0]) + RowsBytes(rows[1..])
  }

  function FileBytes(rows: seq<Row>): seq<Byte> { HEADER + RowsBytes(rows) + TRAILER }

  lemma {:induction false} FieldsConcat(a: Row, b: Row)
    ensures FieldsBytes(a + b) == FieldsBytes(a) + FieldsBytes(b)
    decreases |a|
  {
    if a == [] {
      assert a + b == b;
    } else {
      assert (a + b)[1..] == a[1..] + b;
      FieldsConcat(a[1..], b);
    }
  }

  lemma FieldsNext(row: Row, i: nat)
    requires i < |row|
    ensures FieldsBytes(row[..i + 1]) == FieldsBytes(row[..i]) + FieldBytes(row[i])
  {
    assert row[..i + 1] == row[..i] + [row[i]];
    var last := [row[i]];
    FieldsConcat(row[..i], last);
    assert FieldsBytes(last[1..]) == [];
    assert FieldsBytes(last) == FieldBytes(row[i]);
  }

  /** The writer; `out` is what has been written to the underlying stream. */
  class CopyWriter {
    var out: seq<Byte>

    constructor ()
      ensures out == HEADER && |out| == 19
      ensures forall i :: 0 <= i < 6 ==> out[i] == "PGCOPY"[i] as int
      ensures out[6..11] == [0x0a, 0xff, 0x0d, 0x0a, 0x00] && out[11..] == [0, 0, 0, 0, 0, 0, 0, 0]
    {
      var header: seq<Byte> := SIGNATURE;
      header := header + [0, 0, 0, 0];
      header := header + [0, 0, 0, 0];
      out := header;
    }

    method WriteRow(fields: Row)
      modifies this
      ensures out == old(out) + RowBytes(fields)
    {
      out := out + Put16(|fields|);
      for i := 0 to |fields|
        invariant out == old(out) + (Put16(|fields|) + FieldsBytes(fields[..i]))
      {
        FieldsNext(fields, i);
        out := out + Put32(|fields[i]|);
        out := out + fields[i];
      }
      assert fields[..|fields|] == fields;
    }

    method Close()
      modifies this
      ensures out == old(out) + TRAILER
    {
      out := out + [0xff, 0xff];
    }
  }

  // ---------------------------------------------------------------------------------
  // Reading
  // ---------------------------------------------------------------------------------

  function Get16(s: seq<Byte>): int
    requires |s| >= 2
  {
    var a: int, b: int := s[0], s[1];
    var n := a * 256 + b;
    if n < 0x8000 then n else n - 0x1_0000
  }

  function Get32(s: seq<Byte>): int
    requires |s| >= 4
  {
    var a: int, b: int, c: int, d: int := s[0], s[1], s[2], s[3];
    var n := a * 0x100_0000 + b * 0x1_0000 + c * 256 + d;
    if n < 0x8000_0000 then n else n - 0x1_0000_0000
  }

  datatype Parsed<T> = Parsed(value: T, rest: seq<Byte>)

  function ReadField(s: seq<Byte>): (r: Option<Parsed<Field>>)
    ensures r.Some? ==> |r.value.rest| + 4 <= |s|
  {
    if |s| < 4 then None
    else
      var n, t := Get32(s), s[4..];
      if n == -1 then Some(Parsed(Null, t))
      else if n < 0 || |t| < n then None
      else Some(Parsed(Value(t[..n]), t[n..]))
  }

  function ReadFields(n: nat, s: seq<Byte>): (r: Option<Parsed<seq<Field>>>)
    ensures r.Some? ==> |r.value.value| == n && |r.value.rest| <= |s|
  {
    if n == 0 then Some(Parsed([], s))
    else
      var f := ReadField(s);
      if f.None? then None
      else
        var fs := ReadFields(n - 1, f.value.rest);
        if fs.None? then None
        else Some(Parsed([f.value.value] + fs.value.value, fs.value.rest))
  }

  /** Tuples up to the trailer, which must end the data. */
  function ReadRows(s: seq<Byte>): Option<seq<seq<Field>>>
    decreases |s|
  {
    if |s| < 2 then None
    else
      var n, t := Get16(s), s[2..];
      if n == -1 then if t == [] then Some([]) else None
      else if n < 0 then None
      else
        var fs := ReadFields(n, t);
        if fs.None? then None
        else
          var rows := ReadRows(fs.value.rest);
          if rows.None? then None else Some([fs.value.value] + rows.value)
  }

  function ReadFile(s: seq<Byte>): Option<seq<seq<Field>>> {
    if |s| < 19 || s[..11] != SIGNATURE || s[11..15] != [0, 0, 0, 0] || s[15..19] != [0, 0, 0, 0] then None
    else ReadRows(s[19..])
  }

  // ---------------------------------------------------------------------------------
  // The round trip
  // ---------------------------------------------------------------------------------

  function AsFields(row: Row): (r: seq<Field>)
    ensures |r| == |row|
  {
    if row == [] then [] else [Value(row[0])] + AsFields(row[1..])
  }

  function AsRows(rows: seq<Row>): (r: seq<seq<Field>>)
    ensures |r| == |rows|
  {
    if rows == [] then [] else [AsFields(rows[0])] + AsRows(rows[1..])
  }

  /** At most 32767 fields, each shorter than 2 GiB. */
  predicate Fits(row: Row) { |row| <= 0x7fff && ShortFields(row) }

  predicate ShortFields(row: Row) { forall i :: 0 <= i < |row| ==> |row[i]| <= 0x7fff_ffff }

  predicate AllFit(rows: seq<Row>) { forall i :: 0 <= i < |rows| ==> Fits(rows[i]) }

  lemma Multiple(d: nat, k: nat)
    requires 1 <= d
    ensures k <= d * k
  {}

  lemma Remainder(n: nat, k: nat, q: nat, r: nat)
    requires r < k && n == q * k + r
    ensures n % k == r
  {
    var p := n / k;
    assert n == p * k + n % k;
    if p < q {
      Multiple(q - p, k);
      assert false;
    }
    if q < p {
      Multiple(p - q, k);
      assert false;
    }
  }

  /** One digit more to the base 256. */
  lemma TopDigit(n: nat, k: nat)
    requires 0 < k
    ensures n % (k * 256) == (n / k % 256) * k + n % k
  {
    var a, m := n / k, n % k;
    var d, b := a % 256, a / 256;
    assert n == a * k + m && a == b * 256 + d;
    assert (b * 256 + d) * k + m == b * (k * 256) + (d * k + m);
    Multiple(256 - d, k);
    Remainder(n, k * 256, b, d * k + m);
  }

  lemma Digits(n: nat)
    ensures n % 0x1_0000 == ((n / 256) % 256) * 256 + n % 256
    ensures n % 0x1_0000_0000
            == ((n / 0x100_0000) % 256) * 0x100_0000 + ((n / 0x1_0000) % 256) * 0x1_0000 + ((n / 256) % 256) * 256 + n % 256
  {
    TopDigit(n, 256);
    TopDigit(n, 0x1_0000);
    TopDigit(n, 0x100_0000);
  }

  /** Numbers are written with the most significant byte first. */
  lemma PutIsBigEndian(n: nat)
    ensures var s := Put16(n); var a: int, b: int := s[0], s[1]; a * 0x100 + b == n % 0x1_0000
    ensures var s := Put32(n);
            var a: int, b: int, c: int, d: int := s[0], s[1], s[2], s[3];
            a * 0x100_0000 + b * 0x1_0000 + c * 0x100 + d == n % 0x1_0000_0000
  {
    Digits(n);
  }

  lemma Get16Put16(n: nat, t: seq<Byte>)
    ensures (Put16(n) + t)[2..] == t
    ensures var m := n % 0x1_0000; Get16(Put16(n) + t) == if m < 0x8000 then m else m - 0x1_0000
  {
    Digits(n);
  }

  lemma Get32Put32(n: nat, t: seq<Byte>)
    ensures (Put32(n) + t)[4..] == t
    ensures var m := n % 0x1_0000_0000; Get32(Put32(n) + t) == if m < 0x8000_0000 then m else m - 0x1_0000_0000
  {
    Digits(n);
    var s := Put32(n) + t;
    assert s[0] == (n / 0x100_0000) % 256 && s[1] == (n / 0x1_0000) % 256 && s[2] == (n / 256) % 256 && s[3] == n % 256;
  }

  lemma Associative<T>(a: seq<T>, b: seq<T>, c: seq<T>)
    ensures (a + b) + c == a + (b + c)
  {}

  lemma TakeDrop<T>(a: seq<T>, b: seq<T>)
    ensures (a + b)[..|a|] == a && (a + b)[|a|..] == b
  {}

  lemma Empty<T>(a: seq<T>)
    ensures [] + a == a && a + [] == a
  {}

  lemma FieldRoundTrip(f: seq<Byte>, t: seq<Byte>)
    requires |f| <= 0x7fff_ffff
    ensures ReadField(FieldBytes(f) + t) == Some(Parsed(Value(f), t))
  {
    FieldSplit(f, t);
    TakeDrop(f, t);
    FieldRead(|f|, f + t);
  }

  lemma FieldSplit(f: seq<Byte>, t: seq<Byte>)
    ensures FieldBytes(f) + t == Put32(|f|) + (f + t)
  {
    Associative(Put32(|f|), f, t);
  }

  lemma FieldRead(n: nat, t: seq<Byte>)
    requires n <= 0x7fff_ffff && n <= |t|
    ensures ReadField(Put32(n) + t) == Some(Parsed(Value(t[..n]), t[n..]))
  {
    Get32Put32(n, t);
    ReadFieldStep(Put32(n) + t, n, t);
  }

  lemma ReadFieldStep(s: seq<Byte>, n: nat, t: seq<Byte>)
    requires 4 <= |s| && Get32(s) == n && s[4..] == t && n <= |t|
    ensures ReadField(s) == Some(Parsed(Value(t[..n]), t[n..]))
  {}

  /** One step of ReadFields, with the field already parsed. */
  lemma ReadFieldsStep(n: nat, s: seq<Byte>, p: Parsed<Field>)
    requires 0 < n && ReadField(s) == Some(p)
    ensures var r := ReadFields(n - 1, p.rest);
            ReadFields(n, s) == if r.None? then None else Some(Parsed([p.value] + r.value.value, r.value.rest))
  {}

  lemma FieldThen(f: seq<Byte>, t: seq<Byte>, n: nat)
    requires 0 < n && |f| <= 0x7fff_ffff
    ensures var r := ReadFields(n - 1, t);
            ReadFields(n, FieldBytes(f) + t) == if r.None? then None else Some(Parsed([Value(f)] + r.value.value, r.value.rest))
  {
    FieldRoundTrip(f, t);
    ReadFieldsStep(n, FieldBytes(f) + t, Parsed(Value(f), t));
  }

  lemma FieldsSplit(row: Row, t: seq<Byte>)
    requires row != []
    ensures FieldsBytes(row) + t == FieldBytes(row[0]) + (FieldsBytes(row[1..]) + t)
  {
    Associative(FieldBytes(row[0]), FieldsBytes(row[1..]), t);
  }

  lemma {:induction false} FieldsRoundTrip(row: Row, t: seq<Byte>)
    requires ShortFields(row)
    ensures ReadFields(|row|, FieldsBytes(row) + t) == Some(Parsed(AsFields(row), t))
    decreases |row|
  {
    if row == [] {
      Empty(t);
    } else {
      var s := FieldsBytes(row[1..]) + t;
      FieldsRoundTrip(row[1..], t);
      FieldThen(row[0], s, |row|);
      FieldsSplit(row, t);
    }
  }

  /** One step of ReadRows, with the row already parsed. */
  lemma ReadRowsStep(s: seq<Byte>, n: nat, t: seq<Byte>, p: Parsed<seq<Field>>)
    requires |s| >= 2 && Get16(s) == n && s[2..] == t && ReadFields(n, t) == Some(p)
    ensures ReadRows(s) == if ReadRows(p.rest).None? then None else Some([p.value] + ReadRows(p.rest).value)
  {}

  lemma RowSplit(row: Row, rest: seq<Byte>)
    ensures RowBytes(row) + rest == Put16(|row|) + (FieldsBytes(row) + rest)
  {
    Associative(Put16(|row|), FieldsBytes(row), rest);
  }

  lemma SmallCount(n: nat, t: seq<Byte>)
    requires n <= 0x7fff
    ensures Get16(Put16(n) + t) == n && (Put16(n) + t)[2..] == t
  {
    Get16Put16(n, t);
  }

  lemma RowRoundTrip(row: Row, rest: seq<Byte>)
    requires Fits(row)
    ensures ReadRows(RowBytes(row) + rest)
            == if ReadRows(rest).None? then None else Some([AsFields(row)] + ReadRows(rest).value)
  {
    var t := FieldsBytes(row) + rest;
    RowSplit(row, rest);
    SmallCount(|row|, t);
    FieldsRoundTrip(row, rest);
    ReadRowsStep(RowBytes(row) + rest, |row|, t, Parsed(AsFields(row), rest));
  }

  /** Rows that fit are read one by one, whatever bytes follow. */
  lemma {:induction false} RowsThen(rows: seq<Row>, t: seq<Byte>)
    requires AllFit(rows)
    ensures ReadRows(RowsBytes(rows) + t) == if ReadRows(t).None? then None else Some(AsRows(rows) + ReadRows(t).value)
    decreases |rows|
  {
    if rows == [] {
      Empty(t);
      if ReadRows(t).Some? { Empty(ReadRows(t).value); }
    } else {
      Associative(RowBytes(rows[0]), RowsBytes(rows[1..]), t);
      RowRoundTrip(rows[0], RowsBytes(rows[1..]) + t);
      RowsThen(rows[1..], t);
      if ReadRows(t).Some? {
        Associative([AsFields(rows[0])], AsRows(rows[1..]), ReadRows(t).value);
      }
    }
  }

  /** What every caller does: a header, the rows, the trailer. */
  method WriteFile(rows: seq<Row>) returns (out: seq<Byte>)
    ensures out == FileBytes(rows)
  {
    var w := new CopyWriter();
    for i := 0 to |rows|
      invariant fresh(w) && w.out == HEADER + RowsBytes(rows[..i])
    {
      w.WriteRow(rows[i]);
      RowsNext(rows, i);
    }
    assert rows[..|rows|] == rows;
    w.Close();
    out := w.out;
  }

  lemma RowsNext(rows: seq<Row>, i: nat)
    requires i < |rows|
    ensures (HEADER + RowsBytes(rows[..i])) + RowBytes(rows[i]) == HEADER + RowsBytes(rows[..i + 1])
  {
    var last := [rows[i]];
    assert rows[..i + 1] == rows[..i] + last;
    RowsConcat(rows[..i], last);
    assert RowsBytes(last[1..]) == [];
    assert RowsBytes(last) == RowBytes(rows[i]);
    Associative(HEADER, RowsBytes(rows[..i]), RowBytes(rows[i]));
  }

  lemma HeaderRead(rows: seq<Row>)
    ensures ReadFile(FileBytes(rows)) == ReadRows(RowsBytes(rows) + TRAILER)
  {
    var s := FileBytes(rows);
    assert s[19..] == RowsBytes(rows) + TRAILER;
    assert s[..11] == SIGNATURE && s[11..15] == [0, 0, 0, 0] && s[15..19] == [0, 0, 0, 0];
  }

  /** Header, rows and trailer read back as exactly those rows, when every row fits; no row is
      taken for the trailer. */
  lemma FileRoundTrip(rows: seq<Row>)
    requires AllFit(rows)
    ensures ReadFile(FileBytes(rows)) == Some(AsRows(rows))
  {
    HeaderRead(rows);
    RowsThen(rows, TRAILER);
    assert AsRows(rows) + [] == AsRows(rows);
  }

  // ---------------------------------------------------------------------------------
  // The limits are exact
  // ---------------------------------------------------------------------------------

  /** A field of 2 GiB or more is read as NULL, as an error or with the wrong length. */
  lemma LongField(f: seq<Byte>, t: seq<Byte>)
    requires |f| > 0x7fff_ffff
    ensures var r := ReadField(FieldBytes(f) + t); r.None? || r.value.value != Value(f)
  {
    FieldSplit(f, t);
    Get32Put32(|f|, f + t);
  }

  lemma {:induction false} FieldsOnlyIf(row: Row, t: seq<Byte>)
    requires ReadBack(row, FieldsBytes(row) + t)
    ensures ShortFields(row)
    decreases |row|
  {
    if row != [] {
      FieldsSplit(row, t);
      FirstReadBack(row, FieldsBytes(row[1..]) + t);
      FieldsOnlyIf(row[1..], t);
    }
  }

  /** The fields read from s are those of the row. */
  ghost predicate ReadBack(row: Row, s: seq<Byte>) {
    var r := ReadFields(|row|, s);
    r.Some? && r.value.value == AsFields(row)
  }

  lemma FirstReadBack(row: Row, s: seq<Byte>)
    requires row != [] && ReadBack(row, FieldBytes(row[0]) + s)
    ensures |row[0]| <= 0x7fff_ffff && ReadBack(row[1..], s)
  {
    FirstFieldFits(row, s);
    FieldThen(row[0], s, |row|);
    assert AsFields(row) == [Value(row[0])] + AsFields(row[1..]);
    Unprepend(Value(row[0]), ReadFields(|row| - 1, s).value.value, AsFields(row[1..]));
  }

  lemma Unprepend<T>(x: T, a: seq<T>, b: seq<T>)
    requires [x] + a == [x] + b
    ensures a == b
  {
    assert ([x] + a)[1..] == a && ([x] + b)[1..] == b;
  }

  lemma FirstFieldFits(row: Row, s: seq<Byte>)
    requires row != [] && ReadBack(row, FieldBytes(row[0]) + s)
    ensures |row[0]| <= 0x7fff_ffff
  {
    var f := ReadField(FieldBytes(row[0]) + s);
    assert f.Some?;
    ReadFieldsStep(|row|, FieldBytes(row[0]) + s, f.value);
    assert f.value.value == AsFields(row)[0] == Value(row[0]);
    if |row[0]| > 0x7fff_ffff {
      LongField(row[0], s);
    }
  }

  /** The first of the rows read, when they are the rows written, was read as itself. */
  lemma FirstRowFits(row: Row, rest: seq<Byte>)
    requires var r := ReadRows(RowBytes(row) + rest); r.Some? && r.value != [] && r.value[0] == AsFields(row)
    ensures Fits(row)
  {
    var t := FieldsBytes(row) + rest;
    RowSplit(row, rest);
    Get16Put16(|row|, t);
    var n := Get16(Put16(|row|) + t);
    assert 0 <= n && ReadFields(n, t).Some? && ReadFields(n, t).value.value == AsFields(row);
    FieldsOnlyIf(row, rest);
  }

  lemma {:induction false} RowsOnlyIf(rows: seq<Row>)
    requires ReadRows(RowsBytes(rows) + TRAILER) == Some(AsRows(rows))
    ensures AllFit(rows)
    decreases |rows|
  {
    if rows != [] {
      var rest := RowsBytes(rows[1..]) + TRAILER;
      Associative(RowBytes(rows[0]), RowsBytes(rows[1..]), TRAILER);
      assert AsRows(rows) == [AsFields(rows[0])] + AsRows(rows[1..]);
      FirstRowFits(rows[0], rest);
      RowRoundTrip(rows[0], rest);
      Unprepend(AsFields(rows[0]), ReadRows(rest).value, AsRows(rows[1..]));
      RowsOnlyIf(rows[1..]);
    }
  }

  /** The file reads back as what was written if and only if every row fits. */
  lemma FileRoundTripIff(rows: seq<Row>)
    ensures ReadFile(FileBytes(rows)) == Some(AsRows(rows)) <==> AllFit(rows)
  {
    if AllFit(rows) {
      FileRoundTrip(rows);
    }
    HeaderRead(rows);
    if ReadFile(FileBytes(rows)) == Some(AsRows(rows)) {
      RowsOnlyIf(rows);
    }
  }

  /** A row whose count is cut to a negative number is taken for the trailer or for nonsense:
      the whole file is refused, whatever comes before and after it. */
  lemma NegativeCountRejected(rows: seq<Row>, row: Row, more: seq<Row>)
    requires AllFit(rows) && |row| % 0x1_0000 >= 0x8000
    ensures ReadFile(FileBytes(rows + ([row] + more))) == None
  {
    var rest := RowsBytes(more) + TRAILER;
    HeaderRead(rows + ([row] + more));
    RowsConcat(rows, [row] + more);
    Associative(RowsBytes(rows), RowsBytes([row] + more), TRAILER);
    RowsThen(rows, RowsBytes([row] + more) + TRAILER);
    assert ([row] + more)[1..] == more;
    Associative(RowBytes(row), RowsBytes(more), TRAILER);
    NegativeCount(row, rest);
  }

  lemma {:induction false} RowsConcat(a: seq<Row>, b: seq<Row>)
    ensures RowsBytes(a + b) == RowsBytes(a) + RowsBytes(b)
    decreases |a|
  {
    if a == [] {
      assert a + b == b;
    } else {
      assert (a + b)[1..] == a[1..] + b;
      RowsConcat(a[1..], b);
      Associative(RowBytes(a[0]), RowsBytes(a[1..]), RowsBytes(b));
    }
  }

  lemma NegativeCount(row: Row, rest: seq<Byte>)
    requires |row| % 0x1_0000 >= 0x8000 && rest != []
    ensures ReadRows(RowBytes(row) + rest) == None
  {
    var t := FieldsBytes(row) + rest;
    RowSplit(row, rest);
    Get16Put16(|row|, t);
  }
}
