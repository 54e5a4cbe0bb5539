/** `parse_rows` of the importer: each raw row the CSV reader yields has its
    fields stripped of whitespace and is padded with empty fields or cut to
    the table's column count. A CSV error ends the file early. */
module ImportRows {
  import opened Sql

  /** Python's `str.isspace` for one character: the ASCII whitespace and
      separators, NEL, no-break space and the Unicode space separators. */
  predicate IsPySpace(c: char) {
    c == ' ' || ('\t' <= c <= '\r') || ('\U{1c}' <= c <= '\U{1f}') || c == '\U{85}' || c == '\U{a0}'
    || c == '\U{1680}' || ('\U{2000}' <= c <= '\U{200a}') || c == '\U{2028}' || c == '\U{2029}'
    || c == '\U{202f}' || c == '\U{205f}' || c == '\U{3000}'
  }

  predicate AllSpace(s: string) {
    forall i :: 0 <= i < |s| ==> IsPySpace(s[i])
  }

  /** The number of whitespace characters `s` starts with. */
  function SpanStart(s: string): (k: nat)
    ensures k <= |s| && AllSpace(s[..k])
    ensures k < |s| ==> !IsPySpace(s[k])
  {
    if s == [] || !IsPySpace(s[0]) then 0
    else
      var k := 1 + SpanStart(s[1..]);
      assert forall i :: 0 < i < k ==> s[..k][i] == s[1..][..k - 1][i - 1];
      k
  }

  /** Where the trailing whitespace of `s` begins. */
  function SpanEnd(s: string): (k: nat)
    ensures k <= |s| && AllSpace(s[k..])
    ensures k > 0 ==> !IsPySpace(s[k - 1])
  {
    if s == [] || !IsPySpace(s[|s| - 1]) then |s|
    else
      var k := SpanEnd(s[..|s| - 1]);
      assert forall i :: k <= i < |s| - 1 ==> s[i] == s[..|s| - 1][i];
      k
  }

  /** `str.strip()`: `s` without its leading and trailing whitespace. The
      result is a slice of `s` that neither starts nor ends with whitespace,
      and only whitespace was cut away. */
  function Strip(s: string): (r: string)
    ensures r == [] || (!IsPySpace(r[0]) && !IsPySpace(r[|r| - 1]))
    ensures exists a, b :: 0 <= a <= b <= |s| && r == s[a..b] && AllSpace(s[..a]) && AllSpace(s[b..])
  {
    var a := SpanStart(s);
    var t := s[a..];
    var b := SpanEnd(t);
    assert t[..b] == s[a..a + b];
    assert AllSpace(s[a + b..]) by {
      assert forall i :: a + b <= i < |s| ==> s[i] == t[b..][i - a - b];
    }
    assert b > 0 ==> t[..b][0] == t[0];
    t[..b]
  }

  /** Stripping twice is stripping once. */
  lemma StripIdempotent(s: string)
    ensures Strip(Strip(s)) == Strip(s)
  {
    var r := Strip(s);
    assert SpanStart(r) == 0;
    assert SpanEnd(r[SpanStart(r)..]) == |r| by {
      assert r[SpanStart(r)..] == r;
    }
    assert r[0..] == r;
    assert r[..|r|] == r;
  }

  /** The fields of a stored row: the stripped fields, then empty fields
      making up the column count, or cut at the column count. */
  function Normalized(raw: seq<string>, width: nat): (row: seq<string>)
    ensures |row| == width
    ensures forall j :: 0 <= j < width ==> row[j] == if j < |raw| then Strip(raw[j]) else ""
  {
    seq(width, j requires 0 <= j < width => if j < |raw| then Strip(raw[j]) else "")
  }

  /** A row that is already normalised is left alone: normalising is
      idempotent. */
  lemma NormalizedIdempotent(raw: seq<string>, width: nat)
    ensures Normalized(Normalized(raw, width), width) == Normalized(raw, width)
  {
    var row := Normalized(raw, width);
    forall j | 0 <= j < width ensures Normalized(row, width)[j] == row[j] {
      if j < |raw| { StripIdempotent(raw[j]); }
    }
  }

  /** A row narrower than the table keeps its stripped fields as a prefix;
      a wider one keeps its first `width` fields. */
  lemma NormalizedShape(raw: seq<string>, width: nat)
    ensures |raw| <= width ==> forall j :: |raw| <= j < width ==> Normalized(raw, width)[j] == ""
    ensures |raw| >= width ==> Normalized(raw, width) == Normalized(raw[..width], width)
  {
  }

  /** The loop body of `parse_rows`: the comprehension, then `extend` with
      empty fields or a slice. */
  method NormalizeRow(raw: seq<string>, width: nat) returns (row: seq<string>)
    ensures row == Normalized(raw, width)
  {
    row := [];
    var i := 0;
    while i < |raw|
      invariant i <= |raw| && |row| == i
      invariant forall j :: 0 <= j < i ==> row[j] == Strip(raw[j])
    {
      row := row + [Strip(raw[i])];
      i := i + 1;
    }
    if |row| < width {
      var pad := width - |row|;
      var k := 0;
      while k < pad
        invariant k <= pad && |row| == |raw| + k
        invariant forall j :: 0 <= j < |raw| ==> row[j] == Strip(raw[j])
        invariant forall j :: |raw| <= j < |row| ==> row[j] == ""
      {
        row := row + [""];
        k := k + 1;
      }
    } else if |row| > width {
      row := row[..width];
    }
  }

  /** What the CSV reader produces for each line: a list of fields, or
      `None` for a line on which it raises `csv.Error`. */
  type ReaderOutput = seq<Option<seq<string>>>

  /** The number of lines read before the first error. */
  function GoodPrefix(lines: ReaderOutput): (k: nat)
    ensures k <= |lines|
    ensures forall i :: 0 <= i < k ==> lines[i].Some?
    ensures k < |lines| ==> lines[k].None?
  {
    if lines == [] || lines[0].None? then 0
    else
      var k := 1 + GoodPrefix(lines[1..]);
      assert forall i :: 0 < i < k ==> lines[i] == lines[1..][i - 1];
      k
  }

  /** `parse_rows`: the rows it yields, and its two counters. The rows are
      the normalised lines before the first CSV error; the error, if any, is
      counted once and ends the file. */
  method ParseRows(lines: ReaderOutput, width: nat) returns (rows: seq<seq<string>>, rowCount: nat, errorCount: nat)
    ensures |rows| == rowCount == GoodPrefix(lines)
    ensures forall i :: 0 <= i < |rows| ==> rows[i] == Normalized(lines[i].value, width)
    ensures errorCount == if GoodPrefix(lines) < |lines| then 1 else 0
  {
    rows, rowCount, errorCount := [], 0, 0;
    var i := 0;
    while i < |lines|
      invariant i <= GoodPrefix(lines)
      invariant |rows| == rowCount == i && errorCount == 0
      invariant forall j :: 0 <= j < i ==> rows[j] == Normalized(lines[j].value, width)
    {
      match lines[i]
      case None =>
        errorCount := errorCount + 1;
        break;
      case Some(raw) =>
        var row := NormalizeRow(raw, width);
        rows := rows + [row];
        rowCount := rowCount + 1;
        i := i + 1;
    }
  }
}
