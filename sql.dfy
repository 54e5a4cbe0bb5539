/** SQLite value semantics used by the cleaning queries: NULL, text comparison,
    `substr`, ASCII case-insensitive `LIKE 'p%'`, `MAX` over TEXT, `SUM` with
    NULLs, and `CAST(... AS REAL)` on a decimal prefix. */
module Sql {

  datatype Option<+T> = None | Some(value: T)

  /** A TEXT column; `None` is SQL NULL. */
  type Field = Option<string>

  /** `col = 'lit'` as a WHERE or CASE WHEN condition: NULL is never equal. */
  predicate Is(a: Field, lit: string) {
    a == Some(lit)
  }

  /** `a = b` between two columns, as in a join's ON clause. */
  predicate SameText(a: Field, b: Field) {
    a.Some? && b.Some? && a.value == b.value
  }

  /** `col IN ('x', 'y', ...)`: NULL is in no list. */
  predicate InList(a: Field, lits: seq<string>) {
    a.Some? && a.value in lits
  }

  /** `col IS NOT NULL AND col != ''`. */
  predicate HasText(a: Field) {
    a.Some? && a.value != ""
  }

  function Min(a: int, b: int): int { if a <= b then a else b }

  /** `substr(s, start, len)` for a 1-based `start >= 1`. */
  function Substr(s: string, start: nat, len: nat): (r: string)
    requires start >= 1
    ensures |r| <= len
    ensures start - 1 <= |s| ==> start - 1 + |r| <= |s| && r == s[start - 1 .. start - 1 + |r|]
    ensures start - 1 + len <= |s| ==> |r| == len
  {
    if start - 1 >= |s| then "" else s[start - 1 .. Min(start - 1 + len, |s|)]
  }

  /** `substr` on a column: NULL in, NULL out. */
  function SubstrField(a: Field, start: nat, len: nat): (r: Field)
    requires start >= 1
    ensures r.Some? <==> a.Some?
  {
    match a
    case None => None
    case Some(s) => Some(Substr(s, start, len))
  }

  /** SQLite's LIKE folds only the ASCII letters A-Z. */
  function AsciiLower(c: char): char {
    if 'A' <= c <= 'Z' then (c as int + 32) as char else c
  }

  /** `s LIKE 'p%'` where `p` holds no wildcard. */
  predicate LikePrefix(s: string, p: string) {
    |p| <= |s| && forall i :: 0 <= i < |p| ==> AsciiLower(s[i]) == AsciiLower(p[i])
  }

  /** `(col NOT LIKE 'p%' OR col IS NULL)`. */
  predicate NotLikeOrNull(a: Field, p: string) {
    a.None? || !LikePrefix(a.value, p)
  }

  lemma LikeSingleLetter(s: string, c: char)
    requires 'A' <= c <= 'Z'
    ensures LikePrefix(s, [c]) <==> |s| > 0 && (s[0] == c || s[0] == AsciiLower(c))
  {
  }

  // ---------------------------------------------------------------------------
  // TEXT order (BINARY collation) and MAX

  /** Lexicographic order on code points; for UTF-8 text this is the same order
      as SQLite's byte-wise BINARY collation. */
  predicate TextLe(a: string, b: string)
    decreases |a|
  {
    |a| == 0 || (|b| > 0 && (a[0] < b[0] || (a[0] == b[0] && TextLe(a[1..], b[1..]))))
  }

  lemma {:induction false} TextLeRefl(a: string)
    ensures TextLe(a, a)
    decreases |a|
  {
    if |a| > 0 { TextLeRefl(a[1..]); }
  }

  lemma {:induction false} TextLeTotal(a: string, b: string)
    ensures TextLe(a, b) || TextLe(b, a)
    decreases |a|
  {
    if |a| > 0 && |b| > 0 && a[0] == b[0] { TextLeTotal(a[1..], b[1..]); }
  }

  lemma {:induction false} TextLeAntisym(a: string, b: string)
    requires TextLe(a, b) && TextLe(b, a)
    ensures a == b
    decreases |a|
  {
    if |a| > 0 {
      TextLeAntisym(a[1..], b[1..]);
      assert a == [a[0]] + a[1..] && b == [b[0]] + b[1..];
    }
  }

  lemma {:induction false} TextLeTrans(a: string, b: string, c: string)
    requires TextLe(a, b) && TextLe(b, c)
    ensures TextLe(a, c)
    decreases |a|
  {
    if |a| > 0 && a[0] == b[0] && b[0] == c[0] {
      TextLeTrans(a[1..], b[1..], c[1..]);
    }
  }

  predicate UpperBound(xs: seq<string>, m: string) {
    forall x :: x in xs ==> TextLe(x, m)
  }

  lemma RaiseBound(xs: seq<string>, m: string, m': string)
    requires UpperBound(xs, m) && TextLe(m, m')
    ensures UpperBound(xs, m')
  {
    forall x | x in xs ensures TextLe(x, m') { TextLeTrans(x, m, m'); }
  }

  /** `MAX` over non-NULL TEXT values. */
  function MaxText(xs: seq<string>): (m: string)
    requires |xs| > 0
    ensures m in xs
    ensures UpperBound(xs, m)
  {
    if |xs| == 1 then
      TextLeRefl(xs[0]);
      xs[0]
    else
      var t := MaxText(xs[1..]);
      assert xs == [xs[0]] + xs[1..];
      if TextLe(xs[0], t) then
        t
      else
        TextLeTotal(xs[0], t);
        TextLeRefl(xs[0]);
        RaiseBound(xs[1..], t, xs[0]);
        xs[0]
  }

  /** The non-NULL values of a column. */
  function Present(xs: seq<Field>): (r: seq<string>)
    ensures forall s :: s in r <==> Some(s) in xs
  {
    if xs == [] then []
    else
      assert xs == [xs[0]] + xs[1..];
      (if xs[0].Some? then [xs[0].value] else []) + Present(xs[1..])
  }

  /** SQL `MAX(col)`: NULLs are ignored; NULL when no value is present. */
  function MaxField(xs: seq<Field>): (r: Field)
    ensures r.None? <==> forall x :: x in xs ==> x.None?
    ensures r.Some? ==> r in xs && forall s :: Some(s) in xs ==> TextLe(s, r.value)
  {
    if forall x :: x in xs ==> x.None? then None
    else
      var x :| x in xs && x.Some?;
      var vs := Present(xs);
      assert x.value in vs;
      Some(MaxText(vs))
  }

  // ---------------------------------------------------------------------------
  // Numbers: SUM with NULLs, NULL-propagating product, CAST text AS REAL

  /** A NULL contributes nothing to a total. */
  function OrZero(x: Option<real>): real {
    if x.Some? then x.value else 0.0
  }

  /** One step of SQL `SUM`: a NULL term is skipped. */
  function Plus(acc: Option<real>, x: Option<real>): (r: Option<real>)
    ensures OrZero(r) == OrZero(acc) + OrZero(x)
    ensures r.None? <==> acc.None? && x.None?
  {
    match x
    case None => acc
    case Some(v) => Some(OrZero(acc) + v)
  }

  /** `a * b` where either side may be NULL. */
  function Times(a: Option<real>, b: Option<real>): (r: Option<real>)
    ensures r.Some? <==> a.Some? && b.Some?
  {
    if a.Some? && b.Some? then Some(a.value * b.value) else None
  }

  /** The plain total, NULLs counted as zero. */
  function Total(xs: seq<Option<real>>): real {
    if xs == [] then 0.0 else Total(xs[..|xs| - 1]) + OrZero(xs[|xs| - 1])
  }

  /** SQL `SUM(col)`: NULL when every term is NULL (or there is none),
      otherwise the total of the non-NULL terms. */
  function SqlSum(xs: seq<Option<real>>): (r: Option<real>)
    ensures r.None? <==> forall i :: 0 <= i < |xs| ==> xs[i].None?
    ensures OrZero(r) == Total(xs)
  {
    if xs == [] then None
    else
      var init := xs[..|xs| - 1];
      var r := Plus(SqlSum(init), xs[|xs| - 1]);
      assert forall i :: 0 <= i < |init| ==> init[i] == xs[i];
      r
  }

  lemma {:induction false} TotalAppend(xs: seq<Option<real>>, ys: seq<Option<real>>)
    ensures Total(xs + ys) == Total(xs) + Total(ys)
    decreases |ys|
  {
    if ys == [] {
      assert xs + ys == xs;
    } else {
      var ys' := ys[..|ys| - 1];
      assert (xs + ys)[..|xs + ys| - 1] == xs + ys';
      TotalAppend(xs, ys');
    }
  }

  predicate IsDigit(c: char) { '0' <= c <= '9' }

  predicate AllDigits(s: string) { forall i :: 0 <= i < |s| ==> IsDigit(s[i]) }

  function DigitValue(c: char): nat
    requires IsDigit(c)
  {
    c as int - '0' as int
  }

  /** The number a string of decimal digits denotes. */
  function DigitsValue(s: string): nat
    requires AllDigits(s)
  {
    if s == [] then 0 else 10 * DigitsValue(s[..|s| - 1]) + DigitValue(s[|s| - 1])
  }

  /** The longest prefix made of decimal digits. */
  function LeadingDigits(s: string): (r: string)
    ensures |r| <= |s| && AllDigits(r) && r == s[..|r|]
    ensures |r| < |s| ==> !IsDigit(s[|r|])
  {
    if s != [] && IsDigit(s[0]) then [s[0]] + LeadingDigits(s[1..]) else ""
  }

  function Pow10(n: nat): (r: nat)
    ensures r > 0
  {
    if n == 0 then 1 else 10 * Pow10(n - 1)
  }

  predicate IsSqlSpace(c: char) {
    c == ' ' || c == '\t' || c == '\n' || c == '\r' || c == '\U{0B}' || c == '\U{0C}'
  }

  function SkipSqlSpaces(s: string): string {
    if s != [] && IsSqlSpace(s[0]) then SkipSqlSpaces(s[1..]) else s
  }

  /** `CAST(text AS REAL)`: the value of the longest prefix of the form
      spaces, optional sign, digits, optional fraction; 0.0 when there is none. */
  function CastReal(s: string): real {
    var t := SkipSqlSpaces(s);
    var neg := |t| > 0 && t[0] == '-';
    var u := if |t| > 0 && (t[0] == '-' || t[0] == '+') then t[1..] else t;
    var ip := LeadingDigits(u);
    var rest := u[|ip|..];
    var fp := if |rest| > 0 && rest[0] == '.' then LeadingDigits(rest[1..]) else "";
    var mag := DigitsValue(ip) as real + DigitsValue(fp) as real / Pow10(|fp|) as real;
    if neg then -mag else mag
  }

  lemma {:induction false} LeadingDigitsOfDigits(s: string)
    requires AllDigits(s)
    ensures LeadingDigits(s) == s
    decreases |s|
  {
    if s != [] {
      LeadingDigitsOfDigits(s[1..]);
      assert s == [s[0]] + s[1..];
    }
  }

  /** A plain unsigned integer text casts to its own value. */
  lemma CastRealOfDigits(s: string)
    requires AllDigits(s)
    ensures CastReal(s) == DigitsValue(s) as real
  {
    if s != [] {
      assert IsDigit(s[0]);
    }
    assert SkipSqlSpaces(s) == s;
    LeadingDigitsOfDigits(s);
    assert s[|s|..] == "";
    assert Pow10(0) == 1;
  }

  /** `NULLIF(col, lit)`. */
  function NullIf(a: Field, lit: string): (r: Field)
    ensures r.None? <==> a.None? || a == Some(lit)
  {
    if a == Some(lit) then None else a
  }

  /** `CAST(NULLIF(col, '') AS REAL)`: the numeric amount of a text column. */
  function Amount(a: Field): (r: Option<real>)
    ensures r.None? <==> !HasText(a)
  {
    match NullIf(a, "")
    case None => None
    case Some(t) => Some(CastReal(t))
  }
}
