/** Spreadsheet column names: bijective base 26, and the cell references of a sheet (ST_CellRef,
    section 18.18.7 of ECMA-376 Part 1). */
module ColumnNames {

  predicate IsUpper(c: char) {
    'A' <= c <= 'Z'
  }

  predicate IsName(s: string) {
    s != "" && forall c | c in s :: IsUpper(c)
  }

  function Letter(d: nat): (c: char)
    requires d < 26
    ensures IsUpper(c) && c as int - 'A' as int == d
  {
    'A' + d as char
  }

  function Ordinal(c: char): (d: nat)
    requires IsUpper(c)
    ensures d < 26 && Letter(d) == c
  {
    c as int - 'A' as int
  }

  /** The name of column `n`, counting from 0. */
  function ColumnName(n: nat): string {
    (if n < 26 then "" else ColumnName(n / 26 - 1)) + [Letter(n % 26)]
  }

  /** The column a name stands for. */
  function ColumnIndex(s: string): nat
    requires IsName(s)
  {
    var last := |s| - 1;
    if last == 0 then Ordinal(s[0]) else 26 * (ColumnIndex(s[..last]) + 1) + Ordinal(s[last])
  }

  function NameBefore(value: int): string {
    if value < 0 then "" else ColumnName(value)
  }

  lemma OneLetter(n: nat)
    ensures ColumnName(n) == NameBefore(n / 26 - 1) + [Letter(n % 26)]
  {
  }

  method ColumnLetter(index: nat) returns (result: string)
    ensures result == ColumnName(index)
  {
    hide ColumnName;
    result := "";
    var value: int := index;
    while value >= 0
      invariant value >= -1
      invariant ColumnName(index) == NameBefore(value) + result
      decreases value
    {
      OneLetter(value);
      ghost var before, tail := value, result;
      var remainder := value % 26;
      value := value / 26;
      result := [Letter(remainder)] + result;
      value := value - 1;
      assert NameBefore(value) + [Letter(remainder)] + tail == NameBefore(value) + result;
    }
  }

  /** Every column has a name that leads back to it. */
  lemma {:induction false} NameThenIndex(n: nat)
    ensures IsName(ColumnName(n)) && ColumnIndex(ColumnName(n)) == n
  {
    var s := ColumnName(n);
    if n >= 26 {
      NameThenIndex(n / 26 - 1);
      assert n == 26 * (n / 26) + n % 26;
      assert s[..|s| - 1] == ColumnName(n / 26 - 1);
    }
  }

  lemma LastLetter(s: string)
    requires IsName(s) && |s| > 1
    ensures IsName(s[..|s| - 1]) && IsUpper(s[|s| - 1])
    ensures ColumnIndex(s) == 26 * (ColumnIndex(s[..|s| - 1]) + 1) + Ordinal(s[|s| - 1])
  {
  }

  lemma OnlyLetter(s: string)
    requires IsName(s) && |s| == 1
    ensures ColumnName(ColumnIndex(s)) == s
  {
  }

  /** Every name belongs to a column. */
  lemma {:induction false} IndexThenName(s: string)
    requires IsName(s)
    ensures ColumnName(ColumnIndex(s)) == s
  {
    hide ColumnName, ColumnIndex, Letter, Ordinal;
    var last := |s| - 1;
    if last > 0 {
      LastLetter(s);
      IndexThenName(s[..last]);
      OneMoreLetter(ColumnIndex(s[..last]) + 1, Ordinal(s[last]));
      assert s == s[..last] + [s[last]];
    } else {
      OnlyLetter(s);
    }
  }

  lemma OneMoreLetter(high: nat, low: nat)
    requires low < 26
    ensures ColumnName(26 * high + low) == NameBefore(high - 1) + [Letter(low)]
  {
    hide ColumnName;
    assert (26 * high + low) / 26 == high && (26 * high + low) % 26 == low;
    OneLetter(26 * high + low);
  }

  /** Shorter names first, names of one length in alphabetical order. */
  predicate Before(s: string, t: string) {
    |s| < |t| || (|s| == |t| && s != "" && (Before(s[..|s| - 1], t[..|t| - 1])
                                           || (s[..|s| - 1] == t[..|t| - 1] && s[|s| - 1] < t[|t| - 1])))
  }

  lemma {:induction false} NextNameLater(n: nat)
    ensures Before(ColumnName(n), ColumnName(n + 1))
  {
    var s, t := ColumnName(n), ColumnName(n + 1);
    if n % 26 < 25 {
      assert (n + 1) / 26 == n / 26 && (n + 1) % 26 == n % 26 + 1;
      assert s[..|s| - 1] == t[..|t| - 1] == if n < 26 then "" else ColumnName(n / 26 - 1);
    } else {
      assert (n + 1) / 26 == n / 26 + 1 && (n + 1) % 26 == 0;
      assert t[..|t| - 1] == ColumnName(n / 26);
      if n >= 26 {
        NextNameLater(n / 26 - 1);
        assert s[..|s| - 1] == ColumnName(n / 26 - 1);
      } else {
        NameThenIndex(n / 26);
      }
    }
  }

  lemma {:induction false} BeforeTransitive(s: string, t: string, u: string)
    requires Before(s, t) && Before(t, u)
    ensures Before(s, u)
  {
    if |s| == |t| == |u| {
      var a, b, c := s[..|s| - 1], t[..|t| - 1], u[..|u| - 1];
      if Before(a, b) && Before(b, c) {
        BeforeTransitive(a, b, c);
      }
    }
  }

  /** Names grow with the column: the order of the names is the order of the columns. */
  lemma {:induction false} NamesIncrease(m: nat, n: nat)
    requires m < n
    ensures Before(ColumnName(m), ColumnName(n))
    decreases n
  {
    NextNameLater(n - 1);
    if m < n - 1 {
      NamesIncrease(m, n - 1);
      BeforeTransitive(ColumnName(m), ColumnName(n - 1), ColumnName(n));
    }
  }

  /** The first difference of two names of one length is at `i`, in favour of `s`. */
  predicate LessAt(s: string, t: string, i: nat) {
    i < |s| == |t| && s[i] < t[i] && s[..i] == t[..i]
  }

  /** `Before` is the alphabetical order on names of one length. */
  lemma {:induction false} BeforeIsAlphabetical(s: string, t: string)
    requires |s| == |t|
    ensures Before(s, t) <==> exists i: nat :: LessAt(s, t, i)
  {
    if s != "" {
      var n := |s| - 1;
      var a, b := s[..n], t[..n];
      BeforeIsAlphabetical(a, b);
      if Before(s, t) {
        if Before(a, b) {
          var i: nat :| LessAt(a, b, i);
          assert s[..i] == a[..i] && t[..i] == b[..i] && LessAt(s, t, i);
        } else {
          assert LessAt(s, t, n);
        }
      }
      if i: nat :| LessAt(s, t, i) {
        if i < n {
          assert a[..i] == s[..i] && b[..i] == t[..i] && LessAt(a, b, i);
        }
      }
    }
  }

  // ---- cell references ----

  predicate IsDigit(c: char) {
    '0' <= c <= '9'
  }

  function Decimal(n: nat): string {
    (if n < 10 then "" else Decimal(n / 10)) + ['0' + (n % 10) as char]
  }

  function Reference(column: nat, row: nat): string {
    ColumnName(column) + Decimal(row)
  }

  lemma {:induction false} DecimalDigits(n: nat)
    ensures Decimal(n) != "" && forall c :: c in Decimal(n) ==> IsDigit(c)
    ensures n > 0 ==> Decimal(n)[0] != '0'
  {
    if n >= 10 {
      DecimalDigits(n / 10);
    }
  }

  lemma {:induction false} DecimalDistinct(m: nat, n: nat)
    requires Decimal(m) == Decimal(n)
    ensures m == n
  {
    var s, t := Decimal(m), Decimal(n);
    assert s[|s| - 1] == '0' + (m % 10) as char && t[|t| - 1] == '0' + (n % 10) as char;
    assert s[..|s| - 1] == (if m < 10 then "" else Decimal(m / 10));
    assert t[..|t| - 1] == (if n < 10 then "" else Decimal(n / 10));
    DecimalDigits(m / 10);
    DecimalDigits(n / 10);
    if m >= 10 && n >= 10 {
      DecimalDistinct(m / 10, n / 10);
    }
  }

  function LettersOf(s: string): nat {
    if s == "" || !IsUpper(s[0]) then 0 else 1 + LettersOf(s[1..])
  }

  lemma {:induction false} LettersThenDigits(a: string, b: string)
    requires (forall c :: c in a ==> IsUpper(c)) && (b == "" || !IsUpper(b[0]))
    ensures LettersOf(a + b) == |a|
  {
    if a == "" {
      assert a + b == b;
    } else {
      assert (a + b)[1..] == a[1..] + b;
      LettersThenDigits(a[1..], b);
    }
  }

  /** A reference is a column name followed by a row number without leading zeros, and names one cell. */
  lemma ReferencesDistinct(column: nat, row: nat, column': nat, row': nat)
    requires row > 0 && row' > 0
    ensures IsName(ColumnName(column)) && Decimal(row)[..] != "" && Decimal(row)[0] != '0'
    ensures Reference(column, row) == Reference(column', row') ==> column == column' && row == row'
  {
    NameThenIndex(column);
    NameThenIndex(column');
    DecimalDigits(row);
    DecimalDigits(row');
    assert Decimal(row)[0] in Decimal(row) && Decimal(row')[0] in Decimal(row');
    LettersThenDigits(ColumnName(column), Decimal(row));
    LettersThenDigits(ColumnName(column'), Decimal(row'));
    var s := Reference(column, row);
    if s == Reference(column', row') {
      var n := LettersOf(s);
      assert s[..n] == ColumnName(column) && s[n..] == Decimal(row);
      assert s[..n] == ColumnName(column') && s[n..] == Decimal(row');
      DecimalDistinct(row, row');
    }
  }

  /** The cell references of a sheet, row by row: the header is row 1, the records follow. */
  method SheetReferences(columns: nat, rows: nat) returns (sheet: seq<seq<string>>)
    ensures |sheet| == rows + 1
    ensures forall r, c :: 0 <= r < |sheet| && 0 <= c < columns ==>
      |sheet[r]| == columns && sheet[r][c] == Reference(c, r + 1)
    ensures forall r, c, r', c' :: 0 <= r < |sheet| && 0 <= c < |sheet[r]| && 0 <= r' < |sheet| && 0 <= c' < |sheet[r']| ==>
      sheet[r][c] == sheet[r'][c'] ==> r == r' && c == c'
  {
    sheet := [];
    for r := 0 to rows + 1
      invariant |sheet| == r
      invariant forall q :: 0 <= q < r ==> |sheet[q]| == columns
      invariant forall q, c :: 0 <= q < r && 0 <= c < columns ==> sheet[q][c] == Reference(c, q + 1)
    {
      var cells := [];
      for c := 0 to columns
        invariant |cells| == c && forall d :: 0 <= d < c ==> cells[d] == Reference(d, r + 1)
      {
        var letter := ColumnLetter(c);
        cells := cells + [letter + Decimal(r + 1)];
      }
      sheet := sheet + [cells];
    }
    forall r, c, r', c' | 0 <= r < |sheet| && 0 <= c < |sheet[r]| && 0 <= r' < |sheet| && 0 <= c' < |sheet[r']|
      ensures sheet[r][c] == sheet[r'][c'] ==> r == r' && c == c'
    {
      ReferencesDistinct(c, r + 1, c', r' + 1);
    }
  }
}
