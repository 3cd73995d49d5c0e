/**
  Spreadsheet column letters (A..Z, AA, AB, ...) and their inverse.
 */
module ColumnLetters {

  /** What the character tables say: isLetter and toUpper. */
  datatype Alphabet = Alphabet(letter: char -> bool, upper: char -> char)
  {
    ghost predicate Sound() {
      forall c | 'A' <= c <= 'Z' :: letter(c) && upper(c) == c
    }
  }

  function Letter(n: nat): (c: char)
    requires n < 26
    ensures 'A' <= c <= 'Z'
  {
    'A' + n as char
  }

  /** The letters of the column with 0-based index n. */
  function Letters(n: nat): (s: string)
    ensures s != ""
  {
    (if n < 26 then "" else Letters(n / 26 - 1)) + [Letter(n % 26)]
  }

  method ColumnLetter(index: nat) returns (s: string)
    ensures s == Letters(index)
  {
    s := "";
    var n: int := index;
    while true
      invariant n >= 0 && Letters(index) == Letters(n) + s
      decreases n
    {
      ghost var was, tail := n, s;
      s := [Letter(n % 26)] + s;
      n := n / 26 - 1;
      if n < 0 {
        assert Letters(was) + tail == s;
        break;
      }
      assert Letters(was) + tail == Letters(n) + s;
    }
  }

  /** A letter's digit, from 1 for A. */
  function Digit(a: Alphabet, c: char): int { a.upper(c) as int - 'A' as int + 1 }

  function Number(a: Alphabet, text: string): int {
    if text == "" then 0 else Number(a, text[..|text| - 1]) * 26 + Digit(a, text[|text| - 1])
  }

  /** The 0-based column of a label, or -1 when it is no label. */
  function Column(a: Alphabet, text: string): int {
    if forall i | 0 <= i < |text| :: a.letter(text[i]) then Number(a, text) - 1 else -1
  }

  method LabelToCol(a: Alphabet, text: string) returns (col: int)
    ensures col == Column(a, text)
  {
    var n := 0;
    for i := 0 to |text|
      invariant n == Number(a, text[..i])
      invariant forall k | 0 <= k < i :: a.letter(text[k])
    {
      if !a.letter(text[i]) { return -1; }
      assert text[..i + 1][..i] == text[..i];
      n := n * 26 + Digit(a, text[i]);
    }
    assert text[..|text|] == text;
    return n - 1;
  }

  lemma NumberLast(a: Alphabet, s: string, c: char)
    ensures Number(a, s + [c]) == Number(a, s) * 26 + Digit(a, c)
  {
    assert (s + [c])[..|s|] == s;
  }

  lemma {:induction false} NumberOfLetters(a: Alphabet, n: nat)
    requires a.Sound()
    ensures Number(a, Letters(n)) == n + 1
  {
    NumberLast(a, if n < 26 then "" else Letters(n / 26 - 1), Letter(n % 26));
    if n >= 26 { NumberOfLetters(a, n / 26 - 1); }
  }

  lemma {:induction false} LettersAreUpper(n: nat)
    ensures forall i | 0 <= i < |Letters(n)| :: 'A' <= Letters(n)[i] <= 'Z'
  {
    if n >= 26 { LettersAreUpper(n / 26 - 1); }
  }

  /** Every column's letters lead back to it. */
  lemma ColumnOfLetters(a: Alphabet, n: nat)
    requires a.Sound()
    ensures Column(a, Letters(n)) == n
  {
    NumberOfLetters(a, n);
    LettersAreUpper(n);
  }

  lemma {:induction false} NumberBounds(a: Alphabet, text: string)
    requires a.Sound() && text != "" && forall i | 0 <= i < |text| :: 'A' <= text[i] <= 'Z'
    ensures Number(a, text) >= 1
  {
    if |text| > 1 { NumberBounds(a, text[..|text| - 1]); }
  }

  lemma LettersStep(high: nat, low: nat)
    requires high > 0 && low < 26
    ensures Letters(high * 26 + low) == Letters(high - 1) + [Letter(low)]
  {
    var n := high * 26 + low;
    assert n / 26 == high && n % 26 == low;
  }

  /** And every upper-case label is the letters of its column. */
  lemma {:induction false} LettersOfColumn(a: Alphabet, text: string)
    requires a.Sound() && text != "" && forall i | 0 <= i < |text| :: 'A' <= text[i] <= 'Z'
    ensures Column(a, text) >= 0 && Letters(Column(a, text)) == text
  {
    var k := |text| - 1;
    var head, c := text[..k], text[k];
    var d := Digit(a, c);
    assert d == c as int - 'A' as int + 1 && Letter(d - 1) == c;
    hide Letters, Number, Column, Digit, Letter;
    UpperIsLabel(a, text);
    assert text == head + [c];
    NumberLast(a, head, c);
    if k == 0 {
      NoLetters(a, d - 1);
      assert head == "";
    } else {
      LettersOfColumn(a, head);
      UpperIsLabel(a, head);
      LettersStep(Number(a, head), d - 1);
    }
  }

  lemma UpperIsLabel(a: Alphabet, text: string)
    requires a.Sound() && text != "" && forall i | 0 <= i < |text| :: 'A' <= text[i] <= 'Z'
    ensures Column(a, text) == Number(a, text) - 1 >= 0
  {
    NumberBounds(a, text);
  }

  lemma NoLetters(a: Alphabet, n: nat)
    requires n < 26
    ensures Number(a, "") == 0 && Letters(n) == [Letter(n)]
  {
    assert n % 26 == n;
  }

  /** The order of a spreadsheet's columns: shorter labels first, labels of one length alphabetically. */
  ghost predicate Before(s: string, t: string) {
    || |s| < |t|
    || (|s| == |t| && exists k :: 0 <= k < |s| && s[..k] == t[..k] && s[k] < t[k])
  }

  lemma BeforeAppend(s: string, t: string, c: char, d: char)
    requires Before(s, t) || (s == t && c < d)
    ensures Before(s + [c], t + [d])
  {
    var x, y := s + [c], t + [d];
    if |s| == |t| {
      var k: nat := |s|;
      if s != t { k :| 0 <= k < |s| && s[..k] == t[..k] && s[k] < t[k]; }
      assert x[..k] == s[..k] && y[..k] == t[..k];
      assert x[k] < y[k];
    }
  }

  /** Columns from left to right have their letters in that order. */
  lemma {:induction false} LettersInOrder(m: nat, n: nat)
    requires m < n
    ensures Before(Letters(m), Letters(n))
  {
    if n < 26 {
      BeforeAppend("", "", Letter(m), Letter(n));
      assert m % 26 == m && n % 26 == n;
    } else if m >= 26 {
      var p, q := m / 26 - 1, n / 26 - 1;
      if p < q { LettersInOrder(p, q); }
      BeforeAppend(Letters(p), Letters(q), Letter(m % 26), Letter(n % 26));
    }
  }
}
