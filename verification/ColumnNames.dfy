/**
  Spreadsheet column names: bijective base 26 (`column_name` in
  app/adapters/google_workspace/validation.py, `_column_number` in app/policies/workspace.py).
*/
module ColumnNames {

  predicate IsUpper(s: string) {
    forall i | 0 <= i < |s| :: 'A' <= s[i] <= 'Z'
  }

  predicate IsLetters(s: string) {
    forall i | 0 <= i < |s| :: 'A' <= s[i] <= 'Z' || 'a' <= s[i] <= 'z'
  }

  function Upper(s: string): (u: string)
    requires IsLetters(s)
    ensures |u| == |s| && IsUpper(u)
    ensures IsUpper(s) ==> u == s
  {
    seq(|s|, i requires 0 <= i < |s| => if 'a' <= s[i] <= 'z' then s[i] - 'a' + 'A' else s[i])
  }

  /** The letters are those of the two alphabets. */
  lemma LettersAnswer(s: string)
    ensures IsLetters(s) <==> forall i | 0 <= i < |s| :: IsLetter(s[i])
  {
    forall i | 0 <= i < |s|
      ensures IsLetter(s[i]) <==> 'A' <= s[i] <= 'Z' || 'a' <= s[i] <= 'z'
    {
      SmallAnswer(s[i]);
      CapitalAnswer(s[i]);
    }
  }

  ghost predicate IsLetter(c: char) {
    c in "abcdefghijklmnopqrstuvwxyz" || c in "ABCDEFGHIJKLMNOPQRSTUVWXYZ"
  }

  lemma SmallAt(k: nat)
    requires k < 26
    ensures "abcdefghijklmnopqrstuvwxyz"[k] == 'a' + k as char
  {}

  lemma CapitalAt(k: nat)
    requires k < 26
    ensures "ABCDEFGHIJKLMNOPQRSTUVWXYZ"[k] == 'A' + k as char
  {}

  lemma SmallAnswer(c: char)
    ensures c in "abcdefghijklmnopqrstuvwxyz" <==> 'a' <= c <= 'z'
  {
    var smalls := "abcdefghijklmnopqrstuvwxyz";
    if c in smalls {
      var k :| 0 <= k < |smalls| && smalls[k] == c;
      SmallAt(k);
    } else if 'a' <= c <= 'z' {
      SmallAt((c - 'a') as int);
    }
  }

  lemma CapitalAnswer(c: char)
    ensures c in "ABCDEFGHIJKLMNOPQRSTUVWXYZ" <==> 'A' <= c <= 'Z'
  {
    var capitals := "ABCDEFGHIJKLMNOPQRSTUVWXYZ";
    if c in capitals {
      var k :| 0 <= k < |capitals| && capitals[k] == c;
      CapitalAt(k);
    } else if 'A' <= c <= 'Z' {
      CapitalAt((c - 'A') as int);
    }
  }

  /** A small letter becomes the capital at its place in the alphabet; capitals stay. */
  lemma UpperAnswer(s: string, i: nat, k: nat)
    requires IsLetters(s) && i < |s| && k < 26
    ensures var smalls, capitals := "abcdefghijklmnopqrstuvwxyz", "ABCDEFGHIJKLMNOPQRSTUVWXYZ";
            s[i] == smalls[k] || s[i] == capitals[k] ==> Upper(s)[i] == capitals[k]
  {
    SmallAt(k);
    CapitalAt(k);
  }

  function Letter(digit: nat): (c: char)
    requires digit < 26
    ensures 'A' <= c <= 'Z'
  {
    'A' + digit as char
  }

  function Digit(c: char): (digit: nat)
    requires 'A' <= c <= 'Z'
    ensures digit < 26 && Letter(digit) == c
  {
    (c - 'A') as nat
  }

  /** The name of column `n`; columns are counted from 1. */
  function Name(n: nat): (s: string)
    ensures IsUpper(s)
  {
    if n == 0 then "" else Name((n - 1) / 26) + [Letter((n - 1) % 26)]
  }

  function Number(s: string): nat
    requires IsUpper(s)
  {
    if s == "" then 0 else 26 * Number(s[..|s| - 1]) + Digit(s[|s| - 1]) + 1
  }

  /** The loop of `column_name`, least significant letter first. */
  method ColumnName(number: nat) returns (result: string)
    ensures result == Name(number)
  {
    result := "";
    var n := number;
    while n > 0
      invariant Name(number) == Name(n) + result
    {
      var digit := (n - 1) % 26;
      n := (n - 1) / 26;
      result := [Letter(digit)] + result;
    }
  }

  /** The loop of `_column_number`. */
  method ColumnNumber(column: string) returns (number: nat)
    requires IsLetters(column)
    ensures number == Number(Upper(column))
  {
    number := 0;
    var upper := Upper(column);
    for i := 0 to |upper|
      invariant number == Number(upper[..i])
    {
      number := number * 26 + Digit(upper[i]) + 1;
      assert upper[..i + 1][..i] == upper[..i];
    }
    assert upper[..|upper|] == upper;
  }

  lemma {:induction false} NumberOfName(n: nat)
    ensures Number(Name(n)) == n
  {
    if n > 0 {
      NumberOfName((n - 1) / 26);
      var s := Name(n);
      assert s[..|s| - 1] == Name((n - 1) / 26);
    }
  }

  lemma {:induction false} NameOfNumber(s: string)
    requires IsUpper(s)
    ensures Name(Number(s)) == s
  {
    if s != "" {
      var front, last := s[..|s| - 1], s[|s| - 1];
      NameOfNumber(front);
      assert s == front + [last];
      LastLetter(Number(front), Digit(last));
      assert Number(s) == 26 * Number(front) + Digit(last) + 1;
      hide Number;
    }
  }

  /** One more letter. */
  lemma LastLetter(front: nat, digit: nat)
    requires digit < 26
    ensures Name(26 * front + digit + 1) == Name(front) + [Letter(digit)]
  {
    var n := 26 * front + digit;
    assert n / 26 == front && n % 26 == digit;
  }

  /** The last column whose name has `letters` letters. */
  function LastOfLength(letters: nat): nat {
    if letters == 0 then 0 else 26 * LastOfLength(letters - 1) + 26
  }

  /** Length orders columns: at most `letters` letters means at most that column. */
  lemma {:induction false} LengthBoundsNumber(s: string, letters: nat)
    requires IsUpper(s)
    ensures |s| <= letters <==> Number(s) <= LastOfLength(letters)
  {
    if s != "" && letters > 0 {
      LengthBoundsNumber(s[..|s| - 1], letters - 1);
    }
  }

  /** The bound 18278 of a sheet's columns is exactly "at most three letters". */
  lemma ThreeLetters(s: string)
    requires IsUpper(s)
    ensures 1 <= |s| <= 3 <==> 1 <= Number(s) <= 18278
  {
    LengthBoundsNumber(s, 3);
    LengthBoundsNumber(s, 0);
    assert LastOfLength(3) == 26 * (26 * (26 * LastOfLength(0) + 26) + 26) + 26;
  }
}
