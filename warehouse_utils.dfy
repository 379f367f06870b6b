/** The storage-coordinate sequencer of backend/src/warehouses/warehouse-utils.ts:
    the ordered labels of one warehouse dimension (aisle, bay, level or bin),
    configured by a type column and a count column. */
module WarehouseUtils {
  import opened Common

  // ---------------------------------------------------------------------
  // Alphabetic labels: bijective base 26 with digits 'A'..'Z'
  // ---------------------------------------------------------------------

  predicate IsLetter(c: char)
  {
    'A' <= c <= 'Z'
  }

  predicate AllLetters(s: string)
  {
    forall i :: 0 <= i < |s| ==> IsLetter(s[i])
  }

  /** The digit `d` of a bijective base-26 numeral, `String.fromCharCode(65 + d)`. */
  function Letter(d: int): (c: char)
    requires 0 <= d < 26
    ensures IsLetter(c) && c as int - 65 == d
  {
    (65 + d) as char
  }

  /** The label of position `n`: 1 is "A", 26 is "Z", 27 is "AA"; 0 has the
      empty label. This is what numberToAlphabetic computes. */
  function AlphaLabel(n: nat): string
  {
    if n == 0 then "" else AlphaLabel((n - 1) / 26) + [Letter((n - 1) % 26)]
  }

  /** The position a label stands for: each letter is a digit 1..26 of a
      base-26 numeral. */
  function AlphaValue(s: string): nat
    requires AllLetters(s)
  {
    if s == [] then 0
    else AlphaValue(s[..|s| - 1]) * 26 + (s[|s| - 1] as int - 64)
  }

  /** Labels of positive positions are non-empty words over 'A'..'Z'. */
  lemma {:induction false} AlphaLabelShape(n: nat)
    ensures AllLetters(AlphaLabel(n))
    ensures |AlphaLabel(n)| > 0 <==> n > 0
  {
    if n > 0 {
      AlphaLabelShape((n - 1) / 26);
    }
  }

  /** Decoding a label gives back its position. */
  lemma {:induction false} AlphaValueOfLabel(n: nat)
    ensures AllLetters(AlphaLabel(n)) && AlphaValue(AlphaLabel(n)) == n
  {
    AlphaLabelShape(n);
    if n > 0 {
      var q, d := (n - 1) / 26, (n - 1) % 26;
      AlphaValueOfLabel(q);
      var s := AlphaLabel(n);
      assert s == AlphaLabel(q) + [Letter(d)];
      assert s[..|s| - 1] == AlphaLabel(q);
    }
  }

  /** Every word over 'A'..'Z' is the label of exactly the position it
      decodes to: the labels are a bijection between positions and words. */
  lemma {:induction false} LabelOfAlphaValue(s: string)
    requires AllLetters(s)
    ensures AlphaLabel(AlphaValue(s)) == s
  {
    if s != [] {
      var p, c := s[..|s| - 1], s[|s| - 1];
      assert AllLetters(p) by {
        forall i | 0 <= i < |p| ensures IsLetter(p[i]) {
          assert p[i] == s[i];
        }
      }
      LabelOfAlphaValue(p);
      var n := AlphaValue(s);
      assert n - 1 == AlphaValue(p) * 26 + (c as int - 65);
      assert (n - 1) / 26 == AlphaValue(p);
      assert (n - 1) % 26 == c as int - 65;
      assert Letter((n - 1) % 26) == c;
      assert s == p + [c];
    }
  }

  /** Different positions have different labels. */
  lemma AlphaLabelInjective(a: nat, b: nat)
    ensures AlphaLabel(a) == AlphaLabel(b) <==> a == b
  {
    AlphaValueOfLabel(a);
    AlphaValueOfLabel(b);
  }

  /** The boundary values from the comment of numberToAlphabetic. */
  lemma AlphaLabelExamples()
    ensures AlphaLabel(1) == "A" && AlphaLabel(2) == "B" && AlphaLabel(26) == "Z"
    ensures AlphaLabel(27) == "AA" && AlphaLabel(28) == "AB" && AlphaLabel(52) == "AZ"
    ensures AlphaLabel(53) == "BA" && AlphaLabel(702) == "ZZ" && AlphaLabel(703) == "AAA"
  {
    assert AlphaLabel(1) == "A";
    assert AlphaLabel(2) == "B";
    assert AlphaLabel(26) == "Z";
    assert AlphaLabel(27) == AlphaLabel(1) + "A";
    assert AlphaLabel(28) == AlphaLabel(1) + "B";
    assert AlphaLabel(52) == AlphaLabel(1) + "Z";
    assert AlphaLabel(53) == AlphaLabel(2) + "A";
    assert AlphaLabel(702) == AlphaLabel(26) + "Z";
    assert AlphaLabel(703) == AlphaLabel(27) + "A";
  }

  /** numberToAlphabetic: repeatedly take the last digit of n - 1 and
      prepend its letter. Non-positive inputs give the empty string. */
  method NumberToAlphabetic(n: int) returns (result: string)
    ensures n <= 0 ==> result == ""
    ensures n > 0 ==> result == AlphaLabel(n)
    ensures n > 0 ==> |result| > 0 && AllLetters(result) && AlphaValue(result) == n
  {
    result := "";
    var m := n;
    while m > 0
      invariant n <= 0 ==> m == n && result == ""
      invariant n > 0 ==> 0 <= m && AlphaLabel(n) == AlphaLabel(m) + result
    {
      m := m - 1;
      result := [Letter(m % 26)] + result;
      m := m / 26;
    }
    if n > 0 {
      AlphaValueOfLabel(n);
      AlphaLabelShape(n);
    }
  }

  // ---------------------------------------------------------------------
  // Numeric labels: the unpadded decimal numerals of `i.toString()`
  // ---------------------------------------------------------------------

  predicate IsDigit(c: char)
  {
    '0' <= c <= '9'
  }

  predicate AllDigits(s: string)
  {
    forall i :: 0 <= i < |s| ==> IsDigit(s[i])
  }

  function Digit(d: int): (c: char)
    requires 0 <= d < 10
    ensures IsDigit(c) && c as int - 48 == d
  {
    (48 + d) as char
  }

  /** `n.toString()` for a non-negative integer. */
  function DecimalString(n: nat): string
  {
    if n < 10 then [Digit(n)] else DecimalString(n / 10) + [Digit(n % 10)]
  }

  /** The integer a string of decimal digits denotes. */
  function DecimalValue(s: string): nat
    requires AllDigits(s)
  {
    if s == [] then 0
    else DecimalValue(s[..|s| - 1]) * 10 + (s[|s| - 1] as int - 48)
  }

  /** `toString` gives a non-empty string of digits with no leading zero
      (no padding), which denotes the number again. */
  lemma {:induction false} DecimalRoundTrip(n: nat)
    ensures AllDigits(DecimalString(n)) && |DecimalString(n)| > 0
    ensures DecimalString(n)[0] == '0' ==> n == 0
    ensures DecimalValue(DecimalString(n)) == n
  {
    if n >= 10 {
      DecimalRoundTrip(n / 10);
      var s := DecimalString(n);
      assert s == DecimalString(n / 10) + [Digit(n % 10)];
      assert s[..|s| - 1] == DecimalString(n / 10);
      assert s[0] == DecimalString(n / 10)[0];
    }
  }

  /** Different numbers have different decimal strings. */
  lemma DecimalStringInjective(a: nat, b: nat)
    ensures DecimalString(a) == DecimalString(b) <==> a == b
  {
    DecimalRoundTrip(a);
    DecimalRoundTrip(b);
  }

  // ---------------------------------------------------------------------
  // generatePossibleValues
  // ---------------------------------------------------------------------

  /** The guard `!type || !count || count <= 0`: a null or empty type, a
      null or zero count, or a negative count. */
  predicate NoValues(kind: Option<string>, count: Option<int>)
  {
    kind.None? || kind.value == "" || count.None? || count.value == 0 || count.value <= 0
  }

  /** The labels generatePossibleValues returns for one dimension. */
  function DimensionValues(kind: Option<string>, count: Option<int>): seq<string>
  {
    if NoValues(kind, count) then []
    else if kind.value == "numeric" then
      seq(count.value, i requires 0 <= i < count.value => DecimalString(i + 1))
    else if kind.value == "alphabetic" then
      seq(count.value, i requires 0 <= i < count.value => AlphaLabel(i + 1))
    else []
  }

  /** generatePossibleValues: a `for` loop of decimal numerals for a
      numeric dimension, a `while` loop of numberToAlphabetic(current + 1)
      for an alphabetic one, nothing otherwise. */
  method GeneratePossibleValues(kind: Option<string>, count: Option<int>) returns (values: seq<string>)
    ensures values == DimensionValues(kind, count)
  {
    if NoValues(kind, count) {
      return [];
    }
    values := [];
    var n := count.value;
    if kind.value == "numeric" {
      for i := 1 to n + 1
        invariant |values| == i - 1
        invariant forall k :: 0 <= k < i - 1 ==> values[k] == DecimalString(k + 1)
      {
        values := values + [DecimalString(i)];
      }
    } else if kind.value == "alphabetic" {
      var current := 0;
      while current < n
        invariant 0 <= current <= n
        invariant |values| == current
        invariant forall k :: 0 <= k < current ==> values[k] == AlphaLabel(k + 1)
      {
        var name := NumberToAlphabetic(current + 1);
        values := values + [name];
        current := current + 1;
      }
    }
  }

  /** The result is empty exactly when the guard fires or the type is
      neither "numeric" nor "alphabetic"; otherwise it has `count` labels. */
  lemma DimensionValuesLength(kind: Option<string>, count: Option<int>)
    ensures DimensionValues(kind, count) == [] <==>
      NoValues(kind, count) || (kind.value != "numeric" && kind.value != "alphabetic")
    ensures !NoValues(kind, count) && kind.value in {"numeric", "alphabetic"} ==>
      |DimensionValues(kind, count)| == count.value
  {
  }

  /** A numeric dimension lists "1", "2", ... in order: label i is the
      unpadded decimal numeral of i + 1 and reads back as i + 1. */
  lemma NumericValuesAt(count: nat, i: nat)
    requires i < count
    ensures DimensionValues(Some("numeric"), Some(count))[i] == DecimalString(i + 1)
    ensures AllDigits(DimensionValues(Some("numeric"), Some(count))[i])
    ensures DecimalValue(DimensionValues(Some("numeric"), Some(count))[i]) == i + 1
  {
    DecimalRoundTrip(i + 1);
  }

  /** An alphabetic dimension lists "A", "B", ... in order: label i is a
      non-empty word over 'A'..'Z' that decodes to position i + 1, so the
      sequence order is the bijective base-26 order. */
  lemma AlphabeticValuesAt(count: nat, i: nat)
    requires i < count
    ensures DimensionValues(Some("alphabetic"), Some(count))[i] == AlphaLabel(i + 1)
    ensures |DimensionValues(Some("alphabetic"), Some(count))[i]| > 0
    ensures AllLetters(DimensionValues(Some("alphabetic"), Some(count))[i])
    ensures AlphaValue(DimensionValues(Some("alphabetic"), Some(count))[i]) == i + 1
  {
    AlphaValueOfLabel(i + 1);
    AlphaLabelShape(i + 1);
  }

  /** No dimension repeats a label, so a label's index in the sequence is
      well defined. */
  lemma DimensionValuesDistinct(kind: Option<string>, count: Option<int>, i: nat, j: nat)
    requires i < j < |DimensionValues(kind, count)|
    ensures DimensionValues(kind, count)[i] != DimensionValues(kind, count)[j]
  {
    if kind.value == "numeric" {
      DecimalStringInjective(i + 1, j + 1);
    } else {
      AlphaLabelInjective(i + 1, j + 1);
    }
  }

  /** The boundary examples for one alphabetic dimension. */
  lemma AlphabeticExamples()
    ensures DimensionValues(Some("alphabetic"), Some(1)) == ["A"]
    ensures DimensionValues(Some("alphabetic"), Some(26))[25] == "Z"
    ensures DimensionValues(Some("alphabetic"), Some(28))[26..] == ["AA", "AB"]
    ensures DimensionValues(Some("numeric"), Some(3)) == ["1", "2", "3"]
  {
    AlphaLabelExamples();
  }
}
