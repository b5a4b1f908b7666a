/** The line classifier: a line whose letters outnumber its other characters
    is a label (a statistic's name); any other line is a value. */
module Classifier {
  import opened PyText

  /** `sum(c.isalpha() for c in s)` */
  function Letters(s: string): nat
    decreases |s|
  {
    if s == [] then 0 else Letters(s[..|s| - 1]) + (if IsAlpha(s[|s| - 1]) then 1 else 0)
  }

  /** `sum(c.isdigit() for c in s)` */
  function Digits(s: string): nat
    decreases |s|
  {
    if s == [] then 0 else Digits(s[..|s| - 1]) + (if IsDigit(s[|s| - 1]) then 1 else 0)
  }

  /** `sum(not c.isalnum() for c in s)` */
  function Specials(s: string): nat
    decreases |s|
  {
    if s == [] then 0 else Specials(s[..|s| - 1]) + (if IsAlnum(s[|s| - 1]) then 0 else 1)
  }

  /** Every character is counted in exactly one of the three sums. */
  lemma {:induction false} CountsPartition(s: string)
    ensures Letters(s) + Digits(s) + Specials(s) == |s|
    decreases |s|
  {
    if s != [] {
      CountsPartition(s[..|s| - 1]);
    }
  }

  /** `_is_letter_dominant(s)`: more letters than digits and other characters together,
      that is, letters make up strictly more than half of the line. */
  function IsLetterDominant(s: string): (r: bool)
    ensures r <==> Letters(s) > Digits(s) + Specials(s)
    ensures r <==> 2 * Letters(s) > |s|
  {
    CountsPartition(s);
    Letters(s) > Digits(s) + Specials(s)
  }

  /** A tie is not dominance, the empty line is a value, and a strict majority is. */
  lemma TiesAndEmpty()
    ensures !IsLetterDominant("AB12")
    ensures !IsLetterDominant("")
    ensures IsLetterDominant("AB1")
  {
    assert "AB12"[..3] == "AB1" && "AB1"[..2] == "AB" && "AB"[..1] == "A";
    assert Letters("AB12") == 2;
  }
}
