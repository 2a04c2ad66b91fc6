/**
 * The blank-string pre-comparison of Main.java (`compareBlankStrings`) and
 * the blank test it relies on (Apache Commons `StringUtils.isBlank`).
 */
module Blank {
  import opened Wrappers

  /** `StringUtils.isBlank`: null, empty, or made of whitespace only. */
  predicate IsBlank(isWhitespace: char -> bool, s: Option<string>)
  {
    s.None? || forall i :: 0 <= i < |s.value| ==> isWhitespace(s.value[i])
  }

  /**
   * `compareBlankStrings`: decides the comparison when at least one side is
   * blank (two blanks are equal, a blank sorts first), and leaves it to the
   * collator (`None`) when neither side is.
   */
  function CompareBlankStrings(isWhitespace: char -> bool, source: Option<string>, target: Option<string>): (r: Option<int>)
    ensures r == Some(0) <==> IsBlank(isWhitespace, source) && IsBlank(isWhitespace, target)
    ensures r == Some(-1) <==> IsBlank(isWhitespace, source) && !IsBlank(isWhitespace, target)
    ensures r == Some(1) <==> !IsBlank(isWhitespace, source) && IsBlank(isWhitespace, target)
    ensures r == None <==> !IsBlank(isWhitespace, source) && !IsBlank(isWhitespace, target)
  {
    var sourceBlank := IsBlank(isWhitespace, source);
    var targetBlank := IsBlank(isWhitespace, target);
    if sourceBlank && targetBlank then Some(0)
    else if sourceBlank && !targetBlank then Some(-1)
    else if !sourceBlank && targetBlank then Some(1)
    else None
  }

  /** Null and the empty string are blank, whatever counts as whitespace. */
  lemma NullAndEmptyAreBlank(isWhitespace: char -> bool)
    ensures IsBlank(isWhitespace, None)
    ensures IsBlank(isWhitespace, Some(""))
    ensures CompareBlankStrings(isWhitespace, None, Some("")) == Some(0)
  {
  }

  /** A string holding a non-whitespace character is not blank and sorts after any blank one. */
  lemma NonWhitespaceIsNotBlank(isWhitespace: char -> bool, s: string, i: nat, blank: Option<string>)
    requires i < |s| && !isWhitespace(s[i])
    requires IsBlank(isWhitespace, blank)
    ensures !IsBlank(isWhitespace, Some(s))
    ensures CompareBlankStrings(isWhitespace, blank, Some(s)) == Some(-1)
    ensures CompareBlankStrings(isWhitespace, Some(s), blank) == Some(1)
  {
  }

  /** Swapping the arguments negates a decided result and keeps "no decision". */
  lemma CompareBlankStringsSwap(isWhitespace: char -> bool, source: Option<string>, target: Option<string>)
    ensures CompareBlankStrings(isWhitespace, target, source) ==
            match CompareBlankStrings(isWhitespace, source, target)
            case Some(v) => Some(-v)
            case None => None
  {
  }

  /** A string compared with itself is either equal (blank) or left to the collator. */
  lemma CompareBlankStringsSelf(isWhitespace: char -> bool, s: Option<string>)
    ensures CompareBlankStrings(isWhitespace, s, s) in {Some(0), None}
  {
  }
}
