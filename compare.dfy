/**
 * The two comparison entry points of Main.java:
 * `compareLocaleSensitiveWords` (a locale's built-in collator) and
 * `customCompareLocaleSensitiveWords` (a collator built from rule text).
 * Both prefer the blank-string decision over the collator's answer.
 */
module Compare {
  import opened Wrappers
  import opened Platform
  import opened Blank

  /**
   * `compareLocaleSensitiveWords`: blanks are decided by
   * `compareBlankStrings`; two non-blank strings by the locale's collator
   * (the default locale's when `locale` is null) at tertiary strength.
   */
  function CompareLocaleSensitiveWords<K>(jdk: Jdk<K>, source: Option<string>, target: Option<string>,
                                         locale: Option<LocaleTag>): (r: int)
    ensures -1 <= r <= 1
    ensures IsBlank(jdk.isWhitespace, source) && IsBlank(jdk.isWhitespace, target) ==> r == 0
    ensures IsBlank(jdk.isWhitespace, source) && !IsBlank(jdk.isWhitespace, target) ==> r == -1
    ensures !IsBlank(jdk.isWhitespace, source) && IsBlank(jdk.isWhitespace, target) ==> r == 1
    ensures !IsBlank(jdk.isWhitespace, source) && !IsBlank(jdk.isWhitespace, target) ==>
              source.Some? && target.Some? &&
              r == CollatorCompare(GetInstance(jdk, locale), Tertiary, source.value, target.value)
  {
    var blankResult := CompareBlankStrings(jdk.isWhitespace, source, target);
    var collator := GetInstance(jdk, locale);
    match blankResult
    case Some(v) => v
    case None => CollatorCompare(collator, Tertiary, source.value, target.value)
  }

  /**
   * `customCompareLocaleSensitiveWords`: a blank rule is rejected with
   * ParseException("Build rules empty", 0); otherwise the rule is handed to
   * the RuleBasedCollator constructor, whose ParseException propagates, and
   * only then is the blank-string decision (or the collator's tertiary
   * comparison) returned.
   */
  function CustomCompareLocaleSensitiveWords<K>(jdk: Jdk<K>, source: Option<string>, target: Option<string>,
                                               rule: Option<string>): (r: Result<int, JavaException>)
    ensures IsBlank(jdk.isWhitespace, rule) ==> r == Err(ParseException("Build rules empty", 0))
    ensures !IsBlank(jdk.isWhitespace, rule) && jdk.ruleBased(rule.value).Err? ==>
              r == Err(jdk.ruleBased(rule.value).error)
    ensures r.Ok? <==> !IsBlank(jdk.isWhitespace, rule) && jdk.ruleBased(rule.value).Ok?
    ensures r.Err? ==> r.error.ParseException?
    ensures r.Ok? ==> -1 <= r.value <= 1
    ensures r.Ok? && CompareBlankStrings(jdk.isWhitespace, source, target).Some? ==>
              r.value == CompareBlankStrings(jdk.isWhitespace, source, target).value
    ensures r.Ok? && CompareBlankStrings(jdk.isWhitespace, source, target).None? ==>
              r.value == CollatorCompare(jdk.ruleBased(rule.value).value, Tertiary, source.value, target.value)
  {
    if IsBlank(jdk.isWhitespace, rule) then
      Err(ParseException("Build rules empty", 0))
    else
      var blankResult := CompareBlankStrings(jdk.isWhitespace, source, target);
      match jdk.ruleBased(rule.value)
      case Err(e) => Err(e)
      case Ok(collator) =>
        match blankResult
        case Some(v) => Ok(v)
        case None => Ok(CollatorCompare(collator, Tertiary, source.value, target.value))
  }

  /**
   * A non-blank rule that does not parse fails the comparison even when both
   * strings are blank, because the collator is built before the blank
   * decision is returned.
   */
  lemma UnparsableRuleFailsEvenForBlankWords<K>(jdk: Jdk<K>, source: Option<string>, target: Option<string>, rule: string)
    requires !IsBlank(jdk.isWhitespace, Some(rule)) && jdk.ruleBased(rule).Err?
    requires IsBlank(jdk.isWhitespace, source) && IsBlank(jdk.isWhitespace, target)
    ensures CustomCompareLocaleSensitiveWords(jdk, source, target, Some(rule)) == Err(jdk.ruleBased(rule).error)
    ensures CompareBlankStrings(jdk.isWhitespace, source, target) == Some(0)
  {
  }

  /**
   * With a collator whose keys are totally preordered,
   * `compareLocaleSensitiveWords` is a total preorder that puts every blank
   * string before every non-blank one: reflexive, sign-antisymmetric and
   * transitive.
   */
  lemma CompareLocaleSensitiveWordsIsTotalPreorder<K(!new)>(
    jdk: Jdk<K>, locale: Option<LocaleTag>, s: Option<string>, t: Option<string>, u: Option<string>)
    requires TotalPreorder(GetInstance(jdk, locale).keyLe)
    ensures CompareLocaleSensitiveWords(jdk, s, s, locale) == 0
    ensures CompareLocaleSensitiveWords(jdk, t, s, locale) == -CompareLocaleSensitiveWords(jdk, s, t, locale)
    ensures CompareLocaleSensitiveWords(jdk, s, t, locale) <= 0 && CompareLocaleSensitiveWords(jdk, t, u, locale) <= 0
            ==> CompareLocaleSensitiveWords(jdk, s, u, locale) <= 0
  {
  }

  /** The same total-preorder property for the rule-based comparison, whenever the rule builds a collator. */
  lemma CustomCompareIsTotalPreorder<K(!new)>(
    jdk: Jdk<K>, rule: string, s: Option<string>, t: Option<string>, u: Option<string>)
    requires !IsBlank(jdk.isWhitespace, Some(rule)) && jdk.ruleBased(rule).Ok?
    requires RuleBasedOrdersValid(jdk)
    ensures CustomCompareLocaleSensitiveWords(jdk, s, s, Some(rule)) == Ok(0)
    ensures CustomCompareLocaleSensitiveWords(jdk, t, s, Some(rule)).Ok?
    ensures CustomCompareLocaleSensitiveWords(jdk, t, s, Some(rule)).value ==
            -CustomCompareLocaleSensitiveWords(jdk, s, t, Some(rule)).value
    ensures CustomCompareLocaleSensitiveWords(jdk, s, t, Some(rule)).value <= 0 &&
            CustomCompareLocaleSensitiveWords(jdk, t, u, Some(rule)).value <= 0
            ==> CustomCompareLocaleSensitiveWords(jdk, s, u, Some(rule)).value <= 0
  {
  }
}
