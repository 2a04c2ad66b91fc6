/**
 * The parts of the Java platform that Main.java calls but does not contain:
 * java.text.Collator / RuleBasedCollator / CollationKey and
 * Character.isWhitespace.  They are not modelled as algorithms; a collator
 * is an uninterpreted collation-key function together with the order on its
 * keys, and building a collator from rule text is a function that may fail.
 */
module Platform {
  import opened Wrappers

  /** The strengths of java.text.Collator. */
  datatype Strength = Primary | Secondary | Tertiary | Identical

  /** The exceptions that can leave the modelled methods. */
  datatype JavaException =
    | ParseException(message: string, errorOffset: int)
    | NullPointerException

  /** The strength a RuleBasedCollator has until setStrength is called. */
  const DefaultStrength: Strength := Tertiary

  /** The only exception the RuleBasedCollator constructor throws. */
  type ParseFailure = e: JavaException | e.ParseException? witness ParseException("", 0)

  /** A locale, by its language tag (for example "fr"). */
  type LocaleTag = string

  /**
   * A collator: `collationKey(strength, s)` is the key that
   * `getCollationKey(s)` yields once `setStrength(strength)` was called, and
   * `keyLe` is the order `CollationKey.compareTo` puts on those keys.
   */
  datatype Collator<!K> = Collator(collationKey: (Strength, string) -> K, keyLe: (K, K) -> bool)

  /**
   * Everything the program draws from the platform: the whitespace test of
   * Character.isWhitespace, Collator.getInstance(locale), the default locale
   * that Collator.getInstance() falls back on, and the RuleBasedCollator
   * constructor, which either builds a collator or throws a ParseException.
   */
  datatype Jdk<!K> = Jdk(
    isWhitespace: char -> bool,
    instanceFor: LocaleTag -> Collator<K>,
    defaultLocale: LocaleTag,
    ruleBased: string -> Result<Collator<K>, ParseFailure>)

  /** `le` is reflexive, total and transitive: what `compareTo` must be for Arrays.sort. */
  ghost predicate TotalPreorder<K(!new)>(le: (K, K) -> bool)
  {
    (forall x, y :: le(x, y) || le(y, x)) &&
    (forall x, y, z :: le(x, y) && le(y, z) ==> le(x, z))
  }

  /** Every collator the RuleBasedCollator constructor can return orders its keys by a total preorder. */
  ghost predicate RuleBasedOrdersValid<K(!new)>(jdk: Jdk<K>)
  {
    forall rule :: jdk.ruleBased(rule).Ok? ==> TotalPreorder(jdk.ruleBased(rule).value.keyLe)
  }

  /**
   * `locale != null ? Collator.getInstance(locale) : Collator.getInstance()`:
   * a null locale falls back on the default locale.
   */
  function GetInstance<K>(jdk: Jdk<K>, locale: Option<LocaleTag>): (c: Collator<K>)
    ensures locale.Some? ==> c == jdk.instanceFor(locale.value)
    ensures locale.None? ==> c == jdk.instanceFor(jdk.defaultLocale)
  {
    jdk.instanceFor(if locale.Some? then locale.value else jdk.defaultLocale)
  }

  /**
   * `Collator.compare(s, t)` at the given strength: -1, 0 or 1 as the key of
   * `s` sorts before, with, or after the key of `t`.
   */
  function CollatorCompare<K>(c: Collator<K>, strength: Strength, s: string, t: string): (r: int)
    ensures -1 <= r <= 1
    ensures r <= 0 <==> c.keyLe(c.collationKey(strength, s), c.collationKey(strength, t))
    ensures r == 0 <==> c.keyLe(c.collationKey(strength, s), c.collationKey(strength, t)) &&
                        c.keyLe(c.collationKey(strength, t), c.collationKey(strength, s))
  {
    var ks := c.collationKey(strength, s);
    var kt := c.collationKey(strength, t);
    if c.keyLe(ks, kt) && c.keyLe(kt, ks) then 0
    else if c.keyLe(ks, kt) then -1
    else 1
  }

  /** The comparison is a three-way total preorder: reflexive, antisymmetric in sign, transitive. */
  lemma CollatorCompareIsTotalPreorder<K(!new)>(c: Collator<K>, strength: Strength, s: string, t: string, u: string)
    requires TotalPreorder(c.keyLe)
    ensures CollatorCompare(c, strength, s, s) == 0
    ensures CollatorCompare(c, strength, t, s) == -CollatorCompare(c, strength, s, t)
    ensures CollatorCompare(c, strength, s, t) <= 0 && CollatorCompare(c, strength, t, u) <= 0
            ==> CollatorCompare(c, strength, s, u) <= 0
  {
  }
}
