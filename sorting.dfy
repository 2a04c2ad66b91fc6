/**
 * The two key-based sort pipelines of Main.java, `sortLocaleSensitiveList`
 * and `customSortLocaleSensitiveList`: fill a `CollationKey[]` at slot
 * `wordsList.indexOf(word)` for every word, sort it, and read the source
 * strings back into a new list.
 */
module Sorting {
  import opened Wrappers
  import opened Platform
  import opened Blank
  import opened KeySort

  /** `CollectionUtils.isNotEmpty`: the list is neither null nor empty. */
  predicate IsNotEmpty(wordsList: Option<seq<string>>)
  {
    wordsList.Some? && |wordsList.value| > 0
  }

  /** No word occurs twice. */
  predicate Distinct(words: seq<string>)
  {
    forall i, j :: 0 <= i < j < |words| ==> words[i] != words[j]
  }

  /** Position `j` holds the first occurrence of its word. */
  predicate IsFirstOccurrence(words: seq<string>, j: int)
    requires 0 <= j < |words|
  {
    forall k :: 0 <= k < j ==> words[k] != words[j]
  }

  /** `words` is non-decreasing by the collation key `keyOf` under `le`. */
  ghost predicate SortedBy<K>(keyOf: string -> K, le: (K, K) -> bool, words: seq<string>)
  {
    forall i, j :: 0 <= i < j < |words| ==> le(keyOf(words[i]), keyOf(words[j]))
  }

  /** `List.indexOf`: the position of the first occurrence of `w`, or -1 when `w` does not occur. */
  function IndexOf(words: seq<string>, w: string): (r: int)
    ensures -1 <= r < |words|
    ensures r == -1 <==> w !in words
    ensures 0 <= r ==> words[r] == w && IsFirstOccurrence(words, r)
  {
    if words == [] then -1
    else if words[0] == w then 0
    else
      var r := IndexOf(words[1..], w);
      if r == -1 then -1 else r + 1
  }

  /**
   * The key array after the fill loop: a slot holds the key of its word when
   * it is that word's first occurrence, and is still null otherwise.
   */
  ghost function FilledByIndexOf<K>(keyOf: string -> K, words: seq<string>): (s: seq<Slot<K>>)
    ensures |s| == |words|
  {
    seq(|words|, j requires 0 <= j < |words| =>
      if IsFirstOccurrence(words, j) then Some(CollationKey(words[j], keyOf(words[j]))) else None)
  }

  /**
   * What the `indexOf` fill leaves behind: with distinct words every slot
   * holds its own word's key, so the slots' sources are the words in order;
   * a word that occurs again at `j` leaves slot `j` null; and a null slot
   * exists exactly when some word is duplicated.
   */
  lemma {:induction false} FilledByIndexOfSlots<K>(keyOf: string -> K, words: seq<string>)
    ensures KeysOf(keyOf, FilledByIndexOf(keyOf, words))
    ensures None in FilledByIndexOf(keyOf, words) <==> !Distinct(words)
    ensures forall k, j :: 0 <= k < j < |words| && words[k] == words[j] ==> FilledByIndexOf(keyOf, words)[j] == None
    ensures Distinct(words) ==> Sources(FilledByIndexOf(keyOf, words)) == words
  {
    var s := FilledByIndexOf(keyOf, words);
    if None in s {
      var j :| 0 <= j < |s| && s[j] == None;
      var k :| 0 <= k < j && words[k] == words[j];
    }
    if !Distinct(words) {
      var k, j :| 0 <= k < j < |words| && words[k] == words[j];
      assert s[j] == None;
    }
  }

  /** The smallest instance of the quirk: in ["a", "a"] the second slot is never written. */
  lemma DuplicatedWordLeavesNullSlot<K>(keyOf: string -> K)
    ensures FilledByIndexOf(keyOf, ["a", "a"]) == [Some(CollationKey("a", keyOf("a"))), None]
    ensures !Distinct(["a", "a"])
  {
    var words := ["a", "a"];
    assert words[0] == words[1];
    assert IsFirstOccurrence(words, 0) && !IsFirstOccurrence(words, 1);
  }

  /**
   * The shared body of both sort pipelines, for a non-empty list: fill the
   * key array at `indexOf(word)`, sort it, collect the sources.  The call
   * succeeds exactly when the words are distinct (a duplicate leaves a null
   * slot, which ends in NullPointerException); a result is a permutation of
   * the words, non-decreasing by collation key.
   */
  method SortByCollationKeys<K(==,!new)>(words: seq<string>, keyOf: string -> K, le: (K, K) -> bool)
    returns (r: Result<seq<string>, JavaException>)
    requires TotalPreorder(le)
    ensures r.Ok? <==> Distinct(words)
    ensures r.Err? ==> r.error == NullPointerException
    ensures r.Ok? ==> |r.value| == |words| && multiset(r.value) == multiset(words) && SortedBy(keyOf, le, r.value)
  {
    var collationKeys := new Slot<K>[|words|](_ => None);
    for i := 0 to |words|
      invariant forall j :: 0 <= j < |words| ==>
        collationKeys[j] == if j < i && IsFirstOccurrence(words, j) then Some(CollationKey(words[j], keyOf(words[j]))) else None
    {
      var slot := IndexOf(words, words[i]);
      collationKeys[slot] := Some(CollationKey(words[i], keyOf(words[i])));
    }
    assert collationKeys[..] == FilledByIndexOf(keyOf, words);
    FilledByIndexOfSlots(keyOf, words);
    r := SortAndCollect(collationKeys, keyOf, le);
  }

  /**
   * The fill as evidently intended: slot `i` gets the key of `words[i]`, so
   * no slot stays null and every list, duplicates included, sorts into a
   * permutation of itself, non-decreasing by collation key.
   */
  method SortByPositionKeys<K(==,!new)>(words: seq<string>, keyOf: string -> K, le: (K, K) -> bool)
    returns (r: Result<seq<string>, JavaException>)
    requires TotalPreorder(le)
    ensures r.Ok?
    ensures |r.value| == |words| && multiset(r.value) == multiset(words) && SortedBy(keyOf, le, r.value)
  {
    var collationKeys := new Slot<K>[|words|](_ => None);
    for i := 0 to |words|
      invariant forall j :: 0 <= j < |words| ==>
        collationKeys[j] == if j < i then Some(CollationKey(words[j], keyOf(words[j]))) else None
    {
      collationKeys[i] := Some(CollationKey(words[i], keyOf(words[i])));
    }
    assert None !in collationKeys[..];
    assert Sources(collationKeys[..]) == words;
    r := SortAndCollect(collationKeys, keyOf, le);
  }

  /**
   * `sortLocaleSensitiveList`: a null or empty list gives an empty list
   * without touching a collator; otherwise the locale's collator (the
   * default locale's when `locale` is null) at secondary strength keys the
   * words, and the result is that of the shared pipeline.
   */
  method SortLocaleSensitiveList<K(==,!new)>(jdk: Jdk<K>, wordsList: Option<seq<string>>, locale: Option<LocaleTag>)
    returns (r: Result<seq<string>, JavaException>)
    requires TotalPreorder(GetInstance(jdk, locale).keyLe)
    ensures !IsNotEmpty(wordsList) ==> r == Ok([])
    ensures IsNotEmpty(wordsList) ==> (r.Ok? <==> Distinct(wordsList.value))
    ensures r.Err? ==> r.error == NullPointerException
    ensures IsNotEmpty(wordsList) && r.Ok? ==>
              var collator := GetInstance(jdk, locale);
              |r.value| == |wordsList.value| && multiset(r.value) == multiset(wordsList.value) &&
              SortedBy(s => collator.collationKey(Secondary, s), collator.keyLe, r.value)
  {
    r := Ok([]);
    if IsNotEmpty(wordsList) {
      var collator := GetInstance(jdk, locale);
      r := SortByCollationKeys(wordsList.value, s => collator.collationKey(Secondary, s), collator.keyLe);
    }
  }

  /**
   * `customSortLocaleSensitiveList`: a blank rule is rejected with
   * ParseException("Build rules empty", 0) before anything else; a null or
   * empty list then gives an empty list without the rule being parsed; only
   * a non-empty list has the RuleBasedCollator built (its ParseException
   * propagates) and sorted by at the collator's default strength.
   */
  method CustomSortLocaleSensitiveList<K(==,!new)>(jdk: Jdk<K>, wordsList: Option<seq<string>>, rule: Option<string>)
    returns (r: Result<seq<string>, JavaException>)
    requires RuleBasedOrdersValid(jdk)
    ensures IsBlank(jdk.isWhitespace, rule) ==> r == Err(ParseException("Build rules empty", 0))
    ensures !IsBlank(jdk.isWhitespace, rule) && !IsNotEmpty(wordsList) ==> r == Ok([])
    ensures !IsBlank(jdk.isWhitespace, rule) && IsNotEmpty(wordsList) && jdk.ruleBased(rule.value).Err? ==>
              r == Err(jdk.ruleBased(rule.value).error)
    ensures r.Err? ==> r.error.ParseException? || r.error == NullPointerException
    ensures !IsBlank(jdk.isWhitespace, rule) && IsNotEmpty(wordsList) && jdk.ruleBased(rule.value).Ok? ==>
              (r.Ok? <==> Distinct(wordsList.value)) &&
              (r.Err? ==> r.error == NullPointerException) &&
              (r.Ok? ==>
                 var collator := jdk.ruleBased(rule.value).value;
                 |r.value| == |wordsList.value| && multiset(r.value) == multiset(wordsList.value) &&
                 SortedBy(s => collator.collationKey(DefaultStrength, s), collator.keyLe, r.value))
  {
    if IsBlank(jdk.isWhitespace, rule) {
      return Err(ParseException("Build rules empty", 0));
    }
    r := Ok([]);
    if IsNotEmpty(wordsList) {
      match jdk.ruleBased(rule.value)
      case Err(e) =>
        r := Err(e);
      case Ok(collator) =>
        r := SortByCollationKeys(wordsList.value, s => collator.collationKey(DefaultStrength, s), collator.keyLe);
    }
  }
}
