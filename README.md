# FrenchWordsSorting: a verified model of the collation glue in `Main.java`

`src/Main.java` compares and sorts French words. The collation itself comes from
`java.text.RuleBasedCollator` and `Collator.getInstance(locale)`. The file adds
glue around them:

- a blank-string short-circuit (`compareBlankStrings`);
- two comparison entry points that prefer that short-circuit over the collator;
- two sort pipelines. Each fills a `CollationKey[]` at slot `wordsList.indexOf(word)`,
  runs `Arrays.sort` on it and reads `getSourceString()` back into a new list.

This project models that glue in Dafny and proves what it does. The platform
parts are parameters (module `Platform`, record `Jdk`):

- a collator is an uninterpreted key function `(strength, string) -> K`, plus the
  order `keyLe` that `CollationKey.compareTo` puts on keys;
- `new RuleBasedCollator(rule)` is a function from rule text to a collator or a
  `ParseException`;
- `Collator.getInstance(locale)` is a function from locale to collator, and
  `getInstance()` uses a default locale;
- `Character.isWhitespace` is a predicate on characters.

`Arrays.sort` requires a consistent `compareTo`. The model therefore assumes
`keyLe` is a total preorder (`Platform.TotalPreorder`) wherever it sorts or
reasons about order. `Collator.compare(s, t)` is taken to agree with the keys of
`s` and `t`, as the `CollationKey` contract promises.

Modules: `Wrappers` holds Java null as `Option` and a thrown exception as
`Result`. `Platform` holds the abstract JDK. `Blank` holds `compareBlankStrings`.
`Compare` holds the comparison entry points. `KeySort` holds the key array,
`Arrays.sort` and collecting the sources. `Sorting` holds the sort pipelines.

## Model

| member | source | states |
|---|---|---|
| `Blank.CompareBlankStrings` | src/Main.java:224-233 | Returns Some(0) iff both strings are blank. Returns Some(-1) iff only the source is blank and Some(1) iff only the target is. Returns None (the collator decides) iff neither is blank. |
| `Blank.NullAndEmptyAreBlank` | src/Main.java:225-226 | Null and "" are blank under any whitespace test, so they compare equal. |
| `Blank.NonWhitespaceIsNotBlank` | src/Main.java:227-230 | A string with a non-whitespace character is not blank. It sorts after every blank string (-1 one way, 1 the other). |
| `Blank.CompareBlankStringsSwap` | src/Main.java:225-232 | Swapping source and target negates a decided result and keeps "no decision". |
| `Blank.CompareBlankStringsSelf` | src/Main.java:225-232 | A string compared with itself gives Some(0) or no decision, never -1 or 1. |
| `Platform.GetInstance` | src/Main.java:123 | A non-null locale selects that locale's collator. A null locale selects the default locale's collator. |
| `Platform.CollatorCompareIsTotalPreorder` | src/Main.java:125 | A collator comparison that agrees with totally preordered keys is reflexive (0 on equal arguments), sign-antisymmetric and transitive. |
| `Platform.CollatorCompare` | src/Main.java:125 | `collator.compare(s, t)` returns -1, 0 or 1. It is at most 0 iff the key of s is at most the key of t, and it is 0 iff each key is at most the other. |
| `Compare.CompareLocaleSensitiveWords` | src/Main.java:121-126 | The result is in -1..1. Blank cases are decided as compareBlankStrings decides them. Two non-blank strings (hence non-null) get the selected locale collator's tertiary comparison. |
| `Compare.CompareLocaleSensitiveWordsIsTotalPreorder` | src/Main.java:121-126 | The entry point is a total preorder with blanks first. It gives 0 on equal arguments, swapping the arguments negates it, and "<= 0" is transitive. |
| `Compare.CustomCompareLocaleSensitiveWords` | src/Main.java:139-149 | A blank or null rule gives ParseException("Build rules empty", 0). A rule the collator constructor rejects gives the constructor's ParseException; no other exception can leave the call. Otherwise the result is the blank decision when there is one, else the rule collator's tertiary comparison. It succeeds iff the rule is non-blank and parses. |
| `Compare.UnparsableRuleFailsEvenForBlankWords` | src/Main.java:144-148 | A non-blank, unparsable rule fails the comparison even when both words are blank. The collator is built before the short-circuit result is returned. |
| `Compare.CustomCompareIsTotalPreorder` | src/Main.java:139-149 | With a rule that parses, the custom comparison always succeeds. It is reflexive (Ok(0)), sign-antisymmetric and transitive. |
| `KeySort.ArraysSort` | src/Main.java:172 | If a slot is null, the sort reports NullPointerException. Otherwise the array becomes a permutation of its old contents, non-decreasing by key. |
| `KeySort.CollectSources` | src/Main.java:175-178 | The new list holds `getSourceString()` of every key, in array order. |
| `KeySort.SourcesOfPermutation` | src/Main.java:176-177 | If every slot holds its own source's key, permuting the slots permutes their source strings (equal multisets). |
| `KeySort.SortAndCollect` | src/Main.java:172-178 | A null slot ends in NullPointerException. Otherwise the result has the array's length, holds the array's source strings as a multiset, and is non-decreasing by collation key. |
| `Sorting.IndexOf` | src/Main.java:168 | `indexOf` returns -1 iff the word is absent. Otherwise it returns a position holding the word with no earlier occurrence. |
| `Sorting.FilledByIndexOfSlots` | src/Main.java:166-169 | After the fill, every non-null slot holds its source's key. A slot is null iff its word occurred earlier. Some slot is null iff the list has a duplicate. With distinct words the slots' sources are the words in order. |
| `Sorting.DuplicatedWordLeavesNullSlot` | src/Main.java:203-208 | For ["a", "a"] the fill writes slot 0 (twice) and leaves slot 1 null. |
| `Sorting.SortByCollationKeys` | src/Main.java:166-178 | For a list, the shared fill/sort/collect body succeeds iff the words are distinct. Otherwise it fails with NullPointerException. A result has the list's length, is a permutation of it, and is non-decreasing by collation key. |
| `Sorting.SortByPositionKeys` | src/Main.java:203-217 | With slot i filled from word i, every list, duplicates included, sorts into a permutation of itself that is non-decreasing by collation key. |
| `Sorting.SortLocaleSensitiveList` | src/Main.java:158-182 | A null or empty list gives an empty list. A non-empty list succeeds iff its words are distinct. The only failure is NullPointerException. A result is a permutation of the words, non-decreasing by the selected collator's secondary-strength keys. |
| `Sorting.CustomSortLocaleSensitiveList` | src/Main.java:194-221 | A blank or null rule gives ParseException("Build rules empty", 0), even for an empty list. Otherwise a null or empty list gives an empty list and the rule is never parsed. A non-empty list propagates the constructor's ParseException; the only other failure is NullPointerException. A rule that parses behaves like the locale variant: it succeeds iff the words are distinct, and a result is a sorted permutation under the rule collator's default-strength keys. |

## Left out

- `main`, `Collections.shuffle`, the console output and the sample lists (src/Main.java:47-110) are demonstration I/O. `CUSTOM_RULES` is only ever passed on as rule text, so it is not modelled.
- Collation itself is JDK code and is abstract here: the rule grammar and its parser, weight tables, the byte layout of collation keys, and locale data. Only its key function, key order and fallible construction appear.
- `setStrength` becomes the strength argument of the key function. `Platform.DefaultStrength` (tertiary) stands for the strength a fresh `RuleBasedCollator` has, which `customSortLocaleSensitiveList` never changes.
- Collators are values here, not fresh mutable objects. The model does not capture the object identity or mutation of `setStrength`.
- `StringUtils.isBlank` and `CollectionUtils.isNotEmpty` are predicates (`Blank.IsBlank`, `Sorting.IsNotEmpty`), not Apache's loops. The whitespace test is the platform's `isWhitespace` parameter.
- A null element inside the word list is not modelled. List elements are non-null strings.
- The model does not say whether the NullPointerException from a null slot is raised inside `Arrays.sort` or by `getSourceString()` in the assembly loop. Both lead to the same exception leaving the method.
- `KeySort.ArraysSort`: does not state the stability of `Arrays.sort(Object[])`, only a sorted permutation. Where collation-equal words exist, their relative order is therefore not pinned down.
- `Sorting.SortByCollationKeys`: the result order among collation-equal words is not stated (stability not modelled, as for `KeySort.ArraysSort`).
- `Sorting.SortLocaleSensitiveList`: the result order among collation-equal words is not stated (stability not modelled).
- `Sorting.CustomSortLocaleSensitiveList`: the result order among collation-equal words is not stated (stability not modelled).
- The contents of the key array after `Arrays.sort` throws on a null slot are not modelled. The sort may already have moved keys, but the array is a local that the exception abandons.
- Exceptions other than `ParseException` and `NullPointerException` (for example running out of memory) are not modelled.

## Findings

| source | as written | input that shows it | evidently intended | confidence | as-written member | corrected member |
|---|---|---|---|---|---|---|
| src/Main.java:167-168, src/Main.java:206-207 | Each word's key goes to slot `wordsList.indexOf(word)`, its first occurrence. A repeated word rewrites that slot and never fills its own. The null left behind makes `Arrays.sort` / `getSourceString()` throw NullPointerException. | `["a", "a"]`: slot 1 stays null | One key per position (slot i gets word i's key), so every list sorts | high, not executed | `Sorting.DuplicatedWordLeavesNullSlot` | `Sorting.SortByPositionKeys` |

Both entry points keep the fill as written, because that is what the program
does. `Sorting.SortByCollationKeys` states the consequence: the pipelines
succeed exactly on lists without duplicates. `Sorting.SortByPositionKeys` is
the corrected body with the same sort and collect steps. It proves the sorted
permutation for every list.
