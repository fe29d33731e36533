# Password strength checker: a verified model

This project models the rule-based password checker of the two Python
scripts `adv3.8.7.py` and `advancepass.py`. Each script has two functions
with logic; the rest is I/O (see "## Left out"):

- `evaluate_password` scores a password. A length check gives 0, 1 or 2 points.
  Four character-class checks (lowercase, uppercase, digit, special) give one
  point each. Each failed check may add a suggestion. The final score maps to
  one of four labels: "Very Weak", "Weak", "Medium" or "Strong".
- `generate_strong_password` draws a random password of at least 12
  characters from letters, digits and `!@#$%^&*()-_+=`.

`adv3.8.7.py` takes a minimum length and four `require_*` flags. The flags
only control which class suggestions appear. `advancepass.py` is the same
checker with its policy fixed: minimum 8, every class required.

Files:

- `rules.dfy` (module `Rules`) holds what both scripts share. That is the four
  regex classes as predicates on code points, `re.search` as a left-to-right
  scan, the score-to-label table, the class messages, and the generator's
  76-character alphabet (`string.ascii_letters + string.digits` plus the
  special set).
- `decimal.dfy` (module `Decimal`) is Python's `str()` on an `int`. The
  f-string `"Use at least {min_length} characters."` needs it. It comes with
  a parser and a round-trip proof.
- `adv387.dfy` (module `Adv387`) models `adv3.8.7.py`.
- `advancepass.dfy` (module `AdvancePass`) models `advancepass.py`.

`evaluate_password` is imperative: a local `score` grows with `+=`, and
`suggestions` grows with `append`. It is modelled as a `method`. The method
returns the strength label (a string) and the suggestion list, like the
Python tuple. It is proved against specification functions (`Score`,
`Suggestions`). Lemmas then state what those functions guarantee.

In `Adv387.EvaluatePassword` the length check and the four class checks are
split into two helper methods, `CheckLength` and `CheckClass`. The helpers
keep the source's branches unchanged: `if`, `elif require_*`, and nothing
otherwise. In `AdvancePass.EvaluatePassword` the checks stay inline, as in
the source.

`generate_strong_password` is a single expression over `random.choice`. It is
modelled as a function with an oracle parameter `pick: nat -> nat`. Draw `i`
returns `Characters[pick(i) % 76]`.

`adv3.8.7.py` accepts any minimum; `Adv387.NonPositiveMinimum` records that
with `min_length <= 0`, even the empty password earns a length point.

## Model

| member | source | states |
|---|---|---|
| `Rules.Search` | adv3.8.7.py:24 | `re.search` with a class finds a match exactly when some character of the password is in that class |
| `Rules.ClassifyThresholds` | adv3.8.7.py:48-55 | score ≤2 is Very Weak, 3 is Weak, 4 is Medium, ≥5 is Strong, each as an if-and-only-if; a higher score is never rated weaker |
| `Rules.LabelInjective` | advancepass.py:42-49 | the four strengths are returned as four different strings |
| `Rules.MessageDistinct` | adv3.8.7.py:26-45 | the four class messages are pairwise different and all start with 'A', so none equals the length message |
| `Rules.MessageIn` | advancepass.py:18-39 | a class message appears in a list of class messages exactly when that class is in the list |
| `Rules.Missing` | advancepass.py:18-39 | the absent classes keep the check order, and a class is listed exactly when it is checked and does not occur |
| `Rules.MissingInCheckOrder` | adv3.8.7.py:23-45 | the absent classes are collected one check at a time: lowercase, uppercase, digit, special |
| `Rules.SpecialSetsAgree` | adv3.8.7.py:64 | the generator's special characters are the same 14 characters as the regex class `[!@#$%^&*()\-_=+]`, with `\-` a literal hyphen |
| `Rules.InCharRange` | adv3.8.7.py:64 | `ascii_lowercase`, `ascii_uppercase` and `digits` contain exactly the code points of their ranges |
| `Rules.CharactersAreClassMembers` | adv3.8.7.py:64 | the 76-character alphabet holds exactly the characters that satisfy one of the evaluator's four class predicates |
| `Decimal.IntToString` | adv3.8.7.py:21 | `str(min_length)` is a '-' exactly for negative values, followed by decimal digits |
| `Decimal.NatToString` | adv3.8.7.py:21 | the digits of a natural number have no leading zero |
| `Decimal.ParseIntToString` | adv3.8.7.py:21 | parsing the rendered minimum gives back the minimum |
| `Decimal.IntToStringInjective` | adv3.8.7.py:21 | different minimums produce different length messages |
| `Adv387.EvaluatePassword` | adv3.8.7.py:10-57 | the label is the table applied to `Score(password, min_length)`, so the flags cannot affect it; the suggestions are `Suggestions` under the given policy |
| `Adv387.CheckLength` | adv3.8.7.py:15-21 | the length check adds the length points, or the length message when the password is shorter than the minimum |
| `Adv387.CheckClass` | adv3.8.7.py:23-45 | a class check adds one point when its class occurs; otherwise it adds the class message only if the flag is set |
| `Adv387.LengthCheck` | adv3.8.7.py:16-21 | 2 points iff `len >= max(12, min_length)`; 1 point iff `min_length <= len < max(12, min_length)`; 0 points iff `len < min_length`; the length message is present iff `len < min_length`, and then it comes first |
| `Adv387.NonPositiveMinimum` | adv3.8.7.py:16-21 | with `min_length <= 0` the empty password gets 1 length point and no length message |
| `Adv387.ScoreByCheck` | adv3.8.7.py:23-45 | the score is the length points plus exactly one point for each class that occurs |
| `Adv387.ScoreRange` | adv3.8.7.py:13-45 | the score is between the length points and 6, so no check subtracts |
| `Adv387.ClassCheck` | adv3.8.7.py:24-45 | a class message is among the suggestions exactly when the class is absent and its flag is set |
| `Adv387.SuggestionsByCheck` | adv3.8.7.py:12-45 | the suggestions are the five checks' outputs concatenated in check order |
| `Adv387.SuggestionsInCheckOrder` | adv3.8.7.py:12-45 | the suggestions are a subsequence of [length, lowercase, uppercase, digit, special], so at most one per check and at most five in all |
| `Adv387.Demanded` | adv3.8.7.py:26-44 | the required classes keep their order, and a class is kept exactly when its flag is set |
| `Adv387.DemandedAll` | adv3.8.7.py:10-11 | with every flag at its default (true), every absent class is reported |
| `Adv387.FlagsOnlyFilterSuggestions` | adv3.8.7.py:24-55 | clearing flags only removes messages from what the all-required policy reports; it never adds or reorders any |
| `Adv387.NoSuggestionsMeansStrong` | adv3.8.7.py:10-55 | with every flag set, a password with no suggestions is rated Strong |
| `Adv387.GenerateStrongPassword` | adv3.8.7.py:60-65 | the result has length `max(length, 12)` (12 with the default `length=12`), and every character is in the 76-character alphabet |
| `Adv387.DefaultGeneratedLength` | adv3.8.7.py:60-62 | `generate_strong_password()` called with no argument, as both command-line runners and the GUI do, gives 12 characters |
| `Adv387.GeneratedCharsAreClassified` | adv3.8.7.py:64 | every generated character satisfies one of the evaluator's four class predicates |
| `Adv387.GeneratedLengthEarnsFullPoints` | adv3.8.7.py:61-62 | a generated password earns both length points under any minimum of 12 or less |
| `Adv387.GeneratedMayBeWeak` | adv3.8.7.py:60-65 | if every draw picks the first character, the "strong" password is all 'a's and is rated Weak under the defaults |
| `Adv387.AllLowercaseAIsWeak` | adv3.8.7.py:13-55 | twelve or more 'a's earn 2 length points and only the lowercase point, a score of 3, rated Weak under the defaults |
| `AdvancePass.EvaluatePassword` | advancepass.py:5-51 | the label is the table applied to `Score(password)`, and the suggestions are `Suggestions(password)` |
| `AdvancePass.LengthCheck` | advancepass.py:10-15 | 2 points iff `len >= 12`; 1 point iff `8 <= len < 12`; 0 points iff `len < 8`; "Use at least 8 characters." is present iff `len < 8` |
| `AdvancePass.AdviceIsMessage` | advancepass.py:18-39 | a class check adds its message exactly when it does not add its point |
| `AdvancePass.ScoreByAbsentClasses` | advancepass.py:9-39 | score = length points + (4 − number of absent classes), and it lies in 0..6 |
| `AdvancePass.SuggestionsByAbsentClasses` | advancepass.py:9-39 | suggestions = length message if `len < 8`, then one message per absent class; their count is `(len < 8 ? 1 : 0)` + number of absent classes |
| `AdvancePass.NoSuggestionsExactlyWhenAcceptable` | advancepass.py:10-49 | no suggestions iff `len >= 8` and all four classes occur; the password is then rated Strong |
| `AdvancePass.ExampleShortLowercase` | advancepass.py:10-49 | "abc" is Very Weak, with the length, uppercase, digit and special messages in that order |
| `AdvancePass.ExampleStrong` | advancepass.py:10-49 | "Abcdef123!" is Strong, with no suggestions |
| `AdvancePass.LengthMessageIsDefault` | advancepass.py:15 | "Use at least 8 characters." is the configurable length message with `min_length` 8 |
| `AdvancePass.MatchesConfigurableDefaults` | advancepass.py:5-51 | score and suggestions equal those of adv3.8.7.py's `evaluate_password` with `min_length=8` and every flag true |
| `AdvancePass.GenerateStrongPassword` | advancepass.py:54-59 | the result has length `max(length, 12)` (12 with the default `length=12`), and every character is in the 76-character alphabet |
| `AdvancePass.SameGeneratorAsConfigurable` | advancepass.py:54-59 | the same draws give the same password as adv3.8.7.py's generator |

## Left out

- `run_gui` (adv3.8.7.py:71-138) is left out. It is Tkinter widgets, event callbacks and a main loop.
- The `__main__` blocks (adv3.8.7.py:144-166, advancepass.py:62-75) are left out. They only prompt with `input()`, call `.strip()` and `print`.
- Adv387.GenerateStrongPassword: the randomness of `random.choice` is not modelled. An oracle supplies each draw's index, taken modulo 76. Only the length and the alphabet are proved, not uniformity.
- AdvancePass.GenerateStrongPassword: same as above.
- Adv387.EvaluatePassword: parameters are typed. `min_length` is an `int` and the flags are `bool`; Python's duck typing, such as a float minimum, is not modelled. A password is a sequence of Unicode scalar values, so Python strings with lone surrogates cannot be represented.
- Entropy and crack-time estimation, the dictionary, balance and reuse checks, history logging, report export, and rejection of a non-positive `min_length` are not in either script, so none is modelled.
