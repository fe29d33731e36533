/**
 * The configurable checker of adv3.8.7.py: evaluate_password with a minimum
 * length and four require_* flags, and generate_strong_password.
 *
 * EvaluatePassword is the imperative routine (a local score that only ever
 * grows, a suggestion list appended to check by check); Score and Suggestions
 * specify it by filtering the check order, and the lemmas below state what
 * the scoring rules promise.
 */
module Adv387 {
  import opened Rules
  import Decimal

  /** The keyword arguments of evaluate_password. No value of minLength is rejected. */
  datatype Policy = Policy(
    minLength: int,
    requireUpper: bool,
    requireLower: bool,
    requireDigit: bool,
    requireSpecial: bool)

  /** evaluate_password's defaults: minimum 8, every class required. */
  const Defaults: Policy := Policy(8, true, true, true, true)

  function Max(a: int, b: int): int {
    if a >= b then a else b
  }

  /** The length check: 2 points at max(12, minLength) or more, 1 point from minLength on. */
  function LengthPoints(n: nat, minLength: int): nat {
    if n >= Max(12, minLength) then 2 else if n >= minLength then 1 else 0
  }

  /** f"Use at least {min_length} characters." */
  function LengthMessage(minLength: int): string {
    "Use at least " + Decimal.IntToString(minLength) + " characters."
  }

  /** The suggestion of the length check, if any. */
  function LengthAdvice(n: nat, minLength: int): seq<string> {
    if n < minLength then [LengthMessage(minLength)] else []
  }

  predicate Required(pol: Policy, k: CharClass) {
    match k
    case Lower => pol.requireLower
    case Upper => pol.requireUpper
    case Digit => pol.requireDigit
    case Special => pol.requireSpecial
  }

  /** The classes of ks whose require_* flag is set, in the order of ks. */
  function Demanded(pol: Policy, ks: seq<CharClass>): (r: seq<CharClass>)
    ensures IsSubsequence(r, ks)
    ensures forall k :: k in r <==> k in ks && Required(pol, k)
  {
    if ks == [] then []
    else
      var rest := Demanded(pol, ks[1..]);
      assert forall k :: k in ks <==> k == ks[0] || k in ks[1..];
      if Required(pol, ks[0]) then
        assert ([ks[0]] + rest)[1..] == rest;
        [ks[0]] + rest
      else
        rest
  }

  /** The final score: the length points plus one point per class that occurs. */
  function Score(p: string, minLength: int): int {
    LengthPoints(|p|, minLength) + |CheckOrder| - |Missing(p, CheckOrder)|
  }

  /** The returned suggestions: the length advice, then one message per absent class that is required. */
  function Suggestions(p: string, pol: Policy): seq<string> {
    LengthAdvice(|p|, pol.minLength) + Messages(Demanded(pol, Missing(p, CheckOrder)))
  }

  /** The message of one class check: present, nothing; absent, its message if required. */
  function ClassAdvice(p: string, required: bool, k: CharClass): seq<string> {
    if Occurs(p, k) || !required then [] else [Message(k)]
  }

  /** evaluate_password(password, min_length, require_upper, require_lower, require_digit, require_special). */
  method EvaluatePassword(password: string, minLength: int := 8, requireUpper: bool := true,
                          requireLower: bool := true, requireDigit: bool := true,
                          requireSpecial: bool := true)
    returns (strength: string, suggestions: seq<string>)
    ensures strength == Label(Classify(Score(password, minLength)))
    ensures suggestions
         == Suggestions(password, Policy(minLength, requireUpper, requireLower, requireDigit, requireSpecial))
  {
    ghost var pol := Policy(minLength, requireUpper, requireLower, requireDigit, requireSpecial);
    var score;
    score, suggestions := CheckLength(password, minLength);
    score, suggestions := CheckClass(password, Lower, requireLower, score, suggestions);
    score, suggestions := CheckClass(password, Upper, requireUpper, score, suggestions);
    score, suggestions := CheckClass(password, Digit, requireDigit, score, suggestions);
    score, suggestions := CheckClass(password, Special, requireSpecial, score, suggestions);

    assert score == Score(password, minLength) by { ScoreByCheck(password, minLength); }
    assert suggestions == Suggestions(password, pol) by { SuggestionsByCheck(password, pol); }

    if score <= 2 {
      strength := "Very Weak";
    } else if score == 3 {
      strength := "Weak";
    } else if score == 4 {
      strength := "Medium";
    } else {
      strength := "Strong";
    }
  }

  /** The length check of evaluate_password, starting from score 0 and no suggestions. */
  method CheckLength(password: string, minLength: int) returns (score: int, suggestions: seq<string>)
    ensures score == LengthPoints(|password|, minLength)
    ensures suggestions == LengthAdvice(|password|, minLength)
  {
    suggestions := [];
    score := 0;
    if |password| >= Max(12, minLength) {
      score := score + 2;
    } else if |password| >= minLength {
      score := score + 1;
    } else {
      suggestions := suggestions + [LengthMessage(minLength)];
    }
  }

  /**
   * One of the four class checks of evaluate_password: a point if re.search
   * finds the class, else its message when the class is required.
   */
  method CheckClass(password: string, k: CharClass, required: bool, score: int, suggestions: seq<string>)
    returns (score': int, suggestions': seq<string>)
    ensures score' == score + Point(Occurs(password, k))
    ensures suggestions' == suggestions + ClassAdvice(password, required, k)
  {
    score', suggestions' := score, suggestions;
    if Search(password, k) {
      score' := score' + 1;
    } else if required {
      suggestions' := suggestions' + [Message(k)];
    }
  }

  /** Each class check adds exactly one point when its class occurs, and nothing otherwise. */
  lemma ScoreByCheck(p: string, minLength: int)
    ensures Score(p, minLength)
         == LengthPoints(|p|, minLength)
          + Point(Occurs(p, Lower)) + Point(Occurs(p, Upper))
          + Point(Occurs(p, Digit)) + Point(Occurs(p, Special))
  {
    MissingInCheckOrder(p);
  }

  lemma {:induction false} DemandedAppend(pol: Policy, a: seq<CharClass>, b: seq<CharClass>)
    ensures Demanded(pol, a + b) == Demanded(pol, a) + Demanded(pol, b)
  {
    if a != [] {
      DemandedAppend(pol, a[1..], b);
      assert (a + b)[1..] == a[1..] + b;
    } else {
      assert a + b == b;
    }
  }

  lemma ClassAdviceDemanded(p: string, pol: Policy, k: CharClass)
    ensures Messages(Demanded(pol, IfAbsent(p, k))) == ClassAdvice(p, Required(pol, k), k)
  {
    if !Occurs(p, k) {
      assert IfAbsent(p, k) == [k] + [];
      DemandedAppend(pol, [k], []);
    }
  }

  /** The suggestions are those of the five checks, concatenated in check order. */
  lemma SuggestionsByCheck(p: string, pol: Policy)
    ensures Suggestions(p, pol)
         == LengthAdvice(|p|, pol.minLength)
          + ClassAdvice(p, pol.requireLower, Lower) + ClassAdvice(p, pol.requireUpper, Upper)
          + ClassAdvice(p, pol.requireDigit, Digit) + ClassAdvice(p, pol.requireSpecial, Special)
  {
    var l, u, d, s := IfAbsent(p, Lower), IfAbsent(p, Upper), IfAbsent(p, Digit), IfAbsent(p, Special);
    var dl, du, dd, ds := Demanded(pol, l), Demanded(pol, u), Demanded(pol, d), Demanded(pol, s);
    var cl, cu, cd, cs := ClassAdvice(p, pol.requireLower, Lower), ClassAdvice(p, pol.requireUpper, Upper),
                          ClassAdvice(p, pol.requireDigit, Digit), ClassAdvice(p, pol.requireSpecial, Special);
    calc {
      Demanded(pol, Missing(p, CheckOrder));
      { MissingInCheckOrder(p); }
      Demanded(pol, l + u + d + s);
      { DemandedAppend(pol, l + u + d, s); }
      Demanded(pol, l + u + d) + ds;
      { DemandedAppend(pol, l + u, d); }
      Demanded(pol, l + u) + dd + ds;
      { DemandedAppend(pol, l, u); }
      dl + du + dd + ds;
    }
    calc {
      Messages(dl + du + dd + ds);
      { MessagesAppend(dl + du + dd, ds); }
      Messages(dl + du + dd) + Messages(ds);
      { MessagesAppend(dl + du, dd); }
      Messages(dl + du) + Messages(dd) + Messages(ds);
      { MessagesAppend(dl, du); }
      Messages(dl) + Messages(du) + Messages(dd) + Messages(ds);
      { ClassAdviceDemanded(p, pol, Lower); ClassAdviceDemanded(p, pol, Upper);
        ClassAdviceDemanded(p, pol, Digit); ClassAdviceDemanded(p, pol, Special); }
      cl + cu + cd + cs;
    }
    var la := LengthAdvice(|p|, pol.minLength);
    AppendAssociates(la, cl + cu + cd, cs);
    AppendAssociates(la, cl + cu, cd);
    AppendAssociates(la, cl, cu);
  }

  /** The policy with the given minimum and every require_* flag set. */
  function AllRequired(minLength: int): Policy {
    Policy(minLength, true, true, true, true)
  }

  lemma {:induction false} DemandedAll(minLength: int, ks: seq<CharClass>)
    ensures Demanded(AllRequired(minLength), ks) == ks
  {
    if ks != [] {
      DemandedAll(minLength, ks[1..]);
      assert ks == [ks[0]] + ks[1..];
    }
  }

  lemma LengthMessageStartsWithU(minLength: int)
    ensures LengthMessage(minLength)[0] == 'U'
  {
  }

  /**
   * The length check: 2 points exactly from max(12, minLength) on, 1 point
   * exactly from minLength up to that, otherwise 0 points and the length
   * message first among the suggestions. Any minLength is accepted.
   */
  lemma LengthCheck(p: string, pol: Policy)
    ensures LengthPoints(|p|, pol.minLength) == 2 <==> |p| >= Max(12, pol.minLength)
    ensures LengthPoints(|p|, pol.minLength) == 1 <==> pol.minLength <= |p| < Max(12, pol.minLength)
    ensures LengthPoints(|p|, pol.minLength) == 0 <==> |p| < pol.minLength
    ensures LengthMessage(pol.minLength) in Suggestions(p, pol) <==> |p| < pol.minLength
    ensures |p| < pol.minLength ==> Suggestions(p, pol)[0] == LengthMessage(pol.minLength)
  {
    var m := pol.minLength;
    var rest := Messages(Demanded(pol, Missing(p, CheckOrder)));
    if LengthMessage(m) in rest {
      var i :| 0 <= i < |rest| && rest[i] == LengthMessage(m);
      MessageDistinct(Demanded(pol, Missing(p, CheckOrder))[i], Lower);
      LengthMessageStartsWithU(m);
    }
  }

  /** A non-positive minimum gives even the empty password a length point and no length message. */
  lemma NonPositiveMinimum(pol: Policy)
    requires pol.minLength <= 0
    ensures LengthPoints(0, pol.minLength) == 1
    ensures Score("", pol.minLength) >= 1
    ensures LengthMessage(pol.minLength) !in Suggestions("", pol)
  {
    LengthCheck("", pol);
  }

  /** The score lies in 0..6 and is at least the length points: no check ever subtracts. */
  lemma ScoreRange(p: string, minLength: int)
    ensures LengthPoints(|p|, minLength) <= Score(p, minLength) <= 6
  {
    SubsequenceLength(Missing(p, CheckOrder), CheckOrder);
  }

  /** A class check adds its message exactly when the class is absent and required. */
  lemma ClassCheck(p: string, pol: Policy, k: CharClass)
    ensures Message(k) in Suggestions(p, pol) <==> !Occurs(p, k) && Required(pol, k)
  {
    var missing := Demanded(pol, Missing(p, CheckOrder));
    MessageIn(k, missing);
    assert k in CheckOrder;
    if Message(k) in LengthAdvice(|p|, pol.minLength) {
      MessageDistinct(k, k);
      LengthMessageStartsWithU(pol.minLength);
    }
  }

  /**
   * The suggestions keep the check order with at most one message per check:
   * they are a subsequence of the five possible messages, so there are at most five.
   */
  lemma SuggestionsInCheckOrder(p: string, pol: Policy)
    ensures IsSubsequence(Suggestions(p, pol), [LengthMessage(pol.minLength)] + Messages(CheckOrder))
    ensures |Suggestions(p, pol)| <= 5
  {
    var missing := Missing(p, CheckOrder);
    var demanded := Demanded(pol, missing);
    SubsequenceTransitive(demanded, missing, CheckOrder);
    MessagesSubsequence(demanded, CheckOrder);
    var advice := LengthAdvice(|p|, pol.minLength);
    if advice == [] {
      EmptySubsequence([LengthMessage(pol.minLength)]);
    } else {
      SubsequenceOfItself(advice);
    }
    SubsequenceAppend(advice, [LengthMessage(pol.minLength)], Messages(demanded), Messages(CheckOrder));
    SubsequenceLength(Suggestions(p, pol), [LengthMessage(pol.minLength)] + Messages(CheckOrder));
  }

  /**
   * The require_* flags never change the score or the strength, which are
   * computed from the password and minLength alone; they only drop messages
   * from the suggestions the all-required policy gives.
   */
  lemma FlagsOnlyFilterSuggestions(p: string, pol: Policy)
    ensures IsSubsequence(Suggestions(p, pol), Suggestions(p, AllRequired(pol.minLength)))
  {
    var missing := Missing(p, CheckOrder);
    DemandedAll(pol.minLength, missing);
    MessagesSubsequence(Demanded(pol, missing), missing);
    SubsequenceOfItself(LengthAdvice(|p|, pol.minLength));
    SubsequenceAppend(LengthAdvice(|p|, pol.minLength), LengthAdvice(|p|, pol.minLength),
                      Messages(Demanded(pol, missing)), Messages(missing));
  }

  /** With every class required, a password that draws no suggestion is rated Strong. */
  lemma NoSuggestionsMeansStrong(p: string, minLength: int)
    ensures Suggestions(p, AllRequired(minLength)) == [] ==> Classify(Score(p, minLength)) == Strong
  {
    var missing := Missing(p, CheckOrder);
    DemandedAll(minLength, missing);
    if Suggestions(p, AllRequired(minLength)) == [] {
      assert missing == [];
      assert |p| >= minLength;
    }
  }

  /**
   * generate_strong_password(length). The i-th call of random.choice is the
   * oracle's pick(i), taken modulo the 76 characters.
   */
  function GenerateStrongPassword(pick: nat -> nat, length: int := 12): (pwd: string)
    ensures |pwd| == Max(length, 12)
    ensures forall i :: 0 <= i < |pwd| ==> InAlphabet(pwd[i])
  {
    var n := if length < 12 then 12 else length;
    seq(n, i requires 0 <= i < n => Characters[pick(i) % |Characters|])
  }

  /** generate_strong_password() with its default length gives 12 characters. */
  lemma DefaultGeneratedLength(pick: nat -> nat)
    ensures |GenerateStrongPassword(pick)| == 12
  {
  }

  /** Every generated character satisfies one of the evaluator's four class predicates. */
  lemma GeneratedCharsAreClassified(pick: nat -> nat, length: int)
    ensures forall i :: 0 <= i < |GenerateStrongPassword(pick, length)| ==>
              IsClassified(GenerateStrongPassword(pick, length)[i])
  {
    var pwd := GenerateStrongPassword(pick, length);
    forall i | 0 <= i < |pwd|
      ensures IsClassified(pwd[i])
    {
      CharactersAreClassMembers(pwd[i]);
    }
  }

  /** A generated password always earns both length points under any minimum up to 12. */
  lemma GeneratedLengthEarnsFullPoints(pick: nat -> nat, length: int, minLength: int)
    requires minLength <= 12
    ensures LengthPoints(|GenerateStrongPassword(pick, length)|, minLength) == 2
  {
  }

  /**
   * The generator does not promise a Strong rating: when every draw picks the
   * first character, the result is all 'a's, rated Weak under the defaults.
   */
  lemma GeneratedMayBeWeak(pick: nat -> nat, length: int)
    requires forall i :: pick(i) % 76 == 0
    ensures Classify(Score(GenerateStrongPassword(pick, length), Defaults.minLength)) == Weak
  {
    var pwd := GenerateStrongPassword(pick, length);
    CharactersAreClassMembers('a');
    assert Characters[0] == AsciiLowercase[0] == 'a';
    AllLowercaseAIsWeak(pwd);
  }

  /** A password of twelve or more 'a's scores 3 under the defaults: Weak. */
  lemma AllLowercaseAIsWeak(pwd: string)
    requires |pwd| >= 12
    requires forall i :: 0 <= i < |pwd| ==> pwd[i] == 'a'
    ensures Classify(Score(pwd, Defaults.minLength)) == Weak
  {
    assert InClass(pwd[0], Lower);
    assert !Occurs(pwd, Upper) && !Occurs(pwd, Digit);
    assert !Occurs(pwd, Special) by {
      forall i | 0 <= i < |pwd| ensures !InClass(pwd[i], Special) {
        SpecialSetsAgree(pwd[i]);
      }
    }
    ScoreByCheck(pwd, 8);
  }
}
