/**
 * The fixed-policy checker of advancepass.py: evaluate_password with a
 * minimum of 8 characters and every class required, and
 * generate_strong_password.
 *
 * Score and Suggestions specify EvaluatePassword check by check, the way
 * the source reads; the lemmas count absent classes, give the two worked
 * examples, and show that this checker is the configurable one of
 * adv3.8.7.py called with its defaults.
 */
module AdvancePass {
  import opened Rules
  import Adv387
  import Decimal

  /** The fixed length check: 2 points from 12 characters on, 1 point from 8. */
  function LengthPoints(n: nat): nat {
    if n >= 12 then 2 else if n >= 8 then 1 else 0
  }

  const LengthMessage: string := "Use at least 8 characters."

  function LengthAdvice(n: nat): seq<string> {
    if n < 8 then [LengthMessage] else []
  }

  /** A class check's suggestion: its message exactly when the class is absent. */
  function Advice(p: string, k: CharClass): seq<string> {
    if Occurs(p, k) then [] else [Message(k)]
  }

  /** The final score: the length points plus one point per class check that passes. */
  function Score(p: string): int {
    LengthPoints(|p|)
      + Point(Occurs(p, Lower)) + Point(Occurs(p, Upper))
      + Point(Occurs(p, Digit)) + Point(Occurs(p, Special))
  }

  /** The returned suggestions: one per failing check, in check order. */
  function Suggestions(p: string): seq<string> {
    LengthAdvice(|p|) + Advice(p, Lower) + Advice(p, Upper) + Advice(p, Digit) + Advice(p, Special)
  }

  /** evaluate_password(password) of advancepass.py. */
  method EvaluatePassword(password: string) returns (strength: string, suggestions: seq<string>)
    ensures strength == Label(Classify(Score(password)))
    ensures suggestions == Suggestions(password)
  {
    suggestions := [];
    var score := 0;

    if |password| >= 12 {
      score := score + 2;
    } else if |password| >= 8 {
      score := score + 1;
    } else {
      suggestions := suggestions + [LengthMessage];
    }
    assert score == LengthPoints(|password|) && suggestions == LengthAdvice(|password|);

    if Search(password, Lower) {
      score := score + 1;
    } else {
      suggestions := suggestions + [Message(Lower)];
    }
    assert score == LengthPoints(|password|) + Point(Occurs(password, Lower));
    assert suggestions == LengthAdvice(|password|) + Advice(password, Lower);

    if Search(password, Upper) {
      score := score + 1;
    } else {
      suggestions := suggestions + [Message(Upper)];
    }
    assert score == LengthPoints(|password|) + Point(Occurs(password, Lower)) + Point(Occurs(password, Upper));
    assert suggestions == LengthAdvice(|password|) + Advice(password, Lower) + Advice(password, Upper);

    if Search(password, Digit) {
      score := score + 1;
    } else {
      suggestions := suggestions + [Message(Digit)];
    }
    assert score == LengthPoints(|password|) + Point(Occurs(password, Lower)) + Point(Occurs(password, Upper))
                  + Point(Occurs(password, Digit));
    assert suggestions == LengthAdvice(|password|) + Advice(password, Lower) + Advice(password, Upper)
                        + Advice(password, Digit);

    if Search(password, Special) {
      score := score + 1;
    } else {
      suggestions := suggestions + [Message(Special)];
    }

    if score <= 2 {
      strength := "Very Weak";
    } else if score == 3 {
      strength := "Weak";
    } else if score == 4 {
      strength := "Medium";
    } else {
      strength := "Strong";
    }
  }

  /** The fixed length check: 2 points from 12 on, 1 point from 8 to 11, else 0 points and the length message. */
  lemma LengthCheck(p: string)
    ensures LengthPoints(|p|) == 2 <==> |p| >= 12
    ensures LengthPoints(|p|) == 1 <==> 8 <= |p| < 12
    ensures LengthPoints(|p|) == 0 <==> |p| < 8
    ensures LengthMessage in Suggestions(p) <==> |p| < 8
  {
    if LengthMessage in Suggestions(p) && |p| >= 8 {
      var rest := Advice(p, Lower) + Advice(p, Upper) + Advice(p, Digit) + Advice(p, Special);
      assert LengthMessage in rest;
      var i :| 0 <= i < |rest| && rest[i] == LengthMessage;
      var k :| rest[i] == Message(k);
      MessageDistinct(k, k);
    }
  }

  lemma AdviceIsMessage(p: string, k: CharClass)
    ensures Advice(p, k) == Messages(IfAbsent(p, k))
    ensures |IfAbsent(p, k)| == 1 - Point(Occurs(p, k))
  {
  }

  /** The absent classes, counted: the score is the length points plus four minus their number. */
  lemma ScoreByAbsentClasses(p: string)
    ensures Score(p) == LengthPoints(|p|) + 4 - |Missing(p, CheckOrder)|
    ensures 0 <= Score(p) <= 6
  {
    MissingInCheckOrder(p);
    AdviceIsMessage(p, Lower);
    AdviceIsMessage(p, Upper);
    AdviceIsMessage(p, Digit);
    AdviceIsMessage(p, Special);
  }

  /** The suggestions are the length advice followed by one message per absent class, so they number the failing checks. */
  lemma SuggestionsByAbsentClasses(p: string)
    ensures Suggestions(p) == LengthAdvice(|p|) + Messages(Missing(p, CheckOrder))
    ensures |Suggestions(p)| == (if |p| < 8 then 1 else 0) + |Missing(p, CheckOrder)|
  {
    var l, u, d, s := IfAbsent(p, Lower), IfAbsent(p, Upper), IfAbsent(p, Digit), IfAbsent(p, Special);
    var la := LengthAdvice(|p|);
    var al, au, ad, as_ := Advice(p, Lower), Advice(p, Upper), Advice(p, Digit), Advice(p, Special);
    AdviceIsMessage(p, Lower);
    AdviceIsMessage(p, Upper);
    AdviceIsMessage(p, Digit);
    AdviceIsMessage(p, Special);
    calc {
      Messages(Missing(p, CheckOrder));
      { MissingInCheckOrder(p); }
      Messages(l + u + d + s);
      { MessagesAppend(l + u + d, s); }
      Messages(l + u + d) + as_;
      { MessagesAppend(l + u, d); }
      Messages(l + u) + ad + as_;
      { MessagesAppend(l, u); }
      al + au + ad + as_;
    }
    AppendAssociates(la, al + au + ad, as_);
    AppendAssociates(la, al + au, ad);
    AppendAssociates(la, al, au);
  }

  /** No suggestion exactly when the password has 8 characters and every class; it is then rated Strong. */
  lemma NoSuggestionsExactlyWhenAcceptable(p: string)
    ensures Suggestions(p) == []
        <==> |p| >= 8 && Occurs(p, Lower) && Occurs(p, Upper) && Occurs(p, Digit) && Occurs(p, Special)
    ensures Suggestions(p) == [] ==> Classify(Score(p)) == Strong
  {
    ScoreByAbsentClasses(p);
    SuggestionsByAbsentClasses(p);
  }

  /** "abc" is Very Weak, with the length, uppercase, digit and special messages in that order. */
  lemma ExampleShortLowercase()
    ensures Classify(Score("abc")) == VeryWeak
    ensures Suggestions("abc") == [LengthMessage, Message(Upper), Message(Digit), Message(Special)]
  {
    var p := "abc";
    assert InClass(p[0], Lower);
    assert !Occurs(p, Upper) && !Occurs(p, Digit);
    assert !Occurs(p, Special) by {
      forall i | 0 <= i < |p| ensures !InClass(p[i], Special) {
        SpecialSetsAgree(p[i]);
      }
    }
  }

  /** "Abcdef123!" (10 characters, all four classes) is Strong with no suggestion. */
  lemma ExampleStrong()
    ensures Classify(Score("Abcdef123!")) == Strong
    ensures Suggestions("Abcdef123!") == []
  {
    var p := "Abcdef123!";
    assert InClass(p[0], Upper) && InClass(p[1], Lower) && InClass(p[6], Digit);
    assert InClass(p[9], Special);
  }

  /** The fixed length message is the configurable one rendered for a minimum of 8. */
  lemma LengthMessageIsDefault()
    ensures Adv387.LengthMessage(8) == LengthMessage
  {
    assert Decimal.DigitChar(8) == '8';
    assert Decimal.NatToString(8) == [Decimal.DigitChar(8)];
    assert Decimal.IntToString(8) == "8";
    var m := Adv387.LengthMessage(8);
    assert m == "Use at least " + "8" + " characters.";
    assert |m| == |LengthMessage|;
  }

  /** This checker is adv3.8.7.py's evaluate_password with min_length 8 and every flag set. */
  lemma MatchesConfigurableDefaults(p: string)
    ensures Score(p) == Adv387.Score(p, Adv387.Defaults.minLength)
    ensures Suggestions(p) == Adv387.Suggestions(p, Adv387.Defaults)
  {
    ScoreByAbsentClasses(p);
    SuggestionsByAbsentClasses(p);
    Adv387.DemandedAll(8, Missing(p, CheckOrder));
    assert Adv387.AllRequired(8) == Adv387.Defaults;
    LengthMessageIsDefault();
  }

  /** generate_strong_password(length) of advancepass.py; pick(i) is the index of the i-th random.choice. */
  function GenerateStrongPassword(pick: nat -> nat, length: int := 12): (pwd: string)
    ensures |pwd| == Adv387.Max(length, 12)
    ensures forall i :: 0 <= i < |pwd| ==> InAlphabet(pwd[i])
  {
    var n := if length < 12 then 12 else length;
    seq(n, i requires 0 <= i < n => Characters[pick(i) % |Characters|])
  }

  /** Both source files generate the same password from the same draws. */
  lemma SameGeneratorAsConfigurable(pick: nat -> nat, length: int)
    ensures GenerateStrongPassword(pick, length) == Adv387.GenerateStrongPassword(pick, length)
  {
  }
}
