/**
 * What the two evaluators share: the four regular-expression character
 * classes they search for, re.search over a password, the table from score
 * to strength label, the per-class suggestion messages, and the alphabet of
 * the generator (Python's string.ascii_letters + string.digits plus a special
 * set). Passwords are sequences of code points.
 */
module Rules {

  /** The classes [a-z], [A-Z], [0-9] and [!@#$%^&*()\-_=+]. */
  datatype CharClass = Lower | Upper | Digit | Special

  /** Both evaluators run their class checks in this order. */
  const CheckOrder: seq<CharClass> := [Lower, Upper, Digit, Special]

  /**
   * The members of [!@#$%^&*()\-_=+] in the order the class lists them;
   * the escaped `\-` is a literal hyphen, not a range.
   */
  const RegexSpecials: string := "!@#$%^&*()-_=+"

  predicate InClass(c: char, k: CharClass) {
    match k
    case Lower => 'a' <= c <= 'z'
    case Upper => 'A' <= c <= 'Z'
    case Digit => '0' <= c <= '9'
    case Special => c in RegexSpecials
  }

  /** The character satisfies one of the four class predicates. */
  predicate IsClassified(c: char) {
    InClass(c, Lower) || InClass(c, Upper) || InClass(c, Digit) || InClass(c, Special)
  }

  /** The point a class check earns: one when its class occurs. */
  function Point(b: bool): nat {
    if b then 1 else 0
  }

  /** The class matches somewhere in the password. */
  predicate Occurs(p: string, k: CharClass) {
    exists i :: 0 <= i < |p| && InClass(p[i], k)
  }

  /** re.search(class, password) is truthy: a left-to-right scan for a member. */
  function Search(p: string, k: CharClass): (found: bool)
    ensures found <==> Occurs(p, k)
  {
    if p == [] then false
    else if InClass(p[0], k) then true
    else
      var rest := Search(p[1..], k);
      assert Occurs(p, k) ==> Occurs(p[1..], k) by {
        if Occurs(p, k) {
          var i :| 0 <= i < |p| && InClass(p[i], k);
          assert i > 0 && InClass(p[1..][i - 1], k);
        }
      }
      rest
  }

  /** The strength labels, weakest first. */
  datatype Strength = VeryWeak | Weak | Medium | Strong

  /** The score interpretation of both evaluators. */
  function Classify(score: int): Strength {
    if score <= 2 then VeryWeak
    else if score == 3 then Weak
    else if score == 4 then Medium
    else Strong
  }

  function Rank(s: Strength): nat {
    match s
    case VeryWeak => 0
    case Weak => 1
    case Medium => 2
    case Strong => 3
  }

  /** The text the evaluators return for each strength. */
  function Label(s: Strength): string {
    match s
    case VeryWeak => "Very Weak"
    case Weak => "Weak"
    case Medium => "Medium"
    case Strong => "Strong"
  }

  /** The score thresholds, each as an if-and-only-if, and a higher score is never rated weaker. */
  lemma ClassifyThresholds(score: int, higher: int)
    ensures Classify(score) == VeryWeak <==> score <= 2
    ensures Classify(score) == Weak <==> score == 3
    ensures Classify(score) == Medium <==> score == 4
    ensures Classify(score) == Strong <==> score >= 5
    ensures score <= higher ==> Rank(Classify(score)) <= Rank(Classify(higher))
  {
  }

  /** Distinct strengths are reported with distinct labels. */
  lemma LabelInjective(s: Strength, t: Strength)
    ensures Label(s) == Label(t) ==> s == t
  {
    if s != t {
      assert Label(s)[0] != Label(t)[0] || |Label(s)| != |Label(t)|;
    }
  }

  /**
   * The suggestion appended when a class is absent (and, where configurable,
   * required): "Add at least one lowercase letter." and its three siblings.
   */
  function Message(k: CharClass): string {
    "Add at least one " + Wanted(k)
  }

  function Wanted(k: CharClass): string {
    match k
    case Lower => "lowercase letter."
    case Upper => "uppercase letter."
    case Digit => "digit."
    case Special => "special character (!@#$%^&*()-_+=)."
  }

  function Messages(ks: seq<CharClass>): (ms: seq<string>)
    ensures |ms| == |ks|
    ensures forall i :: 0 <= i < |ks| ==> ms[i] == Message(ks[i])
  {
    if ks == [] then [] else [Message(ks[0])] + Messages(ks[1..])
  }

  lemma MessagesAppend(a: seq<CharClass>, b: seq<CharClass>)
    ensures Messages(a + b) == Messages(a) + Messages(b)
  {
  }

  lemma AppendAssociates<T>(a: seq<T>, b: seq<T>, c: seq<T>)
    ensures a + (b + c) == (a + b) + c
  {
  }

  /** Every class message starts with 'A', and different classes get different messages. */
  lemma MessageDistinct(k: CharClass, j: CharClass)
    ensures Message(k)[0] == 'A'
    ensures Message(k) == Message(j) ==> k == j
  {
    if k != j {
      assert Message(k)[17] == Wanted(k)[0];
      assert Message(j)[17] == Wanted(j)[0];
    }
  }

  /** A class is in a list of messages exactly when its message is. */
  lemma MessageIn(k: CharClass, ks: seq<CharClass>)
    ensures Message(k) in Messages(ks) <==> k in ks
  {
    if Message(k) in Messages(ks) {
      var i :| 0 <= i < |ks| && Messages(ks)[i] == Message(k);
      MessageDistinct(k, ks[i]);
    }
  }

  /** a keeps some of the elements of b, in b's order. */
  predicate IsSubsequence<T(==)>(a: seq<T>, b: seq<T>)
    decreases |b|
  {
    if b == [] then a == []
    else (a != [] && a[0] == b[0] && IsSubsequence(a[1..], b[1..])) || IsSubsequence(a, b[1..])
  }

  lemma {:induction false} SubsequenceLength<T>(a: seq<T>, b: seq<T>)
    requires IsSubsequence(a, b)
    ensures |a| <= |b|
    ensures forall x :: x in a ==> x in b
    decreases |b|
  {
    if b != [] {
      assert b == [b[0]] + b[1..];
      if a != [] && a[0] == b[0] && IsSubsequence(a[1..], b[1..]) {
        SubsequenceLength(a[1..], b[1..]);
        assert a == [a[0]] + a[1..];
      } else {
        SubsequenceLength(a, b[1..]);
      }
    }
  }

  lemma {:induction false} SubsequenceAppend<T>(a: seq<T>, b: seq<T>, c: seq<T>, d: seq<T>)
    requires IsSubsequence(a, b) && IsSubsequence(c, d)
    ensures IsSubsequence(a + c, b + d)
    decreases |b|
  {
    if b == [] {
      assert a + c == c && b + d == d;
    } else {
      assert (b + d)[0] == b[0] && (b + d)[1..] == b[1..] + d;
      if a != [] && a[0] == b[0] && IsSubsequence(a[1..], b[1..]) {
        SubsequenceAppend(a[1..], b[1..], c, d);
        assert (a + c)[0] == a[0] && (a + c)[1..] == a[1..] + c;
      } else {
        SubsequenceAppend(a, b[1..], c, d);
      }
    }
  }

  lemma {:induction false} SubsequenceOfItself<T>(a: seq<T>)
    ensures IsSubsequence(a, a)
    decreases |a|
  {
    if a != [] {
      SubsequenceOfItself(a[1..]);
    }
  }

  lemma {:induction false} EmptySubsequence<T>(b: seq<T>)
    ensures IsSubsequence([], b)
    decreases |b|
  {
    if b != [] {
      EmptySubsequence(b[1..]);
    }
  }

  lemma {:induction false} SubsequenceTransitive<T>(a: seq<T>, b: seq<T>, c: seq<T>)
    requires IsSubsequence(a, b) && IsSubsequence(b, c)
    ensures IsSubsequence(a, c)
    decreases |c|
  {
    if c == [] {
    } else if b == [] {
      EmptySubsequence(c);
    } else if b[0] == c[0] && IsSubsequence(b[1..], c[1..]) {
      if a != [] && a[0] == b[0] && IsSubsequence(a[1..], b[1..]) {
        SubsequenceTransitive(a[1..], b[1..], c[1..]);
      } else {
        SubsequenceTransitive(a, b[1..], c[1..]);
      }
    } else {
      SubsequenceTransitive(a, b, c[1..]);
    }
  }

  /** Turning classes into messages keeps the subsequence relation. */
  lemma {:induction false} MessagesSubsequence(a: seq<CharClass>, b: seq<CharClass>)
    requires IsSubsequence(a, b)
    ensures IsSubsequence(Messages(a), Messages(b))
    decreases |b|
  {
    if b != [] {
      assert Messages(b)[1..] == Messages(b[1..]);
      if a != [] && a[0] == b[0] && IsSubsequence(a[1..], b[1..]) {
        MessagesSubsequence(a[1..], b[1..]);
        assert Messages(a)[1..] == Messages(a[1..]);
      } else {
        MessagesSubsequence(a, b[1..]);
      }
    }
  }

  /** The classes of ks that do not occur in p, in the order of ks. */
  function Missing(p: string, ks: seq<CharClass>): (r: seq<CharClass>)
    ensures IsSubsequence(r, ks)
    ensures forall k :: k in r <==> k in ks && !Occurs(p, k)
  {
    if ks == [] then []
    else
      var rest := Missing(p, ks[1..]);
      assert forall k :: k in ks <==> k == ks[0] || k in ks[1..];
      if Search(p, ks[0]) then
        rest
      else
        assert ([ks[0]] + rest)[1..] == rest;
        [ks[0]] + rest
  }

  /** The one-check contribution to Missing: the class if it is absent, nothing otherwise. */
  function IfAbsent(p: string, k: CharClass): seq<CharClass> {
    if Occurs(p, k) then [] else [k]
  }

  lemma MissingCons(p: string, k: CharClass, ks: seq<CharClass>)
    ensures Missing(p, [k] + ks) == IfAbsent(p, k) + Missing(p, ks)
  {
    assert ([k] + ks)[1..] == ks;
  }

  /** Missing over the check order, one check at a time. */
  lemma MissingInCheckOrder(p: string)
    ensures Missing(p, CheckOrder)
         == IfAbsent(p, Lower) + IfAbsent(p, Upper) + IfAbsent(p, Digit) + IfAbsent(p, Special)
  {
    var l, u, d, s := IfAbsent(p, Lower), IfAbsent(p, Upper), IfAbsent(p, Digit), IfAbsent(p, Special);
    calc {
      Missing(p, CheckOrder);
      { assert CheckOrder == [Lower] + [Upper, Digit, Special]; MissingCons(p, Lower, [Upper, Digit, Special]); }
      l + Missing(p, [Upper, Digit, Special]);
      { assert [Upper, Digit, Special] == [Upper] + [Digit, Special]; MissingCons(p, Upper, [Digit, Special]); }
      l + (u + Missing(p, [Digit, Special]));
      { assert [Digit, Special] == [Digit] + [Special]; MissingCons(p, Digit, [Special]); }
      l + (u + (d + Missing(p, [Special])));
      { assert [Special] == [Special] + []; MissingCons(p, Special, []); }
      l + (u + (d + (s + Missing(p, []))));
      { assert s + [] == s; }
      l + u + d + s;
    }
  }

  /** The count consecutive code points starting at first. */
  function CharRange(first: char, count: nat): (s: string)
    requires first as int + count < 0xD800
    ensures |s| == count
    ensures forall i :: 0 <= i < count ==> s[i] as int == first as int + i
    decreases count
  {
    if count == 0 then [] else [first] + CharRange((first as int + 1) as char, count - 1)
  }

  /** string.ascii_lowercase, "abcdefghijklmnopqrstuvwxyz". */
  const AsciiLowercase: string := CharRange('a', 26)
  /** string.ascii_uppercase, "ABCDEFGHIJKLMNOPQRSTUVWXYZ". */
  const AsciiUppercase: string := CharRange('A', 26)
  /** string.digits, "0123456789". */
  const Digits: string := CharRange('0', 10)
  /** The special characters the generator draws from, in its own order. */
  const GeneratorSpecials: string := "!@#$%^&*()-_+="

  /** string.ascii_letters + string.digits + "!@#$%^&*()-_+=": the generator's 76 characters. */
  const Characters: string := AsciiLowercase + AsciiUppercase + Digits + GeneratorSpecials

  /** The character is one the generator can draw. */
  predicate InAlphabet(c: char) {
    c in Characters
  }

  /** The generator's special set and the regex class hold the same 14 characters. */
  lemma SpecialSetsAgree(c: char)
    ensures c in GeneratorSpecials <==> c in RegexSpecials
    ensures |GeneratorSpecials| == |RegexSpecials| == 14
  {
  }

  /** Membership in a code-point range is a comparison. */
  lemma InCharRange(first: char, count: nat, c: char)
    requires first as int + count < 0xD800
    ensures c in CharRange(first, count) <==> first as int <= c as int < first as int + count
  {
    var s := CharRange(first, count);
    if first as int <= c as int < first as int + count {
      assert s[c as int - first as int] == c;
    }
  }

  /** A character is in the generator's alphabet exactly when it belongs to one of the four classes. */
  lemma CharactersAreClassMembers(c: char)
    ensures |Characters| == 76
    ensures InAlphabet(c) <==> IsClassified(c)
  {
    InCharRange('a', 26, c);
    InCharRange('A', 26, c);
    InCharRange('0', 10, c);
    SpecialSetsAgree(c);
    assert c in Characters <==> c in AsciiLowercase || c in AsciiUppercase || c in Digits || c in GeneratorSpecials;
  }
}
