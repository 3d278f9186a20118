/**
 * The password strength rules: length bounds, four character classes, a blacklist of common
 * passwords, and detectors for four-character ascending runs and three-character repeats;
 * plus the capped strength score.
 */
module PasswordValidator {
  import opened Common
  import opened Text

  const MinLength: int := 8
  const MaxLength: int := 128
  const SpecialChars: string := "!@#$%^&*()_+-=[]{}|;:,.<>?"

  const CommonPasswords: seq<string> := [
    "password", "12345678", "qwerty123", "abc123456",
    "password123", "admin123", "welcome123", "test123",
    "user123", "123456789", "qwertyuiop", "asdfghjkl",
    "password1", "123qwe", "admin", "root", "guest"
  ]

  // ---------------------------------------------------------------- character classes

  /** `re.search(r'[A-Z]', p)`. */
  predicate HasUpper(p: string) {
    exists i :: 0 <= i < |p| && 'A' <= p[i] <= 'Z'
  }

  /** `re.search(r'[a-z]', p)`. */
  predicate HasLower(p: string) {
    exists i :: 0 <= i < |p| && 'a' <= p[i] <= 'z'
  }

  /** `re.search(r'[0-9]', p)`. */
  predicate HasDigit(p: string) {
    exists i :: 0 <= i < |p| && IsAsciiDigit(p[i])
  }

  /** One of the 26 special characters occurs. */
  predicate HasSpecial(p: string) {
    exists i :: 0 <= i < |p| && p[i] in SpecialChars
  }

  /** `_is_common_password`: the lowercased password is on the blacklist. */
  predicate IsCommonPassword(p: string) {
    Lower(p) in CommonPasswords
  }

  // ---------------------------------------------------------------- runs

  /** Four characters from `i` on with code points rising by exactly one each step. */
  predicate AscendingAt(s: string, i: int) {
    0 <= i && i + 3 < |s|
    && s[i + 1] as int == s[i] as int + 1 && s[i + 2] as int == s[i] as int + 2 && s[i + 3] as int == s[i] as int + 3
  }

  /** Four digits from `i` on whose values rise by exactly one each step (blocks may be mixed, as in "1２3４"). */
  predicate DigitRunAt(p: string, i: int) {
    0 <= i && i + 3 < |p|
    && IsDigit(p[i]) && IsDigit(p[i + 1]) && IsDigit(p[i + 2]) && IsDigit(p[i + 3])
    && DigitValue(p[i + 1]) == DigitValue(p[i]) + 1 && DigitValue(p[i + 2]) == DigitValue(p[i]) + 2
    && DigitValue(p[i + 3]) == DigitValue(p[i]) + 3
  }

  /** What `_has_sequential_chars` detects: an ascending run in the lowercased text or a run of digit values. */
  predicate Sequential(p: string) {
    (exists i :: 0 <= i < |p| && AscendingAt(Lower(p), i)) || (exists i :: 0 <= i < |p| && DigitRunAt(p, i))
  }

  /** Three identical characters from `i` on. */
  predicate TripleAt(p: string, i: int) {
    0 <= i && i + 2 < |p| && p[i] == p[i + 1] && p[i + 1] == p[i + 2]
  }

  /** What `_has_repeated_chars` detects. */
  predicate Repeated(p: string) {
    exists i :: 0 <= i < |p| && TripleAt(p, i)
  }

  /** `_has_sequential_chars`: the two scans in order, each returning at the first hit. */
  method HasSequentialChars(password: string) returns (found: bool)
    ensures found <==> Sequential(password)
  {
    var lower := Lower(password);
    var i := 0;
    while i < |lower| - 3
      invariant 0 <= i
      invariant forall k :: 0 <= k < i ==> !AscendingAt(lower, k)
    {
      if lower[i + 1] as int == lower[i] as int + 1 && lower[i + 2] as int == lower[i] as int + 2
         && lower[i + 3] as int == lower[i] as int + 3 {
        assert AscendingAt(lower, i);
        return true;
      }
      i := i + 1;
    }
    var j := 0;
    while j < |password| - 3
      invariant 0 <= j
      invariant forall k :: 0 <= k < j ==> !DigitRunAt(password, k)
    {
      if IsDigit(password[j]) && IsDigit(password[j + 1]) && IsDigit(password[j + 2]) && IsDigit(password[j + 3])
         && DigitValue(password[j + 1]) == DigitValue(password[j]) + 1
         && DigitValue(password[j + 2]) == DigitValue(password[j]) + 2
         && DigitValue(password[j + 3]) == DigitValue(password[j]) + 3 {
        assert DigitRunAt(password, j);
        return true;
      }
      j := j + 1;
    }
    found := false;
  }

  /** `_has_repeated_chars`: a scan returning at the first triple. */
  method HasRepeatedChars(password: string) returns (found: bool)
    ensures found <==> Repeated(password)
  {
    var i := 0;
    while i < |password| - 2
      invariant 0 <= i
      invariant forall k :: 0 <= k < i ==> !TripleAt(password, k)
    {
      if password[i] == password[i + 1] && password[i + 1] == password[i + 2] {
        assert TripleAt(password, i);
        return true;
      }
      i := i + 1;
    }
    found := false;
  }

  // ---------------------------------------------------------------- validation

  /** The rules of `validate_password`, in the order they are checked. */
  datatype Rule = TooShort | TooLong | NoUppercase | NoLowercase | NoDigit | NoSpecial | TooCommon | HasSequence | HasRepeat

  /** The outcome of each check of `validate_password`, in check order: true where the check complains. */
  datatype Verdicts = Verdicts(tooShort: bool, tooLong: bool, noUppercase: bool, noLowercase: bool, noDigit: bool,
                               noSpecial: bool, tooCommon: bool, hasSequence: bool, hasRepeat: bool)

  function VerdictsOf(p: string): Verdicts {
    Verdicts(|p| < MinLength, |p| > MaxLength, !HasUpper(p), !HasLower(p), !HasDigit(p), !HasSpecial(p),
             IsCommonPassword(p), Sequential(p), Repeated(p))
  }

  /** The verdict of one rule. */
  predicate Flagged(rule: Rule, v: Verdicts) {
    match rule
    case TooShort => v.tooShort
    case TooLong => v.tooLong
    case NoUppercase => v.noUppercase
    case NoLowercase => v.noLowercase
    case NoDigit => v.noDigit
    case NoSpecial => v.noSpecial
    case TooCommon => v.tooCommon
    case HasSequence => v.hasSequence
    case HasRepeat => v.hasRepeat
  }

  /** Whether a rule fails for the password. */
  predicate Fails(rule: Rule, p: string) {
    Flagged(rule, VerdictsOf(p))
  }

  function RuleIndex(rule: Rule): (i: nat)
    ensures i < 9
  {
    match rule
    case TooShort => 0
    case TooLong => 1
    case NoUppercase => 2
    case NoLowercase => 3
    case NoDigit => 4
    case NoSpecial => 5
    case TooCommon => 6
    case HasSequence => 7
    case HasRepeat => 8
  }

  /** The error message of each rule. */
  function Message(rule: Rule): string {
    match rule
    case TooShort => "パスワードは8文字以上である必要があります"
    case TooLong => "パスワードは128文字以下である必要があります"
    case NoUppercase => "パスワードには少なくとも1つの大文字を含める必要があります"
    case NoLowercase => "パスワードには少なくとも1つの小文字を含める必要があります"
    case NoDigit => "パスワードには少なくとも1つの数字を含める必要があります"
    case NoSpecial => "パスワードには特殊文字（" + SpecialChars + "）を少なくとも1つ含める必要があります"
    case TooCommon => "このパスワードは一般的すぎます。より複雑なパスワードを使用してください"
    case HasSequence => "パスワードには4文字以上の連続する文字（abcd、1234など）を含めないでください"
    case HasRepeat => "パスワードには同じ文字を3回以上連続して使用しないでください"
  }

  /** Every rule, in the order `validate_password` checks them. */
  const AllRules: seq<Rule> := [TooShort, TooLong, NoUppercase, NoLowercase, NoDigit, NoSpecial, TooCommon, HasSequence, HasRepeat]

  /** The rules of `rules` that fail, in their order. */
  function FailedAmong(rules: seq<Rule>, v: Verdicts): seq<Rule> {
    if rules == [] then []
    else (if Flagged(rules[0], v) then [rules[0]] else []) + FailedAmong(rules[1..], v)
  }

  /** The failed rules, in rule order. */
  function FailedRules(p: string): seq<Rule> {
    FailedAmong(AllRules, VerdictsOf(p))
  }

  lemma {:induction false} FailedAmongMembers(rules: seq<Rule>, v: Verdicts)
    ensures forall rule :: rule in FailedAmong(rules, v) <==> rule in rules && Flagged(rule, v)
  {
    if rules != [] {
      FailedAmongMembers(rules[1..], v);
    }
  }

  /** Filtering keeps the rules in strictly increasing rule order. */
  lemma {:induction false} FailedAmongOrdered(rules: seq<Rule>, v: Verdicts)
    requires forall i, j :: 0 <= i < j < |rules| ==> RuleIndex(rules[i]) < RuleIndex(rules[j])
    ensures forall i, j :: 0 <= i < j < |FailedAmong(rules, v)| ==>
      RuleIndex(FailedAmong(rules, v)[i]) < RuleIndex(FailedAmong(rules, v)[j])
  {
    if rules != [] {
      var rest := rules[1..];
      FailedAmongOrdered(rest, v);
      FailedAmongMembers(rest, v);
      forall x | x in FailedAmong(rest, v) ensures RuleIndex(rules[0]) < RuleIndex(x) {
        var k :| 0 <= k < |rest| && rest[k] == x;
        assert rules[k + 1] == x;
      }
    }
  }

  function Messages(rules: seq<Rule>): (ms: seq<string>)
    ensures |ms| == |rules|
    ensures forall i :: 0 <= i < |rules| ==> ms[i] == Message(rules[i])
  {
    if rules == [] then [] else [Message(rules[0])] + Messages(rules[1..])
  }

  /** `validate_password`: valid iff no rule failed, with one message per failed rule. */
  function ValidatePassword(p: string): (bool, seq<string>) {
    var errors := Messages(FailedRules(p));
    (|errors| == 0, errors)
  }

  /** No two rules share a message, so the messages identify the failed rules. */
  lemma MessagesDistinct(a: Rule, b: Rule)
    requires a != b
    ensures Message(a) != Message(b)
  {
  }

  /** The failed rules are exactly the rules that fail, in strictly increasing rule order (so each at most once). */
  lemma FailedRulesMembers(p: string)
    ensures forall rule :: rule in FailedRules(p) <==> Fails(rule, p)
    ensures forall i, j :: 0 <= i < j < |FailedRules(p)| ==> RuleIndex(FailedRules(p)[i]) < RuleIndex(FailedRules(p)[j])
  {
    FailedAmongAll(VerdictsOf(p));
  }

  /** Filtering the whole rule list keeps exactly the flagged rules, in rule order. */
  lemma FailedAmongAll(v: Verdicts)
    ensures forall rule :: rule in FailedAmong(AllRules, v) <==> Flagged(rule, v)
    ensures forall i, j :: 0 <= i < j < |FailedAmong(AllRules, v)| ==>
      RuleIndex(FailedAmong(AllRules, v)[i]) < RuleIndex(FailedAmong(AllRules, v)[j])
  {
    FailedAmongMembers(AllRules, v);
    AllRulesOrdered();
    FailedAmongOrdered(AllRules, v);
    forall rule ensures rule in AllRules {
      RuleListed(rule);
    }
  }

  /** AllRules lists the rules in strictly increasing rule order. */
  lemma AllRulesOrdered()
    ensures forall i, j :: 0 <= i < j < |AllRules| ==> RuleIndex(AllRules[i]) < RuleIndex(AllRules[j])
  {
    forall i | 0 <= i < |AllRules| ensures RuleIndex(AllRules[i]) == i {
    }
  }

  /** Every rule is checked: it stands in AllRules at its index. */
  lemma RuleListed(rule: Rule)
    ensures AllRules[RuleIndex(rule)] == rule
  {
    match rule
    case TooShort =>
    case TooLong =>
    case NoUppercase =>
    case NoLowercase =>
    case NoDigit =>
    case NoSpecial =>
    case TooCommon =>
    case HasSequence =>
    case HasRepeat =>
  }

  /**
   * A password is accepted with no messages iff every rule passes; otherwise it is rejected with
   * exactly the messages of the failed rules, in rule order and each once.
   */
  lemma ValidateProperties(p: string)
    ensures var (valid, errors) := ValidatePassword(p);
      && (valid <==> errors == [])
      && (valid <==> && MinLength <= |p| <= MaxLength && HasUpper(p) && HasLower(p) && HasDigit(p) && HasSpecial(p)
                     && !IsCommonPassword(p) && !Sequential(p) && !Repeated(p))
      && (forall rule :: Message(rule) in errors <==> Fails(rule, p))
      && |errors| == |FailedRules(p)|
      && (forall i :: 0 <= i < |errors| ==> errors[i] == Message(FailedRules(p)[i]))
  {
    FailedRulesMembers(p);
    var rules := FailedRules(p);
    var errors := Messages(rules);
    forall rule ensures Message(rule) in errors <==> Fails(rule, p) {
      if Fails(rule, p) {
        var k :| 0 <= k < |rules| && rules[k] == rule;
        assert errors[k] == Message(rule);
      }
      if Message(rule) in errors {
        var k :| 0 <= k < |errors| && errors[k] == Message(rule);
        if rules[k] != rule {
          MessagesDistinct(rules[k], rule);
        }
      }
    }
    NoFailureIffAllPass(p);
  }

  /** No rule is reported iff the password meets every requirement. */
  lemma NoFailureIffAllPass(p: string)
    ensures FailedRules(p) == [] <==>
      && MinLength <= |p| <= MaxLength && HasUpper(p) && HasLower(p) && HasDigit(p) && HasSpecial(p)
      && !IsCommonPassword(p) && !Sequential(p) && !Repeated(p)
  {
    FailedRulesMembers(p);
    var rules := FailedRules(p);
    if rules == [] {
      assert !Fails(TooShort, p) && !Fails(TooLong, p) && !Fails(NoUppercase, p) && !Fails(NoLowercase, p);
      assert !Fails(NoDigit, p) && !Fails(NoSpecial, p) && !Fails(TooCommon, p) && !Fails(HasSequence, p);
      assert !Fails(HasRepeat, p);
    } else {
      assert rules[0] in rules && Fails(rules[0], p);
    }
  }

  /** `validate_or_raise`: an HTTP 400 carrying the error list iff the password is invalid. */
  datatype Rejection = Rejection(status: int, message: string, errors: seq<string>)

  function ValidateOrRaise(p: string): (r: Option<Rejection>)
    ensures r.None? <==> ValidatePassword(p).0
    ensures r.Some? ==> r.value.status == 400 && r.value.errors == ValidatePassword(p).1 && r.value.errors != []
  {
    var (valid, errors) := ValidatePassword(p);
    if valid then None else Some(Rejection(400, "パスワードが強度要件を満たしていません", errors))
  }

  /** Visiting one more rule adds its failure after the earlier ones. */
  lemma {:induction false} FailedAmongSnoc(rules: seq<Rule>, rule: Rule, v: Verdicts)
    ensures FailedAmong(rules + [rule], v) == FailedAmong(rules, v) + (if Flagged(rule, v) then [rule] else [])
  {
    if rules != [] {
      assert (rules + [rule])[1..] == rules[1..] + [rule];
      FailedAmongSnoc(rules[1..], rule, v);
    } else {
      assert [] + [rule] == [rule];
    }
  }

  /** The message a check contributes: the rule's own when the check failed, none otherwise. */
  function Flag(failed: bool, rule: Rule): seq<string> {
    if failed then [Message(rule)] else []
  }

  /** Checking one more rule appends its message when it fails. */
  lemma CheckRule(done: seq<Rule>, rule: Rule, v: Verdicts)
    ensures Messages(FailedAmong(done + [rule], v)) == Messages(FailedAmong(done, v)) + Flag(Flagged(rule, v), rule)
  {
    FailedAmongSnoc(done, rule, v);
    var a := FailedAmong(done, v);
    var b := if Flagged(rule, v) then [rule] else [];
    assert Messages(a + b) == Messages(a) + Messages(b);
  }

  /** The messages come out check by check, in the order the rules are written. */
  lemma RulesInOrder(v: Verdicts)
    ensures Messages(FailedAmong(AllRules, v)) == Flag(Flagged(TooShort, v), TooShort) + Flag(Flagged(TooLong, v), TooLong) + Flag(Flagged(NoUppercase, v), NoUppercase) + Flag(Flagged(NoLowercase, v), NoLowercase)
      + Flag(Flagged(NoDigit, v), NoDigit) + Flag(Flagged(NoSpecial, v), NoSpecial) + Flag(Flagged(TooCommon, v), TooCommon) + Flag(Flagged(HasSequence, v), HasSequence) + Flag(Flagged(HasRepeat, v), HasRepeat)
  {
    var done: seq<Rule> := [];
    CheckRule(done, TooShort, v);
    assert Messages(FailedAmong(done, v)) == [];
    var errors := Flag(Flagged(TooShort, v), TooShort);
    done := done + [TooShort];
    assert Messages(FailedAmong(done, v)) == errors;
    CheckRule(done, TooLong, v);
    done, errors := done + [TooLong], errors + Flag(Flagged(TooLong, v), TooLong);
    assert Messages(FailedAmong(done, v)) == errors;
    CheckRule(done, NoUppercase, v);
    done, errors := done + [NoUppercase], errors + Flag(Flagged(NoUppercase, v), NoUppercase);
    assert Messages(FailedAmong(done, v)) == errors;
    CheckRule(done, NoLowercase, v);
    done, errors := done + [NoLowercase], errors + Flag(Flagged(NoLowercase, v), NoLowercase);
    assert Messages(FailedAmong(done, v)) == errors;
    CheckRule(done, NoDigit, v);
    done, errors := done + [NoDigit], errors + Flag(Flagged(NoDigit, v), NoDigit);
    assert Messages(FailedAmong(done, v)) == errors;
    CheckRule(done, NoSpecial, v);
    done, errors := done + [NoSpecial], errors + Flag(Flagged(NoSpecial, v), NoSpecial);
    assert Messages(FailedAmong(done, v)) == errors;
    CheckRule(done, TooCommon, v);
    done, errors := done + [TooCommon], errors + Flag(Flagged(TooCommon, v), TooCommon);
    assert Messages(FailedAmong(done, v)) == errors;
    CheckRule(done, HasSequence, v);
    done, errors := done + [HasSequence], errors + Flag(Flagged(HasSequence, v), HasSequence);
    assert Messages(FailedAmong(done, v)) == errors;
    CheckRule(done, HasRepeat, v);
    done, errors := done + [HasRepeat], errors + Flag(Flagged(HasRepeat, v), HasRepeat);
    assert Messages(FailedAmong(done, v)) == errors;
    assert done == AllRules;
  }

  /** The same, with each check's verdict read off its field. */
  lemma ChecksInOrder(v: Verdicts)
    ensures Messages(FailedAmong(AllRules, v)) == Flag(v.tooShort, TooShort) + Flag(v.tooLong, TooLong) + Flag(v.noUppercase, NoUppercase) + Flag(v.noLowercase, NoLowercase)
      + Flag(v.noDigit, NoDigit) + Flag(v.noSpecial, NoSpecial) + Flag(v.tooCommon, TooCommon) + Flag(v.hasSequence, HasSequence) + Flag(v.hasRepeat, HasRepeat)
  {
    RulesInOrder(v);
  }

  /** The nine checks of `validate_password`, each as the source writes it. */
  method RunChecks(password: string) returns (v: Verdicts)
    ensures v == VerdictsOf(password)
  {
    var sequential := HasSequentialChars(password);
    var repeated := HasRepeatedChars(password);
    v := Verdicts(|password| < MinLength, |password| > MaxLength, !HasUpper(password), !HasLower(password),
                  !HasDigit(password), !HasSpecial(password), IsCommonPassword(password), sequential, repeated);
  }

  /** `errors.append(message)` when a check failed. */
  method Report(errors: seq<string>, failed: bool, rule: Rule) returns (updated: seq<string>)
    ensures updated == errors + Flag(failed, rule)
  {
    updated := errors;
    if failed {
      updated := updated + [Message(rule)];
    }
  }

  /** `validate_password` as written: each failed check appends its message, in check order. */
  method ValidatePasswordChecks(password: string) returns (isValid: bool, errors: seq<string>)
    ensures (isValid, errors) == ValidatePassword(password)
  {
    var v := RunChecks(password);
    errors := ReportFailures(v);
    isValid := |errors| == 0;
  }

  /** The appends of `validate_password`: one message per failed check, in check order. */
  method ReportFailures(v: Verdicts) returns (errors: seq<string>)
    ensures errors == Messages(FailedAmong(AllRules, v))
  {
    errors := Report([], v.tooShort, TooShort);
    assert [] + Flag(v.tooShort, TooShort) == Flag(v.tooShort, TooShort);
    errors := Report(errors, v.tooLong, TooLong);
    errors := Report(errors, v.noUppercase, NoUppercase);
    errors := Report(errors, v.noLowercase, NoLowercase);
    errors := Report(errors, v.noDigit, NoDigit);
    errors := Report(errors, v.noSpecial, NoSpecial);
    errors := Report(errors, v.tooCommon, TooCommon);
    errors := Report(errors, v.hasSequence, HasSequence);
    errors := Report(errors, v.hasRepeat, HasRepeat);
    ChecksInOrder(v);
  }

  // ---------------------------------------------------------------- the score

  function Points(c: bool, n: int): int {
    if c then n else 0
  }

  /** The length part of `get_strength_score`: 20 from 8 characters, 10 more from 12 and 10 more from 16. */
  function LengthScore(p: string): int {
    Points(|p| >= 8, 20) + Points(|p| >= 12, 10) + Points(|p| >= 16, 10)
  }

  /** The character-class part: 10 for each class present. */
  function ClassScore(p: string): int {
    Points(HasLower(p), 10) + Points(HasUpper(p), 10) + Points(HasDigit(p), 10) + Points(HasSpecial(p), 10)
  }

  /** The complexity part: 10 off the blacklist, 5 without a run, 5 without a repeat. */
  function ComplexityScore(p: string): int {
    Points(!IsCommonPassword(p), 10) + Points(!Sequential(p), 5) + Points(!Repeated(p), 5)
  }

  /** The uncapped sum of `get_strength_score`'s components. */
  function RawScore(p: string): int {
    LengthScore(p) + ClassScore(p) + ComplexityScore(p)
  }

  /** `get_strength_score`: the components, capped at 100. */
  function StrengthScore(p: string): (score: int)
    ensures 0 <= score <= 100
    ensures score <= RawScore(p)
  {
    if RawScore(p) < 100 then RawScore(p) else 100
  }

  /** `score += n` when a component holds. */
  method AddPoints(score: int, c: bool, n: int) returns (updated: int)
    ensures updated == score + Points(c, n)
  {
    updated := score;
    if c {
      updated := updated + n;
    }
  }

  /** The components of `get_strength_score` added group by group, then capped. */
  method GetStrengthScore(password: string) returns (score: int)
    ensures score == StrengthScore(password)
  {
    score := AddLengthPoints(0, password);
    score := AddClassPoints(score, password);
    score := AddComplexityPoints(score, password);
    if score > 100 {
      score := 100;
    }
  }

  /** The length checks of `get_strength_score`. */
  method AddLengthPoints(score: int, password: string) returns (updated: int)
    ensures updated == score + LengthScore(password)
  {
    updated := AddPoints(score, |password| >= 8, 20);
    updated := AddPoints(updated, |password| >= 12, 10);
    updated := AddPoints(updated, |password| >= 16, 10);
  }

  /** The character-class checks of `get_strength_score`. */
  method AddClassPoints(score: int, password: string) returns (updated: int)
    ensures updated == score + ClassScore(password)
  {
    updated := AddPoints(score, HasLower(password), 10);
    updated := AddPoints(updated, HasUpper(password), 10);
    updated := AddPoints(updated, HasDigit(password), 10);
    updated := AddPoints(updated, HasSpecial(password), 10);
  }

  /** The complexity checks of `get_strength_score`. */
  method AddComplexityPoints(score: int, password: string) returns (updated: int)
    ensures updated == score + ComplexityScore(password)
  {
    updated := AddPoints(score, !IsCommonPassword(password), 10);
    var sequential := HasSequentialChars(password);
    updated := AddPoints(updated, !sequential, 5);
    var repeated := HasRepeatedChars(password);
    updated := AddPoints(updated, !repeated, 5);
  }

  /** The components add up to at most 100, so the cap never changes the score. */
  lemma CapNeverApplies(p: string)
    ensures RawScore(p) <= 100 && StrengthScore(p) == RawScore(p)
  {
  }

  /** A valid password scores 80, plus 10 from 12 characters and 10 more from 16. */
  lemma ValidScore(p: string)
    requires ValidatePassword(p).0
    ensures StrengthScore(p) == 80 + Points(|p| >= 12, 10) + Points(|p| >= 16, 10)
  {
    ValidateProperties(p);
  }

  /** Any password short of 8 characters scores at most 70. */
  lemma ShortScore(p: string)
    requires |p| < MinLength
    ensures StrengthScore(p) <= 70
  {
  }

  // ---------------------------------------------------------------- examples

  /** "PASSWORD" is blacklisted: the blacklist is compared case-insensitively. */
  lemma UppercaseBlacklisted()
    ensures IsCommonPassword("PASSWORD")
    ensures TooCommon in FailedRules("PASSWORD")
  {
    assert Lower("PASSWORD") == "password";
    FailedRulesMembers("PASSWORD");
  }

  /** "xabcd" holds an ascending run; the descending "dcba" and the broken "abce" are not flagged. */
  lemma RunExamples()
    ensures Sequential("xabcd")
    ensures !Sequential("dcba")
    ensures !Sequential("abce")
  {
    assert Lower("xabcd") == "xabcd";
    assert AscendingAt(Lower("xabcd"), 1);
    assert Lower("dcba") == "dcba";
    assert Lower("abce") == "abce";
    assert forall i :: !AscendingAt(Lower("dcba"), i);
    assert forall i :: !DigitRunAt("dcba", i);
    assert forall i :: !AscendingAt(Lower("abce"), i);
    assert forall i :: !DigitRunAt("abce", i);
  }

  /** Mixed ASCII and full-width digits "1２3４" have no code-point run, but the digit scan catches them. */
  lemma MixedDigitRun()
    ensures !(exists i :: 0 <= i < 4 && AscendingAt(Lower("1２3４"), i))
    ensures DigitRunAt("1２3４", 0) && Sequential("1２3４")
  {
    assert Lower("1２3４") == "1２3４";
    assert 0 <= 0 < |"1２3４"| && DigitRunAt("1２3４", 0);
  }
}
