/** The password strength rules of the insurance web portal
    (`validate_password`): six checks run in a fixed order, each failing
    check adds one message, and a password is valid exactly when no message
    was added. Letters, digits and case are ASCII. */
module PasswordPolicy {
  import opened Text

  const MinLength := 8

  const LengthError := "Password must be at least 8 characters long"
  const UppercaseError := "Password must contain at least one uppercase letter"
  const LowercaseError := "Password must contain at least one lowercase letter"
  const DigitError := "Password must contain at least one number"
  const SpecialError := "Password must contain at least one special character (!@#$%^&*(),.?\":{}|<>)"
  const CommonPatternError := "Password contains a common pattern"

  /** Every message, in the order the checks run. */
  const AllErrors := [LengthError, UppercaseError, LowercaseError, DigitError, SpecialError, CommonPatternError]

  /** The characters the special-character check accepts. */
  const SpecialChars := "!@#$%^&*(),.?\":{}|<>"

  /** The passwords nobody may use as part of theirs, compared lower-cased. */
  const CommonPatterns := ["123456", "password", "qwerty", "admin", "welcome", "letmein", "111111", "abc123"]

  predicate HasUppercase(p: string)
  {
    exists i :: 0 <= i < |p| && 'A' <= p[i] <= 'Z'
  }

  predicate HasLowercase(p: string)
  {
    exists i :: 0 <= i < |p| && 'a' <= p[i] <= 'z'
  }

  predicate HasDigit(p: string)
  {
    exists i :: 0 <= i < |p| && IsDigit(p[i])
  }

  predicate HasSpecial(p: string)
  {
    exists i :: 0 <= i < |p| && p[i] in SpecialChars
  }

  /** Common pattern `k` occurs in the password, ignoring case. */
  predicate ContainsPattern(p: string, k: int)
    requires 0 <= k < |CommonPatterns|
  {
    Includes(Lower(p), Lower(CommonPatterns[k]))
  }

  /** Some common pattern occurs in the password, ignoring case. */
  predicate HasCommonPattern(p: string)
  {
    exists k :: 0 <= k < |CommonPatterns| && ContainsPattern(p, k)
  }

  /** The items among the first `n` whose flag is set, in order. */
  function Select<T>(flags: seq<bool>, items: seq<T>, n: nat): (r: seq<T>)
    requires |flags| == |items| && n <= |items|
    ensures |r| <= n
  {
    if n == 0 then []
    else Select(flags, items, n - 1) + (if flags[n - 1] then [items[n - 1]] else [])
  }

  /** Which checks fail, in check order. */
  function Failures(p: string): seq<bool>
  {
    [|p| < MinLength, !HasUppercase(p), !HasLowercase(p), !HasDigit(p), !HasSpecial(p), HasCommonPattern(p)]
  }

  /** The error list the checks build, as a specification: the messages of
      the failing checks, in check order. */
  function PasswordErrors(p: string): seq<string>
  {
    Select(Failures(p), AllErrors, |AllErrors|)
  }

  /** `validate_password(password)`: runs the checks one after another,
      appending a message for each that fails; the pattern loop stops at
      the first pattern found. */
  method ValidatePassword(password: string) returns (isValid: bool, errors: seq<string>)
    ensures errors == PasswordErrors(password)
    ensures isValid <==> errors == []
  {
    ghost var failures := Failures(password);
    errors := [];
    if |password| < MinLength {
      errors := errors + [LengthError];
    }
    assert errors == Select(failures, AllErrors, 1);
    if !HasUppercase(password) {
      errors := errors + [UppercaseError];
    }
    assert errors == Select(failures, AllErrors, 2);
    if !HasLowercase(password) {
      errors := errors + [LowercaseError];
    }
    assert errors == Select(failures, AllErrors, 3);
    if !HasDigit(password) {
      errors := errors + [DigitError];
    }
    assert errors == Select(failures, AllErrors, 4);
    if !HasSpecial(password) {
      errors := errors + [SpecialError];
    }
    assert errors == Select(failures, AllErrors, 5);
    var before := errors;
    var i := 0;
    while i < |CommonPatterns|
      invariant 0 <= i <= |CommonPatterns|
      invariant errors == before
      invariant forall k :: 0 <= k < i ==> !ContainsPattern(password, k)
    {
      if ContainsPattern(password, i) {
        errors := errors + [CommonPatternError];
        break;
      }
      i := i + 1;
    }
    isValid := |errors| == 0;
  }

  /** The position of a message in the check order. */
  function Rank(e: string): int
  {
    if e == LengthError then 0
    else if e == UppercaseError then 1
    else if e == LowercaseError then 2
    else if e == DigitError then 3
    else if e == SpecialError then 4
    else 5
  }

  /** The six messages are distinct: each has its own rank. */
  lemma RanksOfMessages()
    ensures forall k :: 0 <= k < |AllErrors| ==> Rank(AllErrors[k]) == k
  {
    assert |LengthError| == 43 && |UppercaseError| == 51 && |LowercaseError| == 51;
    assert |DigitError| == 41 && |SpecialError| == 75 && |CommonPatternError| == 34;
    assert UppercaseError[35] != LowercaseError[35];
  }

  /** Among distinct items, each selected one occurs once in the selection
      and each other one not at all. */
  lemma {:induction false} SelectMultiplicity<T>(flags: seq<bool>, items: seq<T>, n: nat, k: int)
    requires |flags| == |items| && 0 <= k < n <= |items|
    requires forall i, j :: 0 <= i < j < |items| ==> items[i] != items[j]
    ensures multiset(Select(flags, items, n))[items[k]] == if flags[k] then 1 else 0
  {
    if k < n - 1 {
      SelectMultiplicity(flags, items, n - 1, k);
      assert items[n - 1] != items[k];
    } else {
      SelectOnlyFrom(flags, items, n - 1);
      var front := items[..n - 1];
      forall i | 0 <= i < |front|
        ensures front[i] != items[k]
      {
        assert front[i] == items[i];
      }
      assert items[k] !in front;
    }
  }

  /** A selection among the first `n` items holds only those items. */
  lemma {:induction false} SelectOnlyFrom<T>(flags: seq<bool>, items: seq<T>, n: nat)
    requires |flags| == |items| && n <= |items|
    ensures forall x :: x in Select(flags, items, n) ==> x in items[..n]
  {
    if n > 0 {
      SelectOnlyFrom(flags, items, n - 1);
      assert forall x :: x in items[..n - 1] ==> x in items[..n];
      assert items[n - 1] in items[..n];
    }
  }

  /** A selection keeps the order of the list: ranks that number the list
      increase along the selection. */
  lemma {:induction false} SelectOrdered<T>(flags: seq<bool>, items: seq<T>, n: nat, rank: T -> int)
    requires |flags| == |items| && n <= |items|
    requires forall k :: 0 <= k < |items| ==> rank(items[k]) == k
    ensures forall i :: 0 <= i < |Select(flags, items, n)| ==> 0 <= rank(Select(flags, items, n)[i]) < n
    ensures forall i, j :: 0 <= i < j < |Select(flags, items, n)| ==>
              rank(Select(flags, items, n)[i]) < rank(Select(flags, items, n)[j])
  {
    if n > 0 {
      SelectOrdered(flags, items, n - 1, rank);
      var prefix := Select(flags, items, n - 1);
      var r := Select(flags, items, n);
      assert r == prefix + (if flags[n - 1] then [items[n - 1]] else []);
      forall i | 0 <= i < |r|
        ensures 0 <= rank(r[i]) < n
      {
        if i < |prefix| {
          assert r[i] == prefix[i];
        } else {
          assert r[i] == items[n - 1];
        }
      }
      forall i, j | 0 <= i < j < |r|
        ensures rank(r[i]) < rank(r[j])
      {
        assert r[i] == prefix[i];
        if j < |prefix| {
          assert r[j] == prefix[j];
        } else {
          assert r[j] == items[n - 1];
        }
      }
    }
  }

  /** With none of the first `n` flags set nothing is selected. */
  lemma {:induction false} SelectNone<T>(flags: seq<bool>, items: seq<T>, n: nat)
    requires |flags| == |items| && n <= |items|
    requires forall k :: 0 <= k < n ==> !flags[k]
    ensures Select(flags, items, n) == []
  {
    if n > 0 {
      SelectNone(flags, items, n - 1);
    }
  }

  /** Each failing check of `validate_password` contributes its message
      exactly once and a passing check not at all, however many common
      patterns occur. */
  lemma ErrorMultiplicity(p: string)
    ensures forall k :: 0 <= k < |AllErrors| ==>
              multiset(PasswordErrors(p))[AllErrors[k]] == if Failures(p)[k] then 1 else 0
  {
    RanksOfMessages();
    forall k | 0 <= k < |AllErrors|
      ensures multiset(PasswordErrors(p))[AllErrors[k]] == if Failures(p)[k] then 1 else 0
    {
      SelectMultiplicity(Failures(p), AllErrors, |AllErrors|, k);
    }
  }

  /** The messages of `validate_password` come in the order the checks run,
      so there are at most six, and none is repeated. */
  lemma ErrorsInCheckOrder(p: string)
    ensures forall i, j :: 0 <= i < j < |PasswordErrors(p)| ==>
              Rank(PasswordErrors(p)[i]) < Rank(PasswordErrors(p)[j])
    ensures forall e :: e in PasswordErrors(p) ==> e in AllErrors
    ensures |PasswordErrors(p)| <= |AllErrors|
  {
    RanksOfMessages();
    SelectOrdered(Failures(p), AllErrors, |AllErrors|, Rank);
    SelectOnlyFrom(Failures(p), AllErrors, |AllErrors|);
    assert AllErrors[..|AllErrors|] == AllErrors;
  }

  /** A password with 'admin' in it, in any case, is rejected. */
  lemma AdminIsRejected(p: string)
    requires Includes(Lower(p), "admin")
    ensures CommonPatternError in PasswordErrors(p)
  {
    assert Lower(CommonPatterns[3]) == "admin";
    assert ContainsPattern(p, 3);
    RanksOfMessages();
    SelectMultiplicity(Failures(p), AllErrors, |AllErrors|, 5);
  }

  /** Two adjacent characters that never appear together rule out every
      occurrence of a needle that starts with them. */
  lemma NoOccurrenceByFirstPair(hay: string, needle: string)
    requires |needle| >= 2
    requires forall i :: 0 <= i < |hay| - 1 ==> hay[i] != needle[0] || hay[i + 1] != needle[1]
    ensures !Includes(hay, needle)
  {
    forall i | 0 <= i && i + |needle| <= |hay|
      ensures !OccursAt(hay, needle, i)
    {
      assert hay[i..i + |needle|][0] == hay[i];
      assert hay[i..i + |needle|][1] == hay[i + 1];
    }
  }

  /** The password the portal's seed data gives its administrator. */
  const SeedPassword := "A9!x7$zQpL#2@bTn"

  /** No common pattern occurs in the seed password. */
  lemma SeedHasNoCommonPattern()
    ensures !HasCommonPattern(SeedPassword)
  {
    var hay := Lower(SeedPassword);
    assert hay == "a9!x7$zqpl#2@btn";
    forall k | 0 <= k < |CommonPatterns|
      ensures !ContainsPattern(SeedPassword, k)
    {
      var needle := CommonPatterns[k];
      assert Lower(needle) == needle;
      NoOccurrenceByFirstPair(hay, needle);
    }
  }

  /** The seed password passes every check. */
  lemma SeedPasswordAccepted()
    ensures PasswordErrors(SeedPassword) == []
  {
    var p := SeedPassword;
    assert 'A' <= p[0] <= 'Z';
    assert 'a' <= p[3] <= 'z';
    assert IsDigit(p[1]);
    assert p[2] in SpecialChars;
    SeedHasNoCommonPattern();
    assert Failures(p) == [false, false, false, false, false, false];
    SelectNone(Failures(p), AllErrors, |AllErrors|);
  }
}
