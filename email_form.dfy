/**
 * The e-mail form under the result: the address check, the two state cells
 * it keeps up to date, the submit gate and the input's border colour.
 */
module EmailForm {
  import opened Js

  /** A character of the class `[^\s@]`. */
  predicate IsPlain(c: char) {
    c != '@' && !IsWhitespace(c)
  }

  predicate AllPlain(s: string) {
    forall k :: 0 <= k < |s| ==> IsPlain(s[k])
  }

  /**
   * What `/^[^\s@]+@[^\s@]+\.[^\s@]+$/` matches: a non-empty local part, an
   * '@', a non-empty domain part, a '.', and a non-empty last part, none of
   * the three parts holding whitespace or '@' (they may hold '.').
   */
  ghost predicate MatchesEmailPattern(s: string) {
    exists at, dot ::
      0 < at && at + 1 < dot && dot + 1 < |s| &&
      s[at] == '@' && s[dot] == '.' &&
      AllPlain(s[..at]) && AllPlain(s[at + 1..dot]) && AllPlain(s[dot + 1..])
  }

  /** Position of the first occurrence of `c` in `s`. */
  function IndexOf(s: string, c: char): (r: Option<nat>)
    ensures r.None? <==> c !in s
    ensures r.Some? ==> r.value < |s| && s[r.value] == c && c !in s[..r.value]
  {
    if s == [] then None
    else if s[0] == c then Some(0)
    else
      match IndexOf(s[1..], c)
      case None => None
      case Some(i) =>
        assert s[..i + 1] == [s[0]] + s[1..][..i];
        Some(i + 1)
  }

  /**
   * `validateEmail`: exactly one '@', not at the start, no whitespace at
   * all, and after the '@' a '.' that is neither the first nor the last
   * character of what follows the '@'.
   */
  function ValidateEmail(email: string): (ok: bool)
    ensures ok ==> |email| >= 5
  {
    match IndexOf(email, '@')
    case None => false
    case Some(at) =>
      && 0 < at
      && at + 3 < |email|
      && (forall k :: 0 <= k < |email| && k != at ==> IsPlain(email[k]))
      && '.' in email[at + 2..|email| - 1]
  }

  /** Every address the check accepts matches the regular expression. */
  lemma ValidEmailMatchesPattern(s: string)
    requires ValidateEmail(s)
    ensures MatchesEmailPattern(s)
  {
    var at := IndexOf(s, '@').value;
    var tail := s[at + 2..|s| - 1];
    var j :| 0 <= j < |tail| && tail[j] == '.';
    var dot := at + 2 + j;
    assert s[dot] == tail[j];
    forall k | 0 <= k < at ensures IsPlain(s[..at][k]) {
      assert s[..at][k] == s[k];
    }
    var domain := s[at + 1..dot];
    forall k | 0 <= k < |domain| ensures IsPlain(domain[k]) {
      assert domain[k] == s[at + 1 + k];
    }
    var last := s[dot + 1..];
    forall k | 0 <= k < |last| ensures IsPlain(last[k]) {
      assert last[k] == s[dot + 1 + k];
    }
    assert s[at] == '@';
  }

  /** Every string the regular expression matches passes the check. */
  lemma PatternMatchIsValidEmail(s: string)
    requires MatchesEmailPattern(s)
    ensures ValidateEmail(s)
  {
    var at, dot :| 0 < at && at + 1 < dot && dot + 1 < |s| &&
      s[at] == '@' && s[dot] == '.' &&
      AllPlain(s[..at]) && AllPlain(s[at + 1..dot]) && AllPlain(s[dot + 1..]);
    forall k | 0 <= k < |s| && k != at ensures IsPlain(s[k]) {
      if k < at {
        assert s[k] == s[..at][k];
      } else if k < dot {
        assert s[k] == s[at + 1..dot][k - at - 1];
      } else if k > dot {
        assert s[k] == s[dot + 1..][k - dot - 1];
      }
    }
    assert '@' !in s[..at] by {
      forall k | 0 <= k < at ensures s[..at][k] != '@' {
        assert IsPlain(s[..at][k]);
      }
    }
    assert IndexOf(s, '@') == Some(at);
    assert s[at + 2..|s| - 1][dot - at - 2] == '.';
  }

  /** The check accepts exactly the strings the regular expression matches. */
  lemma ValidateEmailMatchesPattern(s: string)
    ensures ValidateEmail(s) <==> MatchesEmailPattern(s)
  {
    if ValidateEmail(s) {
      ValidEmailMatchesPattern(s);
    }
    if MatchesEmailPattern(s) {
      PatternMatchIsValidEmail(s);
    }
  }

  /** The empty address is invalid, and so is one with a space in it. */
  lemma EmptyAndSpacedAddressesInvalid()
    ensures !ValidateEmail("")
    ensures !ValidateEmail("a b@c.d")
  {
    var s := "a b@c.d";
    assert IndexOf(s, '@') == Some(3) by {
      assert '@' !in s[..3];
    }
    assert !IsPlain(s[1]);
  }

  const BorderNeutral: string := "border-gray-300"
  const BorderValid: string := "border-green-500 focus:ring-green-400"
  const BorderInvalid: string := "border-red-500 focus:ring-red-400"

  /**
   * The border class of the address input for the current state: gray for
   * an empty address whatever the flag says, otherwise green or red as the
   * flag says.
   */
  function BorderClass(email: string, isValid: bool): (c: string)
    ensures c == BorderNeutral <==> email == ""
    ensures c == BorderValid <==> email != "" && isValid
    ensures c == BorderInvalid <==> email != "" && !isValid
  {
    if email == "" then BorderNeutral else if isValid then BorderValid else BorderInvalid
  }

  /**
   * Under the form's invariant the border is neutral exactly for the empty
   * address, green exactly for a valid one, red exactly for a non-empty
   * invalid one.
   */
  lemma BorderClassMeaning(email: string)
    ensures BorderClass(email, ValidateEmail(email)) == BorderNeutral <==> email == ""
    ensures BorderClass(email, ValidateEmail(email)) == BorderValid <==> ValidateEmail(email)
    ensures BorderClass(email, ValidateEmail(email)) == BorderInvalid <==> email != "" && !ValidateEmail(email)
  {
  }

  /** The component's `email` and `isValid` state cells. */
  class ResultActions {
    var email: string
    var isValid: bool

    /** `isValid` always holds the verdict on the current address. */
    ghost predicate Valid()
      reads this
    {
      isValid == ValidateEmail(email)
    }

    constructor ()
      ensures email == "" && !isValid && Valid()
    {
      email := "";
      isValid := false;
    }

    /** `handleChange`: the new value becomes the address and is checked at once. */
    method HandleChange(value: string)
      modifies this
      ensures email == value && isValid == ValidateEmail(value)
      ensures Valid()
    {
      email := value;
      isValid := ValidateEmail(value);
    }

    /** The submit button's `disabled` attribute: set exactly while the address is not valid. */
    function SubmitDisabled(): (disabled: bool)
      reads this
      requires Valid()
      ensures disabled <==> !ValidateEmail(email)
    {
      !isValid
    }

    /**
     * `handleSubmit`: nothing happens unless the address is valid; then the
     * address is announced as sent (the returned value stands for the alert).
     * The button is disabled exactly when nothing would happen.
     */
    method HandleSubmit() returns (sentTo: Option<string>)
      requires Valid()
      ensures sentTo.None? <==> SubmitDisabled()
      ensures sentTo.Some? ==> sentTo.value == email && ValidateEmail(sentTo.value)
    {
      if !isValid {
        return None;
      }
      sentTo := Some(email);
    }

    /** The border class of the address input. */
    function Border(): (c: string)
      reads this
      requires Valid()
      ensures c == BorderValid <==> ValidateEmail(email)
      ensures c == BorderNeutral <==> email == ""
      ensures c == BorderInvalid <==> email != "" && !ValidateEmail(email)
    {
      BorderClassMeaning(email);
      BorderClass(email, isValid)
    }
  }
}
