/**
 * The inventory app's input validators: pure predicates over nullable
 * strings (Option<string>) and Java ints.
 */
module Validation {
  import opened Wrappers
  import opened JavaLang

  const MinUsernameLength := 3
  const MinPasswordLength := 6
  const MinPhoneSymbols := 7
  const MaxMetadataLength := 255

  /** A username is present and has at least 3 characters. */
  function IsValidUsername(username: Option<string>): (r: bool)
    ensures r <==> username.Some? && |username.value| >= MinUsernameLength
  {
    !IsEmpty(username) && |username.value| >= MinUsernameLength
  }

  /** A password is present and has at least 6 characters. */
  function IsValidPassword(password: Option<string>): (r: bool)
    ensures r <==> password.Some? && |password.value| >= MinPasswordLength
  {
    !IsEmpty(password) && |password.value| >= MinPasswordLength
  }

  /** Two passwords match when the first is present and equal to the second; a null second never matches. */
  function DoPasswordsMatch(p1: Option<string>, p2: Option<string>): (r: bool)
    ensures r ==> p1.Some? && p2 == p1
    ensures p1.Some? && p2 == p1 ==> r
    ensures p1 == None ==> !r
  {
    p1.Some? && p2.Some? && p1.value == p2.value
  }

  /** A character of the class [0-9 ]. */
  predicate IsDigitOrSpace(c: char)
  {
    ('0' <= c <= '9') || c == ' '
  }

  /** The regular expression [0-9 ]{7,} matched against all of t. */
  predicate DigitRun(t: string)
  {
    |t| >= MinPhoneSymbols && forall i :: 0 <= i < |t| ==> IsDigitOrSpace(t[i])
  }

  /** String.matches("^[+]?[0-9 ]{7,}$"): an optional leading '+', then at least seven digits or spaces. */
  predicate MatchesPhonePattern(t: string)
  {
    DigitRun(t) || (|t| > 0 && t[0] == '+' && DigitRun(t[1..]))
  }

  /**
   * A phone number is optional: null or "" is accepted; anything else must
   * match the pattern once trimmed.
   */
  function IsValidPhoneNumber(phone: Option<string>): (r: bool)
    ensures IsEmpty(phone) ==> r
    ensures !IsEmpty(phone) ==> (r <==> MatchesPhonePattern(Trim(phone.value)))
  {
    if IsEmpty(phone) then true else MatchesPhonePattern(Trim(phone.value))
  }

  /**
   * Every character of a matching phone number is a digit or a space,
   * except a '+' that may only come first; it has at least seven of the
   * others, and so at least 7 characters.
   */
  lemma PhonePatternShape(t: string)
    requires MatchesPhonePattern(t)
    ensures |t| >= MinPhoneSymbols
    ensures forall i :: 0 < i < |t| ==> IsDigitOrSpace(t[i])
    ensures IsDigitOrSpace(t[0]) || t[0] == '+'
    ensures t[0] == '+' ==> |t| >= MinPhoneSymbols + 1
  {
    if !DigitRun(t) {
      assert forall i :: 0 < i < |t| ==> t[i] == t[1..][i - 1];
    }
  }

  /**
   * Because the number is trimmed first, padding a non-empty number with a
   * trimmable character on either side does not change the verdict.
   */
  lemma PhonePaddingIgnored(s: string, c: char)
    requires IsTrimmable(c) && s != ""
    ensures IsValidPhoneNumber(Some([c] + s)) == IsValidPhoneNumber(Some(s))
    ensures IsValidPhoneNumber(Some(s + [c])) == IsValidPhoneNumber(Some(s))
  {
    TrimPadding(s, c);
  }

  /** A non-empty phone number made only of blanks is rejected, although the empty one is accepted. */
  lemma BlankPhoneRejected(s: string)
    requires s != [] && forall i :: 0 <= i < |s| ==> IsTrimmable(s[i])
    ensures !IsValidPhoneNumber(Some(s))
    ensures IsValidPhoneNumber(Some(""))
  {
    TrimEmptyIff(s);
  }

  /** An item name is present and not empty; a name of blanks passes. */
  function IsValidItemName(name: Option<string>): (r: bool)
    ensures r <==> name.Some? && name.value != ""
  {
    !IsEmpty(name)
  }

  /** A quantity is valid when it is not negative. */
  function IsValidQuantity(qty: Int32): (r: bool)
    ensures r <==> qty >= 0
  {
    qty >= 0
  }

  /** A category may be null; a present one must have a character other than a blank. */
  function IsValidCategory(category: Option<string>): (r: bool)
    ensures r <==> category == None || exists i :: 0 <= i < |category.value| && !IsTrimmable(category.value[i])
  {
    TrimEmptyIff(if category.Some? then category.value else "");
    category == None || |Trim(category.value)| > 0
  }

  /**
   * A metadata text (description or location) may be null or empty; a
   * present one must trim to between 1 and 255 characters.
   */
  function IsValidMetadata(text: Option<string>): (r: bool)
    ensures IsEmpty(text) ==> r
    ensures !IsEmpty(text) ==> (r <==> 0 < |Trim(text.value)| <= MaxMetadataLength)
  {
    if IsEmpty(text) then true
    else
      var trimmed := Trim(text.value);
      |trimmed| > 0 && |trimmed| <= MaxMetadataLength
  }

  /** A text of at most 255 characters passes the metadata check unless it is a non-empty run of blanks. */
  lemma ShortMetadataValid(text: string)
    requires |text| <= MaxMetadataLength
    ensures IsValidMetadata(Some(text)) <==> text == "" || exists i :: 0 <= i < |text| && !IsTrimmable(text[i])
  {
    TrimEmptyIff(text);
    TrimIsCore(text);
  }
}
