/** `vs.validateString` (vs.js:265-328): the validation type is split on ':'
    and its first part selects a fixed regular expression, each of which is
    written out here as a predicate on the characters of the string. */
module Validation {
  import opened Common

  // ----------------------------------------------------------------------------
  // Character classes
  // ----------------------------------------------------------------------------

  predicate IsLower(c: char) { 'a' <= c <= 'z' }
  predicate IsUpper(c: char) { 'A' <= c <= 'Z' }
  predicate IsLetter(c: char) { IsLower(c) || IsUpper(c) }

  /** `\s` of ECMAScript: white space and line terminators. */
  predicate IsSpace(c: char) {
    c == '\t' || c == '\n' || c == '\U{000B}' || c == '\U{000C}' || c == '\r' ||
    c == ' ' || c == '\U{00A0}' || c == '\U{1680}' || ('\U{2000}' <= c <= '\U{200A}') ||
    c == '\U{2028}' || c == '\U{2029}' || c == '\U{202F}' || c == '\U{205F}' ||
    c == '\U{3000}' || c == '\U{FEFF}'
  }

  predicate AllLower(s: string) { forall i :: 0 <= i < |s| ==> IsLower(s[i]) }
  predicate AllUpper(s: string) { forall i :: 0 <= i < |s| ==> IsUpper(s[i]) }
  predicate AllLetters(s: string) { forall i :: 0 <= i < |s| ==> IsLetter(s[i]) }
  predicate AllAlphaNumeric(s: string) {
    forall i :: 0 <= i < |s| ==> IsLetter(s[i]) || IsDigit(s[i])
  }

  // ----------------------------------------------------------------------------
  // The fixed patterns
  // ----------------------------------------------------------------------------

  /** `/(^-?\d\d*$)/`: an optional minus sign, then one or more digits. */
  predicate IsInteger(s: string) {
    var body := if |s| > 0 && s[0] == '-' then s[1..] else s;
    |body| >= 1 && AllDigits(body)
  }

  /** `(^-?\d\d*\.\d*$)|(^-?\d\d*$)|(^-?\.\d\d*$)`: after an optional minus,
      digits with an optional fraction, or a point followed by digits. The
      leading run of digits is necessarily the longest one. */
  predicate IsFloat(s: string) {
    var body := if |s| > 0 && s[0] == '-' then s[1..] else s;
    var ds := DigitPrefix(body);
    var rest := body[|ds|..];
    (|ds| >= 1 && rest == "") ||
    (|ds| >= 1 && |rest| >= 1 && rest[0] == '.' && AllDigits(rest[1..])) ||
    (|ds| == 0 && |rest| >= 2 && rest[0] == '.' && AllDigits(rest[1..]))
  }

  /** `\s?` followed by a match of `tail`: the optional space is attempted
      only when the first character is one (a digit is never a space). */
  predicate Digits(s: string, n: nat) { |s| == n && AllDigits(s) }

  predicate OptSpaceDigits(s: string, n: nat) {
    Digits(s, n) || (|s| >= 1 && IsSpace(s[0]) && Digits(s[1..], n))
  }

  /** `/^0\(\d{4}\)\s?\d{3}\s?\d{3}$/`. */
  predicate IsPhoneUk(s: string) {
    |s| >= 7 && s[0] == '0' && s[1] == '(' && AllDigits(s[2..6]) && s[6] == ')' &&
    PhoneUkTail(s[7..])
  }

  /** `\s?\d{3}\s?\d{3}$`. */
  predicate PhoneUkTail(t: string) {
    PhoneUkGroups(t) || (|t| >= 1 && IsSpace(t[0]) && PhoneUkGroups(t[1..]))
  }

  predicate PhoneUkGroups(t: string) {
    |t| >= 3 && AllDigits(t[..3]) && OptSpaceDigits(t[3..], 3)
  }

  /** `/^\([1-9]\d{2}\)\s?\d{3}\-\d{4}$/`. */
  predicate IsPhoneUs(s: string) {
    |s| >= 5 && s[0] == '(' && '1' <= s[1] <= '9' && IsDigit(s[2]) && IsDigit(s[3]) &&
    s[4] == ')' && (PhoneUsNumber(s[5..]) || (|s| >= 6 && IsSpace(s[5]) && PhoneUsNumber(s[6..])))
  }

  predicate PhoneUsNumber(t: string) {
    |t| == 8 && AllDigits(t[..3]) && t[3] == '-' && AllDigits(t[4..])
  }

  /** `/^([a-z]{1})([a-z]{2})\s?(\d{1})(\d{2})$|^([a-z]{1})([a-z]{2})$/`:
      three lower-case letters, then nothing or an optional space and three
      digits (the pattern has no case-insensitive flag). */
  predicate IsPostcodeUk(s: string) {
    |s| >= 3 && AllLower(s[..3]) && (|s| == 3 || OptSpaceDigits(s[3..], 3))
  }

  /** `/(^\d{5}$)|(^\d{5}-\d{4}$)/`. */
  predicate IsPostcodeUs(s: string) {
    Digits(s, 5) || (|s| == 10 && AllDigits(s[..5]) && s[5] == '-' && AllDigits(s[6..]))
  }

  /** A character of the class `[a-z_\.]` under the case-insensitive flag. */
  predicate IsEmailChar(c: char) { IsLetter(c) || c == '_' || c == '.' }

  /** The email pattern of vs.js:292. Its first alternative is the second with
      no two-letter suffix, so the whole pattern is
      `^[a-z][a-z_.]*@[a-z_.]*\.[a-z]{3}(\.[a-z]{2})*$`, ignoring case. */
  predicate IsEmail(s: string) {
    |s| >= 1 && IsLetter(s[0]) && EmailLocal(s[1..])
  }

  /** `[a-z_.]*@` followed by the domain. */
  predicate EmailLocal(t: string)
    decreases |t|
  {
    |t| >= 1 &&
    ((t[0] == '@' && EmailDomain(t[1..])) || (IsEmailChar(t[0]) && EmailLocal(t[1..])))
  }

  /** `[a-z_.]*\.[a-z]{3}(\.[a-z]{2})*$`. */
  predicate EmailDomain(t: string)
    decreases |t|
  {
    EmailTld(t) || (|t| >= 1 && IsEmailChar(t[0]) && EmailDomain(t[1..]))
  }

  predicate EmailTld(t: string) {
    |t| >= 4 && t[0] == '.' && AllLetters(t[1..4]) && EmailPairs(t[4..])
  }

  predicate EmailPairs(t: string)
    decreases |t|
  {
    |t| == 0 || (|t| >= 3 && t[0] == '.' && AllLetters(t[1..3]) && EmailPairs(t[3..]))
  }

  // ----------------------------------------------------------------------------
  // The dispatch
  // ----------------------------------------------------------------------------

  /** `type.split(':')[0]`, which the switch tests. */
  function Kind(validation: string): string {
    Split(validation, ':')[0]
  }

  /** The validation types the switch recognises, and the default branch. */
  datatype Check = AlphaLower | AlphaMixed | AlphaNumeric | AlphaUpper | Email | Float
                 | Integer | PhoneUk | PhoneUs | PostcodeUk | PostcodeUs | Regex | Unrecognised

  /** The `case` label of each recognised type. */
  function Label(c: Check): string {
    match c
    case AlphaLower => "alpha-lower"
    case AlphaMixed => "alpha-mixed"
    case AlphaNumeric => "alpha-numeric"
    case AlphaUpper => "alpha-upper"
    case Email => "email"
    case Float => "float"
    case Integer => "integer"
    case PhoneUk => "phone-uk"
    case PhoneUs => "phone-us"
    case PostcodeUk => "postcode-uk"
    case PostcodeUs => "postcode-us"
    case Regex => "regex"
    case Unrecognised => ""
  }

  /** The switch on `typearr[0]`. */
  function CheckOf(kind: string): Check {
    if kind == "alpha-lower" then AlphaLower
    else if kind == "alpha-mixed" then AlphaMixed
    else if kind == "alpha-numeric" then AlphaNumeric
    else if kind == "alpha-upper" then AlphaUpper
    else if kind == "email" then Email
    else if kind == "float" then Float
    else if kind == "integer" then Integer
    else if kind == "phone-uk" then PhoneUk
    else if kind == "phone-us" then PhoneUs
    else if kind == "postcode-uk" then PostcodeUk
    else if kind == "postcode-us" then PostcodeUs
    else if kind == "regex" then Regex
    else Unrecognised
  }

  /** The test each branch of the switch performs. */
  predicate Passes(c: Check, s: string) {
    match c
    case AlphaLower => AllLower(s)
    case AlphaMixed => AllLetters(s)
    case AlphaNumeric => AllAlphaNumeric(s)
    case AlphaUpper => AllUpper(s)
    case Email => IsEmail(s)
    case Float => IsFloat(s)
    case Integer => IsInteger(s)
    case PhoneUk => IsPhoneUk(s)
    case PhoneUs => IsPhoneUs(s)
    case PostcodeUk => IsPostcodeUk(s)
    case PostcodeUs => IsPostcodeUs(s)
    case Regex => Contains(s, "typearr1")
    case Unrecognised => false
  }

  /** `vs.validateString(type, string)`. The `regex` branch builds the literal
      pattern `/typearr[1]/`, which matches the text "typearr1" whatever pattern
      was supplied. An unrecognised type gives false (after an alert). */
  function ValidateString(validation: string, s: string): bool {
    Passes(CheckOf(Kind(validation)), s)
  }

  // ----------------------------------------------------------------------------
  // Properties
  // ----------------------------------------------------------------------------

  /** Each recognised type is selected by its own label. */
  lemma CheckOfLabel(c: Check)
    requires c != Unrecognised
    ensures CheckOf(Label(c)) == c
    ensures NoSep(Label(c), ':')
  {
    match c
    case AlphaLower =>
    case AlphaMixed =>
    case AlphaNumeric =>
    case AlphaUpper =>
    case Email =>
    case Float =>
    case Integer =>
    case PhoneUk =>
    case PhoneUs =>
    case PostcodeUk =>
    case PostcodeUs =>
    case Regex =>
  }

  /** A type with no ':' runs the check its label names, and anything after
      the first ':' is ignored by the switch. */
  lemma ValidateByLabel(c: Check, suffix: string, s: string)
    requires c != Unrecognised
    ensures ValidateString(Label(c), s) == Passes(c, s)
    ensures ValidateString(Label(c) + [':'] + suffix, s) == Passes(c, s)
  {
    CheckOfLabel(c);
    SplitNoSep(Label(c), ':');
    SplitCons(Label(c), suffix, ':');
  }

  /** A validation type whose first part is no recognised label rejects every
      string. */
  lemma UnknownTypeRejects(validation: string, s: string)
    requires forall c: Check :: c != Unrecognised ==> Label(c) != Kind(validation)
    ensures !ValidateString(validation, s)
  {
    CheckOfRecognised(Kind(validation));
  }

  /** A recognised type is named by its label. */
  lemma CheckOfRecognised(kind: string)
    ensures CheckOf(kind) != Unrecognised ==> Label(CheckOf(kind)) == kind
  {
  }

  /** The `regex:` branch ignores the supplied pattern: a string passes exactly
      when it contains the text "typearr1". */
  lemma RegexIgnoresPattern(pattern: string, s: string)
    ensures ValidateString("regex:" + pattern, s) <==> Contains(s, "typearr1")
  {
    assert "regex:" + pattern == Label(Regex) + [':'] + pattern;
    ValidateByLabel(Regex, pattern, s);
  }

  /** The character-class types nest: lower and upper imply mixed, mixed implies
      alpha-numeric, and the empty string passes all four. */
  lemma AlphaClassesNest(s: string)
    ensures ValidateString("alpha-lower", s) ==> ValidateString("alpha-mixed", s)
    ensures ValidateString("alpha-upper", s) ==> ValidateString("alpha-mixed", s)
    ensures ValidateString("alpha-mixed", s) ==> ValidateString("alpha-numeric", s)
    ensures ValidateString("alpha-lower", "") && ValidateString("alpha-mixed", "") &&
            ValidateString("alpha-numeric", "") && ValidateString("alpha-upper", "")
  {
    ValidateByLabel(AlphaLower, "", s);
    ValidateByLabel(AlphaUpper, "", s);
    ValidateByLabel(AlphaMixed, "", s);
    ValidateByLabel(AlphaNumeric, "", s);
    ValidateByLabel(AlphaLower, "", "");
    ValidateByLabel(AlphaUpper, "", "");
    ValidateByLabel(AlphaMixed, "", "");
    ValidateByLabel(AlphaNumeric, "", "");
  }

  /** `alpha-mixed` accepts exactly the strings of ASCII letters. */
  lemma AlphaMixedLetters(s: string)
    ensures ValidateString("alpha-mixed", s) <==> AllLetters(s)
  {
    ValidateByLabel(AlphaMixed, "", s);
  }

  /** Every string the integer pattern accepts, the float pattern accepts. */
  lemma IntegerIsFloat(s: string)
    requires ValidateString("integer", s)
    ensures ValidateString("float", s)
  {
    ValidateByLabel(Integer, "", s);
    ValidateByLabel(Float, "", s);
    var body := if |s| > 0 && s[0] == '-' then s[1..] else s;
    DigitPrefixAll(body);
  }

  /** A US zip code has 5 or 10 characters, and no letter. */
  lemma PostcodeUsShape(s: string)
    requires ValidateString("postcode-us", s)
    ensures |s| == 5 || |s| == 10
    ensures forall i :: 0 <= i < |s| ==> !IsLetter(s[i])
  {
    ValidateByLabel(PostcodeUs, "", s);
    ZipCodeShape(s);
  }

  /** The shape of a string the zip-code pattern matches. */
  lemma ZipCodeShape(s: string)
    requires IsPostcodeUs(s)
    ensures |s| == 5 || |s| == 10
    ensures forall i :: 0 <= i < |s| ==> !IsLetter(s[i])
  {
    if |s| == 10 && !Digits(s, 5) {
      forall i | 0 <= i < |s| ensures !IsLetter(s[i]) {
        if i < 5 { assert s[..5][i] == s[i]; }
        else if i > 5 { assert s[6..][i - 6] == s[i]; }
      }
    }
  }

  function CountChar(s: string, c: char): nat
    decreases |s|
  {
    if |s| == 0 then 0 else (if s[0] == c then 1 else 0) + CountChar(s[1..], c)
  }

  lemma {:induction false} CountNone(s: string, c: char)
    requires NoSep(s, c)
    ensures CountChar(s, c) == 0
    decreases |s|
  {
    if |s| > 0 {
      CountNone(s[1..], c);
    }
  }

  lemma {:induction false} CountSplit(t: string, k: nat, c: char)
    requires k <= |t|
    ensures CountChar(t, c) == CountChar(t[..k], c) + CountChar(t[k..], c)
    decreases k
  {
    if k > 0 {
      CountSplit(t[1..], k - 1, c);
      assert t[1..][..k - 1] == t[..k][1..];
      assert t[1..][k - 1..] == t[k..];
    }
  }

  lemma {:induction false} EmailPairsNoAt(t: string)
    requires EmailPairs(t)
    ensures CountChar(t, '@') == 0
    decreases |t|
  {
    if |t| > 0 {
      CountSplit(t, 3, '@');
      assert forall k :: 1 <= k < 3 ==> t[..3][k] == t[1..3][k - 1];
      CountNone(t[..3], '@');
      EmailPairsNoAt(t[3..]);
    }
  }

  lemma {:induction false} EmailDomainNoAt(t: string)
    requires EmailDomain(t)
    ensures CountChar(t, '@') == 0
    decreases |t|
  {
    if EmailTld(t) {
      CountSplit(t, 4, '@');
      assert forall k :: 1 <= k < 4 ==> t[..4][k] == t[1..4][k - 1];
      CountNone(t[..4], '@');
      EmailPairsNoAt(t[4..]);
    } else {
      EmailDomainNoAt(t[1..]);
    }
  }

  lemma {:induction false} EmailLocalOneAt(t: string)
    requires EmailLocal(t)
    ensures CountChar(t, '@') == 1
    decreases |t|
  {
    if t[0] == '@' {
      EmailDomainNoAt(t[1..]);
    } else {
      EmailLocalOneAt(t[1..]);
    }
  }

  /** An address the email pattern accepts holds exactly one '@'. */
  lemma EmailHasOneAt(s: string)
    requires ValidateString("email", s)
    ensures CountChar(s, '@') == 1
  {
    ValidateByLabel(Email, "", s);
    EmailLocalOneAt(s[1..]);
  }
}
