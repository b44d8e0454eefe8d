/**
 * `validateUserInput` of controllers/userController.js: the email is tested against
 * `^[^\s@]+@[^\s@]+\.[^\s@]+$` and then the mobile number against `^[0-9]{10}$`.
 */
module UserValidation {
  import opened Wrappers

  const InvalidEmailMessage: string := "Invalid email format"
  const InvalidMobileMessage: string := "Invalid mobile number"

  /** The characters JavaScript's `\s` matches: white space and line terminators. */
  predicate IsWhitespace(c: char)
  {
    || c == '\t' || c == '\n' || c == '\U{000B}' || c == '\U{000C}' || c == '\r' || c == ' '
    || c == '\U{00A0}' || c == '\U{1680}' || ('\U{2000}' <= c <= '\U{200A}')
    || c == '\U{2028}' || c == '\U{2029}' || c == '\U{202F}' || c == '\U{205F}'
    || c == '\U{3000}' || c == '\U{FEFF}'
  }

  /** The class `[^\s@]`. */
  predicate IsEmailChar(c: char)
  {
    !IsWhitespace(c) && c != '@'
  }

  predicate AllEmailChars(s: string)
  {
    forall i :: 0 <= i < |s| ==> IsEmailChar(s[i])
  }

  /**
   * The pattern read as the regex reads it: a non-empty run of `[^\s@]`, an `@`, a
   * non-empty run, a literal `.`, and a non-empty run that ends the string.
   */
  ghost predicate MatchesEmailPattern(s: string)
  {
    exists i, j :: 0 < i && i + 1 < j && j + 1 < |s| && s[i] == '@' && s[j] == '.'
      && AllEmailChars(s[..i]) && AllEmailChars(s[i + 1..j]) && AllEmailChars(s[j + 1..])
  }

  /** Index of the first `c` in `s`, or `|s|` when there is none. */
  function FirstIndexOf(s: string, c: char): (r: nat)
    ensures r <= |s|
    ensures r < |s| ==> s[r] == c
    ensures forall k :: 0 <= k < r ==> s[k] != c
  {
    if s == [] then 0 else if s[0] == c then 0 else 1 + FirstIndexOf(s[1..], c)
  }

  /**
   * The email test: a non-empty local part before the first `@`, then a domain free of
   * `@` and white space with a `.` that is neither its first nor its last character.
   */
  predicate IsValidEmail(email: string)
  {
    var at := FirstIndexOf(email, '@');
    && 0 < at < |email|
    && AllEmailChars(email[..at])
    && var domain := email[at + 1..];
       && AllEmailChars(domain)
       && exists k :: 0 < k < |domain| - 1 && domain[k] == '.'
  }

  predicate IsDigit(c: char)
  {
    '0' <= c <= '9'
  }

  /** Length of the longest run of digits that starts `s`. */
  function LeadingDigits(s: string): (n: nat)
    ensures n <= |s|
    ensures forall i :: 0 <= i < n ==> IsDigit(s[i])
    ensures n < |s| ==> !IsDigit(s[n])
  {
    if s == [] || !IsDigit(s[0]) then 0 else 1 + LeadingDigits(s[1..])
  }

  /** The mobile test: ten characters, each a decimal digit. */
  function IsValidMobile(mobile: string): (r: bool)
    ensures r <==> |mobile| == 10 && forall i :: 0 <= i < |mobile| ==> IsDigit(mobile[i])
  {
    |mobile| == 10 && LeadingDigits(mobile) == 10
  }

  /** The email is tested first, so a bad email is reported even when the mobile is bad too. */
  function ValidateUserInput(email: string, mobile: string): (r: Validation)
    ensures r == Valid <==> IsValidEmail(email) && IsValidMobile(mobile)
    ensures !IsValidEmail(email) ==> r == Invalid(InvalidEmailMessage)
    ensures IsValidEmail(email) && !IsValidMobile(mobile) ==> r == Invalid(InvalidMobileMessage)
  {
    if !IsValidEmail(email) then Invalid(InvalidEmailMessage)
    else if !IsValidMobile(mobile) then Invalid(InvalidMobileMessage)
    else Valid
  }

  lemma EmailTestSound(s: string)
    requires IsValidEmail(s)
    ensures MatchesEmailPattern(s)
  {
    var i := FirstIndexOf(s, '@');
    var domain := s[i + 1..];
    var k :| 0 < k < |domain| - 1 && domain[k] == '.';
    var j := i + 1 + k;
    assert s[j] == '.';
    assert s[i + 1..j] == domain[..k];
    assert s[j + 1..] == domain[k + 1..];
  }

  lemma EmailTestComplete(s: string, i: nat, j: nat)
    requires 0 < i && i + 1 < j && j + 1 < |s| && s[i] == '@' && s[j] == '.'
    requires AllEmailChars(s[..i]) && AllEmailChars(s[i + 1..j]) && AllEmailChars(s[j + 1..])
    ensures IsValidEmail(s)
  {
    forall k | 0 <= k < i ensures s[k] != '@' { assert s[..i][k] == s[k]; }
    assert FirstIndexOf(s, '@') == i;
    var domain := s[i + 1..];
    assert domain[j - i - 1] == '.';
    forall k | 0 <= k < |domain| ensures IsEmailChar(domain[k]) {
      if k < j - i - 1 {
        assert domain[k] == s[i + 1..j][k];
      } else if k > j - i - 1 {
        assert domain[k] == s[j + 1..][k - (j - i)];
      }
    }
  }

  /** The email test accepts exactly the strings the regex matches. */
  lemma EmailTestMatchesPattern(s: string)
    ensures IsValidEmail(s) <==> MatchesEmailPattern(s)
  {
    if IsValidEmail(s) {
      EmailTestSound(s);
    }
    if MatchesEmailPattern(s) {
      var i, j :| 0 < i && i + 1 < j && j + 1 < |s| && s[i] == '@' && s[j] == '.'
        && AllEmailChars(s[..i]) && AllEmailChars(s[i + 1..j]) && AllEmailChars(s[j + 1..]);
      EmailTestComplete(s, i, j);
    }
  }

  /** An accepted email holds exactly one `@` and no white space. */
  lemma AcceptedEmailShape(s: string)
    requires IsValidEmail(s)
    ensures multiset(s)['@'] == 1
    ensures forall k :: 0 <= k < |s| ==> !IsWhitespace(s[k])
  {
    var at := FirstIndexOf(s, '@');
    var domain := s[at + 1..];
    assert s == s[..at] + [s[at]] + domain;
    assert '@' !in s[..at];
    assert forall k :: 0 <= k < |domain| ==> IsEmailChar(domain[k]);
    assert '@' !in domain;
    forall k | 0 <= k < |s| ensures !IsWhitespace(s[k]) {
      if k < at {
        assert s[k] == s[..at][k];
      } else if k > at {
        assert s[k] == domain[k - at - 1];
      }
    }
  }

  /** An address with a one-dot domain is accepted. */
  lemma AcceptedEmailExample()
    ensures IsValidEmail("ann@mail.com")
  {
    var good := "ann@mail.com";
    assert good[..3] == "ann" && good[4..8] == "mail" && good[9..] == "com";
    EmailTestComplete(good, 3, 8);
  }

  /** Ten digits are accepted; a space among them is not. */
  lemma MobileExamples()
    ensures IsValidMobile("9876543210")
    ensures !IsValidMobile("98765 4321")
  {
    var mobile := "9876543210";
    forall i | 0 <= i < |mobile| ensures IsDigit(mobile[i]) {
      assert i in {0, 1, 2, 3, 4, 5, 6, 7, 8, 9};
    }
    assert !IsDigit("98765 4321"[5]);
  }

  /** A well-formed pair is accepted. */
  lemma AcceptedExample()
    ensures ValidateUserInput("ann@mail.com", "9876543210") == Valid
  {
    AcceptedEmailExample();
    MobileExamples();
  }

  /** A domain without a dot is refused. */
  lemma DomainWithoutDotRejected()
    ensures !IsValidEmail("ann@mail")
  {
    var noDot := "ann@mail";
    assert noDot[3] == '@' && noDot[0] != '@' && noDot[1] != '@' && noDot[2] != '@';
    assert FirstIndexOf(noDot, '@') == 3;
    assert noDot[4..] == "mail";
  }

  /** White space in the address is refused. */
  lemma SpaceRejected()
    ensures !IsValidEmail("ann @mail.com")
  {
    var spaced := "ann @mail.com";
    assert spaced[4] == '@' && spaced[0] != '@' && spaced[1] != '@' && spaced[2] != '@' && spaced[3] != '@';
    assert FirstIndexOf(spaced, '@') == 4;
    assert spaced[..4][3] == ' ';
  }

  /** A second `@` is refused. */
  lemma SecondAtRejected()
    ensures !IsValidEmail("ann@x@mail.com")
  {
    var twice := "ann@x@mail.com";
    assert twice[3] == '@' && twice[0] != '@' && twice[1] != '@' && twice[2] != '@';
    assert FirstIndexOf(twice, '@') == 3;
    assert twice[4..][1] == '@';
  }

  /** A bad email is reported as such whatever the mobile number. */
  lemma RejectedEmailExamples()
    ensures ValidateUserInput("ann@mail", "9876543210") == Invalid(InvalidEmailMessage)
    ensures ValidateUserInput("ann @mail.com", "98765") == Invalid(InvalidEmailMessage)
    ensures ValidateUserInput("ann@x@mail.com", "9876543210") == Invalid(InvalidEmailMessage)
  {
    DomainWithoutDotRejected();
    SpaceRejected();
    SecondAtRejected();
  }

  /** A good email with a bad mobile number reports the mobile. */
  lemma RejectedMobileExample()
    ensures ValidateUserInput("ann@mail.com", "98765 4321") == Invalid(InvalidMobileMessage)
  {
    AcceptedEmailExample();
    MobileExamples();
  }
}
