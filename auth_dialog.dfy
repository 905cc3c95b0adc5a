// The sign-in dialog of src/components/AuthDialog.tsx: the CAPTCHA
// generator, the email check, the login and signup check chains and the
// tab switch. The random draws behind the CAPTCHA are inputs (`picks`,
// each `Math.floor(Math.random() * 55)`); `login`/`signup` of the
// authentication context are recorded as the address they were given.
module AuthDialog {
  import opened Common
  import opened JsText

  const CaptchaAlphabet: string := "ABCDEFGHJKLMNPQRSTUVWXYZabcdefghjkmnpqrstuvwxyz23456789"
  const CaptchaLength: nat := 6

  predicate FromAlphabet(code: string) {
    forall k :: 0 <= k < |code| ==> code[k] in CaptchaAlphabet
  }

  predicate ValidPicks(picks: seq<nat>) {
    |picks| == CaptchaLength && forall i :: 0 <= i < |picks| ==> picks[i] < |CaptchaAlphabet|
  }

  /** The code a series of draws spells. */
  function CaptchaOf(picks: seq<nat>): (code: string)
    requires ValidPicks(picks)
    ensures |code| == CaptchaLength && FromAlphabet(code)
  {
    seq(CaptchaLength, i requires 0 <= i < CaptchaLength => CaptchaAlphabet[picks[i]])
  }

  /** `generateCaptcha`'s loop: one character per draw, appended in turn. */
  method BuildCaptcha(picks: seq<nat>) returns (code: string)
    requires ValidPicks(picks)
    ensures code == CaptchaOf(picks)
    ensures |code| == CaptchaLength && FromAlphabet(code)
  {
    code := "";
    for i := 0 to CaptchaLength
      invariant |code| == i
      invariant forall k :: 0 <= k < i ==> code[k] == CaptchaAlphabet[picks[k]]
    {
      code := code + [CaptchaAlphabet[picks[i]]];
    }
  }

  // ---- the email check ----

  predicate NoSpaceOrAt(s: string) {
    forall k :: 0 <= k < |s| ==> !IsWhitespace(s[k]) && s[k] != '@'
  }

  /** `^[^\s@]+@[^\s@]+\.[^\s@]+$`: a non-empty run before an '@', a
      non-empty run, a '.', and a non-empty run to the end, no run holding
      white space or an '@'. */
  ghost predicate MatchesEmailPattern(s: string) {
    exists i, j :: 0 < i && i + 1 < j && j + 1 < |s| && s[i] == '@' && s[j] == '.'
      && NoSpaceOrAt(s[..i]) && NoSpaceOrAt(s[i + 1..j]) && NoSpaceOrAt(s[j + 1..])
  }

  /** The index of the first '@', or the length when there is none. */
  function FirstAt(s: string): (i: nat)
    ensures i <= |s|
    ensures forall k :: 0 <= k < i ==> s[k] != '@'
    ensures i < |s| ==> s[i] == '@'
  {
    if s == [] || s[0] == '@' then 0 else 1 + FirstAt(s[1..])
  }

  predicate HasInnerDot(d: string) {
    exists k :: 0 < k < |d| - 1 && d[k] == '.'
  }

  /** `validateEmail`, read as a check: no white space anywhere, a first
      '@' that is not the first character, no second '@', and a '.' inside
      the part after the '@' that is neither its first nor its last
      character. */
  predicate ValidateEmail(s: string) {
    var i := FirstAt(s);
    && 0 < i < |s|
    && (forall k :: 0 <= k < |s| ==> !IsWhitespace(s[k]))
    && (forall k :: i < k < |s| ==> s[k] != '@')
    && HasInnerDot(s[i + 1..])
  }

  /** No white space and no '@' in s[lo..hi]. */
  lemma CleanSlice(s: string, lo: nat, hi: nat)
    requires lo <= hi <= |s|
    requires forall k :: lo <= k < hi ==> !IsWhitespace(s[k]) && s[k] != '@'
    ensures NoSpaceOrAt(s[lo..hi])
  {
    assert forall k :: 0 <= k < hi - lo ==> s[lo..hi][k] == s[lo + k];
  }

  /** What the check accepts, the regular expression matches. */
  lemma CheckedEmailMatches(s: string)
    requires ValidateEmail(s)
    ensures MatchesEmailPattern(s)
  {
    var i := FirstAt(s);
    var d := s[i + 1..];
    var k :| 0 < k < |d| - 1 && d[k] == '.';
    var j := i + 1 + k;
    assert s[j] == d[k];
    CleanSlice(s, 0, i);
    CleanSlice(s, i + 1, j);
    CleanSlice(s, j + 1, |s|);
    assert s[..i] == s[0..i] && s[j + 1..] == s[j + 1..|s|];
  }

  /** An '@' with none before it is the first one. */
  lemma FirstAtIs(s: string, i: nat)
    requires i < |s| && s[i] == '@'
    requires forall k :: 0 <= k < i ==> s[k] != '@'
    ensures FirstAt(s) == i
  {
  }

  /** What the regular expression matches, the check accepts. */
  lemma MatchedEmailChecks(s: string)
    requires MatchesEmailPattern(s)
    ensures ValidateEmail(s)
  {
    var i, j :| 0 < i && i + 1 < j && j + 1 < |s| && s[i] == '@' && s[j] == '.'
      && NoSpaceOrAt(s[..i]) && NoSpaceOrAt(s[i + 1..j]) && NoSpaceOrAt(s[j + 1..]);
    var a, b, c := s[..i], s[i + 1..j], s[j + 1..];
    forall k | 0 <= k < |s|
      ensures !IsWhitespace(s[k])
      ensures k != i ==> s[k] != '@'
    {
      if k < i {
        assert s[k] == a[k];
      } else if i < k < j {
        assert s[k] == b[k - i - 1];
      } else if j < k {
        assert s[k] == c[k - j - 1];
      }
    }
    FirstAtIs(s, i);
    var d := s[i + 1..];
    assert d[j - i - 1] == '.';
    assert HasInnerDot(d);
  }

  /** The check accepts exactly what the regular expression matches. */
  lemma ValidateEmailIsPattern(s: string)
    ensures ValidateEmail(s) <==> MatchesEmailPattern(s)
  {
    if ValidateEmail(s) {
      CheckedEmailMatches(s);
    }
    if MatchesEmailPattern(s) {
      MatchedEmailChecks(s);
    }
  }

  /** An accepted address holds exactly one '@'. */
  lemma ValidEmailHasOneAt(s: string)
    requires ValidateEmail(s)
    ensures exists i :: 0 < i < |s| && s[i] == '@' && forall k :: 0 <= k < |s| && k != i ==> s[k] != '@'
  {
    var i := FirstAt(s);
    assert 0 < i < |s| && s[i] == '@';
  }

  /** A plain address passes the check. */
  lemma EmailExamples()
    ensures ValidateEmail("a@b.co")
  {
    assert "a@b.co"[2..][1] == '.';
  }

  /** Addresses without a domain dot, or with an empty part, fail it. */
  lemma MalformedEmailExamples()
    ensures !ValidateEmail("a@b") && !ValidateEmail("@b.co") && !ValidateEmail("a@.co")
    ensures !ValidateEmail("a@b.")
  {
  }

  /** So do addresses with white space or a second '@'. */
  lemma ForbiddenCharacterExamples()
    ensures !ValidateEmail("a b@c.de") && !ValidateEmail("a@b@c.de")
  {
    assert FirstAt("a b@c.de") == 3;
    assert IsWhitespace("a b@c.de"[1]);
    assert "a@b@c.de"[3] == '@';
  }

  // ---- the check chains ----

  datatype Outcome =
    | MissingField | InvalidEmail | PasswordMismatch | PasswordTooShort | CaptchaMismatch | Accepted

  /** `handleLogin`'s checks in order: an empty field, a malformed email,
      a CAPTCHA that does not match. */
  function LoginCheck(email: string, password: string, typed: string, code: string): (r: Outcome)
    ensures r == MissingField <==> email == [] || password == []
    ensures r == InvalidEmail <==> email != [] && password != [] && !ValidateEmail(email)
    ensures r == CaptchaMismatch <==>
      email != [] && password != [] && ValidateEmail(email) && typed != code
    ensures r == Accepted <==> email != [] && password != [] && ValidateEmail(email) && typed == code
  {
    if email == [] || password == [] then MissingField
    else if !ValidateEmail(email) then InvalidEmail
    else if typed != code then CaptchaMismatch
    else Accepted
  }

  /** `handleSignup`'s checks in order: an empty field, a malformed email,
      passwords that differ, a password under 8 characters, a CAPTCHA that
      does not match. */
  function SignupCheck(email: string, password: string, confirm: string, typed: string, code: string): (r: Outcome)
    ensures r == MissingField <==> email == [] || password == [] || confirm == []
    ensures r == InvalidEmail <==>
      email != [] && password != [] && confirm != [] && !ValidateEmail(email)
    ensures r == PasswordMismatch <==>
      email != [] && password != [] && confirm != [] && ValidateEmail(email) && password != confirm
    ensures r == PasswordTooShort <==>
      email != [] && password != [] && ValidateEmail(email) && password == confirm && |password| < 8
    ensures r == CaptchaMismatch <==>
      email != [] && ValidateEmail(email) && password == confirm && |password| >= 8 && typed != code
    ensures r == Accepted <==>
      ValidateEmail(email) && password == confirm && |password| >= 8 && typed == code
  {
    if email == [] || password == [] || confirm == [] then MissingField
    else if !ValidateEmail(email) then InvalidEmail
    else if password != confirm then PasswordMismatch
    else if |password| < 8 then PasswordTooShort
    else if typed != code then CaptchaMismatch
    else Accepted
  }

  /** An accepted login or signup carries an address the regular
      expression matches. */
  lemma AcceptedEmailMatchesPattern(email: string, password: string, confirm: string, typed: string, code: string)
    requires LoginCheck(email, password, typed, code) == Accepted
      || SignupCheck(email, password, confirm, typed, code) == Accepted
    ensures MatchesEmailPattern(email)
  {
    ValidateEmailIsPattern(email);
  }

  datatype Tab = LoginTab | SignupTab

  datatype AuthInput = EmailInput | PasswordInput | ConfirmInput | CaptchaInput

  class Dialog {
    var activeTab: Tab
    var email: string
    var password: string
    var confirmPassword: string
    var captchaValue: string
    var captchaCode: string
    /** The address handed to `login`/`signup`, once one was. */
    var signedInAs: Option<string>
    var open: bool

    /** The code on display is always a full CAPTCHA. */
    ghost predicate Valid()
      reads this
    {
      |captchaCode| == CaptchaLength && FromAlphabet(captchaCode)
    }

    /** Mounting: empty fields and a first CAPTCHA. */
    constructor (defaultTab: Tab, picks: seq<nat>)
      requires ValidPicks(picks)
      ensures Valid() && activeTab == defaultTab && open && signedInAs.None?
      ensures email == [] && password == [] && confirmPassword == [] && captchaValue == []
      ensures captchaCode == CaptchaOf(picks)
    {
      activeTab := defaultTab;
      email, password, confirmPassword, captchaValue := [], [], [], [];
      signedInAs := None;
      open := true;
      var code := BuildCaptcha(picks);
      captchaCode := code;
    }

    /** `generateCaptcha`: a new code, and the typed answer cleared. */
    method GenerateCaptcha(picks: seq<nat>)
      requires ValidPicks(picks)
      modifies this
      ensures Valid() && captchaCode == CaptchaOf(picks) && captchaValue == []
      ensures activeTab == old(activeTab) && email == old(email) && password == old(password)
      ensures confirmPassword == old(confirmPassword) && signedInAs == old(signedInAs) && open == old(open)
    {
      captchaCode := BuildCaptcha(picks);
      captchaValue := [];
    }

    /** Typing into one of the inputs. */
    method Type(field: AuthInput, value: string)
      requires Valid()
      modifies this
      ensures Valid() && captchaCode == old(captchaCode) && activeTab == old(activeTab)
      ensures signedInAs == old(signedInAs) && open == old(open)
      ensures email == (if field == EmailInput then value else old(email))
      ensures password == (if field == PasswordInput then value else old(password))
      ensures confirmPassword == (if field == ConfirmInput then value else old(confirmPassword))
      ensures captchaValue == (if field == CaptchaInput then value else old(captchaValue))
    {
      match field
      case EmailInput => email := value;
      case PasswordInput => password := value;
      case ConfirmInput => confirmPassword := value;
      case CaptchaInput => captchaValue := value;
    }

    /** `handleTabChange`: the other tab, every input cleared, a new code
        (`picks` is the last draw made). */
    method HandleTabChange(tab: Tab, picks: seq<nat>)
      requires ValidPicks(picks)
      modifies this
      ensures Valid() && activeTab == tab && captchaCode == CaptchaOf(picks)
      ensures email == [] && password == [] && confirmPassword == [] && captchaValue == []
      ensures signedInAs == old(signedInAs) && open == old(open)
    {
      activeTab := tab;
      email, password, confirmPassword, captchaValue := [], [], [], [];
      GenerateCaptcha(picks);
    }

    /** `handleLogin`: the first failing check is reported; a CAPTCHA
        mismatch draws a new code and clears the answer; on success the
        address is handed to `login` and the dialog closes. */
    method HandleLogin(picks: seq<nat>) returns (r: Outcome)
      requires Valid() && ValidPicks(picks)
      modifies this
      ensures Valid()
      ensures r == LoginCheck(old(email), old(password), old(captchaValue), old(captchaCode))
      ensures r == Accepted ==> signedInAs == Some(old(email)) && !open
      ensures r != Accepted ==> signedInAs == old(signedInAs) && open == old(open)
      ensures r == CaptchaMismatch ==> captchaCode == CaptchaOf(picks) && captchaValue == []
      ensures r != CaptchaMismatch ==> captchaCode == old(captchaCode) && captchaValue == old(captchaValue)
      ensures email == old(email) && password == old(password) && confirmPassword == old(confirmPassword)
      ensures activeTab == old(activeTab)
    {
      r := LoginCheck(email, password, captchaValue, captchaCode);
      if r == CaptchaMismatch {
        GenerateCaptcha(picks);
      } else if r == Accepted {
        signedInAs := Some(email);
        open := false;
      }
    }

    /** `handleSignup`, with the signup chain of checks. */
    method HandleSignup(picks: seq<nat>) returns (r: Outcome)
      requires Valid() && ValidPicks(picks)
      modifies this
      ensures Valid()
      ensures r == SignupCheck(old(email), old(password), old(confirmPassword), old(captchaValue), old(captchaCode))
      ensures r == Accepted ==> signedInAs == Some(old(email)) && !open
      ensures r != Accepted ==> signedInAs == old(signedInAs) && open == old(open)
      ensures r == CaptchaMismatch ==> captchaCode == CaptchaOf(picks) && captchaValue == []
      ensures r != CaptchaMismatch ==> captchaCode == old(captchaCode) && captchaValue == old(captchaValue)
      ensures email == old(email) && password == old(password) && confirmPassword == old(confirmPassword)
      ensures activeTab == old(activeTab)
    {
      r := SignupCheck(email, password, confirmPassword, captchaValue, captchaCode);
      if r == CaptchaMismatch {
        GenerateCaptcha(picks);
      } else if r == Accepted {
        signedInAs := Some(email);
        open := false;
      }
    }
  }
}
