/**
 * The sign-in form (`components/Login.tsx`): the built-in administrator check,
 * the non-empty field checks, the mainland-China mobile number format, and the
 * form state that holds the error message and the login/register mode.
 */
module Login {
  import opened Wrappers
  import opened Types
  import opened Text

  const AdminUsername: string := "xueling"
  const AdminPassword: string := "xl123456"
  const AdminId: string := "admin-1"

  /** "Please enter account and password." */
  const MissingCredentials: string := "请输入账号和密码"
  /** "Please fill in all fields." */
  const MissingFields: string := "请填写所有字段"
  /** "Please enter a correct mobile number." */
  const BadPhone: string := "请输入正确的手机号码"

  /** The built-in administrator the form signs in without asking anyone. */
  const BuiltInAdmin: User := User(AdminId, AdminUsername, None, RoleAdmin)

  /** One position of the phone pattern: a single character or a range of characters. */
  datatype CharClass = Exactly(c: char) | Between(lo: char, hi: char)

  predicate InClass(c: char, k: CharClass) {
    match k
    case Exactly(d) => c == d
    case Between(lo, hi) => lo <= c <= hi
  }

  /** The regular expression `^1[3-9]\d{9}$`, one class per position (`\d` is ASCII 0-9 without the `u` flag). */
  const MobilePattern: seq<CharClass> :=
    [Exactly('1'), Between('3', '9'), AsciiDigit, AsciiDigit, AsciiDigit, AsciiDigit, AsciiDigit,
     AsciiDigit, AsciiDigit, AsciiDigit, AsciiDigit]

  const AsciiDigit: CharClass := Between('0', '9')

  /** An anchored match of a pattern without repetition: one character per class, nothing before or after. */
  predicate MatchesAnchored(pattern: seq<CharClass>, s: string) {
    |s| == |pattern| && forall i :: 0 <= i < |s| ==> InClass(s[i], pattern[i])
  }

  /** Eleven ASCII digits, the first `1` and the second in 3..9. */
  predicate IsMobileNumber(phone: string) {
    && |phone| == 11
    && phone[0] == '1'
    && '3' <= phone[1] <= '9'
    && forall i :: 2 <= i < 11 ==> IsDigit(phone[i])
  }

  /** The phone test of the registration form accepts exactly the mobile numbers. */
  lemma MobilePatternMeaning(phone: string)
    ensures MatchesAnchored(MobilePattern, phone) <==> IsMobileNumber(phone)
  {
    assert |MobilePattern| == 11;
    assert forall i :: 2 <= i < 11 ==> MobilePattern[i] == AsciiDigit;
    if IsMobileNumber(phone) {
      forall i | 0 <= i < |phone| ensures InClass(phone[i], MobilePattern[i]) {
        if i >= 2 {
          assert IsDigit(phone[i]);
        }
      }
    }
    if MatchesAnchored(MobilePattern, phone) {
      assert InClass(phone[0], MobilePattern[0]) && InClass(phone[1], MobilePattern[1]);
      forall i | 2 <= i < 11 ensures IsDigit(phone[i]) {
        assert InClass(phone[i], MobilePattern[i]);
      }
    }
  }

  /** A well-formed number passes; one with second digit 2 or with ten digits does not. */
  lemma MobileExamples()
    ensures IsMobileNumber("13800138000")
    ensures !IsMobileNumber("12345678901")
    ensures !IsMobileNumber("1380013800")
  {
  }

  /** What submitting the login form yields: a user to sign in, or an error message. */
  function LoginOutcome(username: string, password: string, phone: string, now: nat): (r: Result<User, string>)
    ensures r.Success? && r.value.role == RoleAdmin <==> username == AdminUsername && password == AdminPassword
    ensures username == AdminUsername && password == AdminPassword ==> r == Success(BuiltInAdmin)
    ensures r.Failure? <==> username == "" || password == ""
    ensures r.Failure? ==> r.error == MissingCredentials
    ensures r.Success? && r.value.role == RoleUser ==>
      r.value.username == username && r.value.phone == Some(phone) && r.value.id == "user-" + NatToDecimal(now)
  {
    if username == AdminUsername && password == AdminPassword then
      Success(BuiltInAdmin)
    else if username != "" && password != "" then
      Success(User("user-" + NatToDecimal(now), username, Some(phone), RoleUser))
    else
      Failure(MissingCredentials)
  }

  /** What submitting the registration form yields; the empty-field check comes before the phone check. */
  function RegisterOutcome(username: string, password: string, phone: string, now: nat): (r: Result<User, string>)
    ensures r.Success? <==> username != "" && password != "" && IsMobileNumber(phone)
    ensures username == "" || password == "" || phone == "" ==> r == Failure(MissingFields)
    ensures username != "" && password != "" && phone != "" && !IsMobileNumber(phone) ==> r == Failure(BadPhone)
    ensures r.Success? ==> r.value == User("user-" + NatToDecimal(now), username, Some(phone), RoleUser)
    ensures r.Success? ==> r.value.role == RoleUser
  {
    if username == "" || password == "" || phone == "" then
      Failure(MissingFields)
    else if !MatchesAnchored(MobilePattern, phone) then
      MobilePatternMeaning(phone);
      Failure(BadPhone)
    else
      MobilePatternMeaning(phone);
      Success(User("user-" + NatToDecimal(now), username, Some(phone), RoleUser))
  }

  /** The user handed to `onLogin`, if any. */
  function SignedIn(r: Result<User, string>): Option<User> {
    match r
    case Success(u) => Some(u)
    case Failure(_) => None
  }

  /** The state of the sign-in form. */
  class LoginForm {
    var isRegister: bool
    var username: string
    var password: string
    var phone: string
    var error: string

    constructor ()
      ensures !isRegister && username == "" && password == "" && phone == "" && error == ""
    {
      isRegister := false;
      username := "";
      password := "";
      phone := "";
      error := "";
    }

    /** The link under the form: switches between login and registration and clears the error. */
    method ToggleMode()
      modifies this`isRegister, this`error
      ensures isRegister == !old(isRegister) && error == ""
    {
      isRegister := !isRegister;
      error := "";
    }

    /** Submitting in login mode: signs a user in, or shows the error. */
    method HandleLogin(now: nat) returns (signedIn: Option<User>)
      modifies this`error
      ensures signedIn == SignedIn(LoginOutcome(username, password, phone, now))
      ensures error == if signedIn.None? then MissingCredentials else old(error)
    {
      if username == AdminUsername && password == AdminPassword {
        signedIn := Some(BuiltInAdmin);
        return;
      }
      if username != "" && password != "" {
        signedIn := Some(User("user-" + NatToDecimal(now), username, Some(phone), RoleUser));
      } else {
        error := MissingCredentials;
        signedIn := None;
      }
    }

    /** Submitting in registration mode: signs the new user in, or shows the first failed check. */
    method HandleRegister(now: nat) returns (signedIn: Option<User>)
      modifies this`error
      ensures signedIn == SignedIn(RegisterOutcome(username, password, phone, now))
      ensures error == match RegisterOutcome(username, password, phone, now)
                       case Failure(e) => e
                       case Success(_) => old(error)
    {
      if username == "" || password == "" || phone == "" {
        error := MissingFields;
        return None;
      }
      if !MatchesAnchored(MobilePattern, phone) {
        error := BadPhone;
        return None;
      }
      signedIn := Some(User("user-" + NatToDecimal(now), username, Some(phone), RoleUser));
    }

    /** The form's submit handler depends on the mode. */
    method Submit(now: nat) returns (signedIn: Option<User>)
      modifies this`error
      ensures signedIn == SignedIn(if isRegister then RegisterOutcome(username, password, phone, now)
                                   else LoginOutcome(username, password, phone, now))
      ensures signedIn.None? ==> error != ""
    {
      if isRegister {
        signedIn := HandleRegister(now);
      } else {
        signedIn := HandleLogin(now);
      }
    }
  }
}
