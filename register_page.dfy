// The registration page: the password rule, the two-step submit (request a
// one-time code, then verify it), the six one-digit code boxes with their
// focus moves and automatic submit, the resend countdown and the resend
// button. The server's replies are parameters; a React state setter is an
// assignment to the field, and a handler's closure sees the state of the
// render it was created in.
module RegisterPage {
  import opened Common
  import opened JsText

  // ---- The password rule ----

  predicate IsLowerAscii(c: char) { 'a' <= c <= 'z' }
  predicate IsUpperAscii(c: char) { 'A' <= c <= 'Z' }
  predicate IsSpecial(c: char) { c in "@$!%*?&" }

  /** `[A-Za-z\d@$!%*?&]`. */
  predicate InPasswordClass(c: char) {
    IsLowerAscii(c) || IsUpperAscii(c) || IsDigit(c) || IsSpecial(c)
  }

  /** At least eight characters, all from the class, with a lower-case
      letter, an upper-case letter, a digit and a special character. */
  predicate PasswordOk(p: string) {
    && |p| >= 8
    && (forall i :: 0 <= i < |p| ==> InPasswordClass(p[i]))
    && (exists i :: 0 <= i < |p| && IsLowerAscii(p[i]))
    && (exists i :: 0 <= i < |p| && IsUpperAscii(p[i]))
    && (exists i :: 0 <= i < |p| && IsDigit(p[i]))
    && (exists i :: 0 <= i < |p| && IsSpecial(p[i]))
  }

  /** What `.` refuses to match. */
  predicate IsLineTerminator(c: char) {
    c == '\n' || c == '\r' || c == '\U{2028}' || c == '\U{2029}'
  }

  /** `(?=.*[C])` at the start: a character of class C reached over
      characters that are not line terminators. */
  predicate LookaheadFinds(p: string, cls: char -> bool) {
    exists i :: 0 <= i < |p| && cls(p[i]) && forall j :: 0 <= j < i ==> !IsLineTerminator(p[j])
  }

  /** `/^(?=.*[a-z])(?=.*[A-Z])(?=.*\d)(?=.*[@$!%*?&])[A-Za-z\d@$!%*?&]{8,}$/`,
      read the way the regular expression engine reads it. */
  predicate PasswordRegex(p: string) {
    && LookaheadFinds(p, IsLowerAscii)
    && LookaheadFinds(p, IsUpperAscii)
    && LookaheadFinds(p, IsDigit)
    && LookaheadFinds(p, IsSpecial)
    && |p| >= 8
    && forall i :: 0 <= i < |p| ==> InPasswordClass(p[i])
  }

  /** Once every character is in the class no line terminator can stop a
      lookahead, so the regular expression is exactly the rule. */
  lemma PasswordRegexIsRule(p: string)
    ensures PasswordRegex(p) <==> PasswordOk(p)
  {
    if PasswordOk(p) {
      LookaheadOverClass(p, IsLowerAscii);
      LookaheadOverClass(p, IsUpperAscii);
      LookaheadOverClass(p, IsDigit);
      LookaheadOverClass(p, IsSpecial);
    }
    if PasswordRegex(p) {
      LookaheadGives(p, IsLowerAscii);
      LookaheadGives(p, IsUpperAscii);
      LookaheadGives(p, IsDigit);
      LookaheadGives(p, IsSpecial);
    }
  }

  lemma LookaheadOverClass(p: string, cls: char -> bool)
    requires forall i :: 0 <= i < |p| ==> InPasswordClass(p[i])
    requires exists i :: 0 <= i < |p| && cls(p[i])
    ensures LookaheadFinds(p, cls)
  {
    var i :| 0 <= i < |p| && cls(p[i]);
    assert forall j :: 0 <= j < i ==> InPasswordClass(p[j]) && !IsLineTerminator(p[j]);
  }

  lemma LookaheadGives(p: string, cls: char -> bool)
    requires LookaheadFinds(p, cls)
    ensures exists i :: 0 <= i < |p| && cls(p[i])
  {
    var i :| 0 <= i < |p| && cls(p[i]) && forall j :: 0 <= j < i ==> !IsLineTerminator(p[j]);
  }

  const PasswordRuleMessage := "Password must be at least 8 characters and include uppercase, lowercase, number, and special character."
  const FallbackError := "Something went wrong"
  const ResendFailed := "Failed to resend OTP"
  const CodeLength := 6
  const CountdownStart := 60

  // ---- The one-time code ----

  /** `/^\d?$/`: empty, or one digit. */
  predicate IsCodeBox(v: string) {
    v == "" || (|v| == 1 && IsDigit(v[0]))
  }

  /** `otp.join("")`. */
  function Join(parts: seq<string>): string {
    if parts == [] then "" else parts[0] + Join(parts[1..])
  }

  function FilledCount(parts: seq<string>): nat {
    if parts == [] then 0 else (if parts[0] != "" then 1 else 0) + FilledCount(parts[1..])
  }

  predicate AllFilled(parts: seq<string>) {
    forall i :: 0 <= i < |parts| ==> parts[i] != ""
  }

  /** Joined boxes are as long as the number of filled boxes, and hold only digits. */
  lemma {:induction false} JoinOfBoxes(parts: seq<string>)
    requires forall i :: 0 <= i < |parts| ==> IsCodeBox(parts[i])
    ensures |Join(parts)| == FilledCount(parts)
    ensures forall k :: 0 <= k < |Join(parts)| ==> IsDigit(Join(parts)[k])
  {
    if parts != [] {
      JoinOfBoxes(parts[1..]);
      var j := Join(parts);
      var rest := Join(parts[1..]);
      assert j == parts[0] + rest;
      forall k | 0 <= k < |j| ensures IsDigit(j[k]) {
        if k >= |parts[0]| {
          assert j[k] == rest[k - |parts[0]|];
        }
      }
    }
  }

  lemma {:induction false} FilledCountAll(parts: seq<string>)
    requires AllFilled(parts)
    ensures FilledCount(parts) == |parts|
  {
    if parts != [] {
      FilledCountAll(parts[1..]);
    }
  }

  /** Filling the one empty box of an otherwise full set. */
  lemma {:induction false} FilledCountOneGap(parts: seq<string>, gap: nat)
    requires gap < |parts| && parts[gap] == ""
    requires forall i :: 0 <= i < |parts| && i != gap ==> parts[i] != ""
    ensures FilledCount(parts) == |parts| - 1
  {
    if gap == 0 {
      FilledCountAll(parts[1..]);
    } else {
      FilledCountOneGap(parts[1..], gap - 1);
    }
  }

  // ---- The page ----

  datatype Request =
    | RequestCode(name: string, username: string, email: string, password: string)
    | VerifyCode(name: string, username: string, email: string, password: string, code: string)

  /** What the server answers; `message` is `error.response.data.message`. */
  datatype ApiReply = ApiOk | ApiFailed(message: Option<string>)

  class RegisterForm {
    var name: string
    var username: string
    var email: string
    var password: string
    var err: Option<string>
    var loading: bool
    var step: nat
    var otp: seq<string>
    var timer: int
    var resending: bool
    /** The code box that has the keyboard focus. */
    var focus: nat
    /** The requests posted so far, oldest first. */
    var sent: seq<Request>
    var loggedIn: bool

    ghost predicate Valid()
      reads this
    {
      && (step == 1 || step == 2)
      && |otp| == CodeLength
      && (forall i :: 0 <= i < |otp| ==> IsCodeBox(otp[i]))
      && 0 <= timer <= CountdownStart
      && focus < CodeLength
    }

    constructor ()
      ensures Valid()
      ensures name == username == email == password == ""
      ensures err.None? && !loading && step == 1 && otp == ["", "", "", "", "", ""]
      ensures timer == CountdownStart && !resending && focus == 0 && sent == [] && !loggedIn
    {
      name, username, email, password := "", "", "", "";
      err, loading, step := None, false, 1;
      otp := ["", "", "", "", "", ""];
      timer, resending, focus := CountdownStart, false, 0;
      sent, loggedIn := [], false;
    }

    /** The form fields as the user types them. */
    method Edit(name': string, username': string, email': string, password': string)
      modifies this
      ensures name == name' && username == username' && email == email' && password == password'
      ensures err == old(err) && loading == old(loading) && step == old(step) && otp == old(otp)
      ensures timer == old(timer) && resending == old(resending) && focus == old(focus)
      ensures sent == old(sent) && loggedIn == old(loggedIn)
      ensures old(Valid()) ==> Valid()
    {
      name, username, email, password := name', username', email', password';
    }

    /** `submit` as run by the closure of a render whose code boxes held
        `otpSeen`. The error is cleared first. In step 1 a password that
        breaks the rule sets the rule's message and posts nothing. Otherwise
        step 1 asks for a code and moves to step 2 on success, and step 2
        posts the joined code and logs in on success. A failure shows the
        server's message, or a fallback when there is none. */
    method SubmitSeeing(otpSeen: seq<string>, reply: ApiReply)
      modifies this
      ensures name == old(name) && username == old(username) && email == old(email) && password == old(password)
      ensures otp == old(otp) && timer == old(timer) && resending == old(resending) && focus == old(focus)
      ensures !loading
      ensures old(step) == 1 && !PasswordOk(password) ==>
        err == Some(PasswordRuleMessage) && step == 1 && sent == old(sent) && loggedIn == old(loggedIn)
      ensures !(old(step) == 1 && !PasswordOk(password)) ==>
        && sent == old(sent) + [if old(step) == 1 then RequestCode(name, username, email, password)
                                else VerifyCode(name, username, email, password, Join(otpSeen))]
        && (reply.ApiOk? ==>
              err.None? && step == (if old(step) == 1 then 2 else old(step))
              && loggedIn == (old(loggedIn) || old(step) != 1))
        && (reply.ApiFailed? ==>
              err == Some(if Truthy(reply.message) then reply.message.value else FallbackError)
              && step == old(step) && loggedIn == old(loggedIn))
      ensures old(Valid()) ==> Valid()
    {
      err := None;
      loading := true;
      if step == 1 && !PasswordOk(password) {
        err := Some(PasswordRuleMessage);
        loading := false;
        return;
      }
      if step == 1 {
        sent := sent + [RequestCode(name, username, email, password)];
        if reply.ApiOk? {
          step := 2;
        }
      } else {
        sent := sent + [VerifyCode(name, username, email, password, Join(otpSeen))];
        if reply.ApiOk? {
          loggedIn := true;
        }
      }
      if reply.ApiFailed? {
        err := Some(if Truthy(reply.message) then reply.message.value else FallbackError);
      }
      loading := false;
    }

    /** The form's own submit button: the closure sees the current boxes. */
    method Submit(reply: ApiReply)
      modifies this
      ensures name == old(name) && username == old(username) && email == old(email) && password == old(password)
      ensures otp == old(otp) && timer == old(timer) && resending == old(resending) && focus == old(focus)
      ensures !loading
      ensures old(step) == 1 && !PasswordOk(password) ==>
        err == Some(PasswordRuleMessage) && step == 1 && sent == old(sent) && loggedIn == old(loggedIn)
      ensures !(old(step) == 1 && !PasswordOk(password)) ==>
        && sent == old(sent) + [if old(step) == 1 then RequestCode(name, username, email, password)
                                else VerifyCode(name, username, email, password, Join(otp))]
        && (reply.ApiOk? ==>
              err.None? && step == (if old(step) == 1 then 2 else old(step))
              && loggedIn == (old(loggedIn) || old(step) != 1))
        && (reply.ApiFailed? ==>
              err == Some(if Truthy(reply.message) then reply.message.value else FallbackError)
              && step == old(step) && loggedIn == old(loggedIn))
      ensures old(Valid()) ==> Valid()
    {
      SubmitSeeing(otp, reply);
    }

    /** `handleOtpChange` as written: a value that is neither empty nor one
        digit is ignored; otherwise only box `index` changes, focus moves on
        after a digit (not past the last box), and when all six boxes are
        filled the form submits. The submit is the closure of the render the
        change happened in, so it posts the boxes as they were BEFORE this
        change. */
    method HandleOtpChange(value: string, index: nat, reply: ApiReply)
      requires Valid() && step == 2 && index < CodeLength
      modifies this
      ensures !IsCodeBox(value) ==>
        otp == old(otp) && focus == old(focus) && sent == old(sent) && err == old(err)
        && step == old(step) && loggedIn == old(loggedIn) && loading == old(loading)
      ensures IsCodeBox(value) ==> otp == old(otp)[index := value]
      ensures IsCodeBox(value) ==> focus == if value != "" && index < CodeLength - 1 then index + 1 else old(focus)
      ensures IsCodeBox(value) && !AllFilled(otp) ==>
        sent == old(sent) && err == old(err) && step == old(step) && loggedIn == old(loggedIn) && loading == old(loading)
      ensures IsCodeBox(value) && AllFilled(otp) ==>
        && sent == old(sent) + [VerifyCode(name, username, email, password, Join(old(otp)))]
        && !loading && step == 2
        && (reply.ApiOk? ==> err.None? && loggedIn)
        && (reply.ApiFailed? ==>
              err == Some(if Truthy(reply.message) then reply.message.value else FallbackError)
              && loggedIn == old(loggedIn))
      ensures name == old(name) && username == old(username) && email == old(email) && password == old(password)
      ensures timer == old(timer) && resending == old(resending)
      ensures Valid()
    {
      if !IsCodeBox(value) {
        return;
      }
      var seen := otp;
      otp := otp[index := value];
      if value != "" && index < CodeLength - 1 {
        focus := index + 1;
      }
      if forall i :: 0 <= i < |otp| ==> otp[i] != "" {
        SubmitSeeing(seen, reply);
      }
    }

    /** The same handler with the submit handed the updated boxes, which is
        what the automatic submit is for. */
    method HandleOtpChangeFixed(value: string, index: nat, reply: ApiReply)
      requires Valid() && step == 2 && index < CodeLength
      modifies this
      ensures !IsCodeBox(value) ==>
        otp == old(otp) && focus == old(focus) && sent == old(sent) && err == old(err)
        && step == old(step) && loggedIn == old(loggedIn) && loading == old(loading)
      ensures IsCodeBox(value) ==> otp == old(otp)[index := value]
      ensures IsCodeBox(value) ==> focus == if value != "" && index < CodeLength - 1 then index + 1 else old(focus)
      ensures IsCodeBox(value) && !AllFilled(otp) ==>
        sent == old(sent) && err == old(err) && step == old(step) && loggedIn == old(loggedIn) && loading == old(loading)
      ensures IsCodeBox(value) && AllFilled(otp) ==>
        && sent == old(sent) + [VerifyCode(name, username, email, password, Join(otp))]
        && !loading && step == 2
        && (reply.ApiOk? ==> err.None? && loggedIn)
        && (reply.ApiFailed? ==>
              err == Some(if Truthy(reply.message) then reply.message.value else FallbackError)
              && loggedIn == old(loggedIn))
      ensures name == old(name) && username == old(username) && email == old(email) && password == old(password)
      ensures timer == old(timer) && resending == old(resending)
      ensures Valid()
    {
      if !IsCodeBox(value) {
        return;
      }
      otp := otp[index := value];
      if value != "" && index < CodeLength - 1 {
        focus := index + 1;
      }
      if forall i :: 0 <= i < |otp| ==> otp[i] != "" {
        SubmitSeeing(otp, reply);
      }
    }

    /** `handleOtpKeyDown`: Backspace in an empty box moves focus back one,
        except from the first box; nothing else changes. */
    method HandleOtpKeyDown(key: string, index: nat)
      requires Valid() && index < CodeLength
      modifies this`focus
      ensures focus == if key == "Backspace" && otp[index] == "" && index > 0 then index - 1 else old(focus)
      ensures Valid()
    {
      if key == "Backspace" && otp[index] == "" && index > 0 {
        focus := index - 1;
      }
    }

    /** One second of the countdown effect: it runs only in step 2 and stops at 0. */
    method Tick()
      modifies this`timer
      ensures timer == Countdown(step, old(timer), 1)
      ensures old(Valid()) ==> Valid()
    {
      if step == 2 && timer != 0 {
        timer := timer - 1;
      }
    }

    /** `resendOtp`: asks for a new code; success restarts the countdown,
        failure shows a message. The page offers it once the countdown is
        over. */
    method ResendOtp(reply: ApiReply)
      modifies this
      ensures sent == old(sent) + [RequestCode(name, username, email, password)]
      ensures reply.ApiOk? ==> timer == CountdownStart && err == old(err)
      ensures reply.ApiFailed? ==> timer == old(timer) && err == Some(ResendFailed)
      ensures !resending
      ensures name == old(name) && username == old(username) && email == old(email) && password == old(password)
      ensures otp == old(otp) && step == old(step) && focus == old(focus) && loading == old(loading) && loggedIn == old(loggedIn)
      ensures old(Valid()) ==> Valid()
    {
      resending := true;
      sent := sent + [RequestCode(name, username, email, password)];
      if reply.ApiOk? {
        timer := CountdownStart;
      } else {
        err := Some(ResendFailed);
      }
      resending := false;
    }
  }

  /** The timer after `n` seconds in the given step. */
  function Countdown(step: nat, timer: int, n: nat): int
    decreases n
  {
    if n == 0 || step != 2 || timer == 0 then timer else Countdown(step, timer - 1, n - 1)
  }

  /** In step 2 the countdown falls by one a second down to 0 and stays
      there; in step 1 it does not move. */
  lemma {:induction false} CountdownValue(step: nat, timer: int, n: nat)
    requires timer >= 0
    ensures step == 2 ==> Countdown(step, timer, n) == if timer >= n then timer - n else 0
    ensures step != 2 ==> Countdown(step, timer, n) == timer
  {
    if n > 0 && step == 2 && timer != 0 {
      CountdownValue(step, timer - 1, n - 1);
    }
  }

  /** With the last empty box filled, the handler as written posts the five
      digits typed before, not six: the code is one digit short. */
  lemma AutoSubmitCodeShort(before: seq<string>, index: nat, digit: string)
    requires |before| == CodeLength && index < CodeLength
    requires forall i :: 0 <= i < |before| ==> IsCodeBox(before[i])
    requires before[index] == "" && forall i :: 0 <= i < |before| && i != index ==> before[i] != ""
    requires |digit| == 1 && IsDigit(digit[0])
    ensures AllFilled(before[index := digit])
    ensures |Join(before)| == CodeLength - 1
  {
    JoinOfBoxes(before);
    FilledCountOneGap(before, index);
  }

  /** With the boxes the handler has just filled, the posted code is the six
      digits typed. */
  lemma AutoSubmitCodeComplete(after: seq<string>)
    requires |after| == CodeLength && AllFilled(after)
    requires forall i :: 0 <= i < |after| ==> IsCodeBox(after[i])
    ensures |Join(after)| == CodeLength
    ensures forall k :: 0 <= k < CodeLength ==> IsDigit(Join(after)[k])
  {
    JoinOfBoxes(after);
    FilledCountAll(after);
  }

  /** Five digits already typed in step 2, the sixth typed into the last
      box: the handler as written posts "12345". */
  method TypeLastDigitAsWritten() returns (posted: seq<Request>)
    ensures posted == [VerifyCode("", "", "", "", "12345")]
  {
    var f := new RegisterForm();
    f.step := 2;
    f.otp := ["1", "2", "3", "4", "5", ""];
    f.HandleOtpChange("6", 5, ApiOk);
    assert Join(["1", "2", "3", "4", "5", ""]) == "12345";
    posted := f.sent;
  }

  /** The same with the corrected handler posts "123456". */
  method TypeLastDigitFixed() returns (posted: seq<Request>)
    ensures posted == [VerifyCode("", "", "", "", "123456")]
  {
    var f := new RegisterForm();
    f.step := 2;
    f.otp := ["1", "2", "3", "4", "5", ""];
    f.HandleOtpChangeFixed("6", 5, ApiOk);
    assert f.otp == ["1", "2", "3", "4", "5", "6"];
    assert Join(["1", "2", "3", "4", "5", "6"]) == "123456";
    posted := f.sent;
  }
}
