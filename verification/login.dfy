/** The input guards of `send_verification_code` and `login`. The chat
    service's replies (connecting, the authorisation check, the code request,
    signing in) are abstract values supplied with the input; what each path
    writes to the log is part of the result. */
module Login {

  /** Python `str.isspace` for one character: the ASCII whitespace and
      separators 0x09-0x0D and 0x1C-0x20, and the Unicode spaces and line
      and paragraph separators. */
  predicate IsSpace(c: char)
  {
    var n := c as int;
    || (0x09 <= n <= 0x0D) || (0x1C <= n <= 0x20) || n == 0x85 || n == 0xA0 || n == 0x1680
    || (0x2000 <= n <= 0x200A) || n == 0x2028 || n == 0x2029 || n == 0x202F || n == 0x205F || n == 0x3000
  }

  predicate IsBlank(s: string)
  {
    forall i :: 0 <= i < |s| ==> IsSpace(s[i])
  }

  /** Number of leading whitespace characters. */
  function LeadingSpace(s: string): (k: nat)
    ensures k <= |s|
    ensures forall i :: 0 <= i < k ==> IsSpace(s[i])
    ensures k < |s| ==> !IsSpace(s[k])
    decreases |s|
  {
    if s == [] || !IsSpace(s[0]) then 0 else 1 + LeadingSpace(s[1..])
  }

  /** Length of `s` without its trailing whitespace. */
  function TrimmedEnd(s: string): (k: nat)
    ensures k <= |s|
    ensures forall i :: k <= i < |s| ==> IsSpace(s[i])
    ensures k > 0 ==> !IsSpace(s[k - 1])
    decreases |s|
  {
    if s == [] || !IsSpace(s[|s| - 1]) then |s| else TrimmedEnd(s[..|s| - 1])
  }

  /** Python `str.strip()` with no argument: the slice of `s` between its
      leading and its trailing whitespace. */
  function Strip(s: string): (r: string)
    ensures |r| <= |s|
    ensures r != [] ==> !IsSpace(r[0]) && !IsSpace(r[|r| - 1])
    ensures exists lo, hi :: 0 <= lo <= hi <= |s| && r == s[lo..hi] && IsBlank(s[..lo]) && IsBlank(s[hi..])
  {
    var lo := LeadingSpace(s);
    var hi := TrimmedEnd(s);
    if lo >= hi then
      assert s[..0] == [] && IsBlank(s[0..]);
      []
    else
      assert IsBlank(s[..lo]) && IsBlank(s[hi..]);
      s[lo..hi]
  }

  /** The verification-code guard: `code.strip()` is empty exactly when the
      code consists of whitespace only (or is empty). */
  lemma StripEmptyIffBlank(s: string)
    ensures Strip(s) == [] <==> IsBlank(s)
  {
    var lo := LeadingSpace(s);
    var hi := TrimmedEnd(s);
    if lo < hi {
      assert !IsSpace(s[lo]);
    }
  }

  /** What happens once the phone number has passed the guard: the
      TelegramClient constructor may raise (`ClientFailed`), or a client
      exists and the service answers. `CodeError` covers a raise from
      `connect`, `is_user_authorized` or `send_code_request`. */
  datatype CodeReply =
    | ClientFailed(reason: string)
    | AlreadyAuthorized
    | CodeSent
    | CodeError(reason: string)

  /** `clientCreated` says whether a TelegramClient was constructed; `log` is
      the line handed to `log_message`. */
  datatype SendCodeResult = SendCodeResult(clientCreated: bool, log: string)

  const InvalidPhoneMessage := "Please enter a valid phone number starting with +."
  const SendCodeErrorPrefix := "Error sending verification code: "

  /** Whether `send_verification_code` lets the phone number through. */
  predicate ValidPhone(phone: string)
  {
    |phone| > 0 && phone[0] == '+'
  }

  /** `send_verification_code`: a phone number that is empty or does not
      start with '+' is refused before any client is created; otherwise the
      constructor and the service decide the log line, and any exception
      inside the `try` is logged with the error prefix. */
  function SendVerificationCode(phone: string, reply: CodeReply): (r: SendCodeResult)
    ensures r.clientCreated ==> ValidPhone(phone)
    ensures !ValidPhone(phone) ==> !r.clientCreated && r.log == InvalidPhoneMessage
    ensures ValidPhone(phone) ==> (r.clientCreated <==> !reply.ClientFailed?)
    ensures ValidPhone(phone) && (reply.ClientFailed? || reply.CodeError?) ==>
              r.log == SendCodeErrorPrefix + reply.reason
    ensures ValidPhone(phone) && reply.AlreadyAuthorized? ==> r.log == "Already authorized!"
    ensures ValidPhone(phone) && reply.CodeSent? ==> r.log == "Verification code sent."
  {
    if |phone| == 0 || phone[0] != '+' then SendCodeResult(false, InvalidPhoneMessage)
    else match reply
      case ClientFailed(e) => SendCodeResult(false, SendCodeErrorPrefix + e)
      case AlreadyAuthorized => SendCodeResult(true, "Already authorized!")
      case CodeSent => SendCodeResult(true, "Verification code sent.")
      case CodeError(e) => SendCodeResult(true, SendCodeErrorPrefix + e)
  }

  /** A refused phone number never reaches the service: the outcome is the
      same whatever the service would have replied. */
  lemma InvalidPhoneIgnoresService(phone: string, r1: CodeReply, r2: CodeReply)
    requires !ValidPhone(phone)
    ensures SendVerificationCode(phone, r1) == SendVerificationCode(phone, r2)
    ensures !SendVerificationCode(phone, r1).clientCreated
  {
  }

  /** What `sign_in` does (including failing because no client exists). */
  datatype SignInReply = SignedIn | SignInError(reason: string)

  /** `signInAttempted` says whether `sign_in` was called; `refreshGroups`
      whether the group list is reloaded afterwards. */
  datatype LoginResult = LoginResult(signInAttempted: bool, refreshGroups: bool, log: string)

  const InvalidCodeMessage := "Please enter a valid verification code."

  /** `login`: a code that is blank after `strip()` is refused before
      signing in; otherwise the sign-in reply decides the outcome, and a
      successful sign-in goes on to refresh the groups. */
  function Login(phone: string, code: string, reply: SignInReply): (r: LoginResult)
    ensures r.signInAttempted <==> !IsBlank(code)
    ensures !r.signInAttempted ==> r.log == InvalidCodeMessage && !r.refreshGroups
    ensures r.refreshGroups <==> r.signInAttempted && reply.SignedIn?
  {
    StripEmptyIffBlank(code);
    if Strip(code) == [] then LoginResult(false, false, InvalidCodeMessage)
    else match reply
      case SignedIn => LoginResult(true, true, "Login successful.")
      case SignInError(e) => LoginResult(true, false, "Error during login: " + e)
  }
}
