/** The registration screen: check the confirmation, sign up and turn a rejection into a message. */
module Registration {
  import opened Common
  import opened Session

  const PasswordMismatch: string := "Passwords do not match"
  // Messages longer than forty characters are written as two literals, whose concatenation
  // is the message.
  const EmailInUse: string := "An account with " + "this email already exists."
  const InvalidEmail: string := "Invalid email address."
  const WeakPassword: string := "Password is too weak. " + "It should be at least 6 characters long."
  const FailedPrefix: string := "Registration failed: "

  /** The cases the screen tells apart for a rejected sign-up. */
  datatype Cause = EmailTaken | BadEmail | TooWeak | OtherProvider(message: string) | Unexpected

  function CauseOf(e: AuthError): (c: Cause)
    ensures c.OtherProvider? ==> e.ProviderError? && c.message == e.message
    ensures c == Unexpected <==> e.OtherError?
  {
    match e
    case OtherError => Unexpected
    case ProviderError(code, message) =>
      if code == "auth/email-already-in-use" then EmailTaken
      else if code == "auth/invalid-email" then BadEmail
      else if code == "auth/weak-password" then TooWeak
      else OtherProvider(message)
  }

  /** The message the `catch` block shows for a rejection. */
  function ErrorMessage(e: AuthError): (m: string)
    ensures m != ""
  {
    match e
    case OtherError => UnexpectedError
    case ProviderError(code, message) =>
      match code
      case "auth/email-already-in-use" => EmailInUse
      case "auth/invalid-email" => InvalidEmail
      case "auth/weak-password" => WeakPassword
      case _ => FailedPrefix + message
  }

  /** Each known code has its own fixed message, other provider codes report the provider's
      message after a prefix, and anything else gets the generic message. */
  lemma MessageByCause(e: AuthError)
    ensures CauseOf(e) == EmailTaken ==> ErrorMessage(e) == EmailInUse
    ensures CauseOf(e) == BadEmail ==> ErrorMessage(e) == InvalidEmail
    ensures CauseOf(e) == TooWeak ==> ErrorMessage(e) == WeakPassword
    ensures CauseOf(e).OtherProvider? ==> ErrorMessage(e) == FailedPrefix + e.message
    ensures CauseOf(e) == Unexpected ==> ErrorMessage(e) == UnexpectedError
  {
  }

  /** Only the messages of other provider codes start with 'R'. */
  lemma PrefixedIffOtherProvider(e: AuthError)
    ensures ErrorMessage(e)[0] == 'R' <==> CauseOf(e).OtherProvider?
  {
    MessageByCause(e);
    var m := ErrorMessage(e);
    match CauseOf(e)
    case EmailTaken => assert m[0] == 'A';
    case BadEmail => assert m[0] == 'I';
    case TooWeak => assert m[0] == 'P';
    case OtherProvider(_) => assert m[0] == FailedPrefix[0] == 'R';
    case Unexpected => assert m[0] == 'A';
  }

  /** The message tells the cases apart: two rejections show the same message exactly when
      they fall into the same case. */
  lemma {:induction false} MessageIdentifiesCause(e1: AuthError, e2: AuthError)
    ensures ErrorMessage(e1) == ErrorMessage(e2) <==> CauseOf(e1) == CauseOf(e2)
  {
    var m1, m2 := ErrorMessage(e1), ErrorMessage(e2);
    if m1 == m2 {
      MessageByCause(e1);
      MessageByCause(e2);
      // The messages start with 'A', 'I', 'P', 'R' and 'A'; the two starting "An " differ
      // at index 3.
      PrefixedIffOtherProvider(e1);
      PrefixedIffOtherProvider(e2);
      assert m1[0] == m2[0];
      if CauseOf(e1) == EmailTaken || CauseOf(e1) == Unexpected {
        assert m1[3] == m2[3];
      }
      if CauseOf(e1).OtherProvider? {
        assert e1.message == m1[|FailedPrefix|..] == m2[|FailedPrefix|..] == e2.message;
      }
    }
  }

  /** `handleSubmit`: clear the error; when the confirmation differs, show the mismatch
      without calling `signup`; otherwise call `signup(email, password)`, navigate home on
      success and show the message of the rejection otherwise. */
  function Submit(email: string, password: string, confirmPassword: string,
                  signup: (string, string) -> AuthOutcome): (r: Submission)
    ensures password != confirmPassword ==> r == Submission(PasswordMismatch, None)
    ensures password == confirmPassword && signup(email, password).SignedIn? ==>
              r == Submission("", Some(HomeRoute))
    ensures password == confirmPassword && signup(email, password).Rejected? ==>
              r.navigateTo.None? && r.error == ErrorMessage(signup(email, password).reason)
  {
    if password != confirmPassword then Submission(PasswordMismatch, None)
    else
      match signup(email, password)
      case SignedIn => Submission("", Some(HomeRoute))
      case Rejected(reason) => Submission(ErrorMessage(reason), None)
  }

  /** A mismatched confirmation never reaches `signup`: the result is the same whatever
      `signup` would do. */
  lemma MismatchSkipsSignup(email: string, password: string, confirmPassword: string,
                            s1: (string, string) -> AuthOutcome, s2: (string, string) -> AuthOutcome)
    requires password != confirmPassword
    ensures Submit(email, password, confirmPassword, s1) == Submit(email, password, confirmPassword, s2)
  {
  }

  /** The mismatch message is none of the rejection messages, so the user can tell a typo in
      the confirmation from a rejected sign-up. */
  lemma {:induction false} MismatchIsNotARejection(e: AuthError)
    ensures ErrorMessage(e) != PasswordMismatch
  {
    MessageByCause(e);
    PrefixedIffOtherProvider(e);
    var m := ErrorMessage(e);
    // Only the weak-password message starts with 'P' too; it differs at index 8.
    if CauseOf(e) == TooWeak {
      assert m[8] != PasswordMismatch[8];
    } else {
      assert m[0] != PasswordMismatch[0];
    }
  }
}
