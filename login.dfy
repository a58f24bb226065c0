/** The login screen: sign in and turn a rejection into a message. */
module LoginScreen {
  import opened Common
  import opened Session

  const UserNotFound: string := "No user found with this email address."
  const WrongPassword: string := "Incorrect password."
  const InvalidEmail: string := "Invalid email address."
  // Messages longer than forty characters are written as two literals, whose concatenation
  // is the message.
  const InvalidCredential: string := "Invalid credentials. " + "Please check your email and password."
  const FailedPrefix: string := "Login failed: "

  /** The cases the screen tells apart. */
  datatype Cause = NoSuchUser | BadPassword | BadEmail | BadCredential | OtherProvider(message: string) | Unexpected

  /** The case a rejection falls into, read off its code. */
  function CauseOf(e: AuthError): (c: Cause)
    ensures c.OtherProvider? ==> e.ProviderError? && c.message == e.message
    ensures c == Unexpected <==> e.OtherError?
  {
    match e
    case OtherError => Unexpected
    case ProviderError(code, message) =>
      if code == "auth/user-not-found" then NoSuchUser
      else if code == "auth/wrong-password" then BadPassword
      else if code == "auth/invalid-email" then BadEmail
      else if code == "auth/invalid-credential" then BadCredential
      else OtherProvider(message)
  }

  /** The message the `catch` block shows for a rejection. */
  function ErrorMessage(e: AuthError): (m: string)
    ensures m != ""
  {
    match e
    case OtherError => UnexpectedError
    case ProviderError(code, message) =>
      match code
      case "auth/user-not-found" => UserNotFound
      case "auth/wrong-password" => WrongPassword
      case "auth/invalid-email" => InvalidEmail
      case "auth/invalid-credential" => InvalidCredential
      case _ => FailedPrefix + message
  }

  /** Each known code has its own fixed message, other provider codes report the provider's
      message after a prefix, and anything else gets the generic message. */
  lemma MessageByCause(e: AuthError)
    ensures CauseOf(e) == NoSuchUser ==> ErrorMessage(e) == UserNotFound
    ensures CauseOf(e) == BadPassword ==> ErrorMessage(e) == WrongPassword
    ensures CauseOf(e) == BadEmail ==> ErrorMessage(e) == InvalidEmail
    ensures CauseOf(e) == BadCredential ==> ErrorMessage(e) == InvalidCredential
    ensures CauseOf(e).OtherProvider? ==> ErrorMessage(e) == FailedPrefix + e.message
    ensures CauseOf(e) == Unexpected ==> ErrorMessage(e) == UnexpectedError
  {
  }

  /** The message tells the cases apart: two rejections show the same message exactly when
      they fall into the same case. */
  lemma {:induction false} MessageIdentifiesCause(e1: AuthError, e2: AuthError)
    ensures ErrorMessage(e1) == ErrorMessage(e2) <==> CauseOf(e1) == CauseOf(e2)
  {
    var m1, m2 := ErrorMessage(e1), ErrorMessage(e2);
    if m1 == m2 {
      MessageByCause(e1);
      MessageByCause(e2);
      // The messages start with 'N', 'I', 'I', 'I', 'L' and 'A'; the two starting
      // "Invalid " differ at index 8.
      PrefixedIffOtherProvider(e1);
      PrefixedIffOtherProvider(e2);
      assert m1[0] == m2[0];
      if CauseOf(e1) == BadEmail || CauseOf(e1) == BadCredential {
        assert m1[8] == m2[8];
      }
      if CauseOf(e1).OtherProvider? {
        assert e1.message == m1[|FailedPrefix|..] == m2[|FailedPrefix|..] == e2.message;
      }
    }
  }

  /** Only the messages of other provider codes start with 'L'. */
  lemma PrefixedIffOtherProvider(e: AuthError)
    ensures ErrorMessage(e)[0] == 'L' <==> CauseOf(e).OtherProvider?
  {
    MessageByCause(e);
    var m := ErrorMessage(e);
    match CauseOf(e)
    case NoSuchUser => assert m[0] == 'N';
    case BadPassword => assert m[0] == 'I';
    case BadEmail => assert m[0] == 'I';
    case BadCredential => assert m[0] == 'I';
    case OtherProvider(_) => assert m[0] == FailedPrefix[0] == 'L';
    case Unexpected => assert m[0] == 'A';
  }

  /** `handleSubmit`: clear the error, call `login(email, password)`, navigate home on
      success and show the message of the rejection otherwise. */
  function Submit(email: string, password: string, login: (string, string) -> AuthOutcome): (r: Submission)
    ensures login(email, password).SignedIn? ==> r == Submission("", Some(HomeRoute))
    ensures login(email, password).Rejected? ==>
              r.navigateTo.None? && r.error == ErrorMessage(login(email, password).reason) && r.error != ""
  {
    match login(email, password)
    case SignedIn => Submission("", Some(HomeRoute))
    case Rejected(reason) => Submission(ErrorMessage(reason), None)
  }

  /** After a submit, an error is shown exactly when no navigation happens. */
  lemma ErrorIffStays(email: string, password: string, login: (string, string) -> AuthOutcome)
    ensures Submit(email, password, login).error == "" <==> Submit(email, password, login).navigateTo.Some?
  {
  }
}
