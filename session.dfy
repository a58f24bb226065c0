/** The signed-in user as the screens see it through the auth context. */
module Session {
  import opened Common
  import opened Strings

  /** `currentUser`: its uid and its (possibly missing) email address. */
  datatype User = User(uid: string, email: Option<string>)

  /** `currentUser.email?.split('@')[1] || ''`: the user's organisation domain. */
  function EmailDomain(email: Option<string>): (d: string)
    ensures '@' !in d
  {
    match email
    case None => ""
    case Some(e) => SecondPart(e, '@')
  }

  /** The domain is what `split('@')[1] || ''` gives. */
  lemma EmailDomainIsSplit(e: string)
    ensures var parts := Split(e, '@');
            EmailDomain(Some(e)) == if |parts| >= 2 then parts[1] else ""
  {
    SecondPartIsSplit(e, '@');
  }

  function UserDomain(user: User): string
  {
    EmailDomain(user.email)
  }

  /** An address without '@' has no domain. */
  lemma NoAtNoDomain(e: string)
    requires '@' !in e
    ensures EmailDomain(Some(e)) == ""
  {
  }

  /** The domain is the text after the first '@', up to the next '@' or the end of the address. */
  lemma DomainAfterFirstAt(local: string, d: string, rest: string)
    requires '@' !in local && '@' !in d
    requires rest == [] || rest[0] == '@'
    ensures EmailDomain(Some(local + "@" + d + rest)) == d
  {
    var t := d + rest;
    var e := local + "@" + d + rest;
    assert e == local + (['@'] + t);
    IndexOfAfter(local, ['@'] + t, '@');
    var i := IndexOf(e, '@');
    assert i == |local| && e[i + 1..] == t;
    SplitSecond(e, '@');
    assert Split(e, '@')[1] == Split(t, '@')[0];
    IndexOfAfter(d, rest, '@');
    assert Split(t, '@')[0] == t[..|d|] == d;
  }

  /** What a rejected `login` or `signup` promise carries: a provider error with its code and
      message, or anything else. */
  datatype AuthError = ProviderError(code: string, message: string) | OtherError

  /** How an authentication call settles. */
  datatype AuthOutcome = SignedIn | Rejected(reason: AuthError)

  /** The visible result of a submit on an authentication screen: the error shown and the
      route navigated to, if any. */
  datatype Submission = Submission(error: string, navigateTo: Option<string>)

  const HomeRoute: string := "/"
  const UnexpectedError: string := "An unexpected error occurred. " + "Please try again."
}
