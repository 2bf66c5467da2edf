/** The sign-in identifier of LoginScreen.tsx: a plain username is turned into an address in
    the application's own domain, while a full e-mail address is used as typed. */
module Login {
  /** The domain appended to a username that has no '@'. */
  const LoginDomain: string := "@review.app"

  /** `username.includes('@') ? username : username + '@review.app'`. */
  function LoginIdentifier(username: string): (identifier: string)
    ensures '@' in username ==> identifier == username
    ensures '@' !in username ==> identifier == username + LoginDomain
    ensures '@' in identifier
  {
    if '@' in username then username
    else
      var identifier := username + LoginDomain;
      assert identifier[|username|] == '@';
      identifier
  }

  /** Deriving the identifier of an identifier changes nothing. */
  lemma LoginIdentifierIdempotent(username: string)
    ensures LoginIdentifier(LoginIdentifier(username)) == LoginIdentifier(username)
  {
  }

  /** Typing a username or its full address in the domain signs in as the same account. */
  lemma UsernameAndAddressAgree(username: string)
    requires '@' !in username
    ensures LoginIdentifier(username) == LoginIdentifier(username + LoginDomain)
  {
    assert (username + LoginDomain)[|username|] == '@';
  }
}
