/** The two field validators of accounts/forms.py. A field that failed its
    own validation is missing from `cleaned_data`; `.get` then gives `None`,
    which is why the passwords are optional here. */
module AccountForms {
  import opened Common

  const PasswordMismatchMessage: string := "passwords dont match"
  const EmailTakenMessage: string := "This email already exists!"

  /** `CustomUserCreationForm.clean_password2`: an error only when both
      passwords are given and differ; otherwise the confirmation is passed
      through unchanged, `None` included. */
  function CleanPassword2(password1: Option<string>, password2: Option<string>)
    : (r: Result<Option<string>, string>)
    ensures r.Err? <==> !Blank(password1) && !Blank(password2) && password1.value != password2.value
    ensures r.Err? ==> r.error == PasswordMismatchMessage
    ensures r.Ok? ==> r.value == password2
  {
    if password1.Some? && password1.value != "" && password2.Some? && password2.value != ""
       && password1.value != password2.value
    then Err(PasswordMismatchMessage)
    else Ok(password2)
  }

  /** Whether the pair is rejected does not depend on which field is which. */
  lemma PasswordCheckIsSymmetric(a: Option<string>, b: Option<string>)
    ensures CleanPassword2(a, b).Err? <==> CleanPassword2(b, a).Err?
  {
  }

  /** Two equal confirmations are always accepted, and an accepted pair of
      non-empty passwords is equal: the check is exactly equality on them. */
  lemma PasswordCheckIsEquality(p1: string, p2: string)
    requires p1 != "" && p2 != ""
    ensures CleanPassword2(Some(p1), Some(p2)) == (if p1 == p2 then Ok(Some(p2)) else Err(PasswordMismatchMessage))
  {
  }

  /** `UserRegistrationForm.clean_email`: the address is rejected when a
      user with exactly that address is registered, and otherwise returned
      unchanged. */
  function CleanEmail(email: string, registered: set<string>): (r: Result<string, string>)
    ensures r.Err? <==> email in registered
    ensures r.Err? ==> r.error == EmailTakenMessage
    ensures r.Ok? ==> r.value == email
  {
    if email in registered then Err(EmailTakenMessage) else Ok(email)
  }

  /** Once an address has been registered it is rejected from then on,
      whoever else registers; an address accepted now was accepted against
      every smaller set of users. */
  lemma RegisteredEmailStaysTaken(email: string, registered: set<string>, later: set<string>)
    requires CleanEmail(email, registered).Ok?
    requires registered + {email} <= later
    ensures CleanEmail(email, later).Err?
    ensures forall earlier :: earlier <= registered ==> CleanEmail(email, earlier).Ok?
  {
  }
}
