/** The sign-in page (app/page.tsx): the form check, the call to the credentials provider and the
    messages shown for its answer. */
module LoginPage {
  import opened Wrappers
  import opened Text

  const EmailRequired: string := "L'email est requis"
  const PasswordRequired: string := "Le mot de passe est requis"
  const SubmitFailed: string := "Erreur lors de la connexion"

  const WrongEmail: string := "Adresse E-mail incorrect"
  const WrongPassword: string := "Mot de passe incorrect"
  const NotAuthorised: string := "Vous n'êtes pas autorisé à accéder à cette application"
  const SignedIn: string := "Connexion réussie !"
  const UnknownError: string := "Une erreur est survenue"

  /** What `signIn("credentials", ...)` comes to: an ok response, a response that is not ok with
      an optional `error` text (a missing response included), or a thrown error with an optional
      message. */
  datatype SignInReply = SignInOk | SignInFailed(error: Option<string>) | SignInThrown(message: Option<string>)

  /** Lines 39-65: one toast per known fragment the error text contains, in this order; the
      three tests are independent. */
  function FailureToasts(error: Option<string>): (r: seq<string>)
    ensures forall t :: t in r ==> t in [WrongEmail, WrongPassword, NotAuthorised]
    ensures WrongEmail in r <==> error.Some? && Contains(error.value, WrongEmail)
    ensures WrongPassword in r <==> error.Some? && Contains(error.value, WrongPassword)
    ensures NotAuthorised in r <==> error.Some? && Contains(error.value, NotAuthorised)
    ensures error.None? ==> r == []
  {
    var e := error.GetOr("");
    if error.None? then []
    else
      (if Contains(e, WrongEmail) then [WrongEmail] else []) +
      (if Contains(e, WrongPassword) then [WrongPassword] else []) +
      (if Contains(e, NotAuthorised) then [NotAuthorised] else [])
  }

  /** An error text naming both a wrong email and a wrong password shows both toasts, email
      first. */
  lemma BothToastsFire(error: string)
    requires Contains(error, WrongEmail) && Contains(error, WrongPassword) && !Contains(error, NotAuthorised)
    ensures FailureToasts(Some(error)) == [WrongEmail, WrongPassword]
  {
  }

  /** An error text naming none of them shows no toast at all. */
  lemma UnrecognisedErrorIsSilent(error: string)
    requires !Contains(error, WrongEmail) && !Contains(error, WrongPassword) && !Contains(error, NotAuthorised)
    ensures FailureToasts(Some(error)) == []
  {
  }

  /** The toast of a thrown error: its message, when it is an `Error`. */
  function ThrownToast(message: Option<string>): string {
    message.GetOr(UnknownError)
  }

  /** The form's state, with the calls the page makes recorded as traces. */
  class LoginForm {
    var email: string
    var password: string
    var errors: map<string, string>
    /** The credentials passed to `signIn`, one pair per call. */
    var signInCalls: seq<(string, string)>
    var toasts: seq<string>
    /** Where the page navigates after a successful sign-in. */
    var redirectTo: Option<string>

    constructor()
      ensures email == "" && password == "" && errors == map[]
      ensures signInCalls == [] && toasts == [] && redirectTo == None
    {
      email := "";
      password := "";
      errors := map[];
      signInCalls := [];
      toasts := [];
      redirectTo := None;
    }

    /** Lines 19-25: collect one message per empty field; the form is valid when none was. */
    method ValidateForm() returns (ok: bool)
      modifies this
      ensures ok <==> email != "" && password != ""
      ensures "email" in errors <==> email == ""
      ensures "password" in errors <==> password == ""
      ensures "email" in errors ==> errors["email"] == EmailRequired
      ensures "password" in errors ==> errors["password"] == PasswordRequired
      ensures errors.Keys <= {"email", "password"}
      ensures ok <==> errors == map[]
      ensures email == old(email) && password == old(password)
      ensures signInCalls == old(signInCalls) && toasts == old(toasts) && redirectTo == old(redirectTo)
    {
      var newErrors: map<string, string> := map[];
      if email == "" {
        newErrors := newErrors["email" := EmailRequired];
      }
      if password == "" {
        newErrors := newErrors["password" := PasswordRequired];
      }
      errors := newErrors;
      ok := |newErrors| == 0;
      if !ok {
        assert email == "" ==> "email" in newErrors;
        assert newErrors != map[];
      }
    }

    /** Lines 27-82: `reply` is what the provider answers when it is called. */
    method HandleSubmit(reply: SignInReply)
      modifies this
      ensures email == old(email) && password == old(password)
      ensures (old(email) == "" || old(password) == "") ==>
        signInCalls == old(signInCalls) && toasts == old(toasts) && redirectTo == old(redirectTo) &&
        errors.Keys == (if old(email) == "" then {"email"} else {}) + (if old(password) == "" then {"password"} else {})
      ensures old(email) != "" && old(password) != "" ==>
        signInCalls == old(signInCalls) + [(email, password)] &&
        match reply
        case SignInOk =>
          errors == map[] && toasts == old(toasts) + [SignedIn] && redirectTo == Some("/dashboard")
        case SignInFailed(e) =>
          errors == map[] && toasts == old(toasts) + FailureToasts(e) && redirectTo == old(redirectTo)
        case SignInThrown(m) =>
          errors == map["submit" := SubmitFailed] && toasts == old(toasts) + [ThrownToast(m)] &&
          redirectTo == old(redirectTo)
    {
      var valid := ValidateForm();
      if !valid {
        assert errors.Keys == (if email == "" then {"email"} else {}) + (if password == "" then {"password"} else {});
        return;
      }
      errors := map[];
      signInCalls := signInCalls + [(email, password)];
      match reply
      case SignInOk =>
        toasts := toasts + [SignedIn];
        redirectTo := Some("/dashboard");
      case SignInFailed(e) =>
        toasts := toasts + FailureToasts(e);
      case SignInThrown(m) =>
        errors := map["submit" := SubmitFailed];
        toasts := toasts + [ThrownToast(m)];
    }
  }
}
