/** `POST /api/auth/register` (app/api/auth/register/route.ts): the first phase of sign-up.
    Refuse an email or a phone already on file, in that order, then ask the SMS provider to send
    a one-time code to the submitted phone and report its answer. No user is stored here. */
module Register {
  import opened Wrappers
  import opened Http
  import opened UserModel

  /** What the SMS provider's JSON answer comes to: `success`, or a failure whose `error` may be
      missing; `OtpThrown` stands for a request or a parse that throws. */
  datatype OtpReply = OtpSuccess | OtpFailure(error: Option<string>) | OtpThrown

  /** The fields of the request body this route reads. */
  datatype Body = Body(email: string, phone: string)

  const EmailInUse: string := "Cette adresse email est déjà utilisée"
  const PhoneInUse: string := "Cette numéro de téléphone est déjà utilisée"
  const OtpSent: string := "Code OTP envoyé"
  const OtpInvalid: string := "Code OTP invalide"
  const SignupFailed: string := "Erreur lors de l'inscription"

  /** `data.error || "Code OTP invalide"`: the provider's message unless it is missing or empty. */
  function ProviderError(error: Option<string>): (r: string)
    ensures error.Some? && error.value != "" ==> r == error.value
    ensures error.None? || error == Some("") ==> r == OtpInvalid
    ensures r != ""
  {
    if error.Some? && error.value != "" then error.value else OtpInvalid
  }

  /** The reply, and the phone an OTP was sent to if one was requested. */
  datatype Outcome = Outcome(reply: JsonReply, otpSentTo: Option<string>)

  /** The route: `users` is the collection it reads and `provider(phone)` the provider's answer
      to a send for `phone`. It returns no collection: it never writes one. */
  function Post(users: seq<User>, body: Body, provider: string -> OtpReply): (r: Outcome)
    ensures EmailTaken(users, body.email) ==> r == Outcome(JsonReply(400, "error", EmailInUse), None)
    ensures !EmailTaken(users, body.email) && PhoneTaken(users, body.phone) ==>
      r == Outcome(JsonReply(400, "error", PhoneInUse), None)
    ensures r.otpSentTo.Some? <==> !EmailTaken(users, body.email) && !PhoneTaken(users, body.phone)
    ensures r.otpSentTo.Some? ==> r.otpSentTo.value == body.phone
    ensures r.otpSentTo.Some? ==> match provider(body.phone)
      case OtpSuccess => r.reply == JsonReply(200, "message", OtpSent)
      case OtpFailure(e) => r.reply == JsonReply(500, "errorMessage", ProviderError(e))
      case OtpThrown => r.reply == JsonReply(500, "error", SignupFailed)
  {
    if EmailTaken(users, body.email) then Outcome(JsonReply(400, "error", EmailInUse), None)
    else if PhoneTaken(users, body.phone) then Outcome(JsonReply(400, "error", PhoneInUse), None)
    else
      var reply := match provider(body.phone)
        case OtpSuccess => JsonReply(200, "message", OtpSent)
        case OtpFailure(e) => JsonReply(500, "errorMessage", ProviderError(e))
        case OtpThrown => JsonReply(500, "error", SignupFailed);
      Outcome(reply, Some(body.phone))
  }

  /** The three statuses partition the cases: 400 exactly for a duplicate, 200 exactly when both
      checks pass and the provider reports success, 500 otherwise. */
  lemma StatusCases(users: seq<User>, body: Body, provider: string -> OtpReply)
    ensures var r := Post(users, body, provider);
      var dup := EmailTaken(users, body.email) || PhoneTaken(users, body.phone);
      (r.reply.status == 400 <==> dup) &&
      (r.reply.status == 200 <==> !dup && provider(body.phone).OtpSuccess?) &&
      (r.reply.status == 500 <==> !dup && !provider(body.phone).OtpSuccess?)
  {
  }

  /** The email check comes first: a taken email gives the email message whatever the phone,
      and the provider is not consulted. */
  lemma EmailCheckedFirst(users: seq<User>, body: Body, p1: string -> OtpReply, p2: string -> OtpReply, phone: string)
    requires EmailTaken(users, body.email)
    ensures Post(users, body, p1) == Post(users, body.(phone := phone), p2)
    ensures Post(users, body, p1).reply.text == EmailInUse
  {
  }

  /** The provider's answer matters only for bodies that pass both checks. */
  lemma ProviderOnlyAfterChecks(users: seq<User>, body: Body, p1: string -> OtpReply, p2: string -> OtpReply)
    requires EmailTaken(users, body.email) || PhoneTaken(users, body.phone)
    ensures Post(users, body, p1) == Post(users, body, p2)
  {
  }

  /** A registration against the collection of one user: their email is refused, their phone
      under a fresh email is refused, and a fresh email and phone reach the provider. */
  lemma RegisterExample(u: User, provider: string -> OtpReply)
    requires u.email != "new@example.com" && u.phone != "770000001"
    requires provider("770000001") == OtpFailure(None)
    ensures Post([u], Body(u.email, "770000001"), provider).reply == JsonReply(400, "error", EmailInUse)
    ensures Post([u], Body("new@example.com", u.phone), provider).reply == JsonReply(400, "error", PhoneInUse)
    ensures Post([u], Body("new@example.com", "770000001"), provider) ==
      Outcome(JsonReply(500, "errorMessage", OtpInvalid), Some("770000001"))
  {
    assert u in [u];
  }
}
