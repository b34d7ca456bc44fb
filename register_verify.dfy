/** `POST /api/auth/register/verify` (app/api/auth/register/verify/route.ts): the second phase of
    sign-up. Split the submitted `data` into `password`, `code` and the remaining fields, have
    the SMS provider check the code against the phone, and on success store the remaining
    fields with the hashed password as a new user. */
module RegisterVerify {
  import opened Wrappers
  import opened Time
  import opened Http
  import opened UserModel
  import opened Register

  /** The fields of `data` other than `password` and `code` (`...rest`); an empty string is a
      field that was not sent. */
  datatype Rest = Rest(
    firstname: string,
    lastname: string,
    email: string,
    phone: string,
    address: string,
    city: string,
    zip: Option<string>,
    country: Option<string>)

  /** The request's `data` property. */
  datatype Signup = Signup(password: Option<string>, code: Option<string>, rest: Rest)

  const Registered: string := "Inscription réussie"

  /** `{ ...rest, password: hashedPassword }` as the document `User.create` stores; `id` and
      `now` are chosen by the database. */
  function NewUser(rest: Rest, hashed: string, id: string, now: Instant): (u: User)
    ensures u.password == hashed && u.id == id && u.createdAt == now
    ensures u.firstname == rest.firstname && u.lastname == rest.lastname && u.email == rest.email
    ensures u.phone == rest.phone && u.address == rest.address && u.city == rest.city
    ensures u.zip == rest.zip && u.country == rest.country
  {
    User(id, rest.firstname, rest.lastname, rest.email, rest.phone, rest.address, rest.city,
         rest.zip, rest.country, hashed, now)
  }

  /** The submitted fields once more, read off a stored user: `code` is not among them. */
  function RestOf(u: User): Rest {
    Rest(u.firstname, u.lastname, u.email, u.phone, u.address, u.city, u.zip, u.country)
  }

  /** Storing and reading back keeps every submitted field as it was. */
  lemma RestRoundTrip(rest: Rest, hashed: string, id: string, now: Instant)
    ensures RestOf(NewUser(rest, hashed, id, now)) == rest
  {
  }

  /** `bcrypt.hash` succeeds and `User.create` passes the schema and the unique email index. */
  predicate Creatable(users: seq<User>, s: Signup, hash: string -> string, id: string, now: Instant) {
    s.password.Some? && Valid(NewUser(s.rest, hash(s.password.value), id, now)) &&
    !EmailTaken(users, s.rest.email)
  }

  /** The reply, the `(phone, code)` pair sent to the provider if any, and the user stored if any. */
  datatype Verdict = Verdict(reply: JsonReply, verifiedWith: Option<(string, Option<string>)>, created: Option<User>)

  /** The route as a function of the collection it writes to. `data` is `None` when the body has
      no `data` object, in which case destructuring throws; `verify(phone, code)` is the
      provider's answer and `hash` stands for `bcrypt.hash(·, 10)`. */
  function Decide(users: seq<User>, data: Option<Signup>, verify: (string, Option<string>) -> OtpReply,
                  hash: string -> string, id: string, now: Instant): (r: Verdict)
    ensures data.None? ==> r == Verdict(JsonReply(500, "errorMessage", SignupFailed), None, None)
    ensures data.Some? ==> r.verifiedWith == Some((data.value.rest.phone, data.value.code))
    ensures r.created.Some? <==>
      data.Some? && verify(data.value.rest.phone, data.value.code).OtpSuccess? &&
      Creatable(users, data.value, hash, id, now)
    ensures r.created.Some? ==>
      r.created.value == NewUser(data.value.rest, hash(data.value.password.value), id, now) &&
      r.reply == JsonReply(200, "message", Registered)
    ensures data.Some? && verify(data.value.rest.phone, data.value.code).OtpFailure? ==>
      r.reply == JsonReply(500, "errorMessage", ProviderError(verify(data.value.rest.phone, data.value.code).error))
    ensures r.created.None? && (data.None? || !verify(data.value.rest.phone, data.value.code).OtpFailure?) ==>
      r.reply == JsonReply(500, "errorMessage", SignupFailed)
  {
    match data
    case None => Verdict(JsonReply(500, "errorMessage", SignupFailed), None, None)
    case Some(s) =>
      var asked := Some((s.rest.phone, s.code));
      match verify(s.rest.phone, s.code)
      case OtpFailure(e) => Verdict(JsonReply(500, "errorMessage", ProviderError(e)), asked, None)
      case OtpThrown => Verdict(JsonReply(500, "errorMessage", SignupFailed), asked, None)
      case OtpSuccess =>
        if Creatable(users, s, hash, id, now) then
          Verdict(JsonReply(200, "message", Registered), asked,
                  Some(NewUser(s.rest, hash(s.password.value), id, now)))
        else Verdict(JsonReply(500, "errorMessage", SignupFailed), asked, None)
  }

  /** A user is stored exactly when the reply is 200, and a stored user always keeps the
      collection's invariant. */
  lemma CreatedIffOk(users: seq<User>, data: Option<Signup>, verify: (string, Option<string>) -> OtpReply,
                     hash: string -> string, id: string, now: Instant)
    requires TableValid(users)
    ensures var r := Decide(users, data, verify, hash, id, now);
      (r.created.Some? <==> r.reply.status == 200) &&
      (r.created.Some? ==> TableValid(users + [r.created.value]))
  {
    var r := Decide(users, data, verify, hash, id, now);
    if r.created.Some? {
      InsertKeepsTableValid(users, r.created.value);
    }
  }

  /** The stored password is the hash of the submitted one: two submissions that differ only in
      their plaintext password store users that differ only in `password`. */
  lemma PasswordOnlyThroughHash(users: seq<User>, s: Signup, pw: string, verify: (string, Option<string>) -> OtpReply,
                                hash: string -> string, id: string, now: Instant)
    requires s.password.Some? && hash(pw) == hash(s.password.value)
    ensures Decide(users, Some(s), verify, hash, id, now) == Decide(users, Some(s.(password := Some(pw))), verify, hash, id, now)
  {
  }

  /** The user collection, with `TableValid` as the invariant the schema maintains. */
  class UserStore {
    var users: seq<User>

    ghost predicate Valid()
      reads this
    {
      TableValid(users)
    }

    constructor(initial: seq<User>)
      requires TableValid(initial)
      ensures Valid() && users == initial
    {
      users := initial;
    }

    /** The handler: decide, then insert the new user if there is one. */
    method Post(data: Option<Signup>, verify: (string, Option<string>) -> OtpReply,
                hash: string -> string, id: string, now: Instant) returns (reply: JsonReply)
      requires Valid()
      modifies this
      ensures Valid()
      ensures var r := Decide(old(users), data, verify, hash, id, now);
        reply == r.reply &&
        users == old(users) + (if r.created.Some? then [r.created.value] else [])
      ensures reply.status == 200 <==> |users| == |old(users)| + 1
      ensures reply.status != 200 <==> users == old(users)
    {
      var r := Decide(users, data, verify, hash, id, now);
      CreatedIffOk(users, data, verify, hash, id, now);
      if r.created.Some? {
        users := users + [r.created.value];
      }
      reply := r.reply;
    }
  }
}
