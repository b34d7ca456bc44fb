/** `userSchema` of lib/models/user.ts: a customer account, its required fields and the unique
    index on `email`. */
module UserModel {
  import opened Wrappers
  import opened Time

  /** A stored user document; `password` holds the bcrypt hash. */
  datatype User = User(
    id: string,
    firstname: string,
    lastname: string,
    email: string,
    phone: string,
    address: string,
    city: string,
    zip: Option<string>,
    country: Option<string>,
    password: string,
    createdAt: Instant)

  /** The schema's `required` validators: every field but `zip` and `country`. */
  predicate Valid(u: User) {
    u.firstname != "" && u.lastname != "" && u.email != "" && u.phone != "" &&
    u.address != "" && u.city != "" && u.password != ""
  }

  /** The unique index on `email`: no two users share an email. */
  predicate EmailsUnique(us: seq<User>) {
    forall i, j :: 0 <= i < j < |us| ==> us[i].email != us[j].email
  }

  /** The invariant of the users collection. */
  predicate TableValid(us: seq<User>) {
    (forall i :: 0 <= i < |us| ==> Valid(us[i])) && EmailsUnique(us)
  }

  predicate EmailTaken(us: seq<User>, email: string) {
    exists u :: u in us && u.email == email
  }

  predicate PhoneTaken(us: seq<User>, phone: string) {
    exists u :: u in us && u.phone == phone
  }

  /** Inserting a valid user whose email is free keeps the collection's invariant. */
  lemma InsertKeepsTableValid(us: seq<User>, u: User)
    requires TableValid(us) && Valid(u) && !EmailTaken(us, u.email)
    ensures TableValid(us + [u])
  {
    var vs := us + [u];
    forall i, j | 0 <= i < j < |vs| ensures vs[i].email != vs[j].email {
      if j == |us| {
        assert vs[i] in us;
      } else {
        assert vs[i] == us[i] && vs[j] == us[j];
      }
    }
    forall i | 0 <= i < |vs| ensures Valid(vs[i]) {
      if i < |us| {
        assert vs[i] == us[i];
      }
    }
  }

  /** `zip` and `country` are optional: a valid user stays valid without them. */
  lemma ZipCountryOptional(u: User)
    requires Valid(u)
    ensures Valid(u.(zip := None, country := None))
  {
  }

  /** Phone numbers are not unique in the schema: a valid collection may hold two users with the
      same phone. Only the registration route refuses a taken phone. */
  lemma PhoneNotUnique()
    ensures exists us: seq<User> :: TableValid(us) && |us| == 2 && us[0].phone == us[1].phone
  {
    var t: Instant := Moment(2024, 1, 0);
    var a := User("1", "Awa", "Diop", "awa@example.com", "770000000", "Rue 1", "Dakar", None, None, "h1", t);
    var b := a.(id := "2", email := "binta@example.com");
    var us := [a, b];
    assert TableValid(us);
  }
}
