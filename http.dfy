/** What the route handlers learn from `getServerSession(options)`: no session at all, or a
    session whose user may or may not carry an email. */
module Http {
  import opened Wrappers

  datatype Session = NoSession | Session(email: Option<string>)

  /** `if (!isAuthentication)`: the products and users routes ask only for a session. */
  predicate SignedIn(s: Session) {
    s.Session?
  }

  /** `if (!session || !session.user?.email)`: the orders routes also want a non-empty email. */
  predicate SignedInWithEmail(s: Session) {
    s.Session? && s.email.Some? && s.email.value != ""
  }

  /** `NextResponse.json({ [key]: text }, { status })`: a body with a single string property. */
  datatype JsonReply = JsonReply(status: int, key: string, text: string)
}
