/** The mock authentication provider: the current user, the authenticated
    flag, and the one-slot browser store that keeps the user across reloads.
    Every operation is a total function from one session state to the next. */
module Auth {
  import opened Wrappers
  import opened Strings

  datatype Role = Donor | Volunteer | Admin

  /** The user record. The optional numeric fields are whole numbers here. */
  datatype User = User(
    id: string,
    email: string,
    name: string,
    role: Role,
    profilePicture: Option<string>,
    phone: Option<string>,
    address: Option<string>,
    donations: Option<int>,
    volunteerHours: Option<int>)

  /** The provider's state: the current user, the authenticated flag and the
      persisted "user" entry of the browser store. */
  datatype Session = Session(user: Option<User>, isAuthenticated: bool, store: Option<User>)

  /** The two invariants the provider keeps once restored: the flag says
      whether there is a user, and the store mirrors the user. */
  predicate Valid(s: Session) {
    && (s.isAuthenticated <==> s.user.Some?)
    && s.store == s.user
  }

  /** The outcome of an operation that reports success. */
  datatype Step = Step(session: Session, success: bool)

  /** The state on first render: nobody signed in, the store holding whatever
      an earlier visit left there. */
  function Mount(stored: Option<User>): (r: Session)
    ensures r.user.None? && !r.isAuthenticated && r.store == stored
    ensures Valid(r) <==> stored.None?
  {
    Session(None, false, stored)
  }

  /** The start-up effect: a stored user becomes the current, authenticated
      user; an empty store changes nothing. */
  function Restore(s: Session): (r: Session)
    ensures r.store == s.store
    ensures s.store.Some? ==> r.user == s.store && r.isAuthenticated
    ensures s.store.None? ==> r == s
    ensures Valid(s) ==> r == s
  {
    if s.store.Some? then Session(s.store, true, s.store) else s
  }

  /** After the start-up effect the invariants hold, and the session is
      authenticated exactly when something was stored. */
  lemma RestoreEstablishesValid(stored: Option<User>)
    ensures Valid(Restore(Mount(stored)))
    ensures Restore(Mount(stored)).user == stored
    ensures Restore(Mount(stored)).isAuthenticated <==> stored.Some?
  {
  }

  /** The user the mock login makes up from an email address. */
  function LoginUser(email: string): (u: User)
    ensures u.id == "1" && u.email == email
    ensures u.name <= email && '@' !in u.name
    ensures '@' in email ==> email[|u.name|] == '@'
    ensures '@' !in email ==> u.name == email
    ensures u.role == Admin <==> Contains(email, "admin")
    ensures u.role != Volunteer
    ensures u.donations == Some(0) && u.volunteerHours == Some(0)
    ensures u.profilePicture.None? && u.phone.None? && u.address.None?
  {
    User("1", email, TakeUntil(email, '@'), if Contains(email, "admin") then Admin else Donor,
         None, None, None, Some(0), Some(0))
  }

  /** `login`: always succeeds, whatever the password and the previous state. */
  function Login(s: Session, email: string, password: string): (r: Step)
    ensures r.success
    ensures r.session.user == Some(LoginUser(email))
    ensures Valid(r.session)
  {
    var u := LoginUser(email);
    Step(Session(Some(u), true, Some(u)), true)
  }

  /** The form data `register` receives: every user field but the id, plus a password. */
  datatype Registration = Registration(
    email: string,
    name: string,
    role: Role,
    password: string,
    profilePicture: Option<string>,
    phone: Option<string>,
    address: Option<string>,
    donations: Option<int>,
    volunteerHours: Option<int>)

  /** `register`: always succeeds; the new user takes email, name and role
      (any role, including admin) from the form, the id from the clock, and
      zero totals; the other form fields and the password are dropped. */
  function Register(s: Session, data: Registration, freshId: string): (r: Step)
    ensures r.success && Valid(r.session)
    ensures r.session.user.Some?
    ensures r.session.user.value.id == freshId
    ensures r.session.user.value.email == data.email
    ensures r.session.user.value.name == data.name
    ensures r.session.user.value.role == data.role
    ensures r.session.user.value.donations == Some(0) && r.session.user.value.volunteerHours == Some(0)
    ensures r.session.user.value.profilePicture.None? && r.session.user.value.phone.None?
    ensures r.session.user.value.address.None?
  {
    var u := User(freshId, data.email, data.name, data.role, None, None, None, Some(0), Some(0));
    Step(Session(Some(u), true, Some(u)), true)
  }

  /** `logout`: no user, not authenticated, store emptied. */
  function Logout(s: Session): (r: Session)
    ensures r.user.None? && !r.isAuthenticated && r.store.None?
    ensures Valid(r)
  {
    Session(None, false, None)
  }

  /** Logging out twice is the same as logging out once. */
  lemma LogoutIdempotent(s: Session)
    ensures Logout(Logout(s)) == Logout(s)
  {
  }

  /** A partial user record: each field is either left out (None) or supplied.
      For the optional user fields, a supplied None is an explicit `undefined`. */
  datatype Patch = Patch(
    id: Option<string>,
    email: Option<string>,
    name: Option<string>,
    role: Option<Role>,
    profilePicture: Option<Option<string>>,
    phone: Option<Option<string>>,
    address: Option<Option<string>>,
    donations: Option<Option<int>>,
    volunteerHours: Option<Option<int>>)

  /** `{ ...user, ...patch }`: every supplied field overrides, id and email
      included; every other field keeps its value. */
  function Merge(u: User, p: Patch): (r: User)
    ensures p.id.Some? ==> r.id == p.id.value
    ensures p.id.None? ==> r.id == u.id
    ensures p.email.Some? ==> r.email == p.email.value
    ensures p.email.None? ==> r.email == u.email
    ensures p.name.Some? ==> r.name == p.name.value
    ensures p.name.None? ==> r.name == u.name
    ensures p.role.Some? ==> r.role == p.role.value
    ensures p.role.None? ==> r.role == u.role
    ensures p.profilePicture.Some? ==> r.profilePicture == p.profilePicture.value
    ensures p.profilePicture.None? ==> r.profilePicture == u.profilePicture
    ensures p.phone.Some? ==> r.phone == p.phone.value
    ensures p.phone.None? ==> r.phone == u.phone
    ensures p.address.Some? ==> r.address == p.address.value
    ensures p.address.None? ==> r.address == u.address
    ensures p.donations.Some? ==> r.donations == p.donations.value
    ensures p.donations.None? ==> r.donations == u.donations
    ensures p.volunteerHours.Some? ==> r.volunteerHours == p.volunteerHours.value
    ensures p.volunteerHours.None? ==> r.volunteerHours == u.volunteerHours
  {
    User(p.id.GetOr(u.id), p.email.GetOr(u.email), p.name.GetOr(u.name), p.role.GetOr(u.role),
         p.profilePicture.GetOr(u.profilePicture), p.phone.GetOr(u.phone), p.address.GetOr(u.address),
         p.donations.GetOr(u.donations), p.volunteerHours.GetOr(u.volunteerHours))
  }

  /** `updateProfile`: without a current user it fails and changes nothing;
      otherwise the merged user becomes current and is stored, and it succeeds.
      The authenticated flag is not touched. */
  function UpdateProfile(s: Session, p: Patch): (r: Step)
    ensures s.user.None? ==> r == Step(s, false)
    ensures s.user.Some? ==> r.success && r.session.user == Some(Merge(s.user.value, p))
    ensures s.user.Some? ==> r.session.store == r.session.user
    ensures r.session.isAuthenticated == s.isAuthenticated
    ensures Valid(s) ==> Valid(r.session)
  {
    match s.user
    case None => Step(s, false)
    case Some(u) =>
      var updated := Merge(u, p);
      Step(Session(Some(updated), s.isAuthenticated, Some(updated)), true)
  }

  /** Applying the same partial update twice gives the state of applying it once. */
  lemma UpdateProfileIdempotent(s: Session, p: Patch)
    ensures UpdateProfile(UpdateProfile(s, p).session, p) == UpdateProfile(s, p)
  {
  }

  /** The operations a visitor can trigger after start-up. */
  datatype Action =
    | LoginAction(email: string, password: string)
    | RegisterAction(data: Registration, freshId: string)
    | LogoutAction
    | UpdateAction(patch: Patch)

  function Apply(s: Session, a: Action): Session {
    match a
    case LoginAction(email, password) => Login(s, email, password).session
    case RegisterAction(data, freshId) => Register(s, data, freshId).session
    case LogoutAction => Logout(s)
    case UpdateAction(patch) => UpdateProfile(s, patch).session
  }

  function Run(s: Session, actions: seq<Action>): Session
    decreases |actions|
  {
    if actions == [] then s else Run(Apply(s, actions[0]), actions[1..])
  }

  /** From start-up on, every sequence of operations keeps both invariants:
      authenticated exactly when there is a user, and the store mirroring the user. */
  lemma {:induction false} SessionStaysValid(stored: Option<User>, actions: seq<Action>)
    ensures Valid(Run(Restore(Mount(stored)), actions))
  {
    RunPreservesValid(Restore(Mount(stored)), actions);
  }

  lemma {:induction false} RunPreservesValid(s: Session, actions: seq<Action>)
    requires Valid(s)
    ensures Valid(Run(s, actions))
    decreases |actions|
  {
    if actions != [] {
      RunPreservesValid(Apply(s, actions[0]), actions[1..]);
    }
  }

  /** Logging in with the email just registered yields a session for that email. */
  lemma RegisterThenLogin(s: Session, data: Registration, freshId: string)
    ensures Login(Register(s, data, freshId).session, data.email, data.password).session.user.Some?
    ensures Login(Register(s, data, freshId).session, data.email, data.password).session.user.value.email == data.email
    ensures Login(Register(s, data, freshId).session, data.email, data.password).session.isAuthenticated
  {
  }

  /** Registering "a@x.com" as a donor and logging in again gives a donor with no donations. */
  lemma DonorScenario(s: Session, password: string, freshId: string)
    ensures var data := Registration("a@x.com", "a", Donor, password, None, None, None, None, None);
            var u := Login(Register(s, data, freshId).session, "a@x.com", password).session.user.value;
            u.role == Donor && u.donations == Some(0) && u.name == "a"
  {
    NotContainsByChar("a@x.com", "admin", 'd');
    assert "a@x.com"[1] == '@';
  }

  /** The admin page's gate: nobody signed in is turned away, and so is a
      signed-in donor or volunteer; a signed-in admin is let in. */
  function CanViewAdmin(user: Option<User>): (r: bool)
    ensures user.None? ==> !r
    ensures user.Some? ==> (r <==> user.value.role !in {Donor, Volunteer})
  {
    user.Some? && user.value.role == Admin
  }

  /** After login the admin page opens exactly for emails containing "admin". */
  lemma LoginAdminGate(s: Session, email: string, password: string)
    ensures CanViewAdmin(Login(s, email, password).session.user) <==> Contains(email, "admin")
  {
  }

  /** Registration copies the requested role, so a self-registered admin
      passes the admin gate. */
  lemma RegisterAdminGate(s: Session, data: Registration, freshId: string)
    ensures CanViewAdmin(Register(s, data, freshId).session.user) <==> data.role == Admin
  {
  }
}
