/** Registration and login. The application has a single administrator: registration is
    open only while the user table is empty, and login sends the caller to registration
    while there is nobody to log in as. Password hashing, the password check and the e-mail
    syntax check belong to libraries outside this model and are passed in as functions. */
module Auth {
  import opened Models
  import opened Forms
  import opened Store

  /** The login session; `currentUser` is the id of the user the session's user loader found,
      so a session naming no stored user is anonymous (`None`). */
  class Session {
    var currentUser: Option<int>

    constructor ()
      ensures currentUser == None
    {
      currentUser := None;
    }
  }

  datatype RegisterOutcome =
    | RegistrationClosed                              // a user exists already
    | RegisterRejected(errors: set<RegistrationField>)
    | Registered(id: int)
    | RegisterFailed                                  // the commit raised; nothing was stored

  datatype LoginOutcome =
    | AlreadyAuthenticated                            // redirected to the index
    | GoToRegister                                    // no user exists yet
    | LoginRejected(errors: set<LoginField>)
    | InvalidCredentials
    | LoggedIn(id: int)

  /** `User.query.filter_by(email=email).first()` on a table whose e-mails are unique. */
  function UserWithEmail(users: map<int, User>, email: string): (r: Option<int>)
    requires forall a, b :: a in users && b in users && users[a].email == users[b].email ==> a == b
    ensures r.Some? ==> r.value in users && users[r.value].email == email
    ensures r.None? ==> forall id :: id in users ==> users[id].email != email
  {
    if exists id :: id in users && users[id].email == email then
      var id :| id in users && users[id].email == email;
      Some(id)
    else
      None
  }

  /** The first user of an empty user table is accepted by the database exactly when its
      columns fit; nothing else can conflict with it. */
  lemma FirstUserConsistent(t: Tables, u: User)
    requires Consistent(t) && t.users == map[]
    ensures Consistent(t.(users := map[u.id := u])) <==> UserFits(u)
  {
    var t' := t.(users := map[u.id := u]);
    assert u.id in t'.users && t'.users[u.id] == u;
  }

  /** `register`: refused once any user exists; otherwise validate the form, store the user
      with the hash of the submitted password, and commit. */
  method Register(
    db: Dealership, form: RegistrationForm,
    emailSyntax: string -> bool, hashPassword: string -> string, fault: bool)
    returns (r: RegisterOutcome)
    requires db.Valid()
    modifies db
    ensures db.Valid()
    ensures db.clientes == old(db.clientes) && db.vehiculos == old(db.vehiculos)
    ensures db.pagos == old(db.pagos) && db.notas == old(db.notas)
    ensures old(db.users) != map[] ==> r == RegistrationClosed && db.users == old(db.users)
    ensures old(db.users) == map[] ==>
      var errs := RegistrationErrors(form, {}, emailSyntax);
      if errs != {} then r == RegisterRejected(errs) && db.users == map[]
      else
        && (r.Registered? <==>
              !fault && |form.name| <= 100 && |form.email| <= 120 && |hashPassword(form.password)| <= 256)
        && (r.Registered? ==>
              r.id > 0 && db.users == map[r.id := User(r.id, form.name, form.email, hashPassword(form.password))])
        && (!r.Registered? ==> r == RegisterFailed && db.users == map[])
  {
    if db.users != map[] {
      return RegistrationClosed;
    }
    assert Emails(db.users) == {};
    var errs := RegistrationErrors(form, Emails(db.users), emailSyntax);
    if errs != {} {
      return RegisterRejected(errs);
    }
    var saved := db.Snapshot();
    FreshIdExists(db.users.Keys);
    var id :| id > 0 && id !in db.users;
    var user := User(id, form.name, form.email, hashPassword(form.password));
    db.users := db.users[id := user];
    FirstUserConsistent(saved, user);
    assert db.Snapshot() == saved.(users := map[id := user]);
    if fault || !db.Valid() {
      db.Rollback(saved);
      r := RegisterFailed;
    } else {
      r := Registered(id);
    }
  }

  /** `login`: an authenticated caller is sent on; with no user stored the caller is sent to
      registration; otherwise valid credentials make that user the session's user and
      anything else leaves the session as it was. */
  method Login(
    db: Dealership, session: Session, form: LoginForm,
    emailSyntax: string -> bool, checkPassword: (string, string) -> bool)
    returns (r: LoginOutcome)
    requires db.Valid()
    modifies session
    ensures old(session.currentUser).Some? ==> r == AlreadyAuthenticated
    ensures old(session.currentUser).None? && db.users == map[] ==> r == GoToRegister
    ensures old(session.currentUser).None? && db.users != map[] && LoginErrors(form, emailSyntax) != {} ==>
              r == LoginRejected(LoginErrors(form, emailSyntax))
    ensures r.LoggedIn? <==>
              && old(session.currentUser).None? && db.users != map[] && LoginErrors(form, emailSyntax) == {}
              && exists id :: id in db.users && db.users[id].email == form.email
                              && checkPassword(db.users[id].passwordHash, form.password)
    ensures r.LoggedIn? ==>
              && r.id in db.users && db.users[r.id].email == form.email
              && checkPassword(db.users[r.id].passwordHash, form.password)
              && session.currentUser == Some(r.id)
    ensures !r.LoggedIn? ==> session.currentUser == old(session.currentUser)
    ensures old(session.currentUser).None? && db.users != map[] && LoginErrors(form, emailSyntax) == {}
            && (forall id :: id in db.users && db.users[id].email == form.email ==>
                               !checkPassword(db.users[id].passwordHash, form.password))
            ==> r == InvalidCredentials
  {
    if session.currentUser.Some? {
      return AlreadyAuthenticated;
    }
    if db.users == map[] {
      return GoToRegister;
    }
    var errs := LoginErrors(form, emailSyntax);
    if errs != {} {
      return LoginRejected(errs);
    }
    var found := UserWithEmail(db.users, form.email);
    if found.None? || !checkPassword(db.users[found.value].passwordHash, form.password) {
      return InvalidCredentials;
    }
    session.currentUser := Some(found.value);
    r := LoggedIn(found.value);
  }

  /** `logout`: the session has no user afterwards. */
  method Logout(session: Session)
    modifies session
    ensures session.currentUser == None
  {
    session.currentUser := None;
  }
}
