/** routes/auth.js: `POST /login` and `POST /register`. Both read the
    request body `{username, password}`; JavaScript's `!field` rejects an
    absent field and an empty string alike. */
module AuthRoutes {
  import opened Wrappers
  import opened Errors
  import opened Credentials
  import opened Db

  datatype AuthBody = AuthBody(username: Option<string>, password: Option<string>)

  /** A request field that JavaScript treats as true. */
  predicate Truthy(field: Option<string>) {
    field.Some? && field.value != ""
  }

  /** `{message: 'Logged in!', token}` */
  datatype LoginReply = LoginReply(message: string, token: Token)

  /** `{username}`: the whole reply of a successful registration. */
  datatype Registered = Registered(username: string)

  /** `POST /login`. Missing fields are refused with 404 before any lookup;
      an unknown user and a wrong password both end in the same 400; the
      right password earns a token signed over `{username}` at `now`. The
      handler only reads the database: `last_login_at` is not touched. */
  function Login(st: Store, secret: string, body: AuthBody, now: nat): (r: Step<LoginReply>)
    ensures r.store == st
    ensures !Truthy(body.username) || !Truthy(body.password) ==> r.out == Err(CredentialsRequired)
    ensures Truthy(body.username) && Truthy(body.password) ==>
              (r.out.Ok? <==> body.username.value in st.users
                              && Compare(body.password.value, st.users[body.username.value].password))
    ensures Truthy(body.username) && Truthy(body.password) && r.out.Err? ==>
              r.out.error == IncorrectCredentials
    ensures r.out.Ok? ==>
              && r.out.value.message == "Logged in!"
              && Verify(secret, r.out.value.token) == Some(Claims(body.username.value, now))
  {
    if !Truthy(body.username) || !Truthy(body.password) then
      Step(Err(CredentialsRequired), st)
    else
      var u := body.username.value;
      if u in st.users && Compare(body.password.value, st.users[u].password) then
        Step(Ok(LoginReply("Logged in!", Sign(secret, Claims(u, now)))), st)
      else
        Step(Err(IncorrectCredentials), st)
  }

  /** `POST /register`. Missing fields are refused with 404 and nothing is
      inserted; otherwise the password is hashed and a row with only the
      username and the hash is inserted. The unique violation (`23505`) on a
      taken username becomes 400 and leaves the existing row alone. */
  function Register(st: Store, body: AuthBody, salt: nat): (r: Step<Registered>)
    ensures !Truthy(body.username) || !Truthy(body.password) ==>
              r == Step(Err(CredentialsRequired), st)
    ensures Truthy(body.username) && Truthy(body.password) && body.username.value in st.users ==>
              r == Step(Err(UsernameTaken), st)
    ensures r.out.Ok? <==>
              Truthy(body.username) && Truthy(body.password) && body.username.value !in st.users
    ensures r.out.Ok? ==>
              var u := body.username.value;
              && r.out.value == Registered(u)
              && r.store.users.Keys == st.users.Keys + {u}
              && (forall v :: v in st.users ==> r.store.users[v] == st.users[v])
              && r.store.users[u] == User(u, r.store.users[u].password, None, None, None, None, None)
              && Compare(body.password.value, r.store.users[u].password)
              && r.store.messages == st.messages
              && r.store.nextId == st.nextId
    ensures Valid(st) ==> Valid(r.store)
  {
    if !Truthy(body.username) || !Truthy(body.password) then
      Step(Err(CredentialsRequired), st)
    else
      var u := body.username.value;
      var hashed := Hash(body.password.value, salt);
      if u in st.users then
        Step(Err(UsernameTaken), st)
      else
        var user := User(u, hashed, None, None, None, None, None);
        Step(Ok(Registered(u)), st.(users := st.users[u := user]))
  }

  /** A login cannot tell an unknown username from a wrong password: for the
      same request, a database without the user and one whose stored hash
      rejects the password give the same reply. */
  lemma LoginFailureIndistinguishable(st1: Store, st2: Store, secret: string, body: AuthBody, now: nat)
    requires Truthy(body.username) && Truthy(body.password)
    requires body.username.value !in st1.users
    requires body.username.value in st2.users
    requires !Compare(body.password.value, st2.users[body.username.value].password)
    ensures Login(st1, secret, body, now).out == Login(st2, secret, body, now).out == Err(IncorrectCredentials)
  {
  }

  /** Registering and then logging in with the same body succeeds, and the
      token names the registered user. */
  lemma RegisterThenLogin(st: Store, secret: string, body: AuthBody, salt: nat, now: nat)
    requires Register(st, body, salt).out.Ok?
    ensures var st' := Register(st, body, salt).store;
            Login(st', secret, body, now).out.Ok?
            && Login(st', secret, body, now).out.value.token.claims.username == body.username.value
  {
  }

  /** Registering a taken name fails with 400 the second time, and the first
      registration's row survives, hash included: the first password still
      logs in, and the second does not unless it agrees with the first on
      the 72 bytes bcrypt reads. */
  lemma RegisterTwice(st: Store, first: AuthBody, second: AuthBody, salt1: nat, salt2: nat,
                      secret: string, now: nat)
    requires Register(st, first, salt1).out.Ok?
    requires Truthy(second.password) && second.username == first.username
    ensures var st1 := Register(st, first, salt1).store;
            var r2 := Register(st1, second, salt2);
            && r2 == Step(Err(UsernameTaken), st1)
            && Login(r2.store, secret, first, now).out.Ok?
            && (Key(second.password.value) != Key(first.password.value) ==>
                  Login(r2.store, secret, second, now).out == Err(IncorrectCredentials))
            && (Key(second.password.value) == Key(first.password.value) ==>
                  Login(r2.store, secret, second, now).out.Ok?)
  {
    var st1 := Register(st, first, salt1).store;
    var u := first.username.value;
    assert st1.users[u].password == Hash(first.password.value, salt1);
    assert Compare(first.password.value, st1.users[u].password);
  }
}
