/** The `create-admin` script: makes sure an administrator account exists for
    the configured email. It upserts by email with an empty update, so an
    existing account with that email is returned untouched. */
module CreateAdmin {
  import opened Common
  import opened Ledger

  const DefaultAdminName: string := "Admin"

  /** The script's environment; an empty string is an unset variable. */
  datatype Env = Env(email: string, password: string, name: string)

  /** `hashed` is the credential hash of `env.password`, an input because
      hashing is salted and random. */
  function CreateAdmin(s: State, env: Env, hashed: string): (r: Step<User>)
    ensures r.result.Err? ==> r.state == s
    ensures !Present(env.email) || !Present(env.password) ==> r.result == Err(MissingCredentials)
    ensures (Present(env.email) && Present(env.password)) ==> r.result.Ok?
    ensures (Present(env.email) && Present(env.password) && exists u :: u in s.users && u.email == env.email)
            ==> r.state == s && r.result.value in s.users && r.result.value.email == env.email
    ensures (Present(env.email) && Present(env.password) && forall u :: u in s.users ==> u.email != env.email)
            ==> var u := r.result.value;
                && u == User(u.id, if Present(env.name) then env.name else DefaultAdminName,
                             env.email, hashed, Admin, None)
                && (forall x :: x in s.users ==> x.id != u.id)
                && r.state == s.(users := s.users + [u])
  {
    if !Present(env.email) || !Present(env.password) then Step(s, Err(MissingCredentials))
    else
      match UserByEmail(s, env.email)
      case Some(existing) => Step(s, Ok(existing))
      case None =>
        var name := if Present(env.name) then env.name else DefaultAdminName;
        var admin := User(FreshUserId(s), name, env.email, hashed, Admin, None);
        Step(s.(users := s.users + [admin]), Ok(admin))
  }

  /** Running the script again with the same email changes nothing more,
      whatever password hash the second run computes. */
  lemma CreateAdminIdempotent(s: State, env: Env, h1: string, h2: string)
    ensures var once := CreateAdmin(s, env, h1).state;
            CreateAdmin(once, env, h2).state == once
  {
  }

  /** An existing account with the configured email is neither promoted nor
      otherwise modified: the script reports it as it is. */
  lemma ExistingUserUntouched(s: State, env: Env, hashed: string, u: User)
    requires Valid(s)
    requires Present(env.email) && Present(env.password)
    requires u in s.users && u.email == env.email
    ensures CreateAdmin(s, env, hashed) == Step(s, Ok(u))
  {
  }

  lemma CreateAdminPreservesValid(s: State, env: Env, hashed: string)
    requires Valid(s)
    ensures Valid(CreateAdmin(s, env, hashed).state)
  {
  }
}
