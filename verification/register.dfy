/** `POST /api/register`: a new user signs up together with a new team. The
    email and the team name must both be unused; the team starts with
    `StartingBalance` and the user is bound to it in the same transaction. */
module Registration {
  import opened Common
  import opened Ledger

  /** The request body; an empty string stands for a missing field. */
  datatype Request = Request(name: string, email: string, password: string, teamName: string)

  datatype Registered = Registered(user: User, team: Team)

  predicate Complete(req: Request) {
    Present(req.name) && Present(req.email) && Present(req.password) && Present(req.teamName)
  }

  /** `hashed` is the credential hash computed from `req.password`; hashing
      is salted and random, so the model takes its output as an input. */
  function Register(s: State, req: Request, hashed: string): (r: Step<Registered>)
    ensures r.result.Err? ==> r.state == s
    ensures !Complete(req) ==> r.result == Err(MissingFields)
    ensures (Complete(req) && exists u :: u in s.users && u.email == req.email)
            ==> r.result == Err(UserExists)
    ensures (&& Complete(req)
             && (forall u :: u in s.users ==> u.email != req.email)
             && (exists t :: t in s.teams && t.name == req.teamName))
            ==> r.result == Err(TeamNameTaken)
    ensures r.result.Ok? <==>
              && Complete(req)
              && (forall u :: u in s.users ==> u.email != req.email)
              && (forall t :: t in s.teams ==> t.name != req.teamName)
    ensures r.result.Ok? ==>
              var team := r.result.value.team;
              var user := r.result.value.user;
              && team == Team(team.id, req.teamName, StartingBalance)
              && (forall t :: t in s.teams ==> t.id != team.id)
              && user == User(user.id, req.name, req.email, hashed, Member, Some(team.id))
              && (forall u :: u in s.users ==> u.id != user.id)
              && r.state == s.(teams := s.teams + [team], users := s.users + [user])
  {
    if !Present(req.name) || !Present(req.email) || !Present(req.password) || !Present(req.teamName) then
      Step(s, Err(MissingFields))
    else if UserByEmail(s, req.email).Some? then
      Step(s, Err(UserExists))
    else if TeamByName(s, req.teamName).Some? then
      Step(s, Err(TeamNameTaken))
    else
      var team := Team(FreshTeamId(s), req.teamName, StartingBalance);
      var user := User(FreshUserId(s), req.name, req.email, hashed, Member, Some(team.id));
      Step(s.(teams := s.teams + [team], users := s.users + [user]), Ok(Registered(user, team)))
  }

  /** Registration keeps emails and team names unique, keeps every balance
      non-negative and leaves the new user pointing at an existing team. */
  lemma RegisterPreservesValid(s: State, req: Request, hashed: string)
    requires Valid(s)
    ensures Valid(Register(s, req, hashed).state)
  {
    var r := Register(s, req, hashed);
    if r.result.Ok? {
      var s' := r.state;
      var team := r.result.value.team;
      var user := r.result.value.user;
      assert s'.teams == s.teams + [team] && s'.users == s.users + [user];
      forall i, j | 0 <= i < j < |s'.teams|
        ensures s'.teams[i].id != s'.teams[j].id && s'.teams[i].name != s'.teams[j].name
      {
        if j == |s.teams| {
          assert s'.teams[i] in s.teams;
        }
      }
      forall i, j | 0 <= i < j < |s'.users|
        ensures s'.users[i].id != s'.users[j].id && s'.users[i].email != s'.users[j].email
      {
        if j == |s.users| {
          assert s'.users[i] in s.users;
        }
      }
      assert team in s'.teams;
    }
  }

  /** Once an email is registered, registering it again is refused, whatever
      the other fields say. */
  lemma RegisterEmailOnce(s: State, req1: Request, req2: Request, h1: string, h2: string)
    requires Complete(req2) && req2.email == req1.email
    ensures var r1 := Register(s, req1, h1);
            r1.result.Ok? ==> Register(r1.state, req2, h2).result == Err(UserExists)
  {
  }
}
