/** The persistent records of the investment game (teams, users, startups,
    investments), the session record a handler receives, the errors handlers
    report, and the lookups and invariants shared by every route. */
module Ledger {
  import opened Common

  type Id = nat

  datatype Role = Member | Admin

  datatype Outcome = Pending | Success | Failure

  /** A team owns one balance; it starts at `StartingBalance` on registration. */
  datatype Team = Team(id: Id, name: string, balance: int)

  /** `password` holds the credential hash, never the clear text. */
  datatype User = User(id: Id, name: string, email: string, password: string, role: Role, teamId: Option<Id>)

  /** `multiplier` is nullable in the store, which is why a backfill script exists. */
  datatype Startup = Startup(
    id: Id, name: string, description: string, pitch: string,
    outcome: Outcome, multiplier: Option<real>, createdAt: int)

  datatype Investment = Investment(id: Id, amount: int, teamId: Id, startupId: Id, createdAt: int)

  /** The whole store; each sequence is a table in the store's own order. */
  datatype State = State(teams: seq<Team>, users: seq<User>, startups: seq<Startup>, investments: seq<Investment>)

  /** The signed-in caller as the session layer reports it. Handlers receive
      an `Option<Session>`, `None` meaning nobody is signed in. */
  datatype Session = Session(userId: Option<Id>, teamId: Option<Id>, role: Role)

  datatype Entity = TeamEntity | StartupEntity

  datatype Error =
    | Unauthorized
    | InvalidAmount
    | NotFound(entity: Entity)
    | StartupResolved
    | InsufficientFunds
    | MissingFields
    | UserExists
    | TeamNameTaken
    | MissingCredentials

  datatype Result<+T> = Ok(value: T) | Err(error: Error)

  /** The outcome of a state-changing handler: the store afterwards and what
      was reported to the caller. */
  datatype Step<+O> = Step(state: State, result: Result<O>)

  const StartingBalance: int := 1000000

  const DefaultMultiplier: real := 2.0

  /** JavaScript truthiness of a text field: missing and empty are both falsy. */
  predicate Present(s: string) {
    |s| > 0
  }

  predicate IsAdmin(session: Option<Session>) {
    session.Some? && session.value.role == Admin
  }

  // ---- lookups, one per unique key the routes query by ----

  function TeamById(s: State, id: Id): Option<Team> {
    Find(s.teams, (t: Team) => t.id == id)
  }

  function TeamByName(s: State, name: string): Option<Team> {
    Find(s.teams, (t: Team) => t.name == name)
  }

  function StartupById(s: State, id: Id): (r: Option<Startup>)
    ensures r.Some? ==> r.value in s.startups && r.value.id == id
    ensures r.None? <==> forall st :: st in s.startups ==> st.id != id
  {
    Find(s.startups, KeyedBy(id))
  }

  /** The row test of a lookup by startup id. */
  function KeyedBy(id: Id): Startup -> bool {
    (st: Startup) => st.id == id
  }

  function UserByEmail(s: State, email: string): Option<User> {
    Find(s.users, (u: User) => u.email == email)
  }

  /** Some user with id `uid` lists `t` as its team. */
  predicate HasMember(s: State, uid: Id, t: Team) {
    exists u :: u in s.users && u.id == uid && u.teamId == Some(t.id)
  }

  /** The first team that has user `uid` among its members. */
  function TeamOfMember(s: State, uid: Id): (r: Option<Team>)
    ensures r.Some? ==> r.value in s.teams && HasMember(s, uid, r.value)
    ensures r.None? <==> forall t :: t in s.teams ==> !HasMember(s, uid, t)
  {
    Find(s.teams, (t: Team) => HasMember(s, uid, t))
  }

  function UsersOf(s: State, tid: Id): (r: seq<User>)
    ensures forall u :: multiset(r)[u] == if u.teamId == Some(tid) then multiset(s.users)[u] else 0
    ensures forall u :: u in r <==> u in s.users && u.teamId == Some(tid)
  {
    Filter(s.users, (u: User) => u.teamId == Some(tid))
  }

  function InvestmentsOfTeam(s: State, tid: Id): (r: seq<Investment>)
    ensures forall i :: multiset(r)[i] == if i.teamId == tid then multiset(s.investments)[i] else 0
  {
    Filter(s.investments, (i: Investment) => i.teamId == tid)
  }

  function InvestmentsOfStartup(s: State, sid: Id): (r: seq<Investment>)
    ensures forall i :: multiset(r)[i] == if i.startupId == sid then multiset(s.investments)[i] else 0
  {
    Filter(s.investments, (i: Investment) => i.startupId == sid)
  }

  // ---- fresh keys ----

  function TeamIds(ts: seq<Team>): seq<nat> {
    seq(|ts|, i requires 0 <= i < |ts| => ts[i].id)
  }

  function UserIds(us: seq<User>): seq<nat> {
    seq(|us|, i requires 0 <= i < |us| => us[i].id)
  }

  function StartupIds(ss: seq<Startup>): seq<nat> {
    seq(|ss|, i requires 0 <= i < |ss| => ss[i].id)
  }

  function InvestmentIds(invs: seq<Investment>): seq<nat> {
    seq(|invs|, i requires 0 <= i < |invs| => invs[i].id)
  }

  function FreshTeamId(s: State): (r: Id)
    ensures forall t :: t in s.teams ==> t.id != r
  {
    var ids := TeamIds(s.teams);
    assert forall t :: t in s.teams ==> t.id in ids by {
      forall t | t in s.teams ensures t.id in ids {
        var i :| 0 <= i < |s.teams| && s.teams[i] == t;
        assert ids[i] == t.id;
      }
    }
    NextId(ids)
  }

  function FreshUserId(s: State): (r: Id)
    ensures forall u :: u in s.users ==> u.id != r
  {
    var ids := UserIds(s.users);
    assert forall u :: u in s.users ==> u.id in ids by {
      forall u | u in s.users ensures u.id in ids {
        var i :| 0 <= i < |s.users| && s.users[i] == u;
        assert ids[i] == u.id;
      }
    }
    NextId(ids)
  }

  function FreshStartupId(s: State): (r: Id)
    ensures forall st :: st in s.startups ==> st.id != r
  {
    var ids := StartupIds(s.startups);
    assert forall st :: st in s.startups ==> st.id in ids by {
      forall st | st in s.startups ensures st.id in ids {
        var i :| 0 <= i < |s.startups| && s.startups[i] == st;
        assert ids[i] == st.id;
      }
    }
    NextId(ids)
  }

  function FreshInvestmentId(s: State): (r: Id)
    ensures forall inv :: inv in s.investments ==> inv.id != r
  {
    var ids := InvestmentIds(s.investments);
    assert forall inv :: inv in s.investments ==> inv.id in ids by {
      forall inv | inv in s.investments ensures inv.id in ids {
        var i :| 0 <= i < |s.investments| && s.investments[i] == inv;
        assert ids[i] == inv.id;
      }
    }
    NextId(ids)
  }

  // ---- store invariants: unique keys, foreign keys, solvent teams ----

  ghost predicate UniqueTeamIds(ts: seq<Team>) {
    forall i, j :: 0 <= i < j < |ts| ==> ts[i].id != ts[j].id
  }

  ghost predicate UniqueTeamNames(ts: seq<Team>) {
    forall i, j :: 0 <= i < j < |ts| ==> ts[i].name != ts[j].name
  }

  ghost predicate UniqueUserIds(us: seq<User>) {
    forall i, j :: 0 <= i < j < |us| ==> us[i].id != us[j].id
  }

  ghost predicate UniqueEmails(us: seq<User>) {
    forall i, j :: 0 <= i < j < |us| ==> us[i].email != us[j].email
  }

  ghost predicate UniqueStartupIds(ss: seq<Startup>) {
    forall i, j :: 0 <= i < j < |ss| ==> ss[i].id != ss[j].id
  }

  ghost predicate UniqueInvestmentIds(invs: seq<Investment>) {
    forall i, j :: 0 <= i < j < |invs| ==> invs[i].id != invs[j].id
  }

  ghost predicate Solvent(ts: seq<Team>) {
    forall t :: t in ts ==> t.balance >= 0
  }

  ghost predicate ForeignKeys(s: State) {
    && (forall u :: u in s.users && u.teamId.Some? ==> exists t :: t in s.teams && t.id == u.teamId.value)
    && (forall i :: i in s.investments ==> exists t :: t in s.teams && t.id == i.teamId)
    && (forall i :: i in s.investments ==> exists st :: st in s.startups && st.id == i.startupId)
  }

  /** The constraints the store's schema enforces (unique keys, foreign
      keys), plus two the handlers keep: positive investment amounts, from the
      placement's amount check, and non-negative balances, since a placement
      never debits more than the balance. The unmodelled payout of a startup
      with a negative multiplier could break the last one. */
  ghost predicate Valid(s: State) {
    && UniqueTeamIds(s.teams)
    && UniqueTeamNames(s.teams)
    && UniqueUserIds(s.users)
    && UniqueEmails(s.users)
    && UniqueStartupIds(s.startups)
    && UniqueInvestmentIds(s.investments)
    && Solvent(s.teams)
    && (forall i :: i in s.investments ==> i.amount > 0)
    && ForeignKeys(s)
  }

  // ---- money ----

  function TotalBalance(ts: seq<Team>): int {
    if |ts| == 0 then 0 else ts[0].balance + TotalBalance(ts[1..])
  }

  function TotalInvested(invs: seq<Investment>): int {
    if |invs| == 0 then 0 else invs[0].amount + TotalInvested(invs[1..])
  }

  lemma {:induction false} TotalInvestedAppend(invs: seq<Investment>, inv: Investment)
    ensures TotalInvested(invs + [inv]) == TotalInvested(invs) + inv.amount
  {
    if |invs| == 0 {
      assert invs + [inv] == [inv];
    } else {
      assert (invs + [inv])[1..] == invs[1..] + [inv];
      TotalInvestedAppend(invs[1..], inv);
    }
  }

  // ---- consequences of unique keys ----

  lemma TeamIdsDetermine(ts: seq<Team>, a: Team, b: Team)
    requires UniqueTeamIds(ts)
    requires a in ts && b in ts && a.id == b.id
    ensures a == b
  {
    var i :| 0 <= i < |ts| && ts[i] == a;
    var j :| 0 <= j < |ts| && ts[j] == b;
    assert !(i < j) && !(j < i);
  }

  lemma UserIdsDetermine(us: seq<User>, a: User, b: User)
    requires UniqueUserIds(us)
    requires a in us && b in us && a.id == b.id
    ensures a == b
  {
    var i :| 0 <= i < |us| && us[i] == a;
    var j :| 0 <= j < |us| && us[j] == b;
    assert !(i < j) && !(j < i);
  }

  /** In a consistent store a user belongs to at most one team, so the first
      team with that member is the team with that member. */
  lemma MemberTeamUnique(s: State, uid: Id, t: Team)
    requires Valid(s)
    requires t in s.teams && HasMember(s, uid, t)
    ensures TeamOfMember(s, uid) == Some(t)
  {
    var x := TeamOfMember(s, uid).value;
    var u1 :| u1 in s.users && u1.id == uid && u1.teamId == Some(x.id);
    var u2 :| u2 in s.users && u2.id == uid && u2.teamId == Some(t.id);
    UserIdsDetermine(s.users, u1, u2);
    TeamIdsDetermine(s.teams, x, t);
  }

  lemma StartupByIdUnique(s: State, st: Startup)
    requires Valid(s)
    requires st in s.startups
    ensures StartupById(s, st.id) == Some(st)
  {
    var x := StartupById(s, st.id).value;
    var i :| 0 <= i < |s.startups| && s.startups[i] == x;
    var j :| 0 <= j < |s.startups| && s.startups[j] == st;
    assert !(i < j) && !(j < i);
  }
}
