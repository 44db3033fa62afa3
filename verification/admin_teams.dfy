/** `GET /api/admin/teams`: for the administrator, every team with its
    members and its investments, each investment joined with its startup. */
module AdminTeams {
  import opened Common
  import opened Ledger

  datatype InvestmentWithStartup = InvestmentWithStartup(investment: Investment, startup: Option<Startup>)

  datatype TeamDetail = TeamDetail(team: Team, users: seq<User>, investments: seq<InvestmentWithStartup>)

  function InvestmentsOf(xs: seq<InvestmentWithStartup>): seq<Investment> {
    seq(|xs|, k requires 0 <= k < |xs| => xs[k].investment)
  }

  function Detail(s: State, t: Team): (d: TeamDetail)
    ensures d.team == t
    ensures forall u :: multiset(d.users)[u] == if u.teamId == Some(t.id) then multiset(s.users)[u] else 0
    ensures forall u :: u in d.users <==> u in s.users && u.teamId == Some(t.id)
    ensures forall i :: multiset(InvestmentsOf(d.investments))[i] ==
                        if i.teamId == t.id then multiset(s.investments)[i] else 0
    ensures forall k :: 0 <= k < |d.investments| ==>
              (d.investments[k].startup.Some? <==>
                 exists st :: st in s.startups && st.id == d.investments[k].investment.startupId)
    ensures forall k :: 0 <= k < |d.investments| && d.investments[k].startup.Some? ==>
              d.investments[k].startup.value in s.startups
              && d.investments[k].startup.value.id == d.investments[k].investment.startupId
  {
    TeamDetail(t, UsersOf(s, t.id), Join(s, InvestmentsOfTeam(s, t.id)))
  }

  /** Each investment of `invs`, in order, paired with the startup of its
      `startupId` when the store has one. */
  function Join(s: State, invs: seq<Investment>): (js: seq<InvestmentWithStartup>)
    ensures InvestmentsOf(js) == invs
    ensures forall k :: 0 <= k < |js| ==>
              (js[k].startup.Some? <==> exists st :: st in s.startups && st.id == js[k].investment.startupId)
    ensures forall k :: 0 <= k < |js| && js[k].startup.Some? ==>
              js[k].startup.value in s.startups && js[k].startup.value.id == js[k].investment.startupId
  {
    var js := seq(|invs|, k requires 0 <= k < |invs| =>
      InvestmentWithStartup(invs[k], StartupById(s, invs[k].startupId)));
    assert forall k :: 0 <= k < |invs| ==> InvestmentsOf(js)[k] == invs[k];
    js
  }

  function AdminTeams(s: State, session: Option<Session>): (r: Result<seq<TeamDetail>>)
    ensures !IsAdmin(session) ==> r == Err(Unauthorized)
    ensures IsAdmin(session) ==> r.Ok?
    ensures r.Ok? ==>
              && |r.value| == |s.teams|
              && forall k :: 0 <= k < |s.teams| ==> r.value[k] == Detail(s, s.teams[k])
  {
    if !IsAdmin(session) then Err(Unauthorized)
    else Ok(seq(|s.teams|, k requires 0 <= k < |s.teams| => Detail(s, s.teams[k])))
  }

  /** Every team of the store appears exactly once in the listing, and in a
      consistent store each investment's startup is found. */
  lemma AdminTeamsComplete(s: State, session: Option<Session>)
    requires Valid(s)
    ensures var r := AdminTeams(s, session);
            r.Ok? ==>
              && TeamsOf(r.value) == s.teams
              && (forall k, j :: 0 <= k < |r.value| && 0 <= j < |r.value[k].investments| ==>
                    r.value[k].investments[j].startup.Some?)
  {
    var r := AdminTeams(s, session);
    if r.Ok? {
      var ds := r.value;
      forall k | 0 <= k < |ds| ensures TeamsOf(ds)[k] == s.teams[k] {
        assert ds[k] == Detail(s, s.teams[k]);
      }
      assert TeamsOf(ds) == s.teams;
      forall k, j | 0 <= k < |ds| && 0 <= j < |ds[k].investments|
        ensures ds[k].investments[j].startup.Some?
      {
        var d := ds[k];
        assert d == Detail(s, s.teams[k]);
        var inv := d.investments[j].investment;
        assert InvestmentsOf(d.investments)[j] == inv;
        assert inv in multiset(InvestmentsOf(d.investments));
        assert inv in s.investments;
        var st :| st in s.startups && st.id == inv.startupId;
      }
    }
  }

  function TeamsOf(ds: seq<TeamDetail>): seq<Team> {
    seq(|ds|, k requires 0 <= k < |ds| => ds[k].team)
  }
}
