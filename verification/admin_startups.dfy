/** `/api/admin/startups`: the administrator's startup catalogue. `GET`
    lists every startup with the investments made in it; `POST` creates a
    pending startup, defaulting a falsy multiplier to `DefaultMultiplier`. */
module AdminStartups {
  import opened Common
  import opened Ledger

  /** The `POST` body. Empty strings stand for missing text fields; `None`
      for a missing or `null` multiplier. */
  datatype Request = Request(name: string, description: string, pitch: string, multiplier: Option<real>)

  /** An investment as listed under its startup, with its team joined in. */
  datatype InvestmentWithTeam = InvestmentWithTeam(investment: Investment, team: Option<Team>)

  datatype StartupDetail = StartupDetail(startup: Startup, investments: seq<InvestmentWithTeam>)

  /** The falsy multipliers `multiplier || 2.0` replaces: missing and zero. */
  predicate Falsy(m: Option<real>) {
    m.None? || m.value == 0.0
  }

  function CreateStartup(s: State, session: Option<Session>, req: Request, now: int): (r: Step<Startup>)
    ensures r.result.Err? ==> r.state == s
    ensures !IsAdmin(session) ==> r.result == Err(Unauthorized)
    ensures (IsAdmin(session) && !(Present(req.name) && Present(req.description) && Present(req.pitch)))
            ==> r.result == Err(MissingFields)
    ensures r.result.Ok? <==>
              IsAdmin(session) && Present(req.name) && Present(req.description) && Present(req.pitch)
    ensures r.result.Ok? ==>
              var st := r.result.value;
              && st.name == req.name && st.description == req.description && st.pitch == req.pitch
              && st.outcome == Pending && st.createdAt == now
              && (Falsy(req.multiplier) ==> st.multiplier == Some(DefaultMultiplier))
              && (!Falsy(req.multiplier) ==> st.multiplier == req.multiplier)
              && (forall x :: x in s.startups ==> x.id != st.id)
              && r.state == s.(startups := s.startups + [st])
  {
    if !IsAdmin(session) then Step(s, Err(Unauthorized))
    else if !Present(req.name) || !Present(req.description) || !Present(req.pitch) then
      Step(s, Err(MissingFields))
    else
      var multiplier := match req.multiplier
        case Some(m) => if m != 0.0 then m else DefaultMultiplier
        case None => DefaultMultiplier;
      var st := Startup(FreshStartupId(s), req.name, req.description, req.pitch, Pending, Some(multiplier), now);
      Step(s.(startups := s.startups + [st]), Ok(st))
  }

  /** Creation performs no range check: every truthy multiplier below 1.0,
      negative ones included, is accepted and stored as given. */
  lemma CreateStartupNoRangeCheck(s: State, session: Option<Session>, req: Request, now: int, m: real)
    requires IsAdmin(session) && Present(req.name) && Present(req.description) && Present(req.pitch)
    requires req.multiplier == Some(m) && m != 0.0 && m < 1.0
    ensures var r := CreateStartup(s, session, req, now);
            r.result.Ok? && r.result.value.multiplier == Some(m) && r.result.value in r.state.startups
  {
  }

  lemma CreateStartupPreservesValid(s: State, session: Option<Session>, req: Request, now: int)
    requires Valid(s)
    ensures Valid(CreateStartup(s, session, req, now).state)
  {
  }

  function InvestmentsOf(xs: seq<InvestmentWithTeam>): seq<Investment> {
    seq(|xs|, k requires 0 <= k < |xs| => xs[k].investment)
  }

  /** One startup with exactly the investments that reference it, each
      joined with the team of its `teamId`. */
  function Detail(s: State, st: Startup): (d: StartupDetail)
    ensures d.startup == st
    ensures forall inv :: multiset(InvestmentsOf(d.investments))[inv]
                          == if inv.startupId == st.id then multiset(s.investments)[inv] else 0
    ensures forall j :: 0 <= j < |d.investments| ==>
              (d.investments[j].team.Some? <==> exists x :: x in s.teams && x.id == d.investments[j].investment.teamId)
    ensures forall j :: 0 <= j < |d.investments| && d.investments[j].team.Some? ==>
              d.investments[j].team.value in s.teams
              && d.investments[j].team.value.id == d.investments[j].investment.teamId
  {
    StartupDetail(st, Join(s, InvestmentsOfStartup(s, st.id)))
  }

  /** Each investment of `invs`, in order, paired with the team of its
      `teamId` when the store has one. */
  function Join(s: State, invs: seq<Investment>): (js: seq<InvestmentWithTeam>)
    ensures InvestmentsOf(js) == invs
    ensures forall k :: 0 <= k < |js| ==>
              (js[k].team.Some? <==> exists x :: x in s.teams && x.id == js[k].investment.teamId)
    ensures forall k :: 0 <= k < |js| && js[k].team.Some? ==>
              js[k].team.value in s.teams && js[k].team.value.id == js[k].investment.teamId
  {
    var js := seq(|invs|, k requires 0 <= k < |invs| => InvestmentWithTeam(invs[k], TeamById(s, invs[k].teamId)));
    assert forall k :: 0 <= k < |invs| ==> InvestmentsOf(js)[k] == invs[k];
    js
  }

  /** `GET`: every startup in store order, each with exactly the investments
      that reference it, each investment joined with its team. */
  function ListStartups(s: State, session: Option<Session>): (r: Result<seq<StartupDetail>>)
    ensures !IsAdmin(session) ==> r == Err(Unauthorized)
    ensures IsAdmin(session) ==> r.Ok?
    ensures r.Ok? ==>
              && |r.value| == |s.startups|
              && forall k :: 0 <= k < |s.startups| ==>
                   var d := r.value[k];
                   && d.startup == s.startups[k]
                   && (forall inv :: multiset(InvestmentsOf(d.investments))[inv]
                                     == if inv.startupId == d.startup.id then multiset(s.investments)[inv] else 0)
                   && (forall j :: 0 <= j < |d.investments| ==>
                         var t := d.investments[j].team;
                         t.Some? <==> exists x :: x in s.teams && x.id == d.investments[j].investment.teamId)
                   && (forall j :: 0 <= j < |d.investments| && d.investments[j].team.Some? ==>
                         d.investments[j].team.value in s.teams
                         && d.investments[j].team.value.id == d.investments[j].investment.teamId)
  {
    if !IsAdmin(session) then Err(Unauthorized)
    else
      Ok(seq(|s.startups|, k requires 0 <= k < |s.startups| => Detail(s, s.startups[k])))
  }
}
