/** `GET /api/team`: the caller's own team and its investment history,
    newest first. Every listed investment reports the fixed multiplier
    `DefaultMultiplier`, whatever multiplier its startup stores. */
module TeamQuery {
  import opened Common
  import opened Ledger

  /** The startup fields the history selects, plus the forced multiplier. */
  datatype StartupView = StartupView(name: string, description: string, outcome: Outcome, multiplier: real)

  /** An investment as the history reports it; `startup` is `None` only for
      an investment whose startup row is missing, which the store's foreign
      key rules out. */
  datatype InvestmentView = InvestmentView(id: Id, amount: int, createdAt: int, startup: Option<StartupView>)

  datatype Snapshot = Snapshot(team: Team, investments: seq<InvestmentView>)

  function CreatedAt(i: Investment): int {
    i.createdAt
  }

  /** The team's investments ordered by creation time, newest first. */
  function History(s: State, tid: Id): (r: seq<Investment>)
    ensures forall i :: multiset(r)[i] == if i.teamId == tid then multiset(s.investments)[i] else 0
    ensures forall i, j :: 0 <= i < j < |r| ==> r[i].createdAt >= r[j].createdAt
  {
    SortDesc(InvestmentsOfTeam(s, tid), CreatedAt)
  }

  function View(s: State, inv: Investment): (v: InvestmentView)
    ensures v.id == inv.id && v.amount == inv.amount && v.createdAt == inv.createdAt
    ensures v.startup.Some? <==> exists st :: st in s.startups && st.id == inv.startupId
    ensures v.startup.Some? ==> v.startup.value.multiplier == DefaultMultiplier
    ensures v.startup.Some? ==>
              exists st :: st in s.startups && st.id == inv.startupId
                           && v.startup.value == StartupView(st.name, st.description, st.outcome, DefaultMultiplier)
  {
    var startup := match StartupById(s, inv.startupId)
      case Some(st) => Some(StartupView(st.name, st.description, st.outcome, DefaultMultiplier))
      case None => None;
    InvestmentView(inv.id, inv.amount, inv.createdAt, startup)
  }

  /** The history as reported: one view per investment, in the same order. */
  function Views(s: State, h: seq<Investment>): (v: seq<InvestmentView>)
    ensures |v| == |h|
    ensures forall k :: 0 <= k < |v| ==> v[k] == View(s, h[k])
    ensures forall k :: 0 <= k < |v| ==>
              v[k].id == h[k].id && v[k].amount == h[k].amount && v[k].createdAt == h[k].createdAt
    ensures forall k :: 0 <= k < |v| ==>
              (v[k].startup.Some? <==> exists st :: st in s.startups && st.id == h[k].startupId)
    ensures forall k :: 0 <= k < |v| && v[k].startup.Some? ==> v[k].startup.value.multiplier == DefaultMultiplier
    ensures forall k :: 0 <= k < |v| && v[k].startup.Some? ==>
              exists st :: st in s.startups && st.id == h[k].startupId
                           && v[k].startup.value == StartupView(st.name, st.description, st.outcome, DefaultMultiplier)
    ensures (forall i, j :: 0 <= i < j < |h| ==> h[i].createdAt >= h[j].createdAt) ==>
              forall i, j :: 0 <= i < j < |v| ==> v[i].createdAt >= v[j].createdAt
  {
    var v := seq(|h|, k requires 0 <= k < |h| => View(s, h[k]));
    assert forall k :: 0 <= k < |v| ==> v[k].createdAt == h[k].createdAt;
    v
  }

  function TeamSnapshot(s: State, session: Option<Session>): (r: Result<Snapshot>)
    ensures session.None? || session.value.teamId.None? ==> r == Err(Unauthorized)
    ensures (session.Some? && session.value.teamId.Some?
             && forall t :: t in s.teams ==> t.id != session.value.teamId.value)
            ==> r == Err(NotFound(TeamEntity))
    ensures (session.Some? && session.value.teamId.Some?
             && exists t :: t in s.teams && t.id == session.value.teamId.value)
            ==> r.Ok?
    ensures r.Ok? ==>
              && session.Some? && session.value.teamId.Some?
              && r.value.team in s.teams && r.value.team.id == session.value.teamId.value
    ensures r.Ok? ==>
              var h := History(s, r.value.team.id);
              var v := r.value.investments;
              && |v| == |h|
              && (forall k :: 0 <= k < |v| ==> v[k].id == h[k].id && v[k].amount == h[k].amount
                                               && v[k].createdAt == h[k].createdAt)
              && (forall k :: 0 <= k < |v| ==>
                    (v[k].startup.Some? <==> exists st :: st in s.startups && st.id == h[k].startupId))
              && (forall k :: 0 <= k < |v| && v[k].startup.Some? ==>
                    exists st :: st in s.startups && st.id == h[k].startupId
                                 && v[k].startup.value == StartupView(st.name, st.description, st.outcome, DefaultMultiplier))
    ensures r.Ok? ==>
              var v := r.value.investments;
              && (forall i, j :: 0 <= i < j < |v| ==> v[i].createdAt >= v[j].createdAt)
              && (forall k :: 0 <= k < |v| && v[k].startup.Some? ==> v[k].startup.value.multiplier == DefaultMultiplier)
  {
    if session.None? || session.value.teamId.None? then Err(Unauthorized)
    else
      match TeamById(s, session.value.teamId.value)
      case None => Err(NotFound(TeamEntity))
      case Some(team) =>
        var h := History(s, team.id);
        Ok(Snapshot(team, Views(s, h)))
  }

  /** `s'` differs from `s` at most in the multipliers its startups store. */
  ghost predicate SameButMultipliers(s: State, s': State) {
    && s'.teams == s.teams && s'.users == s.users && s'.investments == s.investments
    && |s'.startups| == |s.startups|
    && forall k :: 0 <= k < |s.startups| ==>
         s'.startups[k] == s.startups[k].(multiplier := s'.startups[k].multiplier)
  }

  /** The history never reads the stored multipliers: changing any of them
      leaves the snapshot exactly as it was. */
  lemma SnapshotIgnoresStoredMultiplier(s: State, s': State, session: Option<Session>)
    requires SameButMultipliers(s, s')
    ensures TeamSnapshot(s', session) == TeamSnapshot(s, session)
  {
    if session.Some? && session.value.teamId.Some? && TeamById(s, session.value.teamId.value).Some? {
      var team := TeamById(s, session.value.teamId.value).value;
      var h := History(s, team.id);
      assert History(s', team.id) == h;
      var v := Views(s, h);
      var v' := Views(s', h);
      forall k | 0 <= k < |h| ensures v'[k] == v[k] {
        StartupLookupIgnoresMultiplier(s, s', h[k].startupId);
      }
      assert v' == v;
    }
  }

  lemma StartupLookupIgnoresMultiplier(s: State, s': State, id: Id)
    requires SameButMultipliers(s, s')
    ensures StartupById(s', id).Some? <==> StartupById(s, id).Some?
    ensures StartupById(s, id).Some? ==>
              StartupById(s', id).value == StartupById(s, id).value.(multiplier := StartupById(s', id).value.multiplier)
  {
    FindPointwise(s.startups, s'.startups, KeyedBy(id));
  }
}
