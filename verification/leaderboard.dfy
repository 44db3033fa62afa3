/** `GET /api/leaderboard`: every team ordered by balance, richest first,
    with the number of its members and of its investments. */
module Leaderboard {
  import opened Common
  import opened Ledger

  datatype Entry = Entry(team: Team, userCount: nat, investmentCount: nat)

  function Balance(t: Team): int {
    t.balance
  }

  function TeamsOf(es: seq<Entry>): seq<Team> {
    seq(|es|, k requires 0 <= k < |es| => es[k].team)
  }

  function Entries(s: State, ts: seq<Team>): (es: seq<Entry>)
    ensures TeamsOf(es) == ts
    ensures forall k :: 0 <= k < |es| ==>
              es[k].userCount == |UsersOf(s, es[k].team.id)|
              && es[k].investmentCount == |InvestmentsOfTeam(s, es[k].team.id)|
  {
    var es := seq(|ts|, k requires 0 <= k < |ts| =>
      Entry(ts[k], |UsersOf(s, ts[k].id)|, |InvestmentsOfTeam(s, ts[k].id)|));
    assert TeamsOf(es) == ts;
    es
  }

  /** Ties keep store order; the handler leaves their order unspecified. */
  function Leaderboard(s: State, session: Option<Session>): (r: Result<seq<Entry>>)
    ensures session.None? ==> r == Err(Unauthorized)
    ensures session.Some? ==> r.Ok?
    ensures r.Ok? ==>
              && |r.value| == |s.teams|
              && multiset(TeamsOf(r.value)) == multiset(s.teams)
              && (forall i, j :: 0 <= i < j < |r.value| ==> r.value[i].team.balance >= r.value[j].team.balance)
              && (forall k :: 0 <= k < |r.value| ==>
                    r.value[k].userCount == |UsersOf(s, r.value[k].team.id)|
                    && r.value[k].investmentCount == |InvestmentsOfTeam(s, r.value[k].team.id)|)
  {
    if session.None? then Err(Unauthorized)
    else
      var ranked := SortDesc(s.teams, Balance);
      var es := Entries(s, ranked);
      assert forall k :: 0 <= k < |es| ==> es[k].team == ranked[k] by {
        assert TeamsOf(es) == ranked;
      }
      Ok(es)
  }

  /** In a consistent store each count is the number of distinct records
      pointing at the team: its members and its investments. */
  lemma LeaderboardCounts(s: State, session: Option<Session>)
    requires Valid(s)
    ensures var r := Leaderboard(s, session);
            r.Ok? ==> forall k :: 0 <= k < |r.value| ==>
              && r.value[k].userCount == |set u | u in s.users && u.teamId == Some(r.value[k].team.id)|
              && r.value[k].investmentCount == |set i | i in s.investments && i.teamId == r.value[k].team.id|
  {
    var r := Leaderboard(s, session);
    if r.Ok? {
      forall k | 0 <= k < |r.value|
        ensures r.value[k].userCount == |set u | u in s.users && u.teamId == Some(r.value[k].team.id)|
        ensures r.value[k].investmentCount == |set i | i in s.investments && i.teamId == r.value[k].team.id|
      {
        MemberCount(s, r.value[k].team.id);
        HoldingCount(s, r.value[k].team.id);
      }
    }
  }

  lemma MemberCount(s: State, tid: Id)
    requires UniqueUserIds(s.users)
    ensures |UsersOf(s, tid)| == |set u | u in s.users && u.teamId == Some(tid)|
  {
    var us := UsersOf(s, tid);
    assert Distinct(s.users) by {
      forall i, j | 0 <= i < j < |s.users| ensures s.users[i] != s.users[j] {
        assert s.users[i].id != s.users[j].id;
      }
    }
    assert Distinct(us);
    DistinctCard(us);
    assert (set u | u in us) == (set u | u in s.users && u.teamId == Some(tid));
  }

  lemma HoldingCount(s: State, tid: Id)
    requires UniqueInvestmentIds(s.investments)
    ensures |InvestmentsOfTeam(s, tid)| == |set i | i in s.investments && i.teamId == tid|
  {
    var invs := InvestmentsOfTeam(s, tid);
    assert Distinct(s.investments) by {
      forall i, j | 0 <= i < j < |s.investments| ensures s.investments[i] != s.investments[j] {
        assert s.investments[i].id != s.investments[j].id;
      }
    }
    assert Distinct(invs);
    DistinctCard(invs);
    assert forall i :: i in invs <==> i in s.investments && i.teamId == tid by {
      forall i ensures i in invs <==> i in s.investments && i.teamId == tid {
        assert i in invs <==> multiset(invs)[i] > 0;
      }
    }
    assert (set i | i in invs) == (set i | i in s.investments && i.teamId == tid);
  }
}
