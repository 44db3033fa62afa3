/** `POST /api/investments`: a team member allocates part of the team's
    balance to a pending startup. An ordered chain of checks is followed by
    one batched write that appends the investment and debits the team. */
module Investments {
  import opened Common
  import opened Ledger

  /** The request body. `None` stands for a missing field, `null` or an
      empty id; an amount of 0, which `!amount` also rejects, is `Some(0)`
      and falls under the `<= 0` check. */
  datatype Request = Request(startupId: Option<Id>, amount: Option<int>)

  /** The response: the new investment with its startup, and the team as it
      stands after the debit. */
  datatype Placement = Placement(investment: Investment, startup: Startup, team: Team)

  /** The session names a user. */
  predicate SignedIn(session: Option<Session>) {
    session.Some? && session.value.userId.Some?
  }

  /** The handler's amount check `!startupId || !amount || amount <= 0`,
      negated: a falsy amount (0) is covered by `amount > 0`. */
  predicate WellFormed(req: Request) {
    req.startupId.Some? && req.amount.Some? && req.amount.value > 0
  }

  /** The teams after `balance: { decrement: amount }` on the row keyed `id`. */
  function Debit(ts: seq<Team>, id: Id, amount: int): seq<Team> {
    seq(|ts|, k requires 0 <= k < |ts| =>
      if ts[k].id == id then ts[k].(balance := ts[k].balance - amount) else ts[k])
  }

  /** `after` is `before` with the balance of the rows keyed `id` lowered by
      `amount`; every other row, and every other field, is unchanged. */
  ghost predicate DebitedOnly(before: seq<Team>, after: seq<Team>, id: Id, amount: int) {
    && |after| == |before|
    && forall k :: 0 <= k < |before| ==>
         after[k] == if before[k].id == id then before[k].(balance := before[k].balance - amount) else before[k]
  }

  function PlaceInvestment(s: State, session: Option<Session>, req: Request, now: int): (r: Step<Placement>)
    ensures r.result.Err? ==> r.state == s
    ensures !SignedIn(session) ==> r.result == Err(Unauthorized)
    ensures SignedIn(session) && !WellFormed(req) ==> r.result == Err(InvalidAmount)
    ensures (&& SignedIn(session) && WellFormed(req)
             && (forall t :: t in s.teams ==> !HasMember(s, session.value.userId.value, t)))
            ==> r.result == Err(NotFound(TeamEntity))
    ensures (&& SignedIn(session) && WellFormed(req)
             && (exists t :: t in s.teams && HasMember(s, session.value.userId.value, t))
             && (forall st :: st in s.startups ==> st.id != req.startupId.value))
            ==> r.result == Err(NotFound(StartupEntity))
    ensures r.result == Err(StartupResolved) ==>
              exists st :: st in s.startups && st.id == req.startupId.value && st.outcome != Pending
    ensures r.result == Err(InsufficientFunds) ==>
              exists t :: t in s.teams && HasMember(s, session.value.userId.value, t) && t.balance < req.amount.value
    ensures r.result.Ok? ==>
              var p := r.result.value;
              var amount := req.amount.value;
              && SignedIn(session) && WellFormed(req)
              && p.investment == Investment(p.investment.id, amount, p.team.id, req.startupId.value, now)
              && (forall inv :: inv in s.investments ==> inv.id != p.investment.id)
              && p.startup in s.startups && p.startup.id == req.startupId.value && p.startup.outcome == Pending
              && (exists t :: t in s.teams && HasMember(s, session.value.userId.value, t)
                             && p.team == t.(balance := t.balance - amount) && t.balance >= amount)
              && r.state.investments == s.investments + [p.investment]
              && r.state.users == s.users
              && r.state.startups == s.startups
              && DebitedOnly(s.teams, r.state.teams, p.team.id, amount)
  {
    if !SignedIn(session) then Step(s, Err(Unauthorized))
    else if req.startupId.None? || req.amount.None? || req.amount.value <= 0 then
      Step(s, Err(InvalidAmount))
    else Admit(s, session.value.userId.value, req.startupId.value, req.amount.value, now)
  }

  /** The checks after the request is read: the caller's team, the startup,
      its outcome and the balance, in that order, then the write. */
  function Admit(s: State, uid: Id, sid: Id, amount: int, now: int): (r: Step<Placement>)
    ensures r.result.Err? ==> r.state == s
    ensures (forall t :: t in s.teams ==> !HasMember(s, uid, t)) ==> r.result == Err(NotFound(TeamEntity))
    ensures (&& (exists t :: t in s.teams && HasMember(s, uid, t))
             && (forall st :: st in s.startups ==> st.id != sid))
            ==> r.result == Err(NotFound(StartupEntity))
    ensures r.result == Err(StartupResolved) ==>
              exists st :: st in s.startups && st.id == sid && st.outcome != Pending
    ensures r.result == Err(InsufficientFunds) ==>
              exists t :: t in s.teams && HasMember(s, uid, t) && t.balance < amount
    ensures r.result.Ok? ==>
              var p := r.result.value;
              && p.investment == Investment(p.investment.id, amount, p.team.id, sid, now)
              && (forall inv :: inv in s.investments ==> inv.id != p.investment.id)
              && p.startup in s.startups && p.startup.id == sid && p.startup.outcome == Pending
              && (exists t :: t in s.teams && HasMember(s, uid, t)
                             && p.team == t.(balance := t.balance - amount) && t.balance >= amount)
              && r.state.investments == s.investments + [p.investment]
              && r.state.users == s.users
              && r.state.startups == s.startups
              && DebitedOnly(s.teams, r.state.teams, p.team.id, amount)
  {
    match TeamOfMember(s, uid)
    case None => Step(s, Err(NotFound(TeamEntity)))
    case Some(team) =>
      match StartupById(s, sid)
      case None => Step(s, Err(NotFound(StartupEntity)))
      case Some(startup) =>
        if startup.outcome != Pending then Step(s, Err(StartupResolved))
        else if team.balance < amount then Step(s, Err(InsufficientFunds))
        else
          var r := Record(s, team, startup, amount, now);
          assert team in s.teams && HasMember(s, uid, team) && r.result.value.team.id == team.id;
          r
  }

  /** The batched write of a placement that passed every check: the new
      investment is appended and only the team keyed `team.id` is debited. */
  function Record(s: State, team: Team, startup: Startup, amount: int, now: int): (r: Step<Placement>)
    ensures r.result.Ok?
    ensures var p := r.result.value;
            && p.investment == Investment(p.investment.id, amount, team.id, startup.id, now)
            && (forall inv :: inv in s.investments ==> inv.id != p.investment.id)
            && p.startup == startup
            && p.team == team.(balance := team.balance - amount)
            && r.state.investments == s.investments + [p.investment]
            && r.state.users == s.users
            && r.state.startups == s.startups
            && DebitedOnly(s.teams, r.state.teams, team.id, amount)
  {
    var investment := Investment(FreshInvestmentId(s), amount, team.id, startup.id, now);
    var s' := s.(teams := Debit(s.teams, team.id, amount), investments := s.investments + [investment]);
    Step(s', Ok(Placement(investment, startup, team.(balance := team.balance - amount))))
  }

  /** In a consistent store the caller's team and the target startup are
      unique, so the last three checks are decided exactly by the startup's
      outcome and the team's balance: a placement succeeds if and only if the
      startup is pending and the balance covers the amount, and a balance
      equal to the amount is accepted. */
  lemma PlacementDecision(s: State, session: Option<Session>, req: Request, now: int, t: Team, st: Startup)
    requires Valid(s)
    requires SignedIn(session) && WellFormed(req)
    requires t in s.teams && HasMember(s, session.value.userId.value, t)
    requires st in s.startups && st.id == req.startupId.value
    ensures var r := PlaceInvestment(s, session, req, now);
            && (st.outcome != Pending ==> r.result == Err(StartupResolved))
            && (st.outcome == Pending && t.balance < req.amount.value ==> r.result == Err(InsufficientFunds))
            && (r.result.Ok? <==> st.outcome == Pending && t.balance >= req.amount.value)
  {
    var uid := session.value.userId.value;
    MemberTeamUnique(s, uid, t);
    StartupByIdUnique(s, st);
    assert PlaceInvestment(s, session, req, now) == Admit(s, uid, st.id, req.amount.value, now);
  }

  /** A successful placement keeps every store invariant; in particular the
      debited team's balance stays non-negative. */
  lemma PlacementPreservesValid(s: State, session: Option<Session>, req: Request, now: int)
    requires Valid(s)
    ensures Valid(PlaceInvestment(s, session, req, now).state)
  {
    var r := PlaceInvestment(s, session, req, now);
    if r.result.Ok? {
      var t := PlacementWrite(s, session, req, now);
      DebitAppendValid(s, t, req.amount.value, r.result.value.investment);
    }
  }

  /** Money is neither created nor destroyed by a placement: the debited sum
      reappears as the new investment's amount, and the total of all balances
      falls by exactly the amount. */
  lemma PlacementConservesMoney(s: State, session: Option<Session>, req: Request, now: int)
    requires Valid(s)
    ensures var r := PlaceInvestment(s, session, req, now);
            r.result.Ok? ==>
              && TotalBalance(r.state.teams) == TotalBalance(s.teams) - req.amount.value
              && TotalBalance(r.state.teams) + TotalInvested(r.state.investments)
                 == TotalBalance(s.teams) + TotalInvested(s.investments)
  {
    var r := PlaceInvestment(s, session, req, now);
    if r.result.Ok? {
      var t := PlacementWrite(s, session, req, now);
      DebitTotal(s.teams, t.id, req.amount.value);
      TotalInvestedAppend(s.investments, r.result.value.investment);
    }
  }

  /** The sequential form of the double-spend scenario: two placements by the
      same caller, one after the other, can together spend no more than the
      team held before the first. */
  lemma NoOverspend(s: State, session: Option<Session>, req1: Request, req2: Request, now1: int, now2: int)
    requires Valid(s)
    ensures var r1 := PlaceInvestment(s, session, req1, now1);
            var r2 := PlaceInvestment(r1.state, session, req2, now2);
            r1.result.Ok? && r2.result.Ok? ==>
              exists t :: t in s.teams && HasMember(s, session.value.userId.value, t)
                          && req1.amount.value + req2.amount.value <= t.balance
  {
    var r1 := PlaceInvestment(s, session, req1, now1);
    if r1.result.Ok? && PlaceInvestment(r1.state, session, req2, now2).result.Ok? {
      var uid := session.value.userId.value;
      var t := PlacementWrite(s, session, req1, now1);
      PlacementPreservesValid(s, session, req1, now1);
      var t2 := PlacementWrite(r1.state, session, req2, now2);
      var u1 :| u1 in s.users && u1.id == uid && u1.teamId == Some(t.id);
      var u2 :| u2 in r1.state.users && u2.id == uid && u2.teamId == Some(t2.id);
      UserIdsDetermine(s.users, u1, u2);
      DebitedEntry(s.teams, t, req1.amount.value, t2);
    }
  }

  /** Names the team a successful placement debits, and the write it performs. */
  lemma PlacementWrite(s: State, session: Option<Session>, req: Request, now: int) returns (t: Team)
    requires PlaceInvestment(s, session, req, now).result.Ok?
    ensures var r := PlaceInvestment(s, session, req, now);
            && SignedIn(session) && WellFormed(req)
            && t in s.teams && HasMember(s, session.value.userId.value, t)
            && 0 < req.amount.value <= t.balance
            && r.result.value.team == t.(balance := t.balance - req.amount.value)
            && r.state == s.(teams := Debit(s.teams, t.id, req.amount.value),
                             investments := s.investments + [r.result.value.investment])
  {
    var r := PlaceInvestment(s, session, req, now);
    var p := r.result.value;
    var amount := req.amount.value;
    t :| t in s.teams && HasMember(s, session.value.userId.value, t)
         && p.team == t.(balance := t.balance - amount) && t.balance >= amount;
    assert p.team.id == t.id;
    DebitedOnlyIsDebit(s.teams, r.state.teams, t.id, amount);
  }

  /** `DebitedOnly` pins the teams down to exactly the result of `Debit`. */
  lemma DebitedOnlyIsDebit(before: seq<Team>, after: seq<Team>, id: Id, amount: int)
    requires DebitedOnly(before, after, id, amount)
    ensures after == Debit(before, id, amount)
  {
    var d := Debit(before, id, amount);
    assert forall k :: 0 <= k < |after| ==> after[k] == d[k];
  }

  // ---- helpers ----

  /** The write a successful placement performs keeps the store consistent. */
  lemma DebitAppendValid(s: State, t: Team, amount: int, inv: Investment)
    requires Valid(s)
    requires t in s.teams && 0 < amount <= t.balance
    requires inv.amount == amount && inv.teamId == t.id
    requires exists st :: st in s.startups && st.id == inv.startupId
    requires forall x :: x in s.investments ==> x.id != inv.id
    ensures Valid(s.(teams := Debit(s.teams, t.id, amount), investments := s.investments + [inv]))
  {
    var s' := s.(teams := Debit(s.teams, t.id, amount), investments := s.investments + [inv]);
    DebitKeepsKeys(s.teams, t, amount);
    DebitKeepsSolvent(s.teams, t, amount);
    assert ForeignKeys(s') by {
      forall x | x in s'.investments ensures exists y :: y in s'.teams && y.id == x.teamId {
        if x != inv {
          assert x in s.investments;
        }
      }
      forall x | x in s'.investments ensures exists y :: y in s'.startups && y.id == x.startupId {
        if x != inv {
          assert x in s.investments;
        }
      }
    }
    assert UniqueInvestmentIds(s'.investments) by {
      forall i, j | 0 <= i < j < |s'.investments| ensures s'.investments[i].id != s'.investments[j].id {
        if j == |s.investments| {
          assert s'.investments[i] in s.investments;
        }
      }
    }
  }

  /** Debiting changes balances only: ids and names stay where they were. */
  lemma DebitKeepsKeys(ts: seq<Team>, t: Team, amount: int)
    requires UniqueTeamIds(ts) && UniqueTeamNames(ts)
    requires t in ts
    ensures UniqueTeamIds(Debit(ts, t.id, amount)) && UniqueTeamNames(Debit(ts, t.id, amount))
    ensures forall y :: y in ts ==> exists x :: x in Debit(ts, t.id, amount) && x.id == y.id
  {
    var d := Debit(ts, t.id, amount);
    forall i, j | 0 <= i < j < |d| ensures d[i].id != d[j].id && d[i].name != d[j].name {
      assert d[i].id == ts[i].id && d[i].name == ts[i].name;
      assert d[j].id == ts[j].id && d[j].name == ts[j].name;
    }
    forall y | y in ts ensures exists x :: x in d && x.id == y.id {
      var k :| 0 <= k < |ts| && ts[k] == y;
      assert d[k] in d;
    }
  }

  /** A debit bounded by the debited team's balance leaves every team solvent. */
  lemma DebitKeepsSolvent(ts: seq<Team>, t: Team, amount: int)
    requires UniqueTeamIds(ts) && Solvent(ts)
    requires t in ts && amount <= t.balance
    ensures Solvent(Debit(ts, t.id, amount))
  {
  }

  /** Debiting a key that occurs exactly once lowers the total by the amount. */
  lemma {:induction false} DebitTotal(ts: seq<Team>, id: Id, amount: int)
    requires UniqueTeamIds(ts)
    requires exists t :: t in ts && t.id == id
    ensures TotalBalance(Debit(ts, id, amount)) == TotalBalance(ts) - amount
  {
    var d := Debit(ts, id, amount);
    assert d[1..] == Debit(ts[1..], id, amount);
    if ts[0].id == id {
      forall t | t in ts[1..] ensures t.id != id {
        var k :| 0 <= k < |ts[1..]| && ts[1..][k] == t;
        assert ts[0].id != ts[k + 1].id;
      }
      DebitAbsent(ts[1..], id, amount);
    } else {
      assert exists t :: t in ts[1..] && t.id == id by {
        var t :| t in ts && t.id == id;
        var k :| 0 <= k < |ts| && ts[k] == t;
        assert ts[1..][k - 1] == t;
      }
      DebitTotal(ts[1..], id, amount);
    }
  }

  /** Debiting a key that does not occur changes nothing. */
  lemma DebitAbsent(ts: seq<Team>, id: Id, amount: int)
    requires forall t :: t in ts ==> t.id != id
    ensures Debit(ts, id, amount) == ts
  {
  }

  /** After a debit, the row with the debited key is the debited team. */
  lemma DebitedEntry(ts: seq<Team>, t: Team, amount: int, x: Team)
    requires UniqueTeamIds(ts)
    requires t in ts && x in Debit(ts, t.id, amount) && x.id == t.id
    ensures x == t.(balance := t.balance - amount)
  {
    var d := Debit(ts, t.id, amount);
    var k :| 0 <= k < |d| && d[k] == x;
    assert ts[k] in ts;
    TeamIdsDetermine(ts, ts[k], t);
  }
}
