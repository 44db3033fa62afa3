/** `GET /api/startups`: the startups still open for investment, newest
    first, for any signed-in caller. */
module PendingStartups {
  import opened Common
  import opened Ledger

  function StartupCreatedAt(st: Startup): int {
    st.createdAt
  }

  function PendingStartups(s: State, session: Option<Session>): (r: Result<seq<Startup>>)
    ensures session.None? ==> r == Err(Unauthorized)
    ensures session.Some? ==> r.Ok?
    ensures r.Ok? ==> forall st :: multiset(r.value)[st] ==
                        if st.outcome == Pending then multiset(s.startups)[st] else 0
    ensures r.Ok? ==> forall st :: st in r.value <==> st in s.startups && st.outcome == Pending
    ensures r.Ok? ==> forall i, j :: 0 <= i < j < |r.value| ==> r.value[i].createdAt >= r.value[j].createdAt
  {
    if session.None? then Err(Unauthorized)
    else
      var pending := Filter(s.startups, (st: Startup) => st.outcome == Pending);
      var sorted := SortDesc(pending, StartupCreatedAt);
      assert forall st :: st in sorted <==> st in multiset(pending);
      Ok(sorted)
  }
}
