/** The `update-multiplier` maintenance script: every startup stored
    without a multiplier gets `DefaultMultiplier`; all others are left alone. */
module UpdateMultiplier {
  import opened Common
  import opened Ledger

  function Filled(st: Startup): Startup {
    if st.multiplier.None? then st.(multiplier := Some(DefaultMultiplier)) else st
  }

  /** The store once the script has run to completion. */
  function Backfill(s: State): (r: State)
    ensures r.teams == s.teams && r.users == s.users && r.investments == s.investments
    ensures |r.startups| == |s.startups|
    ensures forall k :: 0 <= k < |r.startups| ==> r.startups[k].multiplier.Some?
    ensures forall k :: 0 <= k < |s.startups| && s.startups[k].multiplier.None? ==>
              r.startups[k].multiplier == Some(DefaultMultiplier)
    ensures forall k :: 0 <= k < |s.startups| && s.startups[k].multiplier.Some? ==>
              r.startups[k] == s.startups[k]
    ensures forall k :: 0 <= k < |s.startups| ==>
              r.startups[k] == s.startups[k].(multiplier := r.startups[k].multiplier)
  {
    s.(startups := seq(|s.startups|, k requires 0 <= k < |s.startups| => Filled(s.startups[k])))
  }

  /** The script's loop: it reads all startups once, then updates, one row
      at a time, each row that was read without a multiplier. */
  method RunBackfill(s: State) returns (r: State)
    ensures r == Backfill(s)
  {
    var read := s.startups;
    r := s;
    var n := 0;
    while n < |read|
      invariant 0 <= n <= |read|
      invariant r.teams == s.teams && r.users == s.users && r.investments == s.investments
      invariant |r.startups| == |read|
      invariant forall k :: 0 <= k < n ==> r.startups[k] == Filled(read[k])
      invariant forall k :: n <= k < |read| ==> r.startups[k] == read[k]
    {
      if read[n].multiplier.None? {
        r := r.(startups := r.startups[n := read[n].(multiplier := Some(DefaultMultiplier))]);
      }
      n := n + 1;
    }
  }

  /** Running the script a second time changes nothing. */
  lemma BackfillIdempotent(s: State)
    ensures Backfill(Backfill(s)) == Backfill(s)
  {
  }

  /** Only multipliers change, so every store invariant survives the script. */
  lemma BackfillPreservesValid(s: State)
    requires Valid(s)
    ensures Valid(Backfill(s))
  {
  }
}
