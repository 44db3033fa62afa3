# Investment game ledger, modelled in Dafny

The investment game keeps a small ledger behind its HTTP routes. Teams hold
a balance, starting at 1,000,000. Users sign up together with a new team.
An administrator creates startups, and team members invest part of their
team's balance in startups that are still `PENDING`. This project models that
ledger as an immutable `State` holding four tables, each a sequence in store
order: teams, users, startups and investments. Every modelled route handler
and maintenance script is a pure function of the state, the caller's session
and the request (the two handlers under `app/api/admin/startups/[id]/` are not
modelled, see "Left out"):

- A handler that writes returns `Step(state, result)`. The state is the store
  afterwards, and the result is `Ok(value)` or `Err(error)`. Every error path
  is proved to leave the state unchanged.
- A query returns a `Result` only, so by its type it cannot change the store.

The session is an input, `Option<Session>`. `None` means nobody is signed in;
otherwise the session carries an optional user id, an optional team id and a
role. A falsy JavaScript value is modelled explicitly:

- For text fields, the empty string stands for a missing value.
- For ids, amounts and multipliers, `None` stands for a missing or `null`
  value. A zero amount or multiplier is handled as the handlers handle it.

Files, one module each:

- `common.dfy`: first match (`Find`), filter (`Filter`), descending sort
  (`SortDesc`), fresh keys (`NextId`).
- `ledger.dfy`: the records, `State`, `Session`, the errors (one per failed
  check, named after the handler's message: `StartupResolved`,
  `InsufficientFunds`, ...), the lookups by
  unique key, and the store invariant `Valid`. `Valid` covers unique ids,
  unique emails and team names, foreign keys, positive investment amounts and
  non-negative balances.
- `investments.dfy`, `register.dfy`, `admin_startups.dfy`, `team.dfy`,
  `leaderboard.dfy`, `startups.dfy`, `admin_teams.dfy`: one per route file.
- `update_multiplier.dfy`, `create_admin.dfy`: one per script.

In the following places the handlers behave differently from what their
names or neighbours suggest, and the model follows the handlers:

- Creating a startup does not check the multiplier's range, although editing
  a multiplier later requires at least 1.0. Only a falsy multiplier is
  replaced by 2.0.
- The team history reports a multiplier of 2.0 instead of the stored one.
- The leaderboard sorts by balance only, so the order of teams with equal
  balances is not fixed.
- The investment handler reads the balance and the outcome before its
  transaction, not inside it (see "Left out").

## Model

| member | source | states |
|---|---|---|
| Investments.PlaceInvestment | app/api/investments/route.ts:6-98 | Checks run in order: no user in the session gives Unauthorized; a missing startup id or an amount ≤ 0 gives InvalidAmount; no team with the caller as member gives NotFound(Team); an unknown startup gives NotFound(Startup); StartupResolved and InsufficientFunds are reported only when some startup is not pending or the member team's balance is below the amount. Every error leaves the store unchanged. On success, exactly one investment (amount, team id, startup id, time) with a fresh id is appended; only the member team's balance drops, by exactly the amount; users and startups are unchanged; the reported team is the debited team. |
| Investments.PlacementDecision | app/api/investments/route.ts:59-71 | In a consistent store, given the caller's team and the target startup: a non-pending startup gives StartupResolved; otherwise a balance below the amount gives InsufficientFunds; the placement succeeds exactly when the startup is pending and balance ≥ amount, so balance == amount is accepted. |
| Investments.PlacementPreservesValid | app/api/investments/route.ts:66-93 | Every store invariant survives a placement; in particular no balance becomes negative. |
| Investments.PlacementConservesMoney | app/api/investments/route.ts:74-93 | A successful placement lowers the sum of all balances by exactly the amount; balances plus invested amounts stay constant. |
| Investments.NoOverspend | app/api/investments/route.ts:66-93 | Two successful placements by the same caller, one after the other, together spend at most the balance the team had before the first. |
| Registration.Register | app/api/register/route.ts:6-66 | Any of name, email, password or team name missing gives MissingFields. A used email gives UserExists; this is checked before the team name. A taken team name gives TeamNameTaken. Registration succeeds exactly when all fields are present and both email and team name are unused. Errors leave the store unchanged. On success, exactly one team (given name, balance 1,000,000, fresh id) and one user (given name and email, the password hash, MEMBER role, bound to that team, fresh id) are appended, and nothing else changes. |
| Registration.RegisterPreservesValid | app/api/register/route.ts:18-66 | Registration keeps emails and team names unique and ids unique, keeps balances non-negative, and the new user refers to an existing team. |
| Registration.RegisterEmailOnce | app/api/register/route.ts:18-28 | After a successful registration, any complete request with the same email is refused with UserExists. |
| AdminStartups.CreateStartup | app/api/admin/startups/route.ts:37-66 | No session, or a role other than ADMIN, gives Unauthorized. A missing name, description or pitch gives MissingFields. Creation succeeds exactly when neither applies. Errors leave the store unchanged. On success, exactly one PENDING startup with a fresh id is appended, carrying the given texts and the current time. A missing or zero multiplier is stored as 2.0; any other multiplier is stored as given. |
| AdminStartups.CreateStartupNoRangeCheck | app/api/admin/startups/route.ts:62 | No range check: for every non-zero multiplier m below 1.0, negative ones included, a complete admin request succeeds and the new startup stores m. |
| AdminStartups.CreateStartupPreservesValid | app/api/admin/startups/route.ts:57-64 | Creating a startup keeps startup ids unique and every investment's startup reference valid. |
| AdminStartups.ListStartups | app/api/admin/startups/route.ts:6-27 | Non-admins get Unauthorized. Admins get every startup in store order, each with exactly the investments whose startupId matches (as a multiset). Each investment is paired with the team of its teamId, found exactly when such a team exists. |
| TeamQuery.History | app/api/team/route.ts:33-50 | The team's history is exactly the investments with that teamId (as a multiset), ordered by createdAt, newest first. |
| TeamQuery.TeamSnapshot | app/api/team/route.ts:6-66 | A session without a team id gives Unauthorized. An unknown team id gives NotFound(Team), and a known one always succeeds. The snapshot's team is the stored team with the session's team id. Its investments mirror the history one for one (id, amount, createdAt) in newest-first order. Each reported startup is found exactly when the investment's startup exists, and is then that startup's name, description and outcome with multiplier 2.0. |
| TeamQuery.SnapshotIgnoresStoredMultiplier | app/api/team/route.ts:52-59 | Changing any stored startup multipliers leaves the snapshot exactly as it was. |
| Leaderboard.Leaderboard | app/api/leaderboard/route.ts:6-34 | No session gives Unauthorized; otherwise the result is a permutation of all teams, non-increasing in balance. Each entry carries the size of the team's member list and of its investment list. |
| Leaderboard.LeaderboardCounts | app/api/leaderboard/route.ts:22-27 | In a consistent store each user count equals the number of distinct users whose teamId is the team. Each investment count equals the number of distinct investments with that teamId. |
| PendingStartups.PendingStartups | app/api/startups/route.ts:6-26 | No session gives Unauthorized; otherwise the result holds exactly the PENDING startups (none missing, no other outcome, as a multiset), ordered by createdAt, newest first. |
| AdminTeams.Detail | app/api/admin/teams/route.ts:22-31 | A team's listing holds exactly the users with its teamId and exactly the investments with its teamId, both as multisets, so each appears as often as in the store. Each investment is paired with the startup of its startupId, found exactly when such a startup exists. |
| AdminTeams.AdminTeams | app/api/admin/teams/route.ts:6-34 | Non-admins get Unauthorized. Admins get one detail per stored team, in store order. |
| AdminTeams.AdminTeamsComplete | app/api/admin/teams/route.ts:22-31 | Every team appears exactly once, in store order. In a consistent store every listed investment has its startup. |
| UpdateMultiplier.Backfill | scripts/update-multiplier.ts:5-23 | Afterwards every startup has a multiplier. One that had none gets exactly 2.0; one that had one is unchanged. No other field changes, the startups stay the same rows in the same order, and the other tables are untouched. |
| UpdateMultiplier.RunBackfill | scripts/update-multiplier.ts:8-21 | The row-by-row loop over the startups read up front ends in exactly the backfilled store. |
| UpdateMultiplier.BackfillIdempotent | scripts/update-multiplier.ts:11-21 | Running the backfill twice gives the same store as running it once. |
| UpdateMultiplier.BackfillPreservesValid | scripts/update-multiplier.ts:13-18 | The backfill keeps every store invariant. |
| CreateAdmin.CreateAdmin | scripts/create-admin.ts:6-28 | A missing email or password aborts with MissingCredentials and no change; otherwise the run succeeds. If a user with that email exists, the store is unchanged and that user is returned. Otherwise exactly one user is appended: ADMIN role, no team, the given email and hash, a fresh id, and the given name or "Admin". |
| CreateAdmin.CreateAdminIdempotent | scripts/create-admin.ts:19-28 | A second run with the same email leaves the store as the first run left it. |
| CreateAdmin.ExistingUserUntouched | scripts/create-admin.ts:19-21 | In a consistent store an existing user with the configured email is returned unchanged; for example, a MEMBER is not promoted. |
| CreateAdmin.CreateAdminPreservesValid | scripts/create-admin.ts:19-28 | The script keeps user ids and emails unique. |

## Left out

- Outcome resolution and multiplier editing are not part of this model. These are the handlers under `app/api/admin/startups/[id]/`, which pay out on SUCCESS and change a multiplier. Payouts, the outcome handler's acceptance of a second resolution (it rewrites the outcome and pays nothing, because it only pays investments whose startup is still pending), and the multiplier ≥ 1.0 check are therefore not modelled.
- Concurrency is not modelled. The investment handler reads the team's balance and the startup's outcome outside its batched transaction, which covers only the create and the decrement. The model applies handlers one at a time, so check and debit look atomic; `NoOverspend` is not a proof that concurrent requests cannot race.
- Storage failures are not modelled. This covers the catch-all 500 responses, logging, HTTP status codes and JSON encoding. In the route handlers every write is a single call or one batched transaction, so a failure there leaves no partial write; the model has no such failure.
- Sessions and authentication are abstract. `lib/auth.ts` (the next-auth configuration, OAuth provider, JWT callbacks, bcrypt comparison) is not part of this model; the session is an input record.
- Password hashing is an input: bcrypt is salted and random, so its output `hashed` is a parameter.
- Generated values are deterministic stand-ins. Primary keys are `nat`, and a new key is one more than the largest in its table, standing in for the store's unique ids. Creation timestamps are a `now` parameter.
- JavaScript numbers are abstracted. Amounts and balances are unbounded integers, and multipliers are exact reals. Fractional amounts, NaN and request fields of the wrong JSON type are not modelled.
- The pages and components (dashboard, admin, register, login, leaderboard, navbar) are not modelled, because they are presentation only.
- Leaderboard.Leaderboard: ties in balance come out in store order, but the contract promises no particular tie order, as the handler promises none.
- UpdateMultiplier.RunBackfill: updates a startup by its position among the rows read. The script updates by primary key, which is the same row because ids are unique.
- UpdateMultiplier.RunBackfill: assumes every update succeeds. The script updates one row per call without a transaction and only logs a failure, so a failure at one row leaves the earlier rows backfilled and the later ones untouched; the model does not describe that partial state.
