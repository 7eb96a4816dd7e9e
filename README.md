# Dice racing backend — Dafny model

This project models the core of a small multi-user dice racing game. Users
register and log in with a bearer token. They enter a shared venue and roll a
dice to move along a 22-step track. Each racer has a "condition" resource
that super-mode rolls use up.

The model has five parts:

- **Rules engine** (`racing_engine.dfy`, module `RacingEngine`). This is the
  backend's pure roll function. It works out the steps from the mode and the
  dice; in super mode the steps are capped by the condition. It then gives
  the new position, the new condition, `won` (finish line at 22) and
  `gameOver` (out of condition, and only when the roll did not win). The
  helpers `HasWon` and `IsGameOver` are the source's own predicates; `Roll`
  uses them.
- **Frontend rule fragment** (`frontend_engine.dfy`, module `FrontendEngine`).
  This is the web client's older rule set: super mode is not capped, and one
  point of damage is taken when the dice shows 1. Lemmas compare it with the
  backend rules.
- **Venue records** (`venue_models.dfy`, module `VenueModels`). These are the
  rows of the venues, participants, rounds and round-results tables, with
  their column defaults and unique keys. A unique-key insert shows that the
  rounds and results tables never get duplicate keys.
- **Venue endpoints** (`venues.dfy`, module `Venues`). The class
  `VenueStore` holds the venues table (a sequence in id order) and the
  participants table (a map keyed by the unique `(venue_id, user_id)` pair).
  Its methods are list, create, enter (an idempotent join), read (guarded by
  404 and 403) and roll. Roll checks its guards in this order: 404, 403, 400
  (already won), 400 (game over). A participant invariant, `Consistent`, is
  kept by every method. The lemma `PlayIsBounded` shows that a racer gets at
  most 22 accepted rolls.
- **Users and tokens** (`auth.dfy`, module `Auth`). The class `AuthStore`
  holds the users table (keyed by id, with unique usernames) and the token
  table (token to optional user id). It has register (409 for a taken name)
  and login (401). The pure function `CurrentUser` is the bearer check with
  its three distinct 401 outcomes. `Me` is built on it.

Inputs that come from outside the program are parameters:

- The dice value is a parameter restricted to 1..6. The server draws it at
  random.
- Password hashing and checking are function-valued parameters (`hash`,
  `verify`).
- A new token is a parameter, required to be non-empty and not already in
  the token table. The source gets it from a secure random generator.
- The authenticated caller is passed to the venue methods as an `Auth.User`.

Each request is one atomic method call. The users model file
(`backend/models/user.py`) is not part of this model. `Auth.User` has the
three columns the code reads: id, username and password hash.

Three facts about the code that a reader might not expect:

- The roll endpoint does not increment `roll_count` and does not set
  `finished_at`, and no endpoint in backend/routers creates, ranks or resets
  rounds. So `Consistent` states that these two participant columns keep
  their defaults.
- Positions are not capped at 22: a winning roll may overshoot the finish.
- The engine's docstring says it matches the frontend engine. It does not:
  `FrontendEngine.SuperStepsCompare` and `FrontendEngine.ConditionRulesAgree`
  state exactly where the two differ.

## Model

| member | source | states |
|---|---|---|
| RacingEngine.EngineConstants | backend/racing_engine.py:3-4 | The track is 22 steps long and the initial condition is 6. |
| RacingEngine.HasWon | backend/racing_engine.py:13-14 | A racer has won iff its position is at least 22. |
| RacingEngine.IsGameOver | backend/racing_engine.py:17-18 | A racer is out of condition iff its condition is at most 0. |
| RacingEngine.AdvanceSteps | backend/racing_engine.py:7-10 | Normal mode gives 1 or 2 steps, 2 exactly on an even dice, whatever the condition. Any other mode gives at most the dice and at most max(0, condition), and equals one of them. The result is never negative for a non-negative dice. |
| RacingEngine.Roll | backend/racing_engine.py:13-33 | New position is position plus steps. Condition drops by one exactly in super mode. `won` holds iff the new position is at least 22. `gameOver` holds iff not won and new condition is at most 0, so both are never true together. Position never falls for dice at least 1. The function is total: every input gives a result. |
| RacingEngine.WinTakesPriority | backend/racing_engine.py:25-26 | A roll that reaches the finish line wins and is not game over, even if the condition runs out on the same roll. |
| RacingEngine.FirstNormalRoll | backend/tests/test_main.py:240-245 | From position 0 with condition 6, a normal roll of 1..6 moves 1 or 2 steps. The new position equals the steps, the condition stays 6, and it neither wins nor ends the game. |
| RacingEngine.RollMakesProgress | backend/racing_engine.py:7-10 | With positive condition and a dice of 1..6, every mode advances at least one step. |
| FrontendEngine.AdvanceSteps | frontend/src/racing/engine.ts:5-11 | Normal mode gives 1 or 2 steps, 2 exactly on an even dice. Super mode gives exactly the dice value. |
| FrontendEngine.ApplyDamage | frontend/src/racing/engine.ts:13-16 | Condition drops by one exactly when the dice is 1, and is otherwise unchanged. |
| FrontendEngine.InitialConditionsAgree | frontend/src/racing/engine.ts:3 | The frontend's initial condition constant is 6, the same as the backend's. |
| FrontendEngine.NormalStepsAgree | frontend/src/racing/engine.ts:6-8 | The frontend and backend normal-mode step rules agree for every dice and condition. |
| FrontendEngine.SuperStepsCompare | frontend/src/racing/engine.ts:10 | For a dice of 1..6, the super-mode rules agree when condition is at least the dice. Below that, the backend's capped value is strictly smaller. |
| FrontendEngine.ConditionRulesAgree | frontend/src/racing/engine.ts:13-16 | The backend and frontend give the same new condition iff "mode is super" and "dice is 1" are both true or both false. |
| VenueModels.NewVenue | backend/models/venue.py:9-15 | A venue inserted with only a name starts at round 1. |
| VenueModels.NewParticipant | backend/models/venue.py:28-34 | A new participant row is at position 0 with condition 6, in mode "normal", neither won nor game over, with roll count 0 and no finishing time. |
| VenueModels.InsertUnique | backend/models/venue.py:23 | Inserting under a unique key fails iff a row with that key exists. Otherwise it appends the row and keeps the keys unique. |
| VenueModels.InsertRoundKeepsUnique | backend/models/venue.py:41-48 | A round insert is refused iff that venue already has that round number. The rounds table keeps at most one row per (venue, round number). |
| VenueModels.InsertResultKeepsUnique | backend/models/venue.py:53-63 | A result insert is refused iff that (venue, round, user) already has a result. The results table keeps at most one row per triple. |
| Auth.CurrentUser | backend/auth.py:38-63 | A missing or empty credential gives "not authenticated". A token absent from the table, or bound to no user, gives "invalid or expired". A token bound to a user id with no row gives "user not found". Otherwise the result is the user the token is bound to. Each case holds iff its condition holds. |
| Auth.Me | backend/routers/auth.py:35-38 | Succeeds exactly when the bearer check does, with the same error otherwise. Answers the id the token is bound to and that user's username. |
| Auth.BoundTokenAuthenticates | backend/auth.py:49-63 | A non-empty token just bound to a stored user authenticates as that user. |
| Auth.AuthStore.Register | backend/routers/auth.py:41-61 | A taken username gives 409 and leaves both tables unchanged. Otherwise exactly one user is added under a new id with hash(password), and the new token is bound to it and returned. Usernames stay unique, and the token then authenticates as the new user. |
| Auth.AuthStore.Login | backend/routers/auth.py:72-84 | An unknown username or a password that fails verification gives 401 and leaves the token table unchanged. Otherwise the new token is bound to the user with that name and returned; users are never changed. |
| Auth.RegisterThenRepeat | backend/tests/test_main.py:82-112 | After a successful registration, the same name registers again only with 409. Login with the same password succeeds when the check accepts its own hash. |
| Venues.GetVenueOr404 | backend/routers/venues.py:70-74 | Returns the first venue row with the id, and fails with 404 exactly when no row has it. |
| Venues.NormaliseMode | backend/routers/venues.py:189 | The mode is always "normal" or "super". It is "super" exactly when the request says "super", and a known mode is kept as is. |
| Venues.ApplyRoll | backend/routers/venues.py:197-201 | The written row takes the engine's new position, new condition, won and game over, and the mode used. Venue, user, roll count and finishing time are left as they were. |
| Venues.ResponseOf | backend/routers/venues.py:203-210 | The response carries the drawn dice and the engine's steps, new position, new condition, won and game over. These are the same values the roll writes into the row. |
| Venues.NewParticipantConsistent | backend/routers/venues.py:84-92 | A freshly joined row satisfies the participant invariant and is not finished. |
| Venues.ApplyRollKeepsConsistent | backend/routers/venues.py:191-201 | A roll accepted for an unfinished consistent row keeps the invariant and advances at least one step. It never gives won and game over together, and leaves keys, roll count and finishing time alone. |
| Venues.PlayIsBounded | backend/routers/venues.py:185-201 | Over any series of accepted rolls, the row stays consistent and gains at least one step per roll. The series is no longer than the distance left to the finish line. |
| Venues.RaceEndsWithinTrackLength | backend/routers/venues.py:185-201 | From a new participant, at most 22 rolls are accepted, and the final row is never both won and game over. |
| Venues.VenueStore.ListVenues | backend/routers/venues.py:46-53 | Returns every venue's id and name, index for index, in strictly increasing id order. |
| Venues.VenueStore.CreateVenue | backend/routers/venues.py:56-67 | Appends one venue with a new id, the given name and round 1, and returns its id and name. Participants are unchanged. |
| Venues.VenueStore.EnsureParticipant | backend/routers/venues.py:77-96 | An existing (venue, user) row is returned unchanged and nothing is added. Otherwise exactly one new row with the initial state is added. |
| Venues.VenueStore.EnterVenue | backend/routers/venues.py:99-108 | A missing venue gives 404 and nothing changes. Otherwise the caller joins idempotently and the answer is status "ok" with the venue id. |
| Venues.VenueStore.GetVenue | backend/routers/venues.py:111-150 | A missing venue gives 404. A caller with no row there gives 403. Otherwise the answer has the venue's id and name and exactly the states of that venue's participants that join to a user row. |
| Venues.VenueStore.RollDice | backend/routers/venues.py:166-210 | Guards apply in order: 404, then 403, then 400 already won, then 400 game over. Any error leaves every row unchanged. On success, only the caller's row changes, becoming the engine result for the drawn dice with the normalised mode. The response mirrors the new row and the dice. |
| Venues.FirstRollScenario | backend/tests/test_main.py:227-249 | In a new venue, one entered user's first normal roll succeeds with 1 or 2 steps, new position equal to steps, condition 6, and neither won nor game over. The venue detail then shows the racer at that position with condition 6. |

## Left out

- The random dice draw is an input restricted to 1..6. Password hashing and checking are parameters. Token generation is an input assumed non-empty and not yet in the table.
- Auth.AuthStore.Register, Auth.AuthStore.Login: a colliding token (a database primary-key failure) is excluded by precondition rather than modelled as an error.
- The 500 error path of registration (an unexpected database exception) is not modelled.
- Database sessions, commits, `get_db` and HTTP plumbing are not modelled. Errors are an enum per module, with the status code in a comment.
- The clock-default columns are not modelled: `created_at` of venues and users, `updated_at` of participants, and `created` of tokens. No endpoint in backend/routers reads them.
- Surrogate row ids of participants, rounds and results are not modelled: no endpoint in backend/routers reads them.
- No endpoint in backend/routers reads or writes the rounds and results tables, so they are modelled only as records with unique keys. This also leaves out round snapshots, rankings, race reset, `roll_count` increments and `finished_at` stamping.
- `duration_seconds` of a round result is a floating-point column and is left out.
- Venues.VenueStore.GetVenue: returns the participants as a set, not a list. The source query has no ORDER BY, so its order is unspecified.
- Concurrent requests and transaction isolation are not modelled.
- The default venue created at process startup is not part of this model.
- The frontend engine takes JavaScript numbers. The model uses integers, so fractional dice values are not captured.
