# Golf league tracker: a Dafny model of the league components

The golf league tracker is a React front end for running golf leagues. Its
pages do the following:

- keep a list of courses with up to 18 holes, each with a par and a handicap;
- keep teams of one to four players;
- run leagues that tie a course, a number of weeks and a set of teams together;
- pair the teams of a league into weekly matches;
- let players' scores be entered hole by hole.

Everything the pages hand to the back end goes through thin `fetch` wrappers.
This project models the logic that lives in the page components and proves
what those components promise.

- **`js.dfy` (module `Js`):** the few JavaScript semantics the components
  rely on:
  - truthiness and `a || b`;
  - `parseInt` in base 10;
  - `Number(...)` on a string, integers only;
  - `String(n)` and `trim`.

  It also proves that `parseInt(String(n))` and `Number(String(n))` both
  give back `n`. That round trip is how a `<select>` whose options carry
  `team.id` hands ids back to the page.
- **`schedule.dfy` (module `Schedule`):** the team and match-record entities
  the two pairing engines share. It shows that reordering a roster keeps its
  team ids distinct.
- **`match_generator.dfy` (module `MatchGenerator`):** the weekly pairing
  screen. A class `MatchGeneratorSession` holds the screen's state:
  - the generated pairings;
  - the working copy the user edits;
  - the conflict list;
  - the next week number.

  Around it:
  - the next week number is a max-reduce over the match history;
  - the pairing loop and the conflict scan are methods with loop
    invariants;
  - each method is proved equal to a reference function;
  - the reference functions' properties are proved as lemmas: conflicts are
    empty exactly when no team repeats, every reported conflict is sound, and
    a fresh generation has no conflict.
- **`league_details.dfy` (module `LeagueDetails`):** the league page's own
  generator:
  - an in-place Fisher–Yates shuffle over an array copy of the roster,
    proved equal to a functional shuffle that is a permutation;
  - a loop that shifts two teams at a time off the front and pairs them;
  - the week view, the delete-week selection, the default week and the
    "Create New Week" gate.
- **`courses.dfy` (module `Courses`):**
  - the 18-hole template;
  - `getValidHoles` (filter, renumber, default the handicap);
  - the per-hole editor;
  - rebuilding 18 slots from a stored course;
  - the data `handleSubmit` sends.
- **`teams.dfy` (module `Teams`):** the player list bounded to 1..4 rows, its
  editors, `validateTeam` and the submit step.
- **`leagues.dfy` (module `Leagues`):** `validateLeague` with its 1..15 week
  bound, the team multi-select, and resetting or copying the form.
- **`score_entry.dfy` (module `ScoreEntry`):**
  - the checks made while loading a match;
  - the empty score grid, built by a loop;
  - a single-cell update;
  - flattening the grid into per-hole records.

`Math.random` enters as a parameter:

- For `MatchGenerator`'s `sort(() => Math.random() - 0.5)`, the parameter is
  any permutation of the roster.
- For the Fisher–Yates loop, it is a sequence of draws in [0, 1).

`window.confirm` is a boolean parameter. Today's date and a league's start
date are day numbers.

## Model

| member | source | states |
|---|---|---|
| Js.BlankIffAllWhitespace | src/components/Teams.js:131 | `!s.trim()` holds exactly when every character of `s` is white space |
| Js.ParseIntOfIntToString | src/components/MatchGenerator.js:151-157 | parsing the decimal text of an integer (an option value `team.id`) gives back that integer |
| Js.ParseIntValueOfNum | src/components/Courses.js:107 | `parseInt` of a number value is that number |
| Js.StringToNumberOfIntToString | src/components/Leagues.js:112 | `Number` of the decimal text of an integer is that integer, so a typed number compares as that number |
| Schedule.PermutationKeepsDistinctIds | src/components/MatchGenerator.js:49 | any reordering of a roster with distinct ids still has distinct ids |
| MatchGenerator.MaxWeek | src/components/MatchGenerator.js:20-21 | the reduce is at least 0, bounds every week (missing weeks count 0), and is 0 or one of the weeks |
| MatchGenerator.NextWeekNumber | src/components/MatchGenerator.js:20-22 | the next week is at least 1, exceeds every stored week, is one past a stored week unless it is 1, and is 1 for an empty history |
| MatchGenerator.PairOff | src/components/MatchGenerator.js:52-58 | the stepped loop yields ⌊n/2⌋ pairings, pairing k is (shuffled[2k], shuffled[2k+1]) and not manual, and an odd last team is dropped |
| MatchGenerator.ScanConflicts | src/components/MatchGenerator.js:64-85 | the nested scan with its appearance map computes exactly the reference conflict list `ConflictsOf` |
| MatchGenerator.FirstSeenMeaning | src/components/MatchGenerator.js:65-78 | the appearance map holds exactly the ids seen so far, each mapped to the pairing of its first slot |
| MatchGenerator.ConflictsEmptyIff | src/components/MatchGenerator.js:84 | `checkConflicts` returns true exactly when no team id occurs in two slots |
| MatchGenerator.ConflictsOfSound | src/components/MatchGenerator.js:68-80 | every conflict names a team found in pairing firstIndex, in no earlier pairing, and again in pairing index ≥ firstIndex |
| MatchGenerator.GeneratedHasNoConflicts | src/components/MatchGenerator.js:49-58 | with distinct roster ids a generated set never pairs a team with itself, never repeats a team, and raises no conflict |
| MatchGenerator.FindTeam | src/components/MatchGenerator.js:151 | `find` returns the first roster team with that id, or nothing when no team has it |
| MatchGenerator.SelectTeamMeaning | src/components/MatchGenerator.js:150-158 | the "Select Team" option leaves the slot empty; the option of a team selects that very team |
| MatchGenerator.UpdatePairing | src/components/MatchGenerator.js:87-94 | only pairing `index` changes: the named slot takes the value, the other slot stays, it becomes manual; the length is kept |
| MatchGenerator.FormatMatches | src/components/MatchGenerator.js:114-120 | formatting fails exactly when some slot is empty; otherwise one record per pairing, in order, with the pairing's team ids |
| MatchGenerator.SubmitOutcomeOf | src/components/MatchGenerator.js:105-131 | submit is cancelled exactly when conflicts exist and are not confirmed, and fails with the save error exactly when it goes on with an empty slot. Otherwise every record carries the league, the week, the date and the pairing's teams |
| MatchGenerator.StaleConflictsBlockSubmit | src/components/MatchGenerator.js:48-62 | after regenerating as written, a leftover conflict list differs from the new copy's (empty) one and still cancels an unconfirmed submit |
| MatchGenerator.EditReportsConflict | src/components/MatchGenerator.js:87-96 | choosing an already placed team reports it with both pairing indexes |
| MatchGenerator.MatchGeneratorSession.constructor | src/components/MatchGenerator.js:33-62 | the first generation pairs off the shuffled roster, the working copy equals the generated set, there are no conflicts, and reset is disabled |
| MatchGenerator.MatchGeneratorSession.Regenerate | src/components/MatchGenerator.js:197 | regenerating replaces both lists by a fresh pairing and recomputes the (empty) conflict list; the invariant is kept |
| MatchGenerator.MatchGeneratorSession.RegenerateAsWritten | src/components/MatchGenerator.js:197 | regenerating as written replaces both lists and keeps the old conflict list |
| MatchGenerator.MatchGeneratorSession.MatchUpdate | src/components/MatchGenerator.js:87-96 | the working copy becomes `UpdatePairing` of the selected team, conflicts are recomputed from the whole new list, the result is true iff no team repeats, and reset becomes enabled |
| MatchGenerator.MatchGeneratorSession.Reset | src/components/MatchGenerator.js:98-103 | on confirmation the working copy is the generated set again and conflicts are cleared; otherwise nothing changes |
| MatchGenerator.MatchGeneratorSession.Submit | src/components/MatchGenerator.js:105-131 | the outcome is `SubmitOutcomeOf` the current state, a failure is shown as the error, and the pairings are left alone |
| LeagueDetails.DrawIndex | src/components/LeagueDetails.js:127 | `Math.floor(Math.random() * (i + 1))` lies in 0..i |
| LeagueDetails.SwapPermutes | src/components/LeagueDetails.js:128 | a swap keeps the multiset of teams |
| LeagueDetails.WalkPermutes | src/components/LeagueDetails.js:126-129 | every walk of swaps from position i down to 1 keeps the multiset of teams |
| LeagueDetails.ShufflePermutes | src/components/LeagueDetails.js:126-129 | the Fisher–Yates walk from n-1 down to 1 yields a permutation of the roster |
| LeagueDetails.SwapInPlace | src/components/LeagueDetails.js:128 | the destructuring swap on the array is `Swap` of its old contents |
| LeagueDetails.ShuffleInPlace | src/components/LeagueDetails.js:126-129 | the in-place loop over the array leaves exactly `Shuffle` of its old contents |
| LeagueDetails.NewWeekNumber | src/components/LeagueDetails.js:123 | the new week is at least 1, above every stored week, and one past a stored week unless it is 1 |
| LeagueDetails.WeekNumberAsWrittenMisnumbers | src/components/LeagueDetails.js:123 | counting records skips week 2 after a two-match week 1, and reuses week 2 when only week 2 remains |
| LeagueDetails.ShiftPairs | src/components/LeagueDetails.js:132-145 | the shift loop terminates and yields ⌊n/2⌋ records. Record k pairs teams 2k and 2k+1 and carries the league, the week and the week's date. A lone last team gives none. A missing start date makes the date computation throw |
| LeagueDetails.GenerateWeekMatches | src/components/LeagueDetails.js:114-153 | for a given week number: a missing or empty roster is refused with 'No teams available to create matches'. Otherwise the records are those of `ShiftPairs` over the shuffled copy, and the league's roster is not modified |
| LeagueDetails.GenerateNewWeekMatches | src/components/LeagueDetails.js:114-153 | as written: every record of the new week has week number = number of stored match records + 1, and is dated that many weeks minus one after the start. The errors are those of `GenerateWeekMatches` |
| LeagueDetails.GenerateNewWeekMatchesCorrected | src/components/LeagueDetails.js:123 | the corrected generator: every record's week number lies above every stored match's week, and it is one past the latest stored week |
| LeagueDetails.GeneratedWeekUsesTeamsOnce | src/components/LeagueDetails.js:121-145 | with distinct roster ids the generated records never pair a team with itself, never reuse a team, and use only roster teams |
| LeagueDetails.WeekView | src/components/LeagueDetails.js:106 | the view keeps exactly the matches of the current week, each as often as stored |
| LeagueDetails.WeekViewMembers | src/components/LeagueDetails.js:106 | a match is shown exactly when it is stored and belongs to the current week |
| LeagueDetails.MatchIdsMembers | src/components/LeagueDetails.js:195-196 | an id is listed exactly when some match of the list carries it |
| LeagueDetails.DeleteWeekTargets | src/components/LeagueDetails.js:187-197 | on confirmation an id is deleted exactly when it belongs to a match of the current week; nothing without confirmation |
| LeagueDetails.DefaultWeek | src/components/LeagueDetails.js:95-97 | a current week missing from non-empty available weeks becomes the first of them; otherwise it is kept |
| LeagueDetails.CreateWeekGateComparison | src/components/LeagueDetails.js:230 | the week-count gate offers the button whenever the record-count gate does; a league with two played two-match weeks of three is offered it only by the week-count gate |
| LeagueDetails.CreateWeekOfferedCountsWeeks | src/components/LeagueDetails.js:230 | with the corrected gate, when the played weeks are exactly 1..k, the button is offered exactly while k is below `number_of_weeks`, however many matches a week holds |
| Courses.InitialHoles | src/components/Courses.js:12-19 | the template has 18 holes numbered 1..18, each with par 4 and handicap 1 and no id |
| Courses.NewCourseForm | src/components/Courses.js:178-187 | the reset form has an empty name and the 18-hole template |
| Courses.FilledHoles | src/components/Courses.js:80 | the filter never lengthens the list and every kept hole has a par |
| Courses.FilledHolesMembers | src/components/Courses.js:80 | the filter keeps exactly the holes whose par is not '' |
| Courses.FilledHolesAppend | src/components/Courses.js:80 | the filter keeps the holes' order |
| Courses.GetValidHoles | src/components/Courses.js:73-86 | a missing list gives []. Otherwise the kept holes, in order, numbered 1..k, each with its id and par, and its handicap or 0 when that is falsy |
| Courses.ValidHolesIdempotent | src/components/Courses.js:73-86 | applying `getValidHoles` twice gives the same holes as once |
| Courses.InitialHolesAreValid | src/components/Courses.js:79-86 | all 18 template holes survive `getValidHoles` unchanged |
| Courses.HandleHoleChange | src/components/Courses.js:56-64 | only the named field of the hole at `holeIndex` changes, to '' for '' and to the parsed integer otherwise; an index out of range changes nothing |
| Courses.HoleChangeStoresNumber | src/components/Courses.js:61 | typing the decimal text of n stores n |
| Courses.ClearingParDropsHole | src/components/Courses.js:61 | clearing a filled par removes exactly that hole from the valid holes, the others keeping their order |
| Courses.FindByNumber | src/components/Courses.js:197 | `find` returns the first hole with that number, or nothing when no hole has it |
| Courses.HandleEdit | src/components/Courses.js:194-211 | always 18 slots numbered 1..18. Slot k copies the id of the first stored hole numbered k. Its par and handicap are copied when truthy and become '' when falsy. A number without a hole gives a blank slot |
| Courses.EditThenValidHoles | src/components/Courses.js:194-211 | for a course numbered 1..k with pars set, rebuilding the edit slots and filtering them gives back the course's own valid holes |
| Courses.SubmitCourse | src/components/Courses.js:89-110 | no valid hole is refused with 'Please fill in at least one hole'. Otherwise the course is always sent, and each valid hole is sent with its id, its number, `parseInt(par)` and `parseInt(handicap \|\| 1)` |
| Courses.SentHandicap | src/components/Courses.js:104-109 | a blank handicap (defaulted to 0 by `getValidHoles`) is sent as 1, a numeric one as itself |
| Courses.SubmitTemplate | src/components/Courses.js:102-110 | the untouched template sends 18 holes of par 4, handicap 1 |
| Teams.InitialTeamForm | src/components/Teams.js:8-14 | the form starts with an empty name and one player with empty names |
| Teams.SetName | src/components/Teams.js:40-46 | the typed value becomes the name and the players stay |
| Teams.AddPlayer | src/components/Teams.js:105-111 | at four players nothing changes; otherwise exactly one empty player is appended |
| Teams.WithoutIndex | src/components/Teams.js:117 | filtering out index i drops exactly that player and keeps the others in order; an index out of range drops none |
| Teams.RemovePlayer | src/components/Teams.js:113-119 | at one player nothing changes; otherwise the player at `index` is removed |
| Teams.HandlePlayerChange | src/components/Teams.js:121-128 | only the named field of the player at `index` changes |
| Teams.ApplyAllKeepsPlayerBound | src/components/Teams.js:105-128 | from one to four players, any sequence of add, remove, player-change and name-change keeps one to four players |
| Teams.ValidateTeam | src/components/Teams.js:130-144 | the team passes exactly when the name and every player name are non-blank and there is a player. Otherwise the first failing check, in source order, names the error |
| Teams.SubmitTeam | src/components/Teams.js:48-61 | a refused form is kept with its error and nothing is sent. A valid form is sent and the form starts over, but the page's earlier error is kept, not cleared |
| Teams.RefusalMessageSurvivesSubmit | src/components/Teams.js:48-61 | after a refusal, a valid submission sends the team and the refusal's message is still shown |
| Leagues.InitialLeagueForm | src/components/Leagues.js:19-25 | the form starts as name '', course '', 1 week, no teams, start date '' |
| Leagues.HandleInputChange | src/components/Leagues.js:61-67 | only the named field takes the typed value |
| Leagues.HandleTeamSelection | src/components/Leagues.js:69-76 | `team_ids` becomes the selected option values parsed in base 10, in order; the error is cleared; nothing else changes |
| Leagues.TeamSelectionGivesIds | src/components/Leagues.js:290 | selecting options whose values are team ids gives exactly those ids |
| Leagues.ValidateLeague | src/components/Leagues.js:103-117 | the league passes exactly when the name is non-blank, a course is set, and the weeks, read as a number (integer text only, anything else NaN), are neither below 1 nor above 15; otherwise the first failing check names the error: the name, then the course, then 'Number of weeks must be between 1 and 15' |
| Leagues.WeeksBound | src/components/Leagues.js:112-115 | with a name and a course, a number or typed integer text of weeks passes exactly when it lies in 1..15; a cleared input is refused |
| Leagues.NonIntegerWeeksPass | src/components/Leagues.js:112-115 | the gap in the model: week text "0.5", "16.5" or "1e2" reads as NaN, so neither bound refuses it |
| Leagues.ResetForm | src/components/Leagues.js:119-127 | the form is exactly the initial form |
| Leagues.HandleEdit | src/components/Leagues.js:146-155 | the league becomes the one edited and exactly its five form fields are copied |
| Leagues.HandleCancelEdit | src/components/Leagues.js:157-160 | editing ends and the form is reset |
| Leagues.HandleSubmit | src/components/Leagues.js:78-101 | a refused form sets its error and sends nothing. A valid one is sent as an update of the edited league or as a new league, and the form is reset |
| Leagues.EditThenSubmit | src/components/Leagues.js:146-155 | saving a valid league straight after opening it sends an update of that league with its own fields |
| ScoreEntry.LookupMeaning | src/components/ScoreEntry.js:69 | reading a key finds the row stored under it, or nothing when no row has it |
| ScoreEntry.Put | src/components/ScoreEntry.js:53 | writing a key stores the row under it, keeps the keys ascending and changes no other key |
| ScoreEntry.InitialScores | src/components/ScoreEntry.js:51-54 | the grid has a key exactly for each player of either team, each with a row of `holeCount` empty cells |
| ScoreEntry.LoadMatchDetails | src/components/ScoreEntry.js:20-62 | it fails with 'No course ID found for this match' when the league's course is missing or falsy, then with 'Team or player data missing' when a team has no player list. Otherwise it builds the empty grid |
| ScoreEntry.CellValue | src/components/ScoreEntry.js:65 | a typed non-zero integer is stored as that number; anything else, 0 included, as '' |
| ScoreEntry.HandleScoreChange | src/components/ScoreEntry.js:64-74 | only cell `holeIndex` of that player's row changes; the row keeps its length and other players are untouched |
| ScoreEntry.Strokes | src/components/ScoreEntry.js:87 | the strokes are the parsed cell, or 0 when it does not parse |
| ScoreEntry.KeyToId | src/components/ScoreEntry.js:81 | `parseInt` of the key written for a player id is that id |
| ScoreEntry.FormatScores | src/components/ScoreEntry.js:80-89 | one record per grid key, in key order. The team is team 1 exactly when a team-1 player has the id. Holes are numbered from 1, with strokes as in `Strokes` |
| ScoreEntry.BlankGridFormatsToZero | src/components/ScoreEntry.js:87 | an untouched cell is sent as 0 strokes |
| ScoreEntry.ScoreChangeThenFormat | src/components/ScoreEntry.js:64-89 | typing a non-zero number into a cell sends exactly that number for that player and hole |

## Left out

- The services under src/services are not part of this model. They are
  `fetch` wrappers, and the store behind them is treated as abstract:
  - a fetched league, match or course is a parameter;
  - a request the pages send is a result value;
  - a service failure, and the error messages it would show, are not modelled.
- The model assumes a store that answers every call the pages make. As
  written, src/services/leagueService.js:3-83 defines neither
  `getLeagueMatches` nor `createMatches`, which three calls need. The calls
  therefore always throw, and none of the behaviour below happens:
  - `calculateNextWeekNumber` (src/components/MatchGenerator.js:19) always
    ends in 'Failed to calculate next week number', which replaces the whole
    screen;
  - every submit that gets past formatting (src/components/MatchGenerator.js:124)
    ends in 'Failed to save matches: …';
  - `fetchWeekMatches` (src/components/LeagueDetails.js:105) always sets
    'Failed to load matches' (line 109). `currentWeek` starts at 1 (line 11),
    so the effect at lines 29-33 calls it as soon as the league has loaded.
    The error then replaces the whole league page (line 223), and nothing in
    the component clears it. The only `setError` calls are at lines 85, 99,
    109, 181 and 215. As written, no control on that page can be reached:
    not the week generator, not the week deletion, not the week selector and
    not the "Create New Week" button. So neither LeagueDetails finding can
    be observed.

  These members describe the pages as they would run against a store with
  these methods:
  - MatchGenerator.NextWeekNumber's history parameter;
  - the `Saved` outcome of MatchGenerator.SubmitOutcomeOf;
  - on the league page: LeagueDetails.WeekView, LeagueDetails.GenerateWeekMatches,
    LeagueDetails.GenerateNewWeekMatches, LeagueDetails.GenerateNewWeekMatchesCorrected,
    LeagueDetails.ShiftPairs, LeagueDetails.DeleteWeekTargets,
    LeagueDetails.DefaultWeek, LeagueDetails.CreateWeekGateComparison and
    LeagueDetails.CreateWeekOfferedCountsWeeks.

  src/services/matchService.js has both methods, at lines 67 and 79.
- React rendering, `useState`/`useEffect` scheduling, loading flags, success
  modals, timers and routing are not modelled.
- The stale `league.matches` read after a refetch in `handleDeleteWeek`
  (src/components/LeagueDetails.js:203-212) is an `async` ordering effect.
  It is left out.
- `Date`, `toISOString` and `calculateMatchDate` are not modelled as
  calendar dates. A date is a day number and a week offset adds 7 days.
- `Math.random`:
  - the sort-based shuffle of src/components/MatchGenerator.js:49 is an
    arbitrary permutation of the roster;
  - the Fisher–Yates draws are a parameter;
  - nothing is claimed about uniformity.
- The `localeCompare` sort of each team's players in ScoreEntry is left out.
  It only orders the display, and the grid's keys and the team-1 test do not
  depend on the order.
- `parseInt` without a radix reads a leading `0x` as hexadecimal. The model
  always reads base 10. The calls are src/components/Courses.js:107-108, the
  ScoreEntry calls, and src/components/MatchGenerator.js:115 (`parseInt(id)`)
  and 152 (`parseInt(e.target.value)`).
- `Number(...)` is modelled for integer text only. Decimals, exponents,
  `Infinity` and hexadecimal text are not.
- Leagues.ValidateLeague: a decimal or exponent week text, such as "0.5",
  "16.5" or "1e2", reads as NaN here. Both comparisons are then false, so the
  model accepts it (Leagues.NonIntegerWeeksPass). src/components/Leagues.js:112
  refuses all three, since `Number` reads them as 0.5, 16.5 and 100. In a
  browser the input's `min="1"` and `max="15"` (src/components/Leagues.js:259-265)
  block such a submit before the check runs. The model states the weeks bound
  only for numbers and integer text (Leagues.WeeksBound).
- Numbers are unbounded integers. Floating-point values and `-0` are not
  modelled.
- White space is the set that `trim` and `parseInt` skip. It is listed by
  code point.
- MatchGenerator.SubmitOutcomeOf: the league id is an integer parameter. The
  model does not apply `parseInt` to the route's `id` text.
- MatchGenerator.MatchGeneratorSession.constructor: it requires distinct team
  ids, as the store assigns them. `generateInitialMatches` never checks for
  conflicts, so with repeated ids the page would show no conflicts although
  the pairings repeat a team. The session invariant `Valid()`, which ties
  the conflict list to the pairings, would then not hold.
- LeagueDetails.GenerateNewWeekMatches: it takes the league id as an integer.
  The `parseInt(id)` of the route is not modelled. It requires enough draws
  for the shuffle.
- LeagueDetails.GenerateNewWeekMatches stamps the record count + 1, as
  written. The corrected week lives in GenerateNewWeekMatchesCorrected (see
  Findings). The `setMatchGenerationError` and `handleCreateNewWeek`
  plumbing around it is not modelled.
- LeagueDetails.ShiftPairs: `start_date` is `None` when the date is absent or
  does not parse. Then `toISOString` throws, and 'Failed to generate matches'
  follows. A stored `start_date: null` is not modelled. `new Date(null)` is
  the epoch, so such a league would get matches dated 1970-01-01 plus 7 days
  per week, not an error.
- ScoreEntry: the `scores` object enumerates every key in ascending numeric
  order. JavaScript does that only for ids below 2^32 - 1. Larger ids would
  come out in insertion order.
- ScoreEntry.HandleScoreChange: it requires the player's row to exist and
  the cell index to be in range. The grid only renders cells of existing rows
  (src/components/ScoreEntry.js:141-148), so the source's out-of-range
  behaviour of `slice` is not modelled.
- ScoreEntry.LoadMatchDetails: the course fetch and its hole count are a
  parameter. A course without a hole list is not modelled.

## Findings

| source | as written | input that shows it | evidently intended | confidence | as-written member | corrected member |
|---|---|---|---|---|---|---|
| src/components/MatchGenerator.js:197 | "Regenerate Matches" calls `generateInitialMatches`, which replaces both pairing lists but neither clears nor recomputes `conflicts` | edit pairing 1 to reuse team A (a conflict is reported), then press "Regenerate Matches": the fresh pairings have no conflict, yet the warning stays and "Save Matches" asks to continue despite conflicts | the conflict list describes the pairings on screen, so it is empty after a regeneration | not executed | MatchGenerator.MatchGeneratorSession.RegenerateAsWritten | MatchGenerator.MatchGeneratorSession.Regenerate |
| src/components/LeagueDetails.js:123 | the new week number is the number of stored match RECORDS plus one | a league whose week 1 has two matches creates "week 3"; after week 1 is deleted, a lone week-2 match makes the next week "2" again | one past the latest stored week, as src/components/MatchGenerator.js:20-22 computes it | not executed | LeagueDetails.WeekNumberAsWrittenMisnumbers | LeagueDetails.GenerateNewWeekMatchesCorrected |
| src/components/LeagueDetails.js:230 | "Create New Week" is shown while the number of match RECORDS is below `number_of_weeks` | a 3-week league with two played weeks of two matches each has 4 records, so the button is gone although a week remains | the button is shown while fewer weeks than `number_of_weeks` hold matches | not executed | LeagueDetails.CreateWeekGateComparison | LeagueDetails.CreateWeekOfferedCountsWeeks |
