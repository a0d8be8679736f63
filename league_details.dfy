/** The league page (src/components/LeagueDetails.js): its own week
    generator (an in-place Fisher-Yates shuffle of a copy of the roster, then
    a loop that shifts two teams at a time off the front), the week view and
    the delete-week selection over the stored matches, the default week, and
    the gate on the "Create New Week" button. */
module LeagueDetails {
  import opened Js
  import opened Schedule
  import MatchGenerator

  /** A stored match as the page reads it back: its id and its week. */
  datatype StoredMatch = StoredMatch(id: int, week_number: int)

  /** The league as the page holds it: `teams` is `None` when the league has
      no team list; `start_date` is a day number, `None` when the date is
      absent or does not parse, so that `toISOString` throws. */
  datatype League = League(
    teams: Option<seq<Team>>,
    matches: seq<StoredMatch>,
    start_date: Option<int>,
    number_of_weeks: Option<int>)

  const NoTeamsError := "No teams available to create matches"
  const GenerationFailed := "Failed to generate matches"

  // ---------------------------------------------------------------------
  // Shuffle

  /** A draw scaled by a positive bound stays below that bound. */
  lemma ScaledDrawBelow(r: real, m: real)
    requires 0.0 <= r < 1.0 && m > 0.0
    ensures 0.0 <= r * m < m
  {
    assert (1.0 - r) * m > 0.0;
  }

  /** `Math.floor(r * (i + 1))` for a draw `0 <= r < 1` of `Math.random()`. */
  function DrawIndex(r: real, i: nat): (j: nat)
    requires 0.0 <= r < 1.0
    ensures j <= i
  {
    ScaledDrawBelow(r, (i + 1) as real);
    (r * (i + 1) as real).Floor
  }

  /** Every draw is what `Math.random()` can return. */
  ghost predicate ValidDraws(draws: seq<real>)
  {
    forall k :: 0 <= k < |draws| ==> 0.0 <= draws[k] < 1.0
  }

  function Swap(s: seq<Team>, i: nat, j: nat): (r: seq<Team>)
    requires i < |s| && j < |s|
    ensures |r| == |s|
  {
    s[i := s[j]][j := s[i]]
  }

  /** A swap keeps every team and adds none. */
  lemma SwapPermutes(s: seq<Team>, i: nat, j: nat)
    requires i < |s| && j < |s|
    ensures multiset(Swap(s, i, j)) == multiset(s)
  {
  }

  /** The shuffle from position `i` down to 1; the step at position `i` uses
      draw number `|s| - 1 - i`. */
  function Walk(s: seq<Team>, draws: seq<real>, i: nat): (r: seq<Team>)
    requires i < |s| && |draws| >= |s| - 1 && ValidDraws(draws)
    ensures |r| == |s|
    decreases i
  {
    if i == 0 then s
    else Walk(Swap(s, i, DrawIndex(draws[|s| - 1 - i], i)), draws, i - 1)
  }

  /** Every walk only swaps, so it permutes the roster. */
  lemma {:induction false} WalkPermutes(s: seq<Team>, draws: seq<real>, i: nat)
    requires i < |s| && |draws| >= |s| - 1 && ValidDraws(draws)
    ensures multiset(Walk(s, draws, i)) == multiset(s)
    decreases i
  {
    if i > 0 {
      var j := DrawIndex(draws[|s| - 1 - i], i);
      SwapPermutes(s, i, j);
      WalkPermutes(Swap(s, i, j), draws, i - 1);
    }
  }

  /** One step of the walk: swap at position `i`, then walk from `i - 1`. */
  lemma WalkStep(s: seq<Team>, draws: seq<real>, i: nat, j: nat)
    requires 0 < i < |s| && |draws| >= |s| - 1 && ValidDraws(draws)
    requires j == DrawIndex(draws[|s| - 1 - i], i)
    ensures Walk(s, draws, i) == Walk(Swap(s, i, j), draws, i - 1)
  {
  }

  /** The Fisher-Yates loop `for (i = n - 1; i > 0; i--)` of
      `generateNewWeekMatches`, with `draws` the successive values of
      `Math.random()`: a permutation of the roster. */
  function Shuffle(s: seq<Team>, draws: seq<real>): (r: seq<Team>)
    requires |draws| >= |s| - 1 && ValidDraws(draws)
    ensures |r| == |s|
  {
    if s == [] then s else Walk(s, draws, |s| - 1)
  }

  /** The shuffled roster is a permutation of the roster. */
  lemma ShufflePermutes(s: seq<Team>, draws: seq<real>)
    requires |draws| >= |s| - 1 && ValidDraws(draws)
    ensures multiset(Shuffle(s, draws)) == multiset(s)
  {
    if s != [] {
      WalkPermutes(s, draws, |s| - 1);
    }
  }

  /** `[teams[i], teams[j]] = [teams[j], teams[i]]` */
  method SwapInPlace(teams: array<Team>, i: nat, j: nat)
    requires i < teams.Length && j < teams.Length
    modifies teams
    ensures teams[..] == Swap(old(teams[..]), i, j)
  {
    teams[i], teams[j] := teams[j], teams[i];
  }

  /** The in-place loop over the array copy computes `Shuffle`. */
  method ShuffleInPlace(teams: array<Team>, draws: seq<real>)
    requires |draws| >= teams.Length - 1 && ValidDraws(draws)
    modifies teams
    ensures teams[..] == Shuffle(old(teams[..]), draws)
  {
    if teams.Length == 0 {
      return;
    }
    ghost var target := Shuffle(teams[..], draws);
    ghost var cur := teams[..];
    var i := teams.Length - 1;
    while i > 0
      invariant 0 <= i < teams.Length == |cur|
      invariant teams[..] == cur
      invariant Walk(cur, draws, i) == target
    {
      var j := DrawIndex(draws[teams.Length - 1 - i], i);
      SwapInPlace(teams, i, j);
      WalkStep(cur, draws, i, j);
      cur := Swap(cur, i, j);
      i := i - 1;
    }
  }

  // ---------------------------------------------------------------------
  // Week generation

  /** The week number `generateNewWeekMatches` stamps, as written: one past
      the number of stored match RECORDS. */
  function WeekNumberAsWritten(matches: seq<StoredMatch>): int
  {
    |matches| + 1
  }

  /** The stored weeks in the form the match-generation screen reads them. */
  function WeekHistory(matches: seq<StoredMatch>): (h: seq<Option<int>>)
    ensures |h| == |matches|
    ensures forall i :: 0 <= i < |h| ==> h[i] == Some(matches[i].week_number)
  {
    seq(|matches|, i requires 0 <= i < |matches| => Some(matches[i].week_number))
  }

  /** The week a new week gets: one past the latest stored week, as the
      match-generation screen computes it. */
  function NewWeekNumber(matches: seq<StoredMatch>): (w: int)
    ensures w >= 1
    ensures forall i :: 0 <= i < |matches| ==> matches[i].week_number < w
    ensures w == 1 || exists i :: 0 <= i < |matches| && matches[i].week_number == w - 1
  {
    var h := WeekHistory(matches);
    var w := MatchGenerator.NextWeekNumber(h);
    assert forall i :: 0 <= i < |matches| ==> MatchGenerator.WeekOrZero(h[i]) == matches[i].week_number;
    w
  }

  /** Counting records is not counting weeks: two matches in week 1 make the
      next week "3", and a single match left in week 2 (week 1 deleted) makes
      the next week "2" again, merging it into an existing week. */
  lemma WeekNumberAsWrittenMisnumbers()
    ensures WeekNumberAsWritten([StoredMatch(1, 1), StoredMatch(2, 1)]) == 3
    ensures NewWeekNumber([StoredMatch(1, 1), StoredMatch(2, 1)]) == 2
    ensures WeekNumberAsWritten([StoredMatch(3, 2)]) == 2
    ensures NewWeekNumber([StoredMatch(3, 2)]) == 3
  {
    assert NewWeekNumber([StoredMatch(1, 1), StoredMatch(2, 1)]) - 1 == 1;
    assert NewWeekNumber([StoredMatch(3, 2)]) - 1 == 2;
  }

  /** `calculateMatchDate(start, weekOffset)`: `weekOffset * 7` days later. */
  function MatchDate(start: int, weekOffset: int): int
  {
    start + weekOffset * 7
  }

  /** The `while (teams.length > 0)` loop of `generateNewWeekMatches`: it
      shifts two teams off the front of the shuffled copy per match, a lone
      last team producing none. Building a match computes its date, which
      throws for an unset start date. */
  method ShiftPairs(shuffled: seq<Team>, leagueId: int, week: int, startDate: Option<int>)
    returns (r: Result<seq<MatchRecord>, string>)
    ensures |shuffled| >= 2 && startDate.None? ==> r == Err(GenerationFailed)
    ensures |shuffled| < 2 || startDate.Some? ==>
      r.Ok? && |r.value| == |shuffled| / 2 &&
      forall k :: 0 <= k < |r.value| ==>
        r.value[k] == MatchRecord(leagueId, week, shuffled[2 * k].id, shuffled[2 * k + 1].id,
                                  MatchDate(startDate.value, week - 1))
  {
    var n := |shuffled|;
    var matches: seq<MatchRecord> := [];
    var queue := shuffled;
    while |queue| > 0
      invariant |queue| <= n
      invariant queue == shuffled[n - |queue|..]
      invariant (n - |queue|) % 2 == 0 || queue == []
      invariant |matches| == (n - |queue|) / 2
      invariant startDate.Some? ==> forall k :: 0 <= k < |matches| ==>
        matches[k] == MatchRecord(leagueId, week, shuffled[2 * k].id, shuffled[2 * k + 1].id,
                                  MatchDate(startDate.value, week - 1))
      invariant startDate.None? ==> matches == [] && (n - |queue| < 2)
      decreases |queue|
    {
      var team1 := queue[0];
      queue := queue[1..];
      var team2: Option<Team> := None;
      if |queue| > 0 {
        team2 := Some(queue[0]);
        queue := queue[1..];
      }
      if team2.Some? {
        if startDate.None? {
          return Err(GenerationFailed);
        }
        matches := matches + [MatchRecord(leagueId, week, team1.id, team2.value.id,
                                          MatchDate(startDate.value, week - 1))];
      }
    }
    return Ok(matches);
  }

  /** The body of `generateNewWeekMatches` for a given week number: no
      roster is an error; otherwise a copy of the roster is shuffled in place
      and paired off, every match carrying the league, the week and that
      week's date. The method modifies no existing object, so the league's
      own roster is untouched. */
  method GenerateWeekMatches(league: League, leagueId: int, week: int, draws: seq<real>)
    returns (r: Result<seq<MatchRecord>, string>)
    requires league.teams.Some? ==> |draws| >= |league.teams.value| - 1
    requires ValidDraws(draws)
    ensures (league.teams.None? || league.teams.value == []) ==> r == Err(NoTeamsError)
    ensures league.teams.Some? && |league.teams.value| >= 2 && league.start_date.None? ==>
      r == Err(GenerationFailed)
    ensures league.teams.Some? && league.teams.value != [] &&
            (|league.teams.value| < 2 || league.start_date.Some?) ==>
      var shuffled := Shuffle(league.teams.value, draws);
      r.Ok? && |r.value| == |league.teams.value| / 2 &&
      forall k :: 0 <= k < |r.value| ==>
        r.value[k] == MatchRecord(leagueId, week, shuffled[2 * k].id, shuffled[2 * k + 1].id,
                                  MatchDate(league.start_date.value, week - 1))
  {
    if league.teams.None? || league.teams.value == [] {
      return Err(NoTeamsError);
    }
    var roster := league.teams.value;
    var teams := new Team[|roster|](i requires 0 <= i < |roster| => roster[i]);
    assert teams[..] == roster;
    ShuffleInPlace(teams, draws);
    r := ShiftPairs(teams[..], leagueId, week, league.start_date);
  }

  /** `generateNewWeekMatches` as written: every record of the new week is
      stamped with the number of stored match records plus one. */
  method GenerateNewWeekMatches(league: League, leagueId: int, draws: seq<real>)
    returns (r: Result<seq<MatchRecord>, string>)
    requires league.teams.Some? ==> |draws| >= |league.teams.value| - 1
    requires ValidDraws(draws)
    ensures (league.teams.None? || league.teams.value == []) ==> r == Err(NoTeamsError)
    ensures league.teams.Some? && |league.teams.value| >= 2 && league.start_date.None? ==>
      r == Err(GenerationFailed)
    ensures league.teams.Some? && league.teams.value != [] &&
            (|league.teams.value| < 2 || league.start_date.Some?) ==>
      var shuffled := Shuffle(league.teams.value, draws);
      r.Ok? && |r.value| == |league.teams.value| / 2 &&
      forall k :: 0 <= k < |r.value| ==>
        r.value[k].week_number == |league.matches| + 1 &&
        r.value[k] == MatchRecord(leagueId, |league.matches| + 1, shuffled[2 * k].id,
                                  shuffled[2 * k + 1].id, MatchDate(league.start_date.value, |league.matches|))
  {
    r := GenerateWeekMatches(league, leagueId, WeekNumberAsWritten(league.matches), draws);
  }

  /** `generateNewWeekMatches` with the week numbered one past the latest
      stored week, so that a new week never merges into an existing one. */
  method GenerateNewWeekMatchesCorrected(league: League, leagueId: int, draws: seq<real>)
    returns (r: Result<seq<MatchRecord>, string>)
    requires league.teams.Some? ==> |draws| >= |league.teams.value| - 1
    requires ValidDraws(draws)
    ensures (league.teams.None? || league.teams.value == []) ==> r == Err(NoTeamsError)
    ensures league.teams.Some? && |league.teams.value| >= 2 && league.start_date.None? ==>
      r == Err(GenerationFailed)
    ensures league.teams.Some? && league.teams.value != [] &&
            (|league.teams.value| < 2 || league.start_date.Some?) ==>
      var shuffled := Shuffle(league.teams.value, draws);
      var week := NewWeekNumber(league.matches);
      r.Ok? && |r.value| == |league.teams.value| / 2 &&
      forall k :: 0 <= k < |r.value| ==>
        (forall m :: m in league.matches ==> m.week_number < r.value[k].week_number) &&
        r.value[k] == MatchRecord(leagueId, week, shuffled[2 * k].id, shuffled[2 * k + 1].id,
                                  MatchDate(league.start_date.value, week - 1))
  {
    r := GenerateWeekMatches(league, leagueId, NewWeekNumber(league.matches), draws);
  }

  /** A generated week uses every team at most once: with distinct roster
      ids, the `2 * (n / 2)` team ids of the records are pairwise distinct
      and each belongs to the roster. */
  lemma GeneratedWeekUsesTeamsOnce(roster: seq<Team>, draws: seq<real>, records: seq<MatchRecord>)
    requires |draws| >= |roster| - 1 && ValidDraws(draws)
    requires DistinctIds(roster)
    requires |records| == |roster| / 2
    requires forall k :: 0 <= k < |records| ==>
      records[k].team1_id == Shuffle(roster, draws)[2 * k].id &&
      records[k].team2_id == Shuffle(roster, draws)[2 * k + 1].id
    ensures forall k :: 0 <= k < |records| ==> records[k].team1_id != records[k].team2_id
    ensures forall k, l :: 0 <= k < l < |records| ==>
      records[k].team1_id != records[l].team1_id && records[k].team1_id != records[l].team2_id &&
      records[k].team2_id != records[l].team1_id && records[k].team2_id != records[l].team2_id
    ensures forall k :: 0 <= k < |records| ==>
      (exists t :: t in roster && t.id == records[k].team1_id) &&
      (exists t :: t in roster && t.id == records[k].team2_id)
  {
    var shuffled := Shuffle(roster, draws);
    ShufflePermutes(roster, draws);
    PermutationKeepsDistinctIds(roster, shuffled);
    forall k | 0 <= k < |records|
      ensures (exists t :: t in roster && t.id == records[k].team1_id) &&
              (exists t :: t in roster && t.id == records[k].team2_id)
    {
      assert shuffled[2 * k] in multiset(roster);
      assert shuffled[2 * k + 1] in multiset(roster);
    }
  }

  // ---------------------------------------------------------------------
  // Weeks on the page

  /** `matches.filter(m => m.week_number === week)`. */
  function WeekView(matches: seq<StoredMatch>, week: int): (r: seq<StoredMatch>)
    ensures forall i :: 0 <= i < |r| ==> r[i].week_number == week
    ensures forall m :: multiset(r)[m] == (if m.week_number == week then multiset(matches)[m] else 0)
  {
    if matches == [] then []
    else
      var last := matches[|matches| - 1];
      var init := matches[..|matches| - 1];
      assert matches == init + [last];
      WeekView(init, week) + (if last.week_number == week then [last] else [])
  }

  /** The matches of one week are exactly the stored matches of that week. */
  lemma WeekViewMembers(matches: seq<StoredMatch>, week: int)
    ensures forall m :: m in WeekView(matches, week) <==> m in matches && m.week_number == week
  {
    var view := WeekView(matches, week);
    forall m ensures m in view <==> m in matches && m.week_number == week {
      assert m in view <==> multiset(view)[m] > 0;
      assert m in matches <==> multiset(matches)[m] > 0;
    }
  }

  /** `matches.map(m => m.id)` */
  function MatchIds(ms: seq<StoredMatch>): (r: seq<int>)
    ensures |r| == |ms| && forall i :: 0 <= i < |ms| ==> r[i] == ms[i].id
  {
    seq(|ms|, i requires 0 <= i < |ms| => ms[i].id)
  }

  /** An id is listed exactly when some match carries it. */
  lemma MatchIdsMembers(ms: seq<StoredMatch>)
    ensures forall id :: id in MatchIds(ms) <==> exists m :: m in ms && m.id == id
  {
    var ids := MatchIds(ms);
    forall id | id in ids ensures exists m :: m in ms && m.id == id {
      var i :| 0 <= i < |ids| && ids[i] == id;
      assert ms[i] in ms;
    }
    forall id | exists m :: m in ms && m.id == id ensures id in ids {
      var m :| m in ms && m.id == id;
      var i :| 0 <= i < |ms| && ms[i] == m;
      assert ids[i] == id;
    }
  }

  /** `handleDeleteWeek`: on confirmation, the ids of the current week's
      matches, each to be deleted; nothing without confirmation. */
  function DeleteWeekTargets(matches: seq<StoredMatch>, week: int, confirmed: bool): (ids: seq<int>)
    ensures forall id :: id in ids <==>
      confirmed && exists m :: m in matches && m.week_number == week && m.id == id
  {
    if !confirmed then []
    else
      WeekViewMembers(matches, week);
      MatchIdsMembers(WeekView(matches, week));
      MatchIds(WeekView(matches, week))
  }

  /** `fetchAvailableWeeks`: a current week missing from a non-empty list of
      available weeks becomes the first of them. */
  function DefaultWeek(weeks: seq<int>, current: int): (w: int)
    ensures weeks != [] ==> w in weeks
    ensures (weeks == [] || current in weeks) ==> w == current
    ensures w == current || w == weeks[0]
  {
    if |weeks| > 0 && current !in weeks then weeks[0] else current
  }

  /** The weeks that hold at least one stored match. */
  function StoredWeeks(matches: seq<StoredMatch>): set<int>
  {
    set i | 0 <= i < |matches| :: matches[i].week_number
  }

  /** The header's "Create New Week" button as written: shown while the
      number of match RECORDS is below the league's number of weeks. */
  predicate CreateWeekOfferedAsWritten(league: League)
  {
    league.number_of_weeks.Some? && |league.matches| < league.number_of_weeks.value
  }

  /** The button shown while fewer weeks than the league's number of weeks
      hold matches. */
  predicate CreateWeekOffered(league: League)
  {
    league.number_of_weeks.Some? && |StoredWeeks(league.matches)| < league.number_of_weeks.value
  }

  /** A week holds at least one record, so the corrected gate is offered
      whenever the as-written one is; the converse fails as soon as a week
      holds two matches: a 3-week league with one played week of two matches
      has 2 records but 1 week, and with two played weeks has 4 records. */
  lemma CreateWeekGateComparison(league: League)
    ensures CreateWeekOfferedAsWritten(league) ==> CreateWeekOffered(league)
    ensures var twoWeeks := League(None, [StoredMatch(1, 1), StoredMatch(2, 1), StoredMatch(3, 2), StoredMatch(4, 2)],
                                   Some(0), Some(3));
            !CreateWeekOfferedAsWritten(twoWeeks) && CreateWeekOffered(twoWeeks)
  {
    StoredWeeksBound(league.matches);
    var ms := [StoredMatch(1, 1), StoredMatch(2, 1), StoredMatch(3, 2), StoredMatch(4, 2)];
    assert StoredWeeks(ms) == {1, 2} by {
      assert ms[0].week_number == 1 && ms[2].week_number == 2;
    }
  }

  /** The weeks 1..k. */
  function WeekRange(k: nat): (r: set<int>)
    ensures |r| == k
    ensures forall w :: w in r <==> 1 <= w <= k
  {
    if k == 0 then {} else WeekRange(k - 1) + {k}
  }

  /** The corrected gate counts played weeks, not records: when the weeks
      holding matches are exactly 1..k, however many matches each holds, the
      button is offered exactly while k is below the league's number of
      weeks. */
  lemma CreateWeekOfferedCountsWeeks(league: League, k: nat)
    requires league.number_of_weeks.Some?
    requires StoredWeeks(league.matches) == WeekRange(k)
    ensures CreateWeekOffered(league) <==> k < league.number_of_weeks.value
  {
  }

  lemma {:induction false} StoredWeeksBound(matches: seq<StoredMatch>)
    ensures |StoredWeeks(matches)| <= |matches|
  {
    if matches != [] {
      var init := matches[..|matches| - 1];
      StoredWeeksBound(init);
      assert StoredWeeks(matches) == StoredWeeks(init) + {matches[|matches| - 1].week_number} by {
        forall w | w in StoredWeeks(matches) ensures w in StoredWeeks(init) + {matches[|matches| - 1].week_number} {
          var i :| 0 <= i < |matches| && matches[i].week_number == w;
          if i < |matches| - 1 {
            assert init[i] == matches[i];
          }
        }
        forall w | w in StoredWeeks(init) ensures w in StoredWeeks(matches) {
          var i :| 0 <= i < |init| && init[i].week_number == w;
          assert matches[i] == init[i];
        }
      }
    }
  }
}
