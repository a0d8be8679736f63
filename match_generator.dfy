/** The weekly pairing screen of a league (src/components/MatchGenerator.js):
    it derives the next week number from the match history, pairs a shuffled
    roster two by two, keeps the generated pairings beside a working copy the
    user edits slot by slot, re-runs a conflict scan after every edit, and
    turns the working copy into match records on submit. */
module MatchGenerator {
  import opened Js
  import opened Schedule

  /** One proposed match; a slot is `None` once the user picked "Select Team". */
  datatype Pairing = Pairing(team1: Option<Team>, team2: Option<Team>, isManual: bool)

  /** The field `handleMatchUpdate` writes. */
  datatype Side = Team1 | Team2

  /** `{ teamId, matches: [firstIndex, index] }`: the team was first seen in
      pairing `firstIndex` and is seen again in pairing `index`. */
  datatype Conflict = Conflict(teamId: int, firstIndex: nat, index: nat)

  /** What `handleSubmit` ends in: the user declined the conflict prompt, the
      records were handed to the store, or formatting threw. */
  datatype SubmitOutcome = Cancelled | Saved(records: seq<MatchRecord>) | Failed(message: string)

  // ---------------------------------------------------------------------
  // Next week number

  /** `match?.week_number || 0`; `None` stands for a null match or a missing
      week number. */
  function WeekOrZero(w: Option<int>): int
  {
    if w.Some? then w.value else 0
  }

  function Max(a: int, b: int): int
  {
    if a < b then b else a
  }

  /** `matches.reduce((max, m) => Math.max(max, m?.week_number || 0), 0)`,
      folded from the left as `reduce` does. */
  function MaxWeek(history: seq<Option<int>>): (m: int)
    ensures m >= 0
    ensures forall i :: 0 <= i < |history| ==> WeekOrZero(history[i]) <= m
    ensures m == 0 || exists i :: 0 <= i < |history| && WeekOrZero(history[i]) == m
  {
    if history == [] then 0
    else Max(MaxWeek(history[..|history| - 1]), WeekOrZero(history[|history| - 1]))
  }

  /** The week the screen generates: one past the largest week in the history,
      1 for an empty history. */
  function NextWeekNumber(history: seq<Option<int>>): (w: int)
    ensures w >= 1
    ensures forall i :: 0 <= i < |history| ==> WeekOrZero(history[i]) < w
    ensures w == 1 || exists i :: 0 <= i < |history| && WeekOrZero(history[i]) == w - 1
    ensures history == [] ==> w == 1
  {
    MaxWeek(history) + 1
  }

  // ---------------------------------------------------------------------
  // Generation

  /** `r` pairs `s[0]` with `s[1]`, `s[2]` with `s[3]`, ...; an odd last team
      is left out. */
  ghost predicate PairsOff(r: seq<Pairing>, s: seq<Team>)
  {
    |r| == |s| / 2 &&
    forall k :: 0 <= k < |r| ==> r[k] == Pairing(Some(s[2 * k]), Some(s[2 * k + 1]), false)
  }

  /** The stepped loop of `generateInitialMatches` over the shuffled roster. */
  method PairOff(shuffled: seq<Team>) returns (matches: seq<Pairing>)
    ensures PairsOff(matches, shuffled)
  {
    matches := [];
    var i := 0;
    while i < |shuffled| - 1
      invariant 0 <= i <= |shuffled| || i == 0
      invariant i % 2 == 0 && |matches| == i / 2
      invariant forall k :: 0 <= k < |matches| ==>
        matches[k] == Pairing(Some(shuffled[2 * k]), Some(shuffled[2 * k + 1]), false)
    {
      matches := matches + [Pairing(Some(shuffled[i]), Some(shuffled[i + 1]), false)];
      i := i + 2;
    }
  }

  // ---------------------------------------------------------------------
  // Conflict detection

  /** `team?.id`, kept only when truthy: an absent team and the id 0 are
      skipped by `if (teamId)`. */
  function PresentId(t: Option<Team>): (r: Option<int>)
    ensures r.Some? <==> t.Some? && t.value.id != 0
    ensures r.Some? ==> r.value == t.value.id
  {
    if t.Some? && t.value.id != 0 then Some(t.value.id) else None
  }

  /** `team?.id` */
  function OptionalId(t: Option<Team>): Option<int>
  {
    if t.Some? then Some(t.value.id) else None
  }

  /** The scan visits team1 then team2 of each pairing: slot `s` is side
      `s % 2` of pairing `s / 2`. */
  function SlotId(ms: seq<Pairing>, s: nat): Option<int>
    requires s < 2 * |ms|
  {
    if s % 2 == 0 then PresentId(ms[s / 2].team1) else PresentId(ms[s / 2].team2)
  }

  /** The `teamAppearances` map after the first `n` slots: each id seen so far,
      with the pairing where it was seen first. */
  function FirstSeen(ms: seq<Pairing>, n: nat): map<int, nat>
    requires n <= 2 * |ms|
  {
    if n == 0 then map[]
    else
      var m := FirstSeen(ms, n - 1);
      var id := SlotId(ms, n - 1);
      if id.Some? && id.value !in m then m[id.value := (n - 1) / 2] else m
  }

  /** The conflicts reported for the first `n` slots. */
  function ConflictsUpTo(ms: seq<Pairing>, n: nat): seq<Conflict>
    requires n <= 2 * |ms|
  {
    if n == 0 then []
    else
      var m := FirstSeen(ms, n - 1);
      var id := SlotId(ms, n - 1);
      ConflictsUpTo(ms, n - 1) +
        (if id.Some? && id.value in m then [Conflict(id.value, m[id.value], (n - 1) / 2)] else [])
  }

  /** What `checkConflicts` reports for a pairing list. */
  function ConflictsOf(ms: seq<Pairing>): seq<Conflict>
  {
    ConflictsUpTo(ms, 2 * |ms|)
  }

  /** `checkConflicts` without its state update: the nested `forEach` over
      pairings and their two slots, with the appearance map. */
  method ScanConflicts(matches: seq<Pairing>) returns (conflicts: seq<Conflict>)
    ensures conflicts == ConflictsOf(matches)
  {
    var appearances: map<int, nat> := map[];
    conflicts := [];
    ghost var slot := 0;
    var index := 0;
    while index < |matches|
      invariant 0 <= index <= |matches| && slot == 2 * index
      invariant appearances == FirstSeen(matches, slot)
      invariant conflicts == ConflictsUpTo(matches, slot)
    {
      var ids := [OptionalId(matches[index].team1), OptionalId(matches[index].team2)];
      var j := 0;
      while j < 2
        invariant 0 <= j <= 2 && slot == 2 * index + j
        invariant appearances == FirstSeen(matches, slot)
        invariant conflicts == ConflictsUpTo(matches, slot)
      {
        ScanStep(matches, index, j, slot, appearances, conflicts);
        var teamId := ids[j];
        if teamId.Some? && teamId.value != 0 {
          if teamId.value in appearances {
            conflicts := conflicts + [Conflict(teamId.value, appearances[teamId.value], index)];
          } else {
            appearances := appearances[teamId.value := index];
          }
        }
        j := j + 1;
        slot := slot + 1;
      }
      index := index + 1;
    }
  }

  /** One step of the scan: slot `2 * index + j` is side `j` of pairing
      `index`, and visiting it extends the appearance map and the conflict
      list exactly as the loop body does. */
  lemma ScanStep(ms: seq<Pairing>, index: nat, j: nat, slot: nat, seen: map<int, nat>, found: seq<Conflict>)
    requires index < |ms| && j < 2 && slot == 2 * index + j
    requires seen == FirstSeen(ms, slot) && found == ConflictsUpTo(ms, slot)
    ensures var id := OptionalId(if j == 0 then ms[index].team1 else ms[index].team2);
      var s := slot + 1;
      if id.Some? && id.value != 0 then
        if id.value in seen then
          FirstSeen(ms, s) == seen && ConflictsUpTo(ms, s) == found + [Conflict(id.value, seen[id.value], index)]
        else
          FirstSeen(ms, s) == seen[id.value := index] && ConflictsUpTo(ms, s) == found
      else
        FirstSeen(ms, s) == seen && ConflictsUpTo(ms, s) == found
  {
    assert (2 * index + j) / 2 == index;
  }

  /** Pairing `k` names team `id` on one of its sides. */
  predicate InPairing(p: Pairing, id: int)
  {
    PresentId(p.team1) == Some(id) || PresentId(p.team2) == Some(id)
  }

  /** Slot `s` is the first slot that names `id`. */
  ghost predicate FirstSlot(ms: seq<Pairing>, id: int, s: nat)
    requires s < 2 * |ms|
  {
    SlotId(ms, s) == Some(id) && forall t :: 0 <= t < s ==> SlotId(ms, t) != Some(id)
  }

  /** The appearance map holds exactly the ids seen so far, each with the
      pairing of its first slot. */
  lemma {:induction false} FirstSeenMeaning(ms: seq<Pairing>, n: nat)
    requires n <= 2 * |ms|
    ensures forall id :: id in FirstSeen(ms, n) <==> exists s :: 0 <= s < n && SlotId(ms, s) == Some(id)
    ensures forall id :: id in FirstSeen(ms, n) ==>
      exists s :: 0 <= s < n && FirstSlot(ms, id, s) && FirstSeen(ms, n)[id] == s / 2
  {
    if n > 0 {
      FirstSeenMeaning(ms, n - 1);
      var m := FirstSeen(ms, n - 1);
      var id := SlotId(ms, n - 1);
      if id.Some? && id.value !in m {
        assert FirstSlot(ms, id.value, n - 1);
      }
    }
  }

  /** No team id occurs in two slots among the first `n`. */
  ghost predicate NoRepeatUpTo(ms: seq<Pairing>, n: nat)
    requires n <= 2 * |ms|
  {
    forall s, t :: 0 <= s < t < n && SlotId(ms, s).Some? ==> SlotId(ms, s) != SlotId(ms, t)
  }

  /** No team id occurs in two slots of the whole list; this covers a team
      paired with itself. */
  ghost predicate NoRepeatedTeam(ms: seq<Pairing>)
  {
    NoRepeatUpTo(ms, 2 * |ms|)
  }

  /** One more slot adds a conflict exactly when its id was seen before. */
  lemma ConflictsUpToStep(ms: seq<Pairing>, n: nat)
    requires 0 < n <= 2 * |ms|
    ensures var id := SlotId(ms, n - 1);
      ConflictsUpTo(ms, n) == [] <==>
        ConflictsUpTo(ms, n - 1) == [] && !(id.Some? && id.value in FirstSeen(ms, n - 1))
  {
  }

  /** One more slot keeps the slots free of repeats exactly when its id, if
      any, is not in an earlier slot. */
  lemma NoRepeatStep(ms: seq<Pairing>, n: nat)
    requires 0 < n <= 2 * |ms|
    ensures NoRepeatUpTo(ms, n) <==>
      NoRepeatUpTo(ms, n - 1) &&
      (SlotId(ms, n - 1).Some? ==> forall s :: 0 <= s < n - 1 ==> SlotId(ms, s) != SlotId(ms, n - 1))
  {
    if NoRepeatUpTo(ms, n - 1) &&
       (SlotId(ms, n - 1).Some? ==> forall s :: 0 <= s < n - 1 ==> SlotId(ms, s) != SlotId(ms, n - 1)) {
      forall s, t | 0 <= s < t < n && SlotId(ms, s).Some?
        ensures SlotId(ms, s) != SlotId(ms, t)
      {
      }
    }
  }

  lemma {:induction false} ConflictsUpToEmptyIff(ms: seq<Pairing>, n: nat)
    requires n <= 2 * |ms|
    ensures ConflictsUpTo(ms, n) == [] <==> NoRepeatUpTo(ms, n)
  {
    if n > 0 {
      ConflictsUpToEmptyIff(ms, n - 1);
      FirstSeenMeaning(ms, n - 1);
      ConflictsUpToStep(ms, n);
      NoRepeatStep(ms, n);
    }
  }

  /** The scan reports nothing exactly when no team appears twice. */
  lemma ConflictsEmptyIff(ms: seq<Pairing>)
    ensures ConflictsOf(ms) == [] <==> NoRepeatedTeam(ms)
  {
    ConflictsUpToEmptyIff(ms, 2 * |ms|);
  }

  /** Each reported conflict names a team present in pairing `firstIndex`,
      absent from every earlier pairing, and present again in pairing
      `index`, no earlier than `firstIndex`. */
  ghost predicate ConflictsAreSound(ms: seq<Pairing>, cs: seq<Conflict>)
  {
    forall k :: 0 <= k < |cs| ==>
      cs[k].firstIndex <= cs[k].index < |ms| &&
      InPairing(ms[cs[k].firstIndex], cs[k].teamId) &&
      InPairing(ms[cs[k].index], cs[k].teamId) &&
      forall q :: 0 <= q < cs[k].firstIndex ==> !InPairing(ms[q], cs[k].teamId)
  }

  /** Slots `2 * q` and `2 * q + 1` are the two sides of pairing `q`. */
  lemma SlotsOfPairing(ms: seq<Pairing>, q: nat)
    requires q < |ms|
    ensures SlotId(ms, 2 * q) == PresentId(ms[q].team1)
    ensures SlotId(ms, 2 * q + 1) == PresentId(ms[q].team2)
  {
    assert (2 * q) / 2 == q && (2 * q) % 2 == 0;
    assert (2 * q + 1) / 2 == q && (2 * q + 1) % 2 == 1;
  }

  /** The id of a slot is in that slot's pairing. */
  lemma SlotInPairing(ms: seq<Pairing>, s: nat, id: int)
    requires s < 2 * |ms| && SlotId(ms, s) == Some(id)
    ensures s / 2 < |ms| && InPairing(ms[s / 2], id)
  {
  }

  /** No pairing before the one holding the first slot of `id` names it. */
  lemma EarlierPairingsMiss(ms: seq<Pairing>, id: int, s: nat)
    requires s < 2 * |ms| && FirstSlot(ms, id, s)
    ensures forall q :: 0 <= q < s / 2 ==> !InPairing(ms[q], id)
  {
    forall q | 0 <= q < s / 2 ensures !InPairing(ms[q], id) {
      SlotsOfPairing(ms, q);
      assert 2 * q + 1 < s;
    }
  }

  /** The first slot of an id in the appearance map. */
  lemma FirstSeenWitness(ms: seq<Pairing>, n: nat, id: int) returns (s: nat)
    requires n <= 2 * |ms| && id in FirstSeen(ms, n)
    ensures s < n && FirstSlot(ms, id, s) && FirstSeen(ms, n)[id] == s / 2
  {
    FirstSeenMeaning(ms, n);
    s :| 0 <= s < n && FirstSlot(ms, id, s) && FirstSeen(ms, n)[id] == s / 2;
  }

  /** The conflict added at slot `n - 1` is sound. */
  lemma NewConflictSound(ms: seq<Pairing>, n: nat)
    requires 0 < n <= 2 * |ms|
    requires SlotId(ms, n - 1).Some? && SlotId(ms, n - 1).value in FirstSeen(ms, n - 1)
    ensures var id := SlotId(ms, n - 1).value; var first := FirstSeen(ms, n - 1)[id];
      first <= (n - 1) / 2 < |ms| &&
      InPairing(ms[first], id) && InPairing(ms[(n - 1) / 2], id) &&
      forall q :: 0 <= q < first ==> !InPairing(ms[q], id)
  {
    var id := SlotId(ms, n - 1).value;
    var s := FirstSeenWitness(ms, n - 1, id);
    SlotInPairing(ms, s, id);
    SlotInPairing(ms, n - 1, id);
    EarlierPairingsMiss(ms, id, s);
  }

  lemma {:induction false} ConflictsUpToSound(ms: seq<Pairing>, n: nat)
    requires n <= 2 * |ms|
    ensures ConflictsAreSound(ms, ConflictsUpTo(ms, n))
  {
    if n > 0 {
      ConflictsUpToSound(ms, n - 1);
      var id := SlotId(ms, n - 1);
      if id.Some? && id.value in FirstSeen(ms, n - 1) {
        NewConflictSound(ms, n);
      }
    }
  }

  /** Soundness of the whole scan. */
  lemma ConflictsOfSound(ms: seq<Pairing>)
    ensures ConflictsAreSound(ms, ConflictsOf(ms))
  {
    ConflictsUpToSound(ms, 2 * |ms|);
  }

  /** A freshly generated set over a roster with distinct, truthy-or-not ids
      never repeats a team, never pairs a team with itself, and so raises no
      conflict. */
  lemma GeneratedHasNoConflicts(roster: seq<Team>, shuffled: seq<Team>, r: seq<Pairing>)
    requires DistinctIds(roster)
    requires multiset(shuffled) == multiset(roster)
    requires PairsOff(r, shuffled)
    ensures forall k :: 0 <= k < |r| ==> r[k].team1.value.id != r[k].team2.value.id
    ensures NoRepeatedTeam(r)
    ensures ConflictsOf(r) == []
  {
    PermutationKeepsDistinctIds(roster, shuffled);
    forall s | 0 <= s < 2 * |r| ensures SlotId(r, s) == PresentId(Some(shuffled[s])) {
      if s % 2 == 0 {
        assert 2 * (s / 2) == s;
      } else {
        assert 2 * (s / 2) + 1 == s;
      }
    }
    forall k | 0 <= k < |r| ensures r[k].team1.value.id != r[k].team2.value.id {
      assert r[k].team1.value == shuffled[2 * k] && r[k].team2.value == shuffled[2 * k + 1];
    }
    ConflictsEmptyIff(r);
  }

  // ---------------------------------------------------------------------
  // Manual edits

  /** `league.teams.find(t => t.id === id)`. */
  function FindTeam(roster: seq<Team>, id: Value): (r: Option<Team>)
    ensures r.Some? ==> r.value in roster && Num(r.value.id) == id
    ensures r.None? ==> forall i :: 0 <= i < |roster| ==> Num(roster[i].id) != id
    ensures r.Some? ==> exists i :: 0 <= i < |roster| && roster[i] == r.value &&
                                 (forall j :: 0 <= j < i ==> Num(roster[j].id) != id)
  {
    if roster == [] then None
    else if Num(roster[0].id) == id then Some(roster[0])
    else
      var r := FindTeam(roster[1..], id);
      if r.Some? then
        ghost var i :| 0 <= i < |roster[1..]| && roster[1..][i] == r.value &&
          forall j :: 0 <= j < i ==> Num(roster[1..][j].id) != id;
        assert roster[i + 1] == r.value;
        r
      else r
  }

  /** The team a select hands to `handleMatchUpdate`: the roster entry whose
      id is `parseInt` of the chosen option's value. */
  function SelectTeam(roster: seq<Team>, optionValue: string): Option<Team>
  {
    FindTeam(roster, ParseInt(optionValue))
  }

  /** The "Select Team" option (value '') leaves the slot empty; the option
      for a team (value `String(team.id)`) selects that very team. */
  lemma SelectTeamMeaning(roster: seq<Team>, t: Team)
    requires DistinctIds(roster)
    requires t in roster
    ensures SelectTeam(roster, "") == None
    ensures SelectTeam(roster, IntToString(t.id)) == Some(t)
  {
    ParseIntOfIntToString(t.id);
    var r := SelectTeam(roster, IntToString(t.id));
    var k :| 0 <= k < |roster| && roster[k] == t;
    assert r.Some?;
    var i :| 0 <= i < |roster| && roster[i] == r.value;
    assert i == k;
  }

  /** `handleMatchUpdate`'s copy: pairing `index` gets `v` in the named slot
      and becomes manual; nothing else changes. */
  function UpdatePairing(ms: seq<Pairing>, index: nat, side: Side, v: Option<Team>): (r: seq<Pairing>)
    requires index < |ms|
    ensures |r| == |ms|
    ensures forall k :: 0 <= k < |ms| && k != index ==> r[k] == ms[k]
    ensures r[index].isManual
    ensures side == Team1 ==> r[index].team1 == v && r[index].team2 == ms[index].team2
    ensures side == Team2 ==> r[index].team2 == v && r[index].team1 == ms[index].team1
  {
    var p := ms[index];
    ms[index := match side
      case Team1 => Pairing(v, p.team2, true)
      case Team2 => Pairing(p.team1, v, true)]
  }

  // ---------------------------------------------------------------------
  // Submit

  /** Some pairing has an empty slot; `match.team1.id` would throw on it. */
  predicate HasIncomplete(ms: seq<Pairing>)
  {
    exists k :: 0 <= k < |ms| && (ms[k].team1.None? || ms[k].team2.None?)
  }

  /** `manualMatches.map(...)` of `handleSubmit`: one record per pairing, in
      order, or `None` where the map throws on an empty slot. */
  function FormatMatches(ms: seq<Pairing>, leagueId: int, week: int, date: int): (r: Option<seq<MatchRecord>>)
    ensures r.None? <==> HasIncomplete(ms)
    ensures r.Some? ==> |r.value| == |ms| && forall k :: 0 <= k < |ms| ==>
      r.value[k] == MatchRecord(leagueId, week, ms[k].team1.value.id, ms[k].team2.value.id, date)
  {
    if ms == [] then Some([])
    else if ms[0].team1.None? || ms[0].team2.None? then None
    else
      var rest := FormatMatches(ms[1..], leagueId, week, date);
      assert HasIncomplete(ms[1..]) <==> HasIncomplete(ms) by {
        if HasIncomplete(ms[1..]) {
          var k :| 0 <= k < |ms[1..]| && (ms[1..][k].team1.None? || ms[1..][k].team2.None?);
          assert ms[k + 1] == ms[1..][k];
        }
        if HasIncomplete(ms) {
          var k :| 0 <= k < |ms| && (ms[k].team1.None? || ms[k].team2.None?);
          assert ms[1..][k - 1] == ms[k];
        }
      }
      if rest.None? then None
      else Some([MatchRecord(leagueId, week, ms[0].team1.value.id, ms[0].team2.value.id, date)] + rest.value)
  }

  /** The message `handleSubmit` shows when formatting throws (V8's wording of
      the TypeError). */
  const SubmitFailure := "Failed to save matches: Cannot read properties of undefined (reading 'id')"

  /** `handleSubmit`: with conflicts on record it asks first and stops on a
      refusal; otherwise every pairing becomes a record stamped with the
      league and the next week number, unless a slot is empty. */
  function SubmitOutcomeOf(conflicts: seq<Conflict>, ms: seq<Pairing>, confirmed: bool,
                           leagueId: int, week: int, date: int): (o: SubmitOutcome)
    ensures o.Cancelled? <==> |conflicts| > 0 && !confirmed
    ensures o.Failed? <==> (|conflicts| == 0 || confirmed) && HasIncomplete(ms)
    ensures o.Failed? ==> o.message == SubmitFailure
    ensures o.Saved? ==> |o.records| == |ms| && forall k :: 0 <= k < |ms| ==>
      o.records[k].league_id == leagueId && o.records[k].week_number == week &&
      o.records[k].date == date &&
      Some(Team(o.records[k].team1_id, ms[k].team1.value.name)) == ms[k].team1 &&
      Some(Team(o.records[k].team2_id, ms[k].team2.value.name)) == ms[k].team2
  {
    if |conflicts| > 0 && !confirmed then Cancelled
    else
      match FormatMatches(ms, leagueId, week, date)
      case None => Failed(SubmitFailure)
      case Some(records) => Saved(records)
  }

  /** After "Regenerate Matches" as written, a conflict list left over from
      earlier edits no longer describes the new working copy: the new copy
      has no conflict, yet submitting it still asks for confirmation and a
      refusal cancels it. */
  lemma StaleConflictsBlockSubmit(roster: seq<Team>, shuffled: seq<Team>, regenerated: seq<Pairing>,
                                  stale: seq<Conflict>, leagueId: int, week: int, date: int)
    requires DistinctIds(roster)
    requires multiset(shuffled) == multiset(roster)
    requires PairsOff(regenerated, shuffled)
    requires stale != []
    ensures ConflictsOf(regenerated) == [] && stale != ConflictsOf(regenerated)
    ensures SubmitOutcomeOf(stale, regenerated, false, leagueId, week, date) == Cancelled
  {
    GeneratedHasNoConflicts(roster, shuffled, regenerated);
  }

  /** A conflict list is non-empty after an ordinary edit: on the roster
      A, B, C, D paired (A, B), (C, D), choosing A as team 1 of the second
      pairing reports A in pairings 0 and 1. */
  lemma EditReportsConflict()
    ensures var a, b, c, d := Team(1, "A"), Team(2, "B"), Team(3, "C"), Team(4, "D");
            var generated := [Pairing(Some(a), Some(b), false), Pairing(Some(c), Some(d), false)];
            ConflictsOf(UpdatePairing(generated, 1, Team1, Some(a))) == [Conflict(1, 0, 1)]
  {
    var a, b, c, d := Team(1, "A"), Team(2, "B"), Team(3, "C"), Team(4, "D");
    var edited := UpdatePairing([Pairing(Some(a), Some(b), false), Pairing(Some(c), Some(d), false)], 1, Team1, Some(a));
    assert edited == [Pairing(Some(a), Some(b), false), Pairing(Some(a), Some(d), true)];
    assert SlotId(edited, 0) == Some(1) && SlotId(edited, 1) == Some(2) && SlotId(edited, 2) == Some(1);
    assert FirstSeen(edited, 1) == map[1 := 0];
    assert FirstSeen(edited, 2) == map[1 := 0, 2 := 0];
    assert ConflictsUpTo(edited, 1) == [];
    assert ConflictsUpTo(edited, 2) == [];
    assert ConflictsUpTo(edited, 3) == [Conflict(1, 0, 1)];
  }

  // ---------------------------------------------------------------------
  // The screen's state

  /** The state `MatchGenerator` keeps for one league: the roster, the next
      week number, the generated pairings, the working copy and the
      conflicts last reported. */
  class MatchGeneratorSession {
    const leagueId: int
    const roster: seq<Team>
    var nextWeekNumber: int
    var generatedMatches: seq<Pairing>
    var manualMatches: seq<Pairing>
    var conflicts: seq<Conflict>
    var error: Option<string>

    /** The generated set comes from the roster and is conflict free and
        untouched; the working copy has the same length; the conflicts on
        record are those of the working copy. */
    ghost predicate Valid()
      reads this
    {
      DistinctIds(roster) &&
      |generatedMatches| == |manualMatches| == |roster| / 2 &&
      (forall k :: 0 <= k < |generatedMatches| ==> !generatedMatches[k].isManual) &&
      ConflictsOf(generatedMatches) == [] &&
      conflicts == ConflictsOf(manualMatches)
    }

    /** "Reset Changes" is enabled once some pairing has been edited. */
    predicate ResetEnabled()
      reads this
    {
      exists k :: 0 <= k < |manualMatches| && manualMatches[k].isManual
    }

    /** `fetchLeagueDetails`: the week number from the history, then a first
        generation. The store assigns distinct team ids. */
    constructor (leagueId: int, roster: seq<Team>, history: seq<Option<int>>, shuffled: seq<Team>)
      requires DistinctIds(roster)
      requires multiset(shuffled) == multiset(roster)
      ensures Valid()
      ensures this.leagueId == leagueId && this.roster == roster
      ensures nextWeekNumber == NextWeekNumber(history)
      ensures PairsOff(generatedMatches, shuffled) && manualMatches == generatedMatches
      ensures conflicts == [] && error == None && !ResetEnabled()
    {
      this.leagueId := leagueId;
      this.roster := roster;
      nextWeekNumber := NextWeekNumber(history);
      conflicts := [];
      error := None;
      new;
      var matches := PairOff(shuffled);
      assert |shuffled| == |multiset(roster)|;
      GeneratedHasNoConflicts(roster, shuffled, matches);
      generatedMatches := matches;
      manualMatches := matches;
    }

    /** "Regenerate Matches", with the conflict list recomputed for the new
        working copy (it is empty). */
    method Regenerate(shuffled: seq<Team>)
      requires Valid()
      requires multiset(shuffled) == multiset(roster)
      modifies this
      ensures Valid()
      ensures PairsOff(generatedMatches, shuffled) && manualMatches == generatedMatches
      ensures conflicts == [] && !ResetEnabled()
      ensures nextWeekNumber == old(nextWeekNumber) && error == old(error)
    {
      var matches := PairOff(shuffled);
      assert |shuffled| == |multiset(roster)|;
      GeneratedHasNoConflicts(roster, shuffled, matches);
      generatedMatches := matches;
      manualMatches := matches;
      conflicts := ScanConflicts(matches);
    }

    /** "Regenerate Matches" as `generateInitialMatches` is written: both
        pairing lists are replaced and the conflict list is left as it was. */
    method RegenerateAsWritten(shuffled: seq<Team>)
      modifies this
      ensures PairsOff(generatedMatches, shuffled) && manualMatches == generatedMatches
      ensures conflicts == old(conflicts)
      ensures nextWeekNumber == old(nextWeekNumber) && error == old(error)
    {
      var matches := PairOff(shuffled);
      generatedMatches := matches;
      manualMatches := matches;
    }

    /** `handleMatchUpdate(index, side, team)` followed by `checkConflicts`;
        `ok` is what `checkConflicts` returns. */
    method MatchUpdate(index: nat, side: Side, optionValue: string) returns (ok: bool)
      requires Valid()
      requires index < |manualMatches|
      modifies this
      ensures Valid()
      ensures manualMatches == UpdatePairing(old(manualMatches), index, side, SelectTeam(roster, optionValue))
      ensures conflicts == ConflictsOf(manualMatches)
      ensures ok <==> NoRepeatedTeam(manualMatches)
      ensures ResetEnabled()
      ensures generatedMatches == old(generatedMatches)
      ensures nextWeekNumber == old(nextWeekNumber) && error == old(error)
    {
      manualMatches := UpdatePairing(manualMatches, index, side, SelectTeam(roster, optionValue));
      conflicts := ScanConflicts(manualMatches);
      ConflictsEmptyIff(manualMatches);
      ok := |conflicts| == 0;
      assert manualMatches[index].isManual;
    }

    /** `handleReset`: on confirmation the working copy is the generated set
        again and the conflict list is cleared. */
    method Reset(confirmed: bool)
      requires Valid()
      modifies this
      ensures Valid()
      ensures confirmed ==> manualMatches == generatedMatches && conflicts == [] && !ResetEnabled()
      ensures !confirmed ==> manualMatches == old(manualMatches) && conflicts == old(conflicts)
      ensures generatedMatches == old(generatedMatches)
      ensures nextWeekNumber == old(nextWeekNumber) && error == old(error)
    {
      if confirmed {
        manualMatches := generatedMatches;
        conflicts := [];
      }
    }

    /** `handleSubmit`; a formatting failure is recorded as the screen's
        error, everything else leaves the state as it is. */
    method Submit(confirmed: bool, date: int) returns (outcome: SubmitOutcome)
      requires Valid()
      modifies this
      ensures Valid()
      ensures outcome == SubmitOutcomeOf(conflicts, manualMatches, confirmed, leagueId, nextWeekNumber, date)
      ensures outcome.Failed? ==> error == Some(outcome.message)
      ensures !outcome.Failed? ==> error == old(error)
      ensures manualMatches == old(manualMatches) && generatedMatches == old(generatedMatches)
      ensures conflicts == old(conflicts) && nextWeekNumber == old(nextWeekNumber)
    {
      outcome := SubmitOutcomeOf(conflicts, manualMatches, confirmed, leagueId, nextWeekNumber, date);
      if outcome.Failed? {
        error := Some(outcome.message);
      }
    }
  }
}
