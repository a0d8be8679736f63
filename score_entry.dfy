/** The score entry page of one match: loading the match checks that the
    league names a course and that both teams carry their players, then
    builds an empty score grid; a cell edit stores one hole score; submitting
    flattens the grid into per-player, per-hole records. */
module ScoreEntry {
  import opened Js

  /** A player as the match store returns it; ids are assigned by the store. */
  datatype Player = Player(id: nat, first_name: string, last_name: string)

  datatype TeamData = TeamData(players: Option<seq<Player>>)

  datatype LeagueRef = LeagueRef(course_id: Value)

  /** What the match store returns for a match; a missing nested object is
      `None`. */
  datatype MatchData = MatchData(
    league: Option<LeagueRef>,
    team1: Option<TeamData>,
    team2: Option<TeamData>,
    team1_id: int,
    team2_id: int)

  /** One entry of the `scores` object: a player id and one cell per hole. */
  datatype ScoreRow = ScoreRow(playerId: nat, holes: seq<Value>)

  /** The `scores` object, as `Object.entries` lists it: integer keys come
      out in ascending order, each once. */
  type ScoreTable = seq<ScoreRow>

  datatype HoleScore = HoleScore(hole_number: int, strokes: int)

  datatype PlayerScore = PlayerScore(player_id: int, team_id: int, hole_scores: seq<HoleScore>)

  datatype Loaded = Loaded(team1Players: seq<Player>, team2Players: seq<Player>, scores: ScoreTable)

  const LoadFailed: string := "Failed to load match details: "
  const NoCourseError: string := "No course ID found for this match"
  const MissingPlayersError: string := "Team or player data missing"

  /** The keys of the table ascend strictly. */
  ghost predicate Ascending(t: ScoreTable)
  {
    forall i, j :: 0 <= i < j < |t| ==> t[i].playerId < t[j].playerId
  }

  /** `scores[id]` */
  function Lookup(t: ScoreTable, id: nat): Option<seq<Value>>
  {
    if t == [] then None
    else if t[0].playerId == id then Some(t[0].holes)
    else Lookup(t[1..], id)
  }

  /** Reading a key finds a row stored under it, or nothing when no row has
      that key. */
  lemma {:induction false} LookupMeaning(t: ScoreTable, id: nat)
    ensures Lookup(t, id).None? <==> forall i :: 0 <= i < |t| ==> t[i].playerId != id
    ensures Lookup(t, id).Some? ==> exists i :: 0 <= i < |t| && t[i] == ScoreRow(id, Lookup(t, id).value)
  {
    if t != [] && t[0].playerId != id {
      LookupMeaning(t[1..], id);
      assert forall i :: 1 <= i < |t| ==> t[i] == t[1..][i - 1];
      if Lookup(t, id).Some? {
        var i :| 0 <= i < |t[1..]| && t[1..][i] == ScoreRow(id, Lookup(t, id).value);
        assert t[i + 1] == t[1..][i];
      }
    }
  }

  /** In an ascending table every row is the one its key finds. */
  lemma LookupFinds(t: ScoreTable, i: nat)
    requires Ascending(t) && i < |t|
    ensures Lookup(t, t[i].playerId) == Some(t[i].holes)
  {
    LookupMeaning(t, t[i].playerId);
    var r := Lookup(t, t[i].playerId);
    var j :| 0 <= j < |t| && t[j] == ScoreRow(t[i].playerId, r.value);
    assert j == i;
  }

  /** A table with one more row in front: its rows, and what reading a key
      from it finds. */
  lemma ConsFacts(x: ScoreRow, rest: ScoreTable)
    ensures forall i :: 1 <= i < |[x] + rest| ==> ([x] + rest)[i] == rest[i - 1]
    ensures forall k :: Lookup([x] + rest, k) == (if x.playerId == k then Some(x.holes) else Lookup(rest, k))
  {
    assert ([x] + rest)[1..] == rest;
  }

  /** A row whose key is below every key of an ascending table can go in
      front. */
  lemma ConsAscending(x: ScoreRow, rest: ScoreTable)
    requires Ascending(rest)
    requires forall i :: 0 <= i < |rest| ==> x.playerId < rest[i].playerId
    ensures Ascending([x] + rest)
  {
    ConsFacts(x, rest);
  }

  /** `scores[id] = row`: the key is added in its place, or its row
      replaced; no other key changes. */
  function Put(t: ScoreTable, id: nat, row: seq<Value>): (r: ScoreTable)
    requires Ascending(t)
    ensures Ascending(r)
    ensures Lookup(r, id) == Some(row)
    ensures forall k :: k != id ==> Lookup(r, k) == Lookup(t, k)
    ensures forall i :: 0 <= i < |r| ==> r[i].playerId == id || r[i] in t
  {
    if t == [] then [ScoreRow(id, row)]
    else if id < t[0].playerId then
      ConsFacts(ScoreRow(id, row), t);
      ConsAscending(ScoreRow(id, row), t);
      [ScoreRow(id, row)] + t
    else if id == t[0].playerId then
      ConsFacts(t[0], t[1..]);
      ConsFacts(ScoreRow(id, row), t[1..]);
      assert t == [t[0]] + t[1..];
      ConsAscending(ScoreRow(id, row), t[1..]);
      [ScoreRow(id, row)] + t[1..]
    else
      var rest := Put(t[1..], id, row);
      ConsFacts(t[0], t[1..]);
      assert t == [t[0]] + t[1..];
      ConsFacts(t[0], rest);
      ConsAscending(t[0], rest);
      [t[0]] + rest
  }

  /** `Array(n).fill('')` */
  function BlankRow(n: nat): (r: seq<Value>)
    ensures |r| == n && forall j :: 0 <= j < n ==> r[j] == Str([])
  {
    seq(n, _ => Str([]))
  }

  /** Some player of the list has this id. */
  predicate InRoster(players: seq<Player>, id: nat)
  {
    exists i :: 0 <= i < |players| && players[i].id == id
  }

  /** One more player of the list brings in one more id. */
  lemma InRosterExtend(players: seq<Player>, i: nat)
    requires i < |players|
    ensures forall k :: InRoster(players[..i + 1], k) <==> InRoster(players[..i], k) || players[i].id == k
  {
    assert players[..i + 1] == players[..i] + [players[i]];
  }

  /** The `initialScores` loop: every player of either team gets a row of
      `holeCount` empty cells, and no other key is present. */
  method InitialScores(team1: seq<Player>, team2: seq<Player>, holeCount: nat) returns (t: ScoreTable)
    ensures Ascending(t)
    ensures forall k :: Lookup(t, k).Some? <==> InRoster(team1 + team2, k)
    ensures forall k :: Lookup(t, k).Some? ==> Lookup(t, k).value == BlankRow(holeCount)
  {
    var players := team1 + team2;
    t := [];
    var i := 0;
    while i < |players|
      invariant 0 <= i <= |players|
      invariant Ascending(t)
      invariant forall k :: Lookup(t, k).Some? <==> InRoster(players[..i], k)
      invariant forall k :: Lookup(t, k).Some? ==> Lookup(t, k).value == BlankRow(holeCount)
    {
      InRosterExtend(players, i);
      t := Put(t, players[i].id, BlankRow(holeCount));
      i := i + 1;
    }
    assert players[..i] == players;
  }

  function PlayersOf(team: Option<TeamData>): Option<seq<Player>>
  {
    if team.Some? then team.value.players else None
  }

  /** `fetchMatchDetails` once the match is fetched. `holeCount` is the
      number of holes of the course the league names; fetching it and
      sorting the players for display are not part of this model. */
  method LoadMatchDetails(m: MatchData, holeCount: nat) returns (r: Result<Loaded, string>)
    ensures (m.league.None? || !Truthy(m.league.value.course_id)) ==> r == Err(LoadFailed + NoCourseError)
    ensures (m.league.Some? && Truthy(m.league.value.course_id) &&
             (PlayersOf(m.team1).None? || PlayersOf(m.team2).None?)) ==>
      r == Err(LoadFailed + MissingPlayersError)
    ensures r.Ok? ==>
      m.league.Some? && Truthy(m.league.value.course_id) &&
      PlayersOf(m.team1) == Some(r.value.team1Players) &&
      PlayersOf(m.team2) == Some(r.value.team2Players) &&
      Ascending(r.value.scores) &&
      (forall k :: Lookup(r.value.scores, k).Some? <==> InRoster(r.value.team1Players + r.value.team2Players, k)) &&
      (forall k :: Lookup(r.value.scores, k).Some? ==> Lookup(r.value.scores, k).value == BlankRow(holeCount))
    ensures r.Err? <==>
      m.league.None? || !Truthy(m.league.value.course_id) ||
      PlayersOf(m.team1).None? || PlayersOf(m.team2).None?
  {
    if m.league.None? || !Truthy(m.league.value.course_id) {
      return Err(LoadFailed + NoCourseError);
    }
    var p1, p2 := PlayersOf(m.team1), PlayersOf(m.team2);
    if p1.None? || p2.None? {
      return Err(LoadFailed + MissingPlayersError);
    }
    var scores := InitialScores(p1.value, p2.value, holeCount);
    return Ok(Loaded(p1.value, p2.value, scores));
  }

  /** `parseInt(value) || ''`: a typed number other than 0, else ''. */
  function CellValue(value: string): (v: Value)
    ensures ParseInt(value).Num? && ParseInt(value).n != 0 ==> v == ParseInt(value)
    ensures !(ParseInt(value).Num? && ParseInt(value).n != 0) ==> v == Str([])
  {
    Or(ParseInt(value), Str([]))
  }

  /** `[...row.slice(0, i), v, ...row.slice(i + 1)]` for an index in range. */
  function ReplaceAt(row: seq<Value>, i: nat, v: Value): (r: seq<Value>)
    requires i < |row|
    ensures |r| == |row| && r[i] == v
    ensures forall j :: 0 <= j < |row| && j != i ==> r[j] == row[j]
  {
    row[..i] + [v] + row[i + 1..]
  }

  /** `handleScoreChange`: only cell `holeIndex` of that player's row takes
      the new value; the row keeps its length and no other row changes. The
      grid only offers cells of rows that exist. */
  function HandleScoreChange(t: ScoreTable, playerId: nat, holeIndex: int, value: string): (r: ScoreTable)
    requires Ascending(t)
    requires Lookup(t, playerId).Some? && 0 <= holeIndex < |Lookup(t, playerId).value|
    ensures Ascending(r)
    ensures forall k :: k != playerId ==> Lookup(r, k) == Lookup(t, k)
    ensures Lookup(r, playerId).Some?
    ensures var before, after := Lookup(t, playerId).value, Lookup(r, playerId).value;
      |after| == |before| && after[holeIndex] == CellValue(value) &&
      forall j :: 0 <= j < |before| && j != holeIndex ==> after[j] == before[j]
  {
    var row := Lookup(t, playerId).value;
    Put(t, playerId, ReplaceAt(row, holeIndex, CellValue(value)))
  }

  /** `parseInt(strokes) || 0` */
  function Strokes(cell: Value): (n: int)
    ensures ParseIntValue(cell).Num? ==> n == ParseIntValue(cell).n
    ensures !ParseIntValue(cell).Num? ==> n == 0
  {
    var v := Or(ParseIntValue(cell), Num(0));
    if v.Num? then v.n else 0
  }

  /** `parseInt(key)` of a key written by `String(id)`. */
  function KeyToId(id: nat): (r: int)
    ensures r == id
  {
    ParseIntOfIntToString(id);
    ParseInt(IntToString(id)).n
  }

  /** The records `handleSubmit` sends: one per key of the grid, in key
      order; the team is team 1 exactly when a team-1 player has that id;
      holes are numbered from 1. */
  function FormatScores(t: ScoreTable, team1Players: seq<Player>, team1_id: int, team2_id: int): (r: seq<PlayerScore>)
    ensures |r| == |t|
    ensures forall k :: 0 <= k < |t| ==>
      r[k].player_id == t[k].playerId &&
      (InRoster(team1Players, t[k].playerId) ==> r[k].team_id == team1_id) &&
      (!InRoster(team1Players, t[k].playerId) ==> r[k].team_id == team2_id) &&
      |r[k].hole_scores| == |t[k].holes| &&
      forall j :: 0 <= j < |t[k].holes| ==>
        r[k].hole_scores[j].hole_number == j + 1 && r[k].hole_scores[j].strokes == Strokes(t[k].holes[j])
  {
    seq(|t|, k requires 0 <= k < |t| =>
      var id := KeyToId(t[k].playerId);
      var holes := t[k].holes;
      var team := if InRoster(team1Players, id) then team1_id else team2_id;
      PlayerScore(id, team, seq(|holes|, j requires 0 <= j < |holes| => HoleScore(j + 1, Strokes(holes[j])))))
  }

  /** An untouched grid is sent as zero strokes on every hole. */
  lemma BlankGridFormatsToZero(t: ScoreTable, team1Players: seq<Player>, team1_id: int, team2_id: int, k: nat, j: nat)
    requires k < |t| && t[k].holes == BlankRow(|t[k].holes|) && j < |t[k].holes|
    ensures FormatScores(t, team1Players, team1_id, team2_id)[k].hole_scores[j].strokes == 0
  {
    assert ParseIntValue(Str([])) == NaN;
  }

  /** Typing a non-zero number into a cell and submitting sends that number
      as the strokes of that player on that hole. */
  lemma ScoreChangeThenFormat(t: ScoreTable, playerId: nat, holeIndex: nat, n: int,
                              team1Players: seq<Player>, team1_id: int, team2_id: int, k: nat)
    requires Ascending(t)
    requires Lookup(t, playerId).Some? && holeIndex < |Lookup(t, playerId).value|
    requires n != 0
    requires var r := HandleScoreChange(t, playerId, holeIndex, IntToString(n));
      k < |r| && r[k].playerId == playerId
    ensures var r := HandleScoreChange(t, playerId, holeIndex, IntToString(n));
      var f := FormatScores(r, team1Players, team1_id, team2_id);
      f[k].player_id == playerId && |f[k].hole_scores| == |Lookup(t, playerId).value| &&
      f[k].hole_scores[holeIndex] == HoleScore(holeIndex + 1, n)
  {
    var r := HandleScoreChange(t, playerId, holeIndex, IntToString(n));
    LookupFinds(r, k);
    ParseIntOfIntToString(n);
    ParseIntValueOfNum(n);
  }
}
