/** The entities the two pairing engines share: a team of the league roster
    and a match record as it is sent to the match store. */
module Schedule {

  /** A team of the roster; `id` is assigned by the store. */
  datatype Team = Team(id: int, name: string)

  /** A match record as both generators build it. `date` is a day number:
      calendar and time-zone handling are not part of this model. */
  datatype MatchRecord = MatchRecord(
    league_id: int,
    week_number: int,
    team1_id: int,
    team2_id: int,
    date: int)

  /** No two teams of the sequence share an id. */
  ghost predicate DistinctIds(s: seq<Team>)
  {
    forall i, j :: 0 <= i < j < |s| ==> s[i].id != s[j].id
  }

  /** Distinct ids imply distinct teams, so each team occurs once. */
  lemma {:induction false} DistinctIdsOccurOnce(s: seq<Team>, t: Team)
    requires DistinctIds(s)
    ensures multiset(s)[t] <= 1
  {
    if s != [] {
      var last := s[|s| - 1];
      var init := s[..|s| - 1];
      assert s == init + [last];
      DistinctIdsOccurOnce(init, t);
      if t == last {
        assert t !in init;
      }
    }
  }

  /** A team found at two indexes is counted twice. */
  lemma CountAtLeast(p: seq<Team>, i: nat, j: nat)
    requires i < j < |p|
    ensures multiset(p)[p[i]] >= (if p[i] == p[j] then 2 else 1)
  {
    assert p == p[..i] + [p[i]] + p[i + 1..j] + [p[j]] + p[j + 1..];
  }

  /** Reordering a roster keeps its ids distinct. */
  lemma PermutationKeepsDistinctIds(s: seq<Team>, p: seq<Team>)
    requires DistinctIds(s)
    requires multiset(p) == multiset(s)
    ensures DistinctIds(p)
  {
    forall i, j | 0 <= i < j < |p| ensures p[i].id != p[j].id {
      CountAtLeast(p, i, j);
      DistinctIdsOccurOnce(s, p[i]);
      assert p[i] in multiset(s) && p[j] in multiset(s);
      var a :| 0 <= a < |s| && s[a] == p[i];
      var b :| 0 <= b < |s| && s[b] == p[j];
      assert a != b;
    }
  }
}
