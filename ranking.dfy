/** The final standings on the dashboard: teams by non-increasing score, ties in their original order. */
module Ranking {
  import opened Types

  /** Scores do not increase along `s`. */
  predicate SortedByScore(s: seq<Team>) {
    forall i, j :: 0 <= i < j < |s| ==> s[i].score >= s[j].score
  }

  /** The teams of `s` that have score `v`, in order. */
  function WithScore(s: seq<Team>, v: int): seq<Team> {
    if s == [] then [] else (if s[0].score == v then [s[0]] else []) + WithScore(s[1..], v)
  }

  /** `t` placed before the first team of `s` that scores no more than `t`. */
  function Insert(t: Team, s: seq<Team>): (r: seq<Team>)
    ensures |r| == |s| + 1
  {
    if s == [] then [t]
    else if s[0].score <= t.score then [t] + s
    else [s[0]] + Insert(t, s[1..])
  }

  /** The stable sort `[...teams].sort((a, b) => b.score - a.score)`, as insertion from the back. */
  function SortedTeams(teams: seq<Team>): (r: seq<Team>)
    ensures |r| == |teams|
  {
    if teams == [] then [] else Insert(teams[0], SortedTeams(teams[1..]))
  }

  lemma {:induction false} InsertMultiset(t: Team, s: seq<Team>)
    ensures multiset(Insert(t, s)) == multiset(s) + multiset{t}
  {
    if s != [] && s[0].score > t.score {
      InsertMultiset(t, s[1..]);
      assert s == [s[0]] + s[1..];
    }
  }

  lemma {:induction false} InsertSorted(t: Team, s: seq<Team>)
    requires SortedByScore(s)
    ensures SortedByScore(Insert(t, s))
  {
    if s == [] {
    } else if s[0].score <= t.score {
      var r := [t] + s;
      forall i, j | 0 <= i < j < |r| ensures r[i].score >= r[j].score {
        if i == 0 { assert r[j] == s[j - 1]; } else { assert r[i] == s[i - 1] && r[j] == s[j - 1]; }
      }
    } else {
      var tail := s[1..];
      assert SortedByScore(tail) by {
        forall i, j | 0 <= i < j < |tail| ensures tail[i].score >= tail[j].score {
          assert tail[i] == s[i + 1] && tail[j] == s[j + 1];
        }
      }
      InsertSorted(t, tail);
      InsertMultiset(t, tail);
      var rest := Insert(t, tail);
      var r := [s[0]] + rest;
      forall i, j | 0 <= i < j < |r| ensures r[i].score >= r[j].score {
        if i == 0 {
          assert r[j] == rest[j - 1];
          assert r[j] in multiset(rest);
          if r[j] != t {
            assert r[j] in multiset(tail);
            var k :| 0 <= k < |tail| && tail[k] == r[j];
            assert s[k + 1] == r[j];
          }
        } else {
          assert r[i] == rest[i - 1] && r[j] == rest[j - 1];
        }
      }
    }
  }

  lemma {:induction false} InsertWithScore(t: Team, s: seq<Team>, v: int)
    requires SortedByScore(s)
    ensures WithScore(Insert(t, s), v) == if v == t.score then [t] + WithScore(s, v) else WithScore(s, v)
  {
    if s == [] {
      assert WithScore([t], v) == (if t.score == v then [t] else []) + WithScore([], v);
    } else if s[0].score <= t.score {
      var r := [t] + s;
      assert r[1..] == s;
      assert WithScore(r, v) == (if t.score == v then [t] else []) + WithScore(s, v);
    } else {
      var tail := s[1..];
      assert SortedByScore(tail) by {
        forall i, j | 0 <= i < j < |tail| ensures tail[i].score >= tail[j].score {
          assert tail[i] == s[i + 1] && tail[j] == s[j + 1];
        }
      }
      InsertWithScore(t, tail, v);
      var rest := Insert(t, tail);
      var r := [s[0]] + rest;
      assert r[1..] == rest;
      assert WithScore(r, v) == (if s[0].score == v then [s[0]] else []) + WithScore(rest, v);
      if v == t.score {
        assert s[0].score != v;
      }
    }
  }

  lemma {:induction false} SortedTeamsSorted(teams: seq<Team>)
    ensures SortedByScore(SortedTeams(teams))
  {
    if teams != [] {
      SortedTeamsSorted(teams[1..]);
      InsertSorted(teams[0], SortedTeams(teams[1..]));
    }
  }

  lemma {:induction false} SortedTeamsPermutation(teams: seq<Team>)
    ensures multiset(SortedTeams(teams)) == multiset(teams)
  {
    if teams != [] {
      SortedTeamsPermutation(teams[1..]);
      InsertMultiset(teams[0], SortedTeams(teams[1..]));
      assert teams == [teams[0]] + teams[1..];
    }
  }

  lemma {:induction false} SortedTeamsStable(teams: seq<Team>, v: int)
    ensures WithScore(SortedTeams(teams), v) == WithScore(teams, v)
  {
    if teams != [] {
      var rest := SortedTeams(teams[1..]);
      SortedTeamsStable(teams[1..], v);
      SortedTeamsSorted(teams[1..]);
      InsertWithScore(teams[0], rest, v);
    }
  }

  /**
   * The standings are ordered by non-increasing score, hold exactly the teams
   * (a permutation), and keep teams of equal score in their original order.
   */
  lemma SortedTeamsCorrect(teams: seq<Team>)
    ensures SortedByScore(SortedTeams(teams))
    ensures multiset(SortedTeams(teams)) == multiset(teams)
    ensures forall v :: WithScore(SortedTeams(teams), v) == WithScore(teams, v)
  {
    SortedTeamsSorted(teams);
    SortedTeamsPermutation(teams);
    forall v ensures WithScore(SortedTeams(teams), v) == WithScore(teams, v) {
      SortedTeamsStable(teams, v);
    }
  }

  /** The winner: the first of the standings, defined only when there is a team (its players are shown). */
  function Winner(teams: seq<Team>): (w: Team)
    requires |teams| > 0
    ensures w in teams
    ensures forall k :: 0 <= k < |teams| ==> w.score >= teams[k].score
  {
    var sorted := SortedTeams(teams);
    SortedTeamsCorrect(teams);
    assert |sorted| == |multiset(sorted)| == |teams|;
    assert sorted[0] in multiset(teams);
    forall k | 0 <= k < |teams| ensures sorted[0].score >= teams[k].score {
      assert teams[k] in multiset(sorted);
      var j :| 0 <= j < |sorted| && sorted[j] == teams[k];
    }
    sorted[0]
  }

  /** The standings as displayed: position idx carries rank idx + 1. */
  function Standings(teams: seq<Team>): (r: seq<(nat, Team)>)
    ensures |r| == |teams|
    ensures forall idx :: 0 <= idx < |r| ==> r[idx].0 == idx + 1 && r[idx].1 == SortedTeams(teams)[idx]
    ensures |teams| > 0 ==> r[0] == (1, Winner(teams))
  {
    var sorted := SortedTeams(teams);
    SortedTeamsCorrect(teams);
    assert |sorted| == |multiset(sorted)| == |teams|;
    seq(|sorted|, idx requires 0 <= idx < |sorted| => (idx + 1, sorted[idx]))
  }
}
