/** Team construction on the setup screen. */
module TeamSetup {
  import opened Types

  /** The choices the setup screen starts with. */
  datatype SetupChoices = SetupChoices(mode: GameMode, length: GameLength, team1Name: string, team2Name: string)

  function InitialChoices(): (c: SetupChoices)
    ensures c.mode == Individual && c.length == GameLength.Normal
    ensures c.team1Name == "Team Alpha" && c.team2Name == "Team Omega"
  {
    SetupChoices(Individual, GameLength.Normal, "Team Alpha", "Team Omega")
  }

  /** `players[i]`, or `players[0]` when there is no i-th player (`players[i] || players[0]`). */
  function SlotOrFirst(players: seq<Player>, i: nat): (p: Player)
    requires |players| >= 1
    ensures i < |players| ==> p == players[i]
    ensures i >= |players| ==> p == players[0]
  {
    if i < |players| then players[i] else players[0]
  }

  /** The one-player team wrapping `p` in individual mode. */
  function SoloTeam(p: Player): Team {
    Team(p.id, p.name, [p], 0)
  }

  /**
   * The teams the host builds: one team per player in individual mode; in team
   * mode two teams `t1` and `t2` of two slots each, filled from the first four
   * players with `players[0]` standing in for a missing one.
   */
  function BuildTeams(mode: GameMode, players: seq<Player>, team1Name: string, team2Name: string): (teams: seq<Team>)
    requires mode == Teams ==> |players| >= 1
    ensures mode == Individual ==> (|teams| == |players| &&
      forall i :: 0 <= i < |players| ==> teams[i] == Team(players[i].id, players[i].name, [players[i]], 0))
    ensures mode == Teams ==> (|teams| == 2 && teams[0].id == "t1" && teams[1].id == "t2"
      && teams[0].name == team1Name && teams[1].name == team2Name
      && teams[0].players == [players[0], SlotOrFirst(players, 1)]
      && teams[1].players == [SlotOrFirst(players, 2), SlotOrFirst(players, 3)])
    ensures forall i :: 0 <= i < |teams| ==> teams[i].score == 0
  {
    match mode
    case Individual => seq(|players|, i requires 0 <= i < |players| => SoloTeam(players[i]))
    case Teams => [
      Team("t1", team1Name, [players[0], SlotOrFirst(players, 1)], 0),
      Team("t2", team2Name, [SlotOrFirst(players, 2), SlotOrFirst(players, 3)], 0)
    ]
  }

  /** What the setup screen hands on when "start" is pressed: nothing unless this client is the host. */
  function HandleStart(isHost: bool, choices: SetupChoices, players: seq<Player>): (r: Option<(GameMode, GameLength, seq<Team>)>)
    requires choices.mode == Teams ==> |players| >= 1
    ensures r.Some? <==> isHost
    ensures r.Some? ==> (r.value.0 == choices.mode && r.value.1 == choices.length
      && r.value.2 == BuildTeams(choices.mode, players, choices.team1Name, choices.team2Name))
  {
    if !isHost then None
    else Some((choices.mode, choices.length, BuildTeams(choices.mode, players, choices.team1Name, choices.team2Name)))
  }

  /** The players that appear in some team. */
  function Members(teams: seq<Team>): set<Player> {
    set i, j | 0 <= i < |teams| && 0 <= j < |teams[i].players| :: teams[i].players[j]
  }

  /**
   * In team mode the members are exactly the first four players (fewer if
   * there are fewer): later players are left out of both teams.
   */
  lemma TeamModeMembers(players: seq<Player>, n1: string, n2: string)
    requires |players| >= 1
    ensures var first := players[..if |players| < 4 then |players| else 4];
      Members(BuildTeams(Teams, players, n1, n2)) == set p | p in first
  {
    var teams := BuildTeams(Teams, players, n1, n2);
    var first := players[..if |players| < 4 then |players| else 4];
    forall p | p in first ensures p in Members(teams) {
      var k :| 0 <= k < |first| && first[k] == p;
      if k == 0 { assert teams[0].players[0] == p; }
      else if k == 1 { assert teams[0].players[1] == p; }
      else if k == 2 { assert teams[1].players[0] == p; }
      else { assert teams[1].players[1] == p; }
    }
    forall p | p in Members(teams) ensures p in first {
      var i, j :| 0 <= i < |teams| && 0 <= j < |teams[i].players| && teams[i].players[j] == p;
      assert p == players[0] || p == SlotOrFirst(players, 1) || p == SlotOrFirst(players, 2) || p == SlotOrFirst(players, 3);
      assert first[0] == players[0];
    }
  }

  /** With fewer than four players the empty slots repeat `players[0]`, so one player can fill several slots. */
  lemma TeamModeDuplicates(players: seq<Player>, n1: string, n2: string)
    requires 1 <= |players| < 4
    ensures var teams := BuildTeams(Teams, players, n1, n2);
      teams[1].players[1] == players[0]
      && (|players| < 3 ==> teams[1].players[0] == players[0])
      && (|players| < 2 ==> teams[0].players == [players[0], players[0]])
  {
  }

  /** Individual mode puts every player in exactly one team, and that team is its own. */
  lemma IndividualTeamsAreSingletons(players: seq<Player>, n1: string, n2: string)
    ensures var teams := BuildTeams(Individual, players, n1, n2);
      Members(teams) == set p | p in players
      && forall i :: 0 <= i < |teams| ==> teams[i].players == [players[i]] && teams[i].id == players[i].id
  {
    var teams := BuildTeams(Individual, players, n1, n2);
    forall p | p in players ensures p in Members(teams) {
      var k :| 0 <= k < |players| && players[k] == p;
      assert teams[k].players[0] == p;
    }
  }
}
