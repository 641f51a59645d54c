/**
 * The session lifecycle handlers of the app shell: each builds the partial
 * update it writes to the room document (or to the local state), gated by the
 * local role where the shell checks it.
 */
module Lifecycle {
  import opened Types
  import opened Snapshot

  /** The state a client starts in and returns to by "start new game" (App.tsx:33-43, App.tsx:67-80). */
  function InitialState(): (s: GameState)
    ensures s.status == Lobby && s.currentRoundIndex == -1 && s.currentQuestionIndex == -1
    ensures s.players == [] && s.teams == [] && s.rounds == [] && s.quizMasterEnabled
    ensures s.roomCode == None && s.role == None && s.playerId == None
    ensures s.mode == Individual && s.length == GameLength.Normal
  {
    GameState(None, None, None, [], [], Individual, GameLength.Normal, -1, -1, [], Lobby, true, None, None, None)
  }

  /** The document a host `set`s when it opens room `code`; it is also merged into the host's local state. */
  function HostDocument(code: string): (d: Patch)
    ensures d.roomCode == Some(code) && d.role == Some(HostRole) && d.status == Some(WaitingForPlayers)
    ensures d.players == Some([]) && d.teams == Some([]) && d.quizMasterEnabled == Some(true)
    ensures d.currentRoundIndex == Some(-1) && d.currentQuestionIndex == Some(-1)
    ensures d.playerId == None && d.mode == None && d.length == None && d.rounds == None
    ensures d.currentAnswerId == None && d.showAnswer == None && d.timeLeft == None
  {
    Empty.(roomCode := Some(code), role := Some(HostRole), status := Some(WaitingForPlayers),
           players := Some([]), teams := Some([]), currentRoundIndex := Some(-1),
           currentQuestionIndex := Some(-1), quizMasterEnabled := Some(true))
  }

  /** Hosting changes exactly the written fields of the local state and leaves the rest as it was. */
  lemma HostRoomLocal(s: GameState, code: string)
    ensures Apply(s, HostDocument(code)) ==
      s.(roomCode := Some(code), role := Some(HostRole), status := WaitingForPlayers,
         players := [], teams := [], currentRoundIndex := -1, currentQuestionIndex := -1,
         quizMasterEnabled := true)
  {
  }

  /** The record a joining client creates for itself. */
  function NewPlayer(id: string, name: string, avatar: string): (p: Player)
    ensures p.id == id && p.name == name && p.avatar == avatar && p.score == 0 && p.isReady == None
  {
    Player(id, name, avatar, 0, None)
  }

  /** Some player in `ps` has id `id` (`players.find(p => p.id === id)`). */
  predicate HasPlayer(ps: seq<Player>, id: string) {
    exists i :: 0 <= i < |ps| && ps[i].id == id
  }

  /** No two players in `ps` share an id. */
  predicate UniqueIds(ps: seq<Player>) {
    forall i, j :: 0 <= i < j < |ps| ==> ps[i].id != ps[j].id
  }

  /**
   * The update a joining client writes after its one-time read of the room
   * document `doc` (None when the room does not exist): the player list with
   * the newcomer appended, only while the room waits for players and only if
   * no listed player already has the newcomer's id.
   */
  function JoinUpdate(doc: Option<Patch>, p: Player): (u: Option<Patch>)
    ensures u.Some? <==>
      doc.Some? && doc.value.status == Some(WaitingForPlayers) && !HasPlayer(doc.value.players.GetOr([]), p.id)
  {
    match doc
    case None => None
    case Some(d) =>
      var players := d.players.GetOr([]);
      if d.status == Some(WaitingForPlayers) && !HasPlayer(players, p.id) then
        Some(Empty.(players := Some(players + [p])))
      else None
  }

  /**
   * A successful join appends the newcomer at the end of the room's player list,
   * keeps every listed player in its place, changes no other field of the
   * document and keeps player ids unique.
   */
  lemma JoinAppends(d: Patch, p: Player)
    requires JoinUpdate(Some(d), p).Some?
    ensures var d' := Compose(d, JoinUpdate(Some(d), p).value);
      var before := d.players.GetOr([]);
      && d' == d.(players := d'.players)
      && d'.players.Some? && |d'.players.value| == |before| + 1
      && d'.players.value[|before|] == p
      && (forall i :: 0 <= i < |before| ==> d'.players.value[i] == before[i])
      && (UniqueIds(before) ==> UniqueIds(d'.players.value))
  {
    var before := d.players.GetOr([]);
    var after := before + [p];
    assert !HasPlayer(before, p.id);
    if UniqueIds(before) {
      forall i, j | 0 <= i < j < |after| ensures after[i].id != after[j].id {
        if j == |before| {
          assert before[i].id != p.id;
        }
      }
    }
  }

  /** A join that is turned away leaves the room document as it was. */
  lemma JoinRefusedKeepsDocument(doc: Option<Patch>, p: Player)
    requires doc.Some? && (doc.value.status != Some(WaitingForPlayers) || HasPlayer(doc.value.players.GetOr([]), p.id))
    ensures JoinUpdate(doc, p) == None
  {
  }

  /** The fields a joining client merges into its own local state, whether or not the room took it. */
  function JoinLocal(code: string, playerId: string): (d: Patch)
    ensures d.roomCode == Some(code) && d.role == Some(PlayerRole)
    ensures d.playerId == Some(playerId) && d.status == Some(WaitingForPlayers)
    ensures d == Empty.(roomCode := d.roomCode, role := d.role, playerId := d.playerId, status := d.status)
  {
    Empty.(roomCode := Some(code), role := Some(PlayerRole), playerId := Some(playerId), status := Some(WaitingForPlayers))
  }

  lemma JoinLocalEffect(s: GameState, code: string, playerId: string)
    ensures Apply(s, JoinLocal(code, playerId)) ==
      s.(roomCode := Some(code), role := Some(PlayerRole), playerId := Some(playerId), status := WaitingForPlayers)
  {
  }

  /**
   * The local role is overwritten by the room document: once a joined player
   * receives a snapshot of a room that a host opened, its role is HOST.
   */
  lemma JoinedPlayerTakesHostRole(s: GameState, code: string, playerId: string, hostCode: string, updates: seq<Patch>)
    requires forall k :: 0 <= k < |updates| ==> updates[k].role == None
    ensures Apply(s, JoinLocal(code, playerId)).role == Some(PlayerRole)
    ensures Apply(Apply(s, JoinLocal(code, playerId)), ComposeAll(HostDocument(hostCode), updates)).role == Some(HostRole)
  {
    RoleSurvivesUpdates(HostDocument(hostCode), updates);
  }

  /** Updates that do not carry the role leave the stored role as it was. */
  lemma {:induction false} RoleSurvivesUpdates(d: Patch, updates: seq<Patch>)
    requires forall k :: 0 <= k < |updates| ==> updates[k].role == None
    ensures ComposeAll(d, updates).role == d.role
    decreases |updates|
  {
    if updates != [] {
      RoleSurvivesUpdates(d, updates[..|updates| - 1]);
    }
  }

  /** The only writer of the role field is hosting: the other handlers' updates never carry it. */
  lemma OnlyHostingWritesRole(s: GameState, d: Option<Patch>, p: Player, mode: GameMode, length: GameLength,
                               teams: seq<Team>, generated: seq<Round>)
    ensures HostDocument(s.roomCode.GetOr("")).role == Some(HostRole)
    ensures JoinUpdate(d, p).Some? ==> JoinUpdate(d, p).value.role == None
    ensures PlayersReadyUpdate(s).Some? ==> PlayersReadyUpdate(s).value.role == None
    ensures SetupUpdate(mode, length, teams, generated).role == None
    ensures CategoriesUpdate(generated).role == None
    ensures QuizMasterUpdate(s).role == None
  {
  }

  /** "Start setup": a host moves the room to SETUP; any other client writes nothing (App.tsx:126-131). */
  function PlayersReadyUpdate(s: GameState): (u: Option<Patch>)
    ensures u.Some? <==> s.role == Some(HostRole)
    ensures u.Some? ==> Apply(s, u.value) == s.(status := Setup)
  {
    if s.role == Some(HostRole) then Some(Empty.(status := Some(Setup))) else None
  }

  /** A request to the content generator: how many rounds, from which themes, how many questions in all. */
  datatype RoundsRequest = RoundsRequest(roundCount: int, themes: seq<string>, totalQuestions: int)

  /** The themes offered to the generator for a NORMAL or LONG game. */
  const DefaultThemes: seq<string> :=
    ["Actualiteit", "Netflix", "Nostalgie", "Sport", "Wetenschap", "Muziek", "Eten", "Reizen", "Gen Z", "Technologie"]

  /** What setup completion asks the generator for: nothing for CUSTOM, otherwise `length` rounds of five questions each. */
  function SetupRequest(length: GameLength): (r: Option<RoundsRequest>)
    ensures r.None? <==> length == Custom
    ensures r.Some? ==> r.value.roundCount == length.Value() && r.value.totalQuestions == 5 * length.Value()
    ensures r.Some? ==> r.value.themes == DefaultThemes && r.value.roundCount <= |DefaultThemes|
  {
    if length == Custom then None
    else Some(RoundsRequest(length.Value(), DefaultThemes, length.Value() * 5))
  }

  /**
   * The update setup completion writes: mode, length and teams, then for CUSTOM
   * the category selection screen without rounds, otherwise the generated rounds
   * and play from the first question.
   */
  function SetupUpdate(mode: GameMode, length: GameLength, teams: seq<Team>, generated: seq<Round>): (u: Patch)
    ensures u.mode == Some(mode) && u.length == Some(length) && u.teams == Some(teams)
    ensures length == Custom <==> u.status == Some(CategorySelection)
    ensures length == Custom <==> u.rounds == None
    ensures length != Custom <==> u.status == Some(Playing)
    ensures length != Custom ==> u.rounds == Some(generated) && u.currentRoundIndex == Some(0) && u.currentQuestionIndex == Some(0)
  {
    if length == Custom then
      Empty.(mode := Some(mode), length := Some(length), teams := Some(teams), status := Some(CategorySelection))
    else
      Empty.(mode := Some(mode), length := Some(length), teams := Some(teams), rounds := Some(generated),
             status := Some(Playing), currentRoundIndex := Some(0), currentQuestionIndex := Some(0))
  }

  /** Setup completion changes exactly the fields it writes and leaves every other field as it was. */
  lemma SetupUpdateEffect(s: GameState, mode: GameMode, length: GameLength, teams: seq<Team>, generated: seq<Round>)
    ensures length == Custom ==> (Apply(s, SetupUpdate(mode, length, teams, generated)) ==
      s.(mode := mode, length := length, teams := teams, status := CategorySelection))
    ensures length != Custom ==> (Apply(s, SetupUpdate(mode, length, teams, generated)) ==
      s.(mode := mode, length := length, teams := teams, rounds := generated, status := Playing,
         currentRoundIndex := 0, currentQuestionIndex := 0))
  {
  }

  /** What confirming the chosen themes asks the generator for: one round per selected theme. */
  function CategoriesRequest(selected: seq<string>, questionCount: int): (r: RoundsRequest)
    ensures r.roundCount == |selected| && r.themes == selected && r.totalQuestions == questionCount
  {
    RoundsRequest(|selected|, selected, questionCount)
  }

  /** The update written once the rounds for the chosen themes arrive: play from the first question. */
  function CategoriesUpdate(generated: seq<Round>): (u: Patch)
    ensures u.rounds == Some(generated) && u.status == Some(Playing)
    ensures u.currentRoundIndex == Some(0) && u.currentQuestionIndex == Some(0)
    ensures u.mode == None && u.length == None && u.teams == None && u.players == None
  {
    Empty.(rounds := Some(generated), status := Some(Playing), currentRoundIndex := Some(0), currentQuestionIndex := Some(0))
  }

  /** Starting play changes exactly the rounds, the status and the two indices. */
  lemma CategoriesUpdateEffect(s: GameState, generated: seq<Round>)
    ensures Apply(s, CategoriesUpdate(generated)) ==
      s.(rounds := generated, status := Playing, currentRoundIndex := 0, currentQuestionIndex := 0)
  {
  }

  /** The quiz-master toggle writes the negation of the local flag; no role is checked (App.tsx:172-178). */
  function QuizMasterUpdate(s: GameState): (u: Patch)
    ensures u.quizMasterEnabled == Some(!s.quizMasterEnabled)
    ensures Apply(s, u) == s.(quizMasterEnabled := !s.quizMasterEnabled)
  {
    Empty.(quizMasterEnabled := Some(!s.quizMasterEnabled))
  }

  /** Toggling twice, each time after the previous write came back, restores the local state. */
  lemma QuizMasterToggleTwice(s: GameState)
    ensures var s1 := Apply(s, QuizMasterUpdate(s)); Apply(s1, QuizMasterUpdate(s1)) == s
  {
  }

  /** Position of each status along the lifecycle. */
  function StatusRank(st: Status): nat {
    match st
    case Lobby => 0
    case WaitingForPlayers => 1
    case Setup => 2
    case CategorySelection => 3
    case Playing => 4
    case Finished => 5
  }

  /**
   * The handlers offered on each screen (App.tsx:226-286) move the status
   * forward along LOBBY, WAITING_FOR_PLAYERS, SETUP, CATEGORY_SELECTION,
   * PLAYING: hosting and joining from the lobby, "start setup" from the
   * waiting room, setup completion from setup and theme confirmation from the
   * category screen.
   */
  lemma HandlersMoveForward(s: GameState, code: string, playerId: string, mode: GameMode, length: GameLength,
                            teams: seq<Team>, generated: seq<Round>)
    ensures StatusRank(Lobby) < StatusRank(HostDocument(code).status.value)
    ensures StatusRank(Lobby) < StatusRank(JoinLocal(code, playerId).status.value)
    ensures PlayersReadyUpdate(s).Some? ==>
      StatusRank(WaitingForPlayers) < StatusRank(PlayersReadyUpdate(s).value.status.value)
    ensures StatusRank(Setup) < StatusRank(SetupUpdate(mode, length, teams, generated).status.value)
    ensures StatusRank(CategorySelection) < StatusRank(CategoriesUpdate(generated).status.value)
    ensures SetupUpdate(mode, length, teams, generated).status.value != Playing ==>
      SetupUpdate(mode, length, teams, generated).status.value == CategorySelection
  {
    var setup := SetupUpdate(mode, length, teams, generated).status;
    assert setup == Some(CategorySelection) || setup == Some(Playing);
    assert CategoriesUpdate(generated).status == Some(Playing);
  }
}
