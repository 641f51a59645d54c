/**
 * The replicated store and the clients around it. The store keeps one partial
 * document per room path; a client keeps its local view of the session, the
 * themes offered for a CUSTOM game and a one-slot narration register. Handlers
 * write partial updates to the store; a client's local view changes when a
 * snapshot of its room is received (and, for hosting and joining, directly).
 */
module Clients {
  import opened Types
  import opened Snapshot
  import opened Lifecycle
  import opened Progression

  /** The room path a client writes to: its room code, or "undefined" when it has none (`rooms/${roomCode}`). */
  function RoomPath(code: Option<string>): (path: string)
    ensures code.Some? ==> path == code.value
    ensures code.None? ==> path == "undefined"
  {
    match code
    case Some(c) => c
    case None => "undefined"
  }

  /** The document at `key`, or None for a room that does not exist (a null snapshot). */
  function Lookup(rooms: map<string, Patch>, key: string): (d: Option<Patch>)
    ensures d.Some? <==> key in rooms
    ensures d.Some? ==> d.value == rooms[key]
  {
    if key in rooms then Some(rooms[key]) else None
  }

  /** The rooms after update `u` (if any) is merged into the document at `key`; a missing document is created. */
  function AfterWrite(rooms: map<string, Patch>, key: string, u: Option<Patch>): (r: map<string, Patch>)
    ensures u.None? ==> r == rooms
    ensures u.Some? ==> r.Keys == rooms.Keys + {key}
    ensures u.Some? ==> forall k :: k in rooms && k != key ==> r[k] == rooms[k]
    ensures u.Some? ==> Agrees(Apply(InitialState(), r[key]), u.value)
    ensures u.Some? ==> Overrides(r[key], u.value) && KeepsUnwritten(Lookup(rooms, key).GetOr(Empty), r[key], u.value)
  {
    match u
    case Some(p) =>
      var r := rooms[key := Compose(Lookup(rooms, key).GetOr(Empty), p)];
      ApplyCharacterised(InitialState(), r[key], Apply(InitialState(), r[key]));
      ApplyCompose(InitialState(), Lookup(rooms, key).GetOr(Empty), p);
      ApplyCharacterised(Apply(InitialState(), Lookup(rooms, key).GetOr(Empty)), p, Apply(InitialState(), r[key]));
      r
    case None => rooms
  }

  /** The shared real-time store: one document per room path, no transactions, last write wins per field. */
  class Store {
    var rooms: map<string, Patch>

    constructor ()
      ensures rooms == map[]
    {
      rooms := map[];
    }

    /** A one-time read of the document at `key`. */
    function Read(key: string): (d: Option<Patch>)
      reads this
      ensures d.Some? <==> key in rooms
      ensures d.Some? ==> d.value == rooms[key]
    {
      Lookup(rooms, key)
    }

    /** `set`: replace the whole document at `key`. */
    method Set(key: string, doc: Patch)
      modifies this
      ensures rooms == old(rooms)[key := doc]
    {
      rooms := rooms[key := doc];
    }

    /** `update`: merge the present fields of `u` into the document at `key`. */
    method Update(key: string, u: Patch)
      modifies this
      ensures rooms == AfterWrite(old(rooms), key, Some(u))
    {
      rooms := rooms[key := Compose(Lookup(rooms, key).GetOr(Empty), u)];
    }

    /** Write `u` when there is one; nothing otherwise. */
    method Write(key: string, u: Option<Patch>)
      modifies this
      ensures rooms == AfterWrite(old(rooms), key, u)
    {
      if u.Some? {
        Update(key, u.value);
      }
    }
  }

  class Client {
    /** The local view of the session. */
    var state: GameState
    /** The themes offered on the category screen of a CUSTOM game. */
    var suggestedThemes: seq<string>
    /** The narration register: the utterance being spoken, if any. Speaking replaces it, stopping clears it. */
    var utterance: Option<string>

    constructor ()
      ensures state == InitialState() && suggestedThemes == [] && utterance == None
    {
      state := InitialState();
      suggestedThemes := [];
      utterance := None;
    }

    /** The room this client listens to: only a non-empty room code subscribes. */
    function Subscription(): (c: Option<string>)
      reads this
      ensures c.Some? <==> state.roomCode.Some? && state.roomCode.value != ""
      ensures c.Some? ==> c == state.roomCode
    {
      match state.roomCode
      case Some(c) => if c != "" then Some(c) else None
      case None => None
    }

    /** The snapshot this client would receive now, if any. */
    function Incoming(store: Store): Option<Patch>
      reads this, store
    {
      match Subscription()
      case Some(c) => store.Read(c)
      case None => None
    }

    /** Receive a snapshot of the subscribed room and merge it into the local view; a missing room changes nothing. */
    method Receive(store: Store)
      modifies this
      ensures state == match old(Incoming(store)) case Some(d) => Apply(old(state), d) case None => old(state)
      ensures suggestedThemes == old(suggestedThemes) && utterance == old(utterance)
    {
      var d := Incoming(store);
      if d.Some? {
        state := Apply(state, d.value);
      }
    }

    /** "Start new game": stop narrating and reset the local view; the room document is left as it is. */
    method StartNewGame()
      modifies this
      ensures state == InitialState() && utterance == None
      ensures suggestedThemes == old(suggestedThemes)
    {
      utterance := None;
      state := InitialState();
    }

    /** Open room `code` (drawn at random by the caller): write the fresh document and merge it locally. */
    method HostRoom(store: Store, code: string)
      modifies this, store
      ensures store.rooms == old(store.rooms)[code := HostDocument(code)]
      ensures state == Apply(old(state), HostDocument(code))
      ensures suggestedThemes == old(suggestedThemes) && utterance == old(utterance)
    {
      store.Set(code, HostDocument(code));
      state := Apply(state, HostDocument(code));
    }

    /**
     * Join room `code` as a new player with id `playerId` (drawn at random by the
     * caller): append the player if the room accepts it, and enter the waiting
     * room locally in any case.
     */
    method JoinRoom(store: Store, code: string, name: string, avatar: string, playerId: string)
      modifies this, store
      ensures store.rooms == AfterWrite(old(store.rooms), code, JoinUpdate(old(store.Read(code)), NewPlayer(playerId, name, avatar)))
      ensures state == Apply(old(state), JoinLocal(code, playerId))
      ensures suggestedThemes == old(suggestedThemes) && utterance == old(utterance)
    {
      var u := JoinUpdate(store.Read(code), NewPlayer(playerId, name, avatar));
      store.Write(code, u);
      state := Apply(state, JoinLocal(code, playerId));
    }

    /** "Start setup" in the waiting room. */
    method PlayersReady(store: Store)
      modifies store
      ensures store.rooms == AfterWrite(old(store.rooms), RoomPath(state.roomCode), PlayersReadyUpdate(state))
    {
      store.Write(RoomPath(state.roomCode), PlayersReadyUpdate(state));
    }

    /**
     * Setup completed with `mode`, `length` and `teams`. For CUSTOM, `suggested`
     * is what the theme service returned; otherwise `generated` is what the
     * round generator returned for the returned request.
     */
    method SetupComplete(store: Store, mode: GameMode, length: GameLength, teams: seq<Team>,
                         suggested: seq<string>, generated: seq<Round>) returns (request: Option<RoundsRequest>)
      modifies this, store
      ensures request == SetupRequest(length)
      ensures suggestedThemes == if length == Custom then suggested else old(suggestedThemes)
      ensures store.rooms == AfterWrite(old(store.rooms), RoomPath(state.roomCode), Some(SetupUpdate(mode, length, teams, generated)))
      ensures state == old(state) && utterance == old(utterance)
    {
      request := SetupRequest(length);
      if length == Custom {
        suggestedThemes := suggested;
      }
      store.Update(RoomPath(state.roomCode), SetupUpdate(mode, length, teams, generated));
    }

    /** Themes confirmed: ask for one round per theme, then start play with what `generated` holds. */
    method CategoriesSelected(store: Store, selected: seq<string>, questionCount: int, generated: seq<Round>)
      returns (request: RoundsRequest)
      modifies store
      ensures request == CategoriesRequest(selected, questionCount)
      ensures store.rooms == AfterWrite(old(store.rooms), RoomPath(state.roomCode), Some(CategoriesUpdate(generated)))
    {
      request := CategoriesRequest(selected, questionCount);
      store.Update(RoomPath(state.roomCode), CategoriesUpdate(generated));
    }

    /** Flip the quiz master; narration stops when it is switched off. */
    method ToggleQuizMaster(store: Store)
      modifies this, store
      ensures store.rooms == AfterWrite(old(store.rooms), RoomPath(state.roomCode), Some(QuizMasterUpdate(state)))
      ensures utterance == if state.quizMasterEnabled then None else old(utterance)
      ensures state == old(state) && suggestedThemes == old(suggestedThemes)
    {
      if state.quizMasterEnabled {
        utterance := None;
      }
      store.Update(RoomPath(state.roomCode), QuizMasterUpdate(state));
    }

    /** The host reacts to a new active question: reset the timer and the answer, and narrate the intro. */
    method QuestionChanged(store: Store)
      modifies this, store
      ensures store.rooms == AfterWrite(old(store.rooms), RoomPath(state.roomCode), ResetUpdate(state))
      ensures utterance == if ResetUpdate(state).Some? then IntroCue(state) else old(utterance)
      ensures state == old(state) && suggestedThemes == old(suggestedThemes)
    {
      var u := ResetUpdate(state);
      if u.Some? {
        utterance := None;
        store.Update(RoomPath(state.roomCode), u.value);
        utterance := IntroCue(state);
      }
    }

    /** Reveal the answer (host only) and narrate it. */
    method RevealAnswer(store: Store)
      modifies this, store
      ensures store.rooms == AfterWrite(old(store.rooms), RoomPath(state.roomCode), RevealUpdate(state))
      ensures utterance == if RevealUpdate(state).Some? then AnswerCue(state) else old(utterance)
      ensures state == old(state) && suggestedThemes == old(suggestedThemes)
    {
      var u := RevealUpdate(state);
      if u.Some? {
        utterance := None;
        store.Update(RoomPath(state.roomCode), u.value);
        utterance := AnswerCue(state);
      }
    }

    /** One tick of the host's one-second interval. */
    method Tick(store: Store)
      modifies this, store
      ensures match TickEffectOf(state)
        case NoTick => store.rooms == old(store.rooms) && utterance == old(utterance)
        case Countdown(u) => store.rooms == AfterWrite(old(store.rooms), RoomPath(state.roomCode), Some(u)) && utterance == old(utterance)
        case TimeUp => store.rooms == AfterWrite(old(store.rooms), RoomPath(state.roomCode), RevealUpdate(state)) && utterance == AnswerCue(state)
      ensures state == old(state) && suggestedThemes == old(suggestedThemes)
    {
      match TickEffectOf(state)
      case NoTick =>
      case Countdown(u) =>
        store.Update(RoomPath(state.roomCode), u);
      case TimeUp =>
        RevealAnswer(store);
    }

    /** Award `points` to team `teamId` (host only). */
    method HandleScore(store: Store, teamId: string, points: int)
      modifies store
      ensures store.rooms == AfterWrite(old(store.rooms), RoomPath(state.roomCode), ScoreUpdate(state, teamId, points))
    {
      store.Write(RoomPath(state.roomCode), ScoreUpdate(state, teamId, points));
    }

    /** Move to the next question, the next round or the end (host only); narration stops. */
    method NextQuestion(store: Store)
      modifies this, store
      ensures store.rooms == AfterWrite(old(store.rooms), RoomPath(state.roomCode), NextUpdate(state))
      ensures utterance == if NextUpdate(state).Some? then None else old(utterance)
      ensures state == old(state) && suggestedThemes == old(suggestedThemes)
    {
      var u := NextUpdate(state);
      if u.Some? {
        utterance := None;
        store.Update(RoomPath(state.roomCode), u.value);
      }
    }
  }

  /**
   * A host opens room `code`, a player joins it and both receive the room's
   * snapshot. The player is listed in the room, and, because the host's
   * document carries `role: HOST` and a snapshot overrides every field it
   * carries, the joined player's local role becomes HOST as well.
   */
  method HostAndJoin(code: string, name: string, avatar: string, playerId: string)
    returns (store: Store, host: Client, guest: Client)
    requires code != ""
    ensures host.state.role == Some(HostRole) && host.state.status == WaitingForPlayers
    ensures guest.state.role == Some(HostRole)
    ensures guest.state.playerId == Some(playerId) && guest.state.roomCode == Some(code)
    ensures guest.state.players == [NewPlayer(playerId, name, avatar)] == host.state.players
  {
    store := new Store();
    host := new Client();
    guest := new Client();
    host.HostRoom(store, code);
    guest.JoinRoom(store, code, name, avatar, playerId);
    assert guest.state.role == Some(PlayerRole);
    guest.Receive(store);
    host.Receive(store);
  }

  /**
   * A host that opened room `code` walks one question of a one-question quiz:
   * the reset sets the question's time, each tick that comes back counts it
   * down, and at zero the tick reveals the answer.
   */
  method HostCountdown(code: string, store: Store, host: Client)
    requires code != "" && host.state.roomCode == Some(code) && IsHost(host.state)
    requires QuestionOnScreen(host.state) && CurrentQuestion(host.state).value.timer == 2
    requires code in store.rooms && Apply(host.state, store.rooms[code]) == host.state
    modifies store, host
    ensures host.state.timeLeft == Some(0) && host.state.showAnswer == Some(true)
  {
    ghost var s0, d0 := host.state, store.rooms[code];
    ghost var u := ResetUpdate(s0).value;
    host.QuestionChanged(store);
    InStepAfterUpdate(s0, d0, u);
    host.Receive(store);
    ghost var s1, d1 := host.state, store.rooms[code];
    assert s1 == s0.(timeLeft := Some(2), showAnswer := Some(false));
    u := TickEffectOf(s1).update;
    host.Tick(store);
    InStepAfterUpdate(s1, d1, u);
    host.Receive(store);
    ghost var s2, d2 := host.state, store.rooms[code];
    assert s2 == s1.(timeLeft := Some(1));
    u := TickEffectOf(s2).update;
    host.Tick(store);
    InStepAfterUpdate(s2, d2, u);
    host.Receive(store);
    ghost var s3, d3 := host.state, store.rooms[code];
    assert s3 == s2.(timeLeft := Some(0));
    assert TickEffectOf(s3) == TimeUp;
    host.Tick(store);
    InStepAfterUpdate(s3, d3, RevealPatch);
    host.Receive(store);
  }
}
