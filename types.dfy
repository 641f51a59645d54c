/** The data model of one quiz session: enumerations, records and the avatar table. */
module Types {

  /** A value that may be absent (an optional field, a missing document). */
  datatype Option<+T> = None | Some(value: T) {

    /** The value, or `default` when absent. */
    function GetOr(default: T): T {
      match this
      case Some(v) => v
      case None => default
    }

    /** This option when present, otherwise `fallback` (the `{...a, ...b}` rule for one field). */
    function OrElse(fallback: Option<T>): Option<T> {
      if Some? then this else fallback
    }
  }

  datatype GameMode = Individual | Teams

  /** The numeric enumeration of game lengths; the number is used directly as a round count. */
  datatype GameLength = Normal | Long | Custom {

    function Value(): (n: nat)
      ensures this == GameLength.Normal ==> n == 5
      ensures this == Long ==> n == 10
      ensures n == 0 <==> this == Custom
      ensures n % 5 == 0 && n <= 10
    {
      match this
      case Normal => 5
      case Long => 10
      case Custom => 0
    }
  }

  /** The enumeration member whose numeric value is `n`, if any. */
  function LengthOfValue(n: int): (r: Option<GameLength>)
    ensures r.Some? <==> n in {0, 5, 10}
  {
    if n == 5 then Some(GameLength.Normal)
    else if n == 10 then Some(Long)
    else if n == 0 then Some(Custom)
    else None
  }

  /** The numeric values are pairwise distinct, so value and member determine each other. */
  lemma LengthValueRoundTrip(l: GameLength, n: int)
    ensures LengthOfValue(l.Value()) == Some(l)
    ensures LengthOfValue(n) == Some(l) <==> l.Value() == n
  {
  }

  /** Knowledge, performative challenge, riddle, music. */
  datatype RoundType = Normal | Doe | Raadsel | Muziek

  /** The six lifecycle states of a session document. */
  datatype Status = Lobby | WaitingForPlayers | Setup | CategorySelection | Playing | Finished

  /** The client-local roles 'HOST' and 'PLAYER'. */
  datatype Role = HostRole | PlayerRole

  datatype Player = Player(id: string, name: string, avatar: string, score: int, isReady: Option<bool>)

  datatype Team = Team(id: string, name: string, players: seq<Player>, score: int)

  datatype Question = Question(
    id: string,
    qtype: RoundType,
    text: string,
    options: Option<seq<string>>,
    answer: string,
    explanation: Option<string>,
    imageHint: Option<string>,
    timer: int)

  datatype Round = Round(number: int, theme: string, rtype: RoundType, questions: seq<Question>)

  /** A client's view of the session: the shared fields plus the client-local roomCode, role and playerId. */
  datatype GameState = GameState(
    roomCode: Option<string>,
    role: Option<Role>,
    playerId: Option<string>,
    players: seq<Player>,
    teams: seq<Team>,
    mode: GameMode,
    length: GameLength,
    currentRoundIndex: int,
    currentQuestionIndex: int,
    rounds: seq<Round>,
    status: Status,
    quizMasterEnabled: bool,
    currentAnswerId: Option<string>,
    showAnswer: Option<bool>,
    timeLeft: Option<int>)

  datatype Avatar = Avatar(id: string, icon: string, name: string)

  const AVATARS: seq<Avatar> := [
    Avatar("broccoli", "\U{1F966}", "Meneer Broccoli"),
    Avatar("violin", "\U{1F3BB}", "Victor Viool"),
    Avatar("dog", "\U{1F436}", "Davy de Hond"),
    Avatar("cat", "\U{1F431}", "Kato de Kat"),
    Avatar("mario", "\U{1F344}", "Mario Bro"),
    Avatar("alien", "\U{1F47D}", "Zorg de Alien"),
    Avatar("princess", "\U{1F451}", "Prinses Parel"),
    Avatar("taco", "\U{1F32E}", "Timo Taco"),
    Avatar("robot", "\U{1F916}", "Robo-Bob"),
    Avatar("unicorn", "\U{1F984}", "Uli de Eenhoorn")
  ]

  /** The icon shown for an avatar id (`AVATARS.find(a => a.id === id)?.icon`). */
  function AvatarIcon(id: string): (r: Option<string>)
    ensures r.Some? <==> exists k :: 0 <= k < |AVATARS| && AVATARS[k].id == id
    ensures forall k :: 0 <= k < |AVATARS| && AVATARS[k].id == id ==> r == Some(AVATARS[k].icon)
  {
    FindIcon(AVATARS, id)
  }

  function FindIcon(table: seq<Avatar>, id: string): (r: Option<string>)
    requires forall i, j :: 0 <= i < j < |table| ==> table[i].id != table[j].id
    ensures r.Some? <==> exists k :: 0 <= k < |table| && table[k].id == id
    ensures forall k :: 0 <= k < |table| && table[k].id == id ==> r == Some(table[k].icon)
  {
    if table == [] then None
    else if table[0].id == id then Some(table[0].icon)
    else
      var r := FindIcon(table[1..], id);
      assert forall k :: 1 <= k < |table| ==> table[k] == table[1..][k - 1];
      r
  }

  /** Ten avatars with pairwise distinct ids. */
  lemma AvatarTable()
    ensures |AVATARS| == 10
    ensures forall i, j :: 0 <= i < j < |AVATARS| ==> AVATARS[i].id != AVATARS[j].id
  {
  }
}
