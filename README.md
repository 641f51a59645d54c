# Squizy quiz session — a Dafny model

Squizy is a party quiz played in one room. A host creates a session, players join it from their phones, the host picks the teams and the game length, and the host's client runs the questions. It counts down a timer, reveals answers, awards points and moves from question to question until the final standings are shown. All clients share one room document in a real-time store. Each client merges every snapshot of that document into its local state, field by field.

This project models that session as a sequential state machine and proves what its handlers do:

- **`Types`** (`types.dfy`): the records and enumerations of the session.
  - Game mode and game length. A length is a number that doubles as a round count: NORMAL = 5, LONG = 10, CUSTOM = 0.
  - The four round types and the six statuses.
  - Players, teams, questions, rounds and the session state. Its optional fields are `Option` values.
  - The avatar table.
- **`Snapshot`** (`snapshot.dfy`): a partial document, `Patch`, is a record of `Option` fields.
  - `Apply` is the merge `{...prev, ...data}`. The fields present in the patch win; absent fields keep their value.
  - `Compose` is what the store's `update` does to a stored document.
  - Replication is a sequence of merges. The lemmas show that a sequence of snapshots is one merge of their composition, and that the last snapshot wins.
- **`Lifecycle`** (`lifecycle.dfy`): the shell's handlers as the partial updates they write. They cover hosting, joining, "start setup", setup completion, theme confirmation, the quiz-master toggle and the reset to the lobby.
  - The requests they send to the content generator are returned as values.
  - The role overwrite is proved as written. The host document carries `role: HOST`; a joined player's local role PLAYER is replaced by it on the first snapshot.
- **`Progression`** (`progression.dfy`): the host side of the question screen.
  - The active question, the per-question reset and the narration texts.
  - The one-second countdown tick, the reveal and scoring.
  - The three-way advance over (round, question) positions, with its ordinal and walk lemmas.
- **`TeamSetup`** (`setup.dfy`): team construction in both modes.
- **`Categories`** (`categories.dfy`): the bounded theme selection, its confirmation and the question-count slider.
- **`Ranking`** (`ranking.dfy`): the final standings.
  - A stable sort by non-increasing score, proved sorted, a permutation, and order-preserving among ties.
  - The winner and the displayed ranks.
- **`Clients`** (`clients.dfy`): the imperative layer.
  - A `Store` class holds one document per room path. It has `set` and `update`.
  - A `Client` class holds its local state, the themes suggested for a CUSTOM game and a one-slot narration register. Each handler is a method that writes to the store and, where the source does so, to the local state.
  - `Receive` merges the subscribed room's snapshot.
  - Two scenario methods chain the handlers: hosting then joining, and one full countdown.

Decisions that follow the code:

- **Where handlers write.** A handler writes to the store. Its own client sees the effect only when the snapshot comes back (`Receive`). The exceptions are hosting and joining, which also merge locally.
- **Room path.** Writes go to the path built from the local room code. With no room code that path is the literal `"undefined"`, as string interpolation of a missing value gives.
- **Subscription.** A client subscribes only while its room code is non-empty.
- **Gating.** The question-screen handlers and the timer act only while the status is PLAYING and the active question exists. That is the only time the screen is mounted. Each of them also requires the local role to be HOST.

On two points the design's intent and the code differ; the model follows the code:

- **Player count.** A room is meant not to enter SETUP without a player. `onPlayersReady` (App.tsx:126-131) checks only the role; only the button's `disabled` attribute (App.tsx:248) checks the count.
- **Quiz-master toggle.** The flag is meant to be changed by the host only, but the toggle is open to every client. It is not gated on the host role (App.tsx:172-178).

## Model

| member | source | states |
|---|---|---|
| Types.GameLength.Value | types.ts:7-11 | NORMAL = 5, LONG = 10, CUSTOM = 0: the value is 0 exactly for CUSTOM, and every value is a multiple of 5 no larger than 10 |
| Types.LengthValueRoundTrip | types.ts:7-11 | value and enumeration member determine each other: decoding a member's value gives the member back, and a number decodes to a member iff it is that member's value |
| Types.AvatarIcon | types.ts:71-82 | an avatar id has an icon exactly when some table entry has that id, and then it is that entry's icon |
| Types.AvatarTable | types.ts:71-82 | the table has ten entries with pairwise distinct ids |
| Snapshot.Apply | App.tsx:59 | the merged state agrees with the snapshot on every field it carries and with the old state on every field it lacks |
| Snapshot.ApplyCharacterised | App.tsx:53-61 | the merged state carries every field present in the snapshot and keeps every absent field; these two facts determine it (iff) |
| Snapshot.Compose | App.tsx:129 | the stored document after an `update` takes every field the update carries and keeps its own value for every field the update lacks |
| Snapshot.ComposeCharacterised | App.tsx:129 | those two facts determine the stored document after an `update` (iff) |
| Snapshot.ApplyEmpty | App.tsx:53-61 | a snapshot carrying no field leaves the state unchanged |
| Snapshot.ApplyIdempotent | App.tsx:53-61 | receiving the same snapshot twice is receiving it once |
| Snapshot.ApplyCompose | App.tsx:53-61 | merging two snapshots in turn equals merging their composition, the document the store holds after the second update |
| Snapshot.ApplyTotal | App.tsx:53-61 | a snapshot carrying every field replaces the whole state, whatever it was |
| Snapshot.InStepReceive | App.tsx:53-61 | a client already in step with the stored document that receives it after an update sees exactly the update's effect |
| Snapshot.InStepAfterUpdate | App.tsx:53-61 | an in-step client receiving the document after an update sees exactly the update's effect and is in step with the document again |
| Snapshot.ComposeAssoc | App.tsx:129 | successive `update`s compose associatively |
| Snapshot.ApplyAllIsOneMerge | App.tsx:53-61 | receiving a sequence of snapshots one by one equals one merge of their composition |
| Snapshot.LastSnapshotWins | App.tsx:53-61 | after a non-empty sequence of snapshots, every field carried by the last one has that value locally |
| Lifecycle.InitialState | App.tsx:33-43 | status LOBBY, both indices -1, no players, teams or rounds, quiz master on, mode INDIVIDUAL, length NORMAL, no room code, role or player id |
| Lifecycle.HostDocument | App.tsx:84-93 | the host document carries room code, role HOST, status WAITING_FOR_PLAYERS, empty players and teams, indices -1 and quiz master on, and no other field |
| Lifecycle.HostRoomLocal | App.tsx:82-96 | hosting sets exactly room code, role HOST, status WAITING_FOR_PLAYERS, empty players and teams, indices -1 and quiz master on, and keeps every other local field |
| Lifecycle.NewPlayer | App.tsx:100 | the newcomer has the given id, name and avatar, score 0 and no ready flag |
| Lifecycle.JoinUpdate | App.tsx:106-115 | a join writes iff the room exists, waits for players and lists no player with the newcomer's id |
| Lifecycle.JoinAppends | App.tsx:108-113 | an accepted join appends the newcomer at the end, keeps every listed player in its place, changes no other document field and keeps ids unique |
| Lifecycle.JoinRefusedKeepsDocument | App.tsx:108-110 | a room that is not waiting, or already lists the id, is left as it was |
| Lifecycle.JoinLocal | App.tsx:117-123 | the joiner's local fields are room code, role PLAYER, player id and status WAITING_FOR_PLAYERS, and no other field |
| Lifecycle.JoinLocalEffect | App.tsx:117-123 | joining sets exactly room code, role PLAYER, player id and status WAITING_FOR_PLAYERS locally, whether or not the room accepted |
| Lifecycle.JoinedPlayerTakesHostRole | App.tsx:82-123 | a joined player whose local role is PLAYER holds role HOST once it receives the hosted room's document, whatever role-free updates followed |
| Lifecycle.OnlyHostingWritesRole | App.tsx:82-178 | the host document carries role HOST; the join, start-setup, setup, category and quiz-master updates never carry a role |
| Lifecycle.PlayersReadyUpdate | App.tsx:126-131 | a write happens iff the local role is HOST, and it moves the status to SETUP and nothing else |
| Lifecycle.SetupRequest | App.tsx:133-144 | CUSTOM asks for nothing; NORMAL and LONG ask for `length` rounds from the ten default themes with `5 * length` questions in all |
| Lifecycle.SetupUpdate | App.tsx:133-157 | mode, length and teams are written; CUSTOM goes to CATEGORY_SELECTION with no rounds, any other length to PLAYING with the generated rounds and both indices 0 |
| Lifecycle.SetupUpdateEffect | App.tsx:133-157 | merging the setup update changes exactly mode, length, teams and status (CUSTOM), or those plus rounds and both indices set to 0 (NORMAL, LONG), and keeps every other field |
| Lifecycle.CategoriesRequest | App.tsx:159-161 | one round per selected theme, the selected themes, the chosen question count |
| Lifecycle.CategoriesUpdate | App.tsx:162-168 | the generated rounds, status PLAYING, both indices 0, and no mode, length, teams or players |
| Lifecycle.CategoriesUpdateEffect | App.tsx:162-168 | merging the start-of-play update changes exactly the rounds, status PLAYING and both indices 0, and keeps every other field |
| Lifecycle.QuizMasterUpdate | App.tsx:172-178 | writes the negation of the local flag, and merging it flips only that flag |
| Lifecycle.QuizMasterToggleTwice | App.tsx:172-178 | two toggles, each seen back before the next, restore the local state |
| Lifecycle.HandlersMoveForward | App.tsx:226-286 | each screen's forward handler moves the status strictly later along LOBBY, WAITING_FOR_PLAYERS, SETUP, CATEGORY_SELECTION, PLAYING |
| Progression.CurrentQuestion | components/GameView.tsx:16-19 | a question is active iff both indices are in range, and it is `rounds[r].questions[q]` |
| Progression.ResetUpdate | components/GameView.tsx:22-32 | the host writes `timeLeft := question.timer` and `showAnswer := false` for a question on screen, and changes nothing else; any other client writes nothing |
| Progression.NatToString | components/GameView.tsx:37 | the round numeral is a non-empty string of decimal digits with no leading zero |
| Progression.NatToStringValue | components/GameView.tsx:37 | the round numeral printed in the intro denotes the number it was made from |
| Progression.IntroCue | components/GameView.tsx:35-39 | there is an intro iff host, question on screen and quiz master on; it ends with the question text, and it starts with "Ronde {r+1}: {theme}." iff the question index is 0 |
| Progression.AnswerCue | components/GameView.tsx:71-75 | there is a cue iff host, question on screen and quiz master on; it is "Tijd is om! {answer}." when the active round's type is DOE, and otherwise "Het juiste antwoord is: {answer}. " followed by the explanation or nothing |
| Progression.RevealDocument | components/GameView.tsx:69 | the reveal sets `showAnswer` true and changes no other document field, and revealing twice equals revealing once |
| Progression.RevealUpdate | components/GameView.tsx:66-69 | a write happens iff host and question on screen, and it changes exactly `showAnswer` to true |
| Progression.RevealIdempotent | components/GameView.tsx:66-70 | revealing twice is revealing once |
| Progression.TickEffectOf | components/GameView.tsx:50-61 | while the interval is armed (host, answer not shown, question on screen), time left above 0 is counted down by one and 0 reveals; otherwise a tick does nothing |
| Progression.CountdownSteps | components/GameView.tsx:53-57 | from T seconds, n <= T ticks leave T - n seconds and change nothing else |
| Progression.CountdownThenReveal | components/GameView.tsx:50-61 | exactly T ticks reach 0, and tick T + 1 reveals the answer with the time still 0 |
| Progression.TimerStopsAfterReveal | components/GameView.tsx:51 | once revealed, further ticks change nothing |
| Progression.TimerNeverNegative | components/GameView.tsx:54-60 | however many ticks run, the time left stays defined and non-negative |
| Progression.ScoreTeams | components/GameView.tsx:81 | same length and order; teams with the scored id gain exactly `points` (no bound), all others are unchanged |
| Progression.ScoreTotal | components/GameView.tsx:81 | the total score grows by `points` once per team carrying the scored id |
| Progression.ScoreAdditive | components/GameView.tsx:81 | two awards to one team equal a single award of their sum |
| Progression.ScoreUpdate | components/GameView.tsx:79-83 | a write happens iff host and question on screen, and it changes only the team list, by `ScoreTeams` |
| Progression.Advance | components/GameView.tsx:85-98 | the game ends iff the position is the last question of the last round; otherwise the next position is lexicographically later, and valid when every round has a question |
| Progression.NextUpdate | components/GameView.tsx:85-98 | a write happens iff host and question on screen; it moves the indices to the advanced position, or sets status FINISHED at the end |
| Progression.OrdinalInRange | components/GameView.tsx:85-98 | valid positions are numbered 0 up to the total question count minus one |
| Progression.AdvanceByOne | components/GameView.tsx:88-97 | each advance moves to the very next question number, and the end comes after the last one |
| Progression.WalkVisitsEveryQuestion | components/GameView.tsx:85-98 | from the first question, the k-th advance shows question number k, and the advance after the last question ends the game |
| Progression.GameUpdatesCarryNoRole | components/GameView.tsx:22-98 | the reset, countdown, reveal, scoring and advance writes never carry a role |
| TeamSetup.InitialChoices | components/Setup.tsx:13-16 | mode INDIVIDUAL, length NORMAL, team names "Team Alpha" and "Team Omega" |
| TeamSetup.SlotOrFirst | components/Setup.tsx:30-31 | the i-th player if there is one, else the first player |
| TeamSetup.BuildTeams | components/Setup.tsx:20-33 | INDIVIDUAL: one team per player, carrying its id, name and only that player; TEAMS: exactly teams t1 and t2 with the chosen names, slots filled from players 0-3 with player 0 standing in; every score 0 |
| TeamSetup.HandleStart | components/Setup.tsx:18-35 | a non-host hands on nothing; the host hands on its mode, its length and the built teams |
| TeamSetup.TeamModeMembers | components/Setup.tsx:29-32 | in TEAMS mode the members are exactly the first four players (fewer if fewer): later players are in no team |
| TeamSetup.TeamModeDuplicates | components/Setup.tsx:30-31 | with fewer than four players the empty slots repeat player 0 |
| TeamSetup.IndividualTeamsAreSingletons | components/Setup.tsx:21-27 | in INDIVIDUAL mode the members are exactly the players, each team holding just its own player under that player's id |
| Categories.Without | components/CategorySelection.tsx:18 | the removed index is gone and every other selected index stays |
| Categories.WithoutAt | components/CategorySelection.tsx:18 | in a duplicate-free selection, removing the index at position k gives the selection with exactly that position cut out, the rest in order |
| Categories.Toggle | components/CategorySelection.tsx:15-22 | a non-host changes nothing; a selected index is removed, the rest keeping their order; an unselected one is appended when fewer than four are selected, and ignored at four |
| Categories.ToggleKeepsValid | components/CategorySelection.tsx:15-22 | every toggle keeps the selection free of duplicates and at most four long |
| Categories.ToggleTwice | components/CategorySelection.tsx:17-20 | toggling an unselected index twice, with room for it, restores the selection |
| Categories.ToggleKeepsInRange | components/CategorySelection.tsx:15-26 | toggling an offered theme keeps every selected index naming an offered theme |
| Categories.Confirm | components/CategorySelection.tsx:24-28 | hands on something iff host and at least one selection; then the themes in selection order and the question count, at most four themes |
| Categories.ConfirmDistinctThemes | components/CategorySelection.tsx:24-28 | distinct selected indices over distinct offered themes give distinct theme names |
| Categories.SliderValues | components/CategorySelection.tsx:72 | the slider offers exactly the multiples of 5 from 5 to 40, and the initial count 20 is one of them |
| Ranking.SortedTeams | components/Dashboard.tsx:13 | the standings have as many entries as there are teams; their order and contents are stated by the four lemmas below |
| Ranking.SortedTeamsSorted | components/Dashboard.tsx:13 | the standings have non-increasing scores |
| Ranking.SortedTeamsPermutation | components/Dashboard.tsx:13 | the standings hold exactly the teams (as a multiset) |
| Ranking.SortedTeamsStable | components/Dashboard.tsx:13 | for every score, the teams with that score appear in their original order |
| Ranking.SortedTeamsCorrect | components/Dashboard.tsx:13 | sorted, a permutation and stable, together |
| Ranking.Winner | components/Dashboard.tsx:14 | defined for a non-empty team list: a listed team whose score is at least every team's |
| Ranking.Standings | components/Dashboard.tsx:87-91 | one row per team, in sorted order, the row at position idx ranked idx + 1, and rank 1 is the winner |
| Clients.RoomPath | App.tsx:129 | the path is the room code, or "undefined" when there is none |
| Clients.AfterWrite | App.tsx:129 | an update creates the document if missing and touches no other room; the stored document takes every field the update carries and keeps every field it lacks |
| Clients.Store.Read | App.tsx:106-107 | a one-time read gives the document at the path exactly when the room exists |
| Clients.Store.Set | App.tsx:94 | the document at the path is replaced and no other room changes |
| Clients.Store.Update | App.tsx:129 | the update is merged into the document at the path, as `AfterWrite` states |
| Clients.Store.Write | App.tsx:112 | a present update is written as by `Update`; an absent one leaves the store unchanged |
| Clients.Client.constructor | App.tsx:33-46 | a client starts in the initial state with no suggested themes and silent narration |
| Clients.Client.Subscription | App.tsx:49-52 | a client listens iff its room code is present and non-empty, and then to that room |
| Clients.Client.Receive | App.tsx:49-65 | the subscribed room's document is merged into the local state; no subscription or a missing room changes nothing |
| Clients.Client.StartNewGame | App.tsx:67-80 | narration stops and the local state becomes the initial state whatever it was |
| Clients.Client.HostRoom | App.tsx:82-96 | the host document replaces room `code` in the store and is merged locally |
| Clients.Client.JoinRoom | App.tsx:98-124 | the store changes only by the accepted join's update to room `code`; locally the join fields are merged in every case |
| Clients.Client.PlayersReady | App.tsx:126-131 | the store changes by the role-gated start-setup update only; local state is not written |
| Clients.Client.SetupComplete | App.tsx:133-157 | returns the generator request; CUSTOM stores the suggested themes; the setup update is written to the room path |
| Clients.Client.CategoriesSelected | App.tsx:159-170 | returns one round request per selected theme and writes the start-of-play update |
| Clients.Client.ToggleQuizMaster | App.tsx:172-178 | writes the flipped flag; switching off silences narration, switching on leaves it as it was |
| Clients.Client.QuestionChanged | components/GameView.tsx:22-47 | for the host with a question on screen: writes the reset and narrates the intro (or silence with the quiz master off); otherwise nothing changes |
| Clients.Client.Tick | components/GameView.tsx:50-64 | nothing, a countdown write, or the reveal with its narrated answer, by `TickEffectOf` |
| Clients.Client.RevealAnswer | components/GameView.tsx:66-77 | for the host with a question on screen: writes the reveal and narrates the answer cue; otherwise nothing changes |
| Clients.Client.HandleScore | components/GameView.tsx:79-83 | writes the role-gated scoring update |
| Clients.Client.NextQuestion | components/GameView.tsx:85-98 | for the host with a question on screen: narration stops and the advance is written; otherwise nothing changes |
| Clients.HostAndJoin | App.tsx:82-123 | after hosting, joining and receiving, the room lists the new player, the host waits for players, and the joined player's local role is HOST |
| Clients.HostCountdown | components/GameView.tsx:22-64 | a host in step with its room, on a two-second question, ends with time 0 and the answer shown after the reset and three tick-and-receive rounds |

## Left out

- The content generator and the theme service are network calls to a language model. Their results (generated rounds, suggested themes) are method parameters. Their fallback lists are not modelled.
- Speech synthesis and audio decoding are left out: the AbortController, the AudioContext and the floating-point PCM scaling. Narration is a one-slot register: speaking sets it, stopping clears it. The asynchronous wait for speech to start is not modelled.
- Store initialisation and configuration are left out. The store is a map from room path to partial document, with `set` and `update`.
- The store drops empty arrays from stored documents. The model keeps `[]` as a present field. The join reads a missing player list as empty, so it behaves the same either way.
- Concurrency is reduced to sequential method calls and merges made by the caller. This covers delivery order, React effect scheduling and the timing of the one-second interval. Races between two joins, which the source notes it does not guard, are therefore not modelled.
- Clients.Client.QuestionChanged runs when the caller invokes it, standing for the effect that fires when the position changes. The stop in the effect's cleanup is not modelled separately.
- Room codes and player ids are random in the source. They are method parameters here.
- The loading flag is left out. It only switches the screen to a spinner while the generator is awaited.
- The lobby form (uppercase and maximum length) is a DOM attribute of a screen that is not part of this model.
- The dashboard's confetti loop is left out; it uses randomness, the wall clock and animation frames.
- Answer submission is left out. Its handler is an empty stub and `currentAnswerId` is never written. The field exists in the state, but no operation writes to it.
- All rendering and styling are left out.
- TeamSetup.BuildTeams requires at least one player in TEAMS mode. With none, the source builds teams holding `undefined`. That screen is reached only after "start setup", whose button needs a player (App.tsx:248).
- Ranking.SortedTeams leaves its input list unchanged because sequences are values. The source's copy before sorting (`[...teams]`) is therefore not modelled separately.
- Categories.WithoutAt: states the kept order only for a selection without duplicates. That is the only kind `Toggle` produces (`Categories.ToggleKeepsValid`); removing several copies of one index is not stated.
