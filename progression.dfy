/**
 * Host-side progression of the question screen: the active question, the
 * per-question reset, the one-second countdown, the reveal, scoring and the
 * advance through (round, question) positions. Each function gives the update
 * the host writes; a client that is not the host writes nothing.
 */
module Progression {
  import opened Types
  import opened Snapshot

  predicate IsHost(s: GameState) {
    s.role == Some(HostRole)
  }

  /** `r` indexes a round of `rounds` and `q` a question of that round. */
  predicate ValidPosition(rounds: seq<Round>, r: int, q: int) {
    0 <= r < |rounds| && 0 <= q < |rounds[r].questions|
  }

  /** Every round has at least one question. */
  predicate AllRoundsNonEmpty(rounds: seq<Round>) {
    forall k :: 0 <= k < |rounds| ==> |rounds[k].questions| > 0
  }

  /** The active question `rounds[r].questions[q]`; absent when either index is out of range, and then the screen renders nothing. */
  function CurrentQuestion(s: GameState): (r: Option<Question>)
    ensures r.Some? <==> ValidPosition(s.rounds, s.currentRoundIndex, s.currentQuestionIndex)
    ensures r.Some? ==> r.value == s.rounds[s.currentRoundIndex].questions[s.currentQuestionIndex]
  {
    if ValidPosition(s.rounds, s.currentRoundIndex, s.currentQuestionIndex)
    then Some(s.rounds[s.currentRoundIndex].questions[s.currentQuestionIndex])
    else None
  }

  /** The question screen is mounted and shows a question: status PLAYING and the active question exists. */
  predicate QuestionOnScreen(s: GameState) {
    s.status == Playing && CurrentQuestion(s).Some?
  }

  // ---------------------------------------------------------------- question reset

  /** What the host writes when the active question changes: the question's full time and a hidden answer. */
  function ResetUpdate(s: GameState): (u: Option<Patch>)
    ensures u.Some? <==> IsHost(s) && QuestionOnScreen(s)
    ensures u.Some? ==>
      Apply(s, u.value) == s.(timeLeft := Some(CurrentQuestion(s).value.timer), showAnswer := Some(false))
  {
    match CurrentQuestion(s)
    case Some(question) =>
      if IsHost(s) && s.status == Playing then Some(Empty.(timeLeft := Some(question.timer), showAnswer := Some(false))) else None
    case None => None
  }

  // ---------------------------------------------------------------- narration text

  function DigitChar(d: nat): (c: char)
    requires d < 10
    ensures '0' <= c <= '9' && c as int - '0' as int == d
  {
    ('0' as int + d) as char
  }

  /** The decimal numeral of `n`, as a template literal prints it. */
  function NatToString(n: nat): (r: string)
    ensures |r| >= 1 && forall i :: 0 <= i < |r| ==> '0' <= r[i] <= '9'
    ensures n >= 10 ==> r[0] != '0'
  {
    if n < 10 then [DigitChar(n)] else NatToString(n / 10) + [DigitChar(n % 10)]
  }

  /** The number a string of decimal digits denotes. */
  function DigitsValue(s: string): nat
    requires forall i :: 0 <= i < |s| ==> '0' <= s[i] <= '9'
  {
    if s == [] then 0 else DigitsValue(s[..|s| - 1]) * 10 + (s[|s| - 1] as int - '0' as int)
  }

  /** The numeral names the number it was made from. */
  lemma {:induction false} NatToStringValue(n: nat)
    ensures DigitsValue(NatToString(n)) == n
  {
    if n >= 10 {
      NatToStringValue(n / 10);
      var r := NatToString(n);
      assert r[..|r| - 1] == NatToString(n / 10);
    }
  }

  /** "Ronde {r+1}: {theme}." */
  function RoundAnnouncement(r: nat, theme: string): string {
    "Ronde " + NatToString(r + 1) + ": " + theme + "."
  }

  /** The narrated introduction of the active question (host only, quiz master on); the round is announced on its first question only. */
  function IntroCue(s: GameState): (c: Option<string>)
    ensures c.Some? <==> IsHost(s) && QuestionOnScreen(s) && s.quizMasterEnabled
    ensures c.Some? ==> var text := CurrentQuestion(s).value.text;
      |c.value| > |text| && c.value[|c.value| - |text|..] == text
    ensures c.Some? ==> ("Ronde " <= c.value <==> s.currentQuestionIndex == 0)
    ensures c.Some? && s.currentQuestionIndex == 0 ==>
      RoundAnnouncement(s.currentRoundIndex, s.rounds[s.currentRoundIndex].theme) <= c.value
  {
    match CurrentQuestion(s)
    case Some(question) =>
      if IsHost(s) && s.status == Playing && s.quizMasterEnabled then
        var intro := if s.currentQuestionIndex == 0
          then RoundAnnouncement(s.currentRoundIndex, s.rounds[s.currentRoundIndex].theme)
          else "";
        var cue := intro + " " + question.text;
        assert cue[|cue| - |question.text|..] == question.text;
        assert s.currentQuestionIndex == 0 ==> cue[..6] == "Ronde ";
        assert s.currentQuestionIndex != 0 ==> cue[0] == ' ';
        Some(cue)
      else None
    case None => None
  }

  /** The narrated answer: keyed on the type of the active ROUND, not of the question. */
  function AnswerCue(s: GameState): (c: Option<string>)
    ensures c.Some? <==> IsHost(s) && QuestionOnScreen(s) && s.quizMasterEnabled
    ensures c.Some? ==> ("Tijd is om! " <= c.value <==> s.rounds[s.currentRoundIndex].rtype == Doe)
    ensures c.Some? && s.rounds[s.currentRoundIndex].rtype != Doe ==>
      "Het juiste antwoord is: " + CurrentQuestion(s).value.answer + ". " <= c.value
    ensures c.Some? && s.rounds[s.currentRoundIndex].rtype == Doe ==>
      c.value == "Tijd is om! " + CurrentQuestion(s).value.answer + "."
    ensures c.Some? && s.rounds[s.currentRoundIndex].rtype != Doe ==>
      c.value == "Het juiste antwoord is: " + CurrentQuestion(s).value.answer + ". "
                 + CurrentQuestion(s).value.explanation.GetOr("")
  {
    match CurrentQuestion(s)
    case Some(question) =>
      if IsHost(s) && s.status == Playing && s.quizMasterEnabled then
        var cue := if s.rounds[s.currentRoundIndex].rtype == Doe
          then "Tijd is om! " + question.answer + "."
          else "Het juiste antwoord is: " + question.answer + ". " + question.explanation.GetOr("");
        assert cue[0] == (if s.rounds[s.currentRoundIndex].rtype == Doe then 'T' else 'H');
        Some(cue)
      else None
    case None => None
  }

  // ---------------------------------------------------------------- reveal

  /** The reveal write: the answer is shown, nothing else. */
  const RevealPatch: Patch := Empty.(showAnswer := Some(true))

  /** Reveal writes `showAnswer := true` and changes no other field of the room document. */
  lemma RevealDocument(d: Patch)
    ensures Compose(d, RevealPatch) == d.(showAnswer := Some(true))
    ensures Compose(Compose(d, RevealPatch), RevealPatch) == Compose(d, RevealPatch)
  {
  }

  function RevealUpdate(s: GameState): (u: Option<Patch>)
    ensures u.Some? <==> IsHost(s) && QuestionOnScreen(s)
    ensures u.Some? ==> Apply(s, u.value) == s.(showAnswer := Some(true))
  {
    if IsHost(s) && QuestionOnScreen(s) then Some(RevealPatch) else None
  }

  /** The host's state once its reveal write comes back. */
  function HostReveal(s: GameState): GameState {
    match RevealUpdate(s)
    case Some(u) => Apply(s, u)
    case None => s
  }

  /** Revealing twice is revealing once. */
  lemma RevealIdempotent(s: GameState)
    ensures HostReveal(HostReveal(s)) == HostReveal(s)
  {
  }

  // ---------------------------------------------------------------- countdown

  /** The one-second interval is armed: host, answer not shown, a question on screen. */
  predicate TickRuns(s: GameState) {
    IsHost(s) && s.showAnswer != Some(true) && QuestionOnScreen(s)
  }

  datatype TickEffect = NoTick | Countdown(update: Patch) | TimeUp

  /** What one tick does: write `timeLeft - 1` while time is left, reveal at zero, nothing otherwise. */
  function TickEffectOf(s: GameState): (e: TickEffect)
    ensures e.Countdown? <==> TickRuns(s) && s.timeLeft.Some? && s.timeLeft.value > 0
    ensures e.TimeUp? <==> TickRuns(s) && s.timeLeft == Some(0)
    ensures e.Countdown? ==> Apply(s, e.update) == s.(timeLeft := Some(s.timeLeft.value - 1))
  {
    if !TickRuns(s) then NoTick
    else match s.timeLeft
      case Some(t) =>
        if t > 0 then Countdown(Empty.(timeLeft := Some(t - 1)))
        else if t == 0 then TimeUp
        else NoTick
      case None => NoTick
  }

  /** The host's state after one tick and the return of its write. */
  function HostTick(s: GameState): GameState {
    match TickEffectOf(s)
    case NoTick => s
    case Countdown(u) => Apply(s, u)
    case TimeUp => HostReveal(s)
  }

  function Ticks(s: GameState, n: nat): GameState {
    if n == 0 then s else HostTick(Ticks(s, n - 1))
  }

  /** Starting from T seconds, n <= T ticks leave exactly T - n seconds and change nothing else. */
  lemma {:induction false} CountdownSteps(s: GameState, n: nat)
    requires TickRuns(s) && s.timeLeft.Some? && n <= s.timeLeft.value
    ensures Ticks(s, n) == s.(timeLeft := Some(s.timeLeft.value - n))
  {
    if n > 0 {
      CountdownSteps(s, n - 1);
      var prev := s.(timeLeft := Some(s.timeLeft.value - (n - 1)));
      assert TickRuns(prev);
      assert TickEffectOf(prev).Countdown?;
    }
  }

  /** Exactly T ticks reach zero; the next one reveals the answer instead of going negative. */
  lemma CountdownThenReveal(s: GameState)
    requires TickRuns(s) && s.timeLeft.Some? && s.timeLeft.value >= 0
    ensures Ticks(s, s.timeLeft.value).timeLeft == Some(0)
    ensures Ticks(s, s.timeLeft.value + 1) == s.(timeLeft := Some(0), showAnswer := Some(true))
  {
    var t := s.timeLeft.value;
    CountdownSteps(s, t);
    var zero := s.(timeLeft := Some(0));
    assert Ticks(s, t) == zero;
    assert TickRuns(zero);
    assert TickEffectOf(zero) == TimeUp;
  }

  /** After the reveal the interval is no longer armed: further ticks change nothing. */
  lemma {:induction false} TimerStopsAfterReveal(s: GameState, k: nat)
    requires TickRuns(s) && s.timeLeft.Some? && s.timeLeft.value >= 0
    ensures Ticks(s, s.timeLeft.value + 1 + k) == Ticks(s, s.timeLeft.value + 1)
  {
    if k > 0 {
      TimerStopsAfterReveal(s, k - 1);
      CountdownThenReveal(s);
      assert !TickRuns(Ticks(s, s.timeLeft.value + 1));
    }
  }

  /** The remaining time never goes negative, however many ticks run. */
  lemma TimerNeverNegative(s: GameState, n: nat)
    requires TickRuns(s) && s.timeLeft.Some? && s.timeLeft.value >= 0
    ensures Ticks(s, n).timeLeft.Some? && Ticks(s, n).timeLeft.value >= 0
  {
    var t := s.timeLeft.value;
    if n <= t {
      CountdownSteps(s, n);
    } else {
      CountdownThenReveal(s);
      TimerStopsAfterReveal(s, n - t - 1);
    }
  }

  // ---------------------------------------------------------------- scoring

  /** The teams after `points` are added to every team whose id is `teamId` (no bounds on the total). */
  function ScoreTeams(teams: seq<Team>, teamId: string, points: int): (r: seq<Team>)
    ensures |r| == |teams|
    ensures forall i :: 0 <= i < |r| ==> r[i].id == teams[i].id && r[i].name == teams[i].name && r[i].players == teams[i].players
    ensures forall i :: 0 <= i < |r| && teams[i].id != teamId ==> r[i] == teams[i]
    ensures forall i :: 0 <= i < |r| && teams[i].id == teamId ==> r[i].score == teams[i].score + points
  {
    if teams == [] then []
    else
      var t := teams[0];
      [if t.id == teamId then t.(score := t.score + points) else t] + ScoreTeams(teams[1..], teamId, points)
  }

  function TotalScore(teams: seq<Team>): int {
    if teams == [] then 0 else teams[0].score + TotalScore(teams[1..])
  }

  function CountId(teams: seq<Team>, teamId: string): nat {
    if teams == [] then 0 else (if teams[0].id == teamId then 1 else 0) + CountId(teams[1..], teamId)
  }

  /** The total over all teams grows by `points` for each team with the scored id, and by nothing else. */
  lemma {:induction false} ScoreTotal(teams: seq<Team>, teamId: string, points: int)
    ensures TotalScore(ScoreTeams(teams, teamId, points)) == TotalScore(teams) + points * CountId(teams, teamId)
  {
    if teams != [] {
      var rest := teams[1..];
      ScoreTotal(rest, teamId, points);
      var r := ScoreTeams(teams, teamId, points);
      assert r[1..] == ScoreTeams(rest, teamId, points);
      var c := CountId(rest, teamId);
      if teams[0].id == teamId {
        assert points * (1 + c) == points + points * c;
      }
    }
  }

  /** Two awards to the same team add up. */
  lemma ScoreAdditive(teams: seq<Team>, teamId: string, a: int, b: int)
    ensures ScoreTeams(ScoreTeams(teams, teamId, a), teamId, b) == ScoreTeams(teams, teamId, a + b)
  {
    var lhs := ScoreTeams(ScoreTeams(teams, teamId, a), teamId, b);
    var rhs := ScoreTeams(teams, teamId, a + b);
    assert forall i :: 0 <= i < |lhs| ==> lhs[i] == rhs[i];
  }

  /** The host's scoring write: the whole team list with one team's score changed. */
  function ScoreUpdate(s: GameState, teamId: string, points: int): (u: Option<Patch>)
    ensures u.Some? <==> IsHost(s) && QuestionOnScreen(s)
    ensures u.Some? ==> Apply(s, u.value) == s.(teams := ScoreTeams(s.teams, teamId, points))
  {
    if IsHost(s) && QuestionOnScreen(s) then Some(Empty.(teams := Some(ScoreTeams(s.teams, teamId, points))))
    else None
  }

  // ---------------------------------------------------------------- advancing

  datatype Position = At(round: int, question: int) | Done

  /** (r1, q1) comes strictly before (r2, q2) in round-then-question order. */
  predicate LexLess(r1: int, q1: int, r2: int, q2: int) {
    r1 < r2 || (r1 == r2 && q1 < q2)
  }

  /** The next position: the next question of the round, else the first of the next round, else the end of the game. */
  function Advance(rounds: seq<Round>, r: int, q: int): (p: Position)
    requires ValidPosition(rounds, r, q)
    ensures p == Done <==> r == |rounds| - 1 && q == |rounds[r].questions| - 1
    ensures p.At? ==> LexLess(r, q, p.round, p.question)
    ensures p.At? && AllRoundsNonEmpty(rounds) ==> ValidPosition(rounds, p.round, p.question)
  {
    if q < |rounds[r].questions| - 1 then At(r, q + 1)
    else if r < |rounds| - 1 then At(r + 1, 0)
    else Done
  }

  /** The host's "next question" write, following the three branches of the source. */
  function NextUpdate(s: GameState): (u: Option<Patch>)
    ensures u.Some? <==> IsHost(s) && QuestionOnScreen(s)
    ensures u.Some? ==>
      match Advance(s.rounds, s.currentRoundIndex, s.currentQuestionIndex)
      case At(r, q) => Apply(s, u.value) == s.(currentRoundIndex := r, currentQuestionIndex := q)
      case Done => Apply(s, u.value) == s.(status := Finished)
  {
    if !(IsHost(s) && QuestionOnScreen(s)) then None
    else if s.currentQuestionIndex < |s.rounds[s.currentRoundIndex].questions| - 1 then
      Some(Empty.(currentQuestionIndex := Some(s.currentQuestionIndex + 1)))
    else if s.currentRoundIndex < |s.rounds| - 1 then
      Some(Empty.(currentRoundIndex := Some(s.currentRoundIndex + 1), currentQuestionIndex := Some(0)))
    else
      Some(Empty.(status := Some(Finished)))
  }

  /** The number of questions in the rounds before round `r`. */
  function QuestionsBefore(rounds: seq<Round>, r: int): nat
    requires 0 <= r <= |rounds|
  {
    if r == 0 then 0 else QuestionsBefore(rounds, r - 1) + |rounds[r - 1].questions|
  }

  function TotalQuestions(rounds: seq<Round>): nat {
    QuestionsBefore(rounds, |rounds|)
  }

  /** The 0-based place of question (r, q) in the whole quiz. */
  function Ordinal(rounds: seq<Round>, r: int, q: int): int
    requires 0 <= r <= |rounds|
  {
    QuestionsBefore(rounds, r) + q
  }

  lemma {:induction false} QuestionsBeforeMonotone(rounds: seq<Round>, r1: int, r2: int)
    requires 0 <= r1 <= r2 <= |rounds|
    ensures QuestionsBefore(rounds, r1) <= QuestionsBefore(rounds, r2)
    decreases r2 - r1
  {
    if r1 < r2 {
      QuestionsBeforeMonotone(rounds, r1, r2 - 1);
    }
  }

  /** Valid positions are numbered 0 .. TotalQuestions - 1. */
  lemma OrdinalInRange(rounds: seq<Round>, r: int, q: int)
    requires ValidPosition(rounds, r, q)
    ensures 0 <= Ordinal(rounds, r, q) < TotalQuestions(rounds)
  {
    QuestionsBeforeMonotone(rounds, r + 1, |rounds|);
  }

  /** Each advance moves to the very next question of the quiz; the game ends after question TotalQuestions - 1. */
  lemma AdvanceByOne(rounds: seq<Round>, r: int, q: int)
    requires ValidPosition(rounds, r, q)
    ensures match Advance(rounds, r, q)
      case At(r', q') => 0 <= r' <= |rounds| && Ordinal(rounds, r', q') == Ordinal(rounds, r, q) + 1
      case Done => Ordinal(rounds, r, q) == TotalQuestions(rounds) - 1
  {
  }

  /** Repeated advance, staying put where no question is on screen. */
  function Walk(rounds: seq<Round>, p: Position, n: nat): Position {
    if n == 0 then p
    else match Walk(rounds, p, n - 1)
      case Done => Done
      case At(r, q) => if ValidPosition(rounds, r, q) then Advance(rounds, r, q) else At(r, q)
  }

  /**
   * From the first question of non-empty rounds, the k-th advance reaches the
   * question numbered k, so every question is shown once and in order, and the
   * advance after the last question ends the game.
   */
  lemma {:induction false} WalkVisitsEveryQuestion(rounds: seq<Round>, k: nat)
    requires |rounds| > 0 && AllRoundsNonEmpty(rounds)
    ensures k < TotalQuestions(rounds) ==>
      var p := Walk(rounds, At(0, 0), k);
      p.At? && ValidPosition(rounds, p.round, p.question) && Ordinal(rounds, p.round, p.question) == k
    ensures k == TotalQuestions(rounds) ==> Walk(rounds, At(0, 0), k) == Done
  {
    if k > 0 {
      WalkVisitsEveryQuestion(rounds, k - 1);
      if k <= TotalQuestions(rounds) {
        var p := Walk(rounds, At(0, 0), k - 1);
        AdvanceByOne(rounds, p.round, p.question);
        var p' := Advance(rounds, p.round, p.question);
        if p'.At? {
          OrdinalInRange(rounds, p'.round, p'.question);
        }
      }
    } else {
      assert ValidPosition(rounds, 0, 0);
      OrdinalInRange(rounds, 0, 0);
    }
  }

  // ---------------------------------------------------------------- role

  /**
   * No write of the question screen carries a role, so the role a client took
   * from the hosted room's document survives the whole game.
   */
  lemma GameUpdatesCarryNoRole(s: GameState, teamId: string, points: int)
    ensures ResetUpdate(s).Some? ==> ResetUpdate(s).value.role == None
    ensures TickEffectOf(s).Countdown? ==> TickEffectOf(s).update.role == None
    ensures RevealUpdate(s).Some? ==> RevealUpdate(s).value.role == None
    ensures ScoreUpdate(s, teamId, points).Some? ==> ScoreUpdate(s, teamId, points).value.role == None
    ensures NextUpdate(s).Some? ==> NextUpdate(s).value.role == None
  {
  }
}
