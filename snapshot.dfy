/**
 * Partial documents and the two ways the app combines them: a client merges an
 * inbound snapshot into its local state (`{...prev, ...data}`), and the store
 * merges a partial `update` into the stored room document. Both are
 * "present fields win, absent fields keep the old value".
 */
module Snapshot {
  import opened Types

  /** A partial session document: every field optional. Room documents, snapshots and updates all have this shape. */
  datatype Patch = Patch(
    roomCode: Option<string>,
    role: Option<Role>,
    playerId: Option<string>,
    players: Option<seq<Player>>,
    teams: Option<seq<Team>>,
    mode: Option<GameMode>,
    length: Option<GameLength>,
    currentRoundIndex: Option<int>,
    currentQuestionIndex: Option<int>,
    rounds: Option<seq<Round>>,
    status: Option<Status>,
    quizMasterEnabled: Option<bool>,
    currentAnswerId: Option<string>,
    showAnswer: Option<bool>,
    timeLeft: Option<int>)

  /** The patch with no field present. */
  const Empty: Patch := Patch(None, None, None, None, None, None, None, None, None, None, None, None, None, None, None)

  /** The local state after receiving snapshot `p`: `{...s, ...p}` (App.tsx:59). */
  function Apply(s: GameState, p: Patch): (t: GameState)
    ensures Agrees(t, p) && KeepsAbsent(s, t, p)
  {
    GameState(
      p.roomCode.OrElse(s.roomCode),
      p.role.OrElse(s.role),
      p.playerId.OrElse(s.playerId),
      p.players.GetOr(s.players),
      p.teams.GetOr(s.teams),
      p.mode.GetOr(s.mode),
      p.length.GetOr(s.length),
      p.currentRoundIndex.GetOr(s.currentRoundIndex),
      p.currentQuestionIndex.GetOr(s.currentQuestionIndex),
      p.rounds.GetOr(s.rounds),
      p.status.GetOr(s.status),
      p.quizMasterEnabled.GetOr(s.quizMasterEnabled),
      p.currentAnswerId.OrElse(s.currentAnswerId),
      p.showAnswer.OrElse(s.showAnswer),
      p.timeLeft.OrElse(s.timeLeft))
  }

  /** The stored document after the store merges update `u` into document `d`. */
  function Compose(d: Patch, u: Patch): (c: Patch)
    ensures Overrides(c, u) && KeepsUnwritten(d, c, u)
  {
    Patch(
      u.roomCode.OrElse(d.roomCode),
      u.role.OrElse(d.role),
      u.playerId.OrElse(d.playerId),
      u.players.OrElse(d.players),
      u.teams.OrElse(d.teams),
      u.mode.OrElse(d.mode),
      u.length.OrElse(d.length),
      u.currentRoundIndex.OrElse(d.currentRoundIndex),
      u.currentQuestionIndex.OrElse(d.currentQuestionIndex),
      u.rounds.OrElse(d.rounds),
      u.status.OrElse(d.status),
      u.quizMasterEnabled.OrElse(d.quizMasterEnabled),
      u.currentAnswerId.OrElse(d.currentAnswerId),
      u.showAnswer.OrElse(d.showAnswer),
      u.timeLeft.OrElse(d.timeLeft))
  }

  /** Every field present in `p` holds the same value in `s`. */
  predicate Agrees(s: GameState, p: Patch) {
    && (p.roomCode.Some? ==> s.roomCode == p.roomCode)
    && (p.role.Some? ==> s.role == p.role)
    && (p.playerId.Some? ==> s.playerId == p.playerId)
    && (p.players.Some? ==> s.players == p.players.value)
    && (p.teams.Some? ==> s.teams == p.teams.value)
    && (p.mode.Some? ==> s.mode == p.mode.value)
    && (p.length.Some? ==> s.length == p.length.value)
    && (p.currentRoundIndex.Some? ==> s.currentRoundIndex == p.currentRoundIndex.value)
    && (p.currentQuestionIndex.Some? ==> s.currentQuestionIndex == p.currentQuestionIndex.value)
    && (p.rounds.Some? ==> s.rounds == p.rounds.value)
    && (p.status.Some? ==> s.status == p.status.value)
    && (p.quizMasterEnabled.Some? ==> s.quizMasterEnabled == p.quizMasterEnabled.value)
    && (p.currentAnswerId.Some? ==> s.currentAnswerId == p.currentAnswerId)
    && (p.showAnswer.Some? ==> s.showAnswer == p.showAnswer)
    && (p.timeLeft.Some? ==> s.timeLeft == p.timeLeft)
  }

  /** Every field absent from `p` is the same in `s` and `t`. */
  predicate KeepsAbsent(s: GameState, t: GameState, p: Patch) {
    && (p.roomCode.None? ==> t.roomCode == s.roomCode)
    && (p.role.None? ==> t.role == s.role)
    && (p.playerId.None? ==> t.playerId == s.playerId)
    && (p.players.None? ==> t.players == s.players)
    && (p.teams.None? ==> t.teams == s.teams)
    && (p.mode.None? ==> t.mode == s.mode)
    && (p.length.None? ==> t.length == s.length)
    && (p.currentRoundIndex.None? ==> t.currentRoundIndex == s.currentRoundIndex)
    && (p.currentQuestionIndex.None? ==> t.currentQuestionIndex == s.currentQuestionIndex)
    && (p.rounds.None? ==> t.rounds == s.rounds)
    && (p.status.None? ==> t.status == s.status)
    && (p.quizMasterEnabled.None? ==> t.quizMasterEnabled == s.quizMasterEnabled)
    && (p.currentAnswerId.None? ==> t.currentAnswerId == s.currentAnswerId)
    && (p.showAnswer.None? ==> t.showAnswer == s.showAnswer)
    && (p.timeLeft.None? ==> t.timeLeft == s.timeLeft)
  }

  /** Every field present in update `u` holds the same value in document `c`. */
  predicate Overrides(c: Patch, u: Patch) {
    && (u.roomCode.Some? ==> c.roomCode == u.roomCode)
    && (u.role.Some? ==> c.role == u.role)
    && (u.playerId.Some? ==> c.playerId == u.playerId)
    && (u.players.Some? ==> c.players == u.players)
    && (u.teams.Some? ==> c.teams == u.teams)
    && (u.mode.Some? ==> c.mode == u.mode)
    && (u.length.Some? ==> c.length == u.length)
    && (u.currentRoundIndex.Some? ==> c.currentRoundIndex == u.currentRoundIndex)
    && (u.currentQuestionIndex.Some? ==> c.currentQuestionIndex == u.currentQuestionIndex)
    && (u.rounds.Some? ==> c.rounds == u.rounds)
    && (u.status.Some? ==> c.status == u.status)
    && (u.quizMasterEnabled.Some? ==> c.quizMasterEnabled == u.quizMasterEnabled)
    && (u.currentAnswerId.Some? ==> c.currentAnswerId == u.currentAnswerId)
    && (u.showAnswer.Some? ==> c.showAnswer == u.showAnswer)
    && (u.timeLeft.Some? ==> c.timeLeft == u.timeLeft)
  }

  /** Every field absent from update `u` is the same in documents `d` and `c`. */
  predicate KeepsUnwritten(d: Patch, c: Patch, u: Patch) {
    && (u.roomCode.None? ==> c.roomCode == d.roomCode)
    && (u.role.None? ==> c.role == d.role)
    && (u.playerId.None? ==> c.playerId == d.playerId)
    && (u.players.None? ==> c.players == d.players)
    && (u.teams.None? ==> c.teams == d.teams)
    && (u.mode.None? ==> c.mode == d.mode)
    && (u.length.None? ==> c.length == d.length)
    && (u.currentRoundIndex.None? ==> c.currentRoundIndex == d.currentRoundIndex)
    && (u.currentQuestionIndex.None? ==> c.currentQuestionIndex == d.currentQuestionIndex)
    && (u.rounds.None? ==> c.rounds == d.rounds)
    && (u.status.None? ==> c.status == d.status)
    && (u.quizMasterEnabled.None? ==> c.quizMasterEnabled == d.quizMasterEnabled)
    && (u.currentAnswerId.None? ==> c.currentAnswerId == d.currentAnswerId)
    && (u.showAnswer.None? ==> c.showAnswer == d.showAnswer)
    && (u.timeLeft.None? ==> c.timeLeft == d.timeLeft)
  }

  /**
   * The store's merge is characterised like the client's: the stored document
   * takes the update's present fields, keeps its own elsewhere, and is the only
   * document that does.
   */
  lemma ComposeCharacterised(d: Patch, u: Patch, c: Patch)
    ensures Overrides(c, u) && KeepsUnwritten(d, c, u) <==> c == Compose(d, u)
  {
    if Overrides(c, u) && KeepsUnwritten(d, c, u) {
      var m := Compose(d, u);
      assert c.roomCode == m.roomCode && c.role == m.role && c.playerId == m.playerId;
      assert c.players == m.players && c.teams == m.teams && c.mode == m.mode && c.length == m.length;
      assert c.currentRoundIndex == m.currentRoundIndex && c.currentQuestionIndex == m.currentQuestionIndex;
      assert c.rounds == m.rounds && c.status == m.status && c.quizMasterEnabled == m.quizMasterEnabled;
      assert c.currentAnswerId == m.currentAnswerId && c.showAnswer == m.showAnswer && c.timeLeft == m.timeLeft;
    }
  }

  /**
   * The merge is characterised by these two facts: the result agrees with the
   * snapshot on its present fields and with the old state elsewhere, and it is
   * the only state that does.
   */
  lemma ApplyCharacterised(s: GameState, p: Patch, t: GameState)
    ensures Agrees(Apply(s, p), p) && KeepsAbsent(s, Apply(s, p), p)
    ensures Agrees(t, p) && KeepsAbsent(s, t, p) <==> t == Apply(s, p)
  {
    if Agrees(t, p) && KeepsAbsent(s, t, p) {
      ApplyUnique(s, p, t);
    }
  }

  lemma ApplyUnique(s: GameState, p: Patch, t: GameState)
    requires Agrees(t, p) && KeepsAbsent(s, t, p)
    ensures t == Apply(s, p)
  {
    var a := Apply(s, p);
    assert t.roomCode == a.roomCode && t.role == a.role && t.playerId == a.playerId;
    assert t.players == a.players && t.teams == a.teams && t.mode == a.mode && t.length == a.length;
    assert t.currentRoundIndex == a.currentRoundIndex && t.currentQuestionIndex == a.currentQuestionIndex;
    assert t.rounds == a.rounds && t.status == a.status && t.quizMasterEnabled == a.quizMasterEnabled;
    assert t.currentAnswerId == a.currentAnswerId && t.showAnswer == a.showAnswer && t.timeLeft == a.timeLeft;
  }

  /**
   * A client in step with the stored document `d` that receives it after
   * update `u` sees exactly `u`'s effect, and is in step with it again.
   */
  lemma InStepAfterUpdate(s: GameState, d: Patch, u: Patch)
    requires Apply(s, d) == s
    ensures Apply(s, Compose(d, u)) == Apply(s, u)
    ensures Apply(Apply(s, u), Compose(d, u)) == Apply(s, u)
  {
    InStepReceive(s, d, u);
    ApplyIdempotent(s, Compose(d, u));
  }

  /** An empty snapshot (the case `if (data)` guards) leaves the state unchanged. */
  lemma ApplyEmpty(s: GameState)
    ensures Apply(s, Empty) == s
  {
  }

  /** Receiving the same snapshot twice is the same as receiving it once. */
  lemma ApplyIdempotent(s: GameState, p: Patch)
    ensures Apply(Apply(s, p), p) == Apply(s, p)
  {
  }

  /** Receiving S1 and then S2 is receiving the single snapshot `{...S1, ...S2}`. */
  lemma ApplyCompose(s: GameState, p1: Patch, p2: Patch)
    ensures Apply(Apply(s, p1), p2) == Apply(s, Compose(p1, p2))
  {
  }

  /** A snapshot that carries every field determines the new state completely. */
  lemma ApplyTotal(s: GameState, s': GameState, p: Patch)
    requires p.roomCode.Some? && p.role.Some? && p.playerId.Some? && p.players.Some?
    requires p.teams.Some? && p.mode.Some? && p.length.Some? && p.currentRoundIndex.Some?
    requires p.currentQuestionIndex.Some? && p.rounds.Some? && p.status.Some?
    requires p.quizMasterEnabled.Some? && p.currentAnswerId.Some? && p.showAnswer.Some? && p.timeLeft.Some?
    ensures Apply(s, p) == Apply(s', p)
  {
  }

  /**
   * A client already in step with document `d` that then receives the document
   * after update `u` ends up exactly as if it had applied `u` alone.
   */
  lemma InStepReceive(s: GameState, d: Patch, u: Patch)
    requires Apply(s, d) == s
    ensures Apply(s, Compose(d, u)) == Apply(s, u)
  {
    ApplyCompose(s, d, u);
  }

  /** The local state after receiving the snapshots `ps` in order. */
  function ApplyAll(s: GameState, ps: seq<Patch>): GameState
    decreases |ps|
  {
    if ps == [] then s else ApplyAll(Apply(s, ps[0]), ps[1..])
  }

  /** The room document after the store resolves the updates `us` in order, starting from `d`. */
  function ComposeAll(d: Patch, us: seq<Patch>): Patch
    decreases |us|
  {
    if us == [] then d else Compose(ComposeAll(d, us[..|us| - 1]), us[|us| - 1])
  }

  lemma {:induction false} ComposeAssoc(a: Patch, b: Patch, c: Patch)
    ensures Compose(Compose(a, b), c) == Compose(a, Compose(b, c))
  {
  }

  lemma {:induction false} ComposeAllCons(d: Patch, u: Patch, us: seq<Patch>)
    ensures ComposeAll(d, [u] + us) == Compose(d, ComposeAll(u, us))
    decreases |us|
  {
    if us == [] {
      assert [u] + us == [u];
      assert ComposeAll(d, [u]) == Compose(ComposeAll(d, []), u);
    } else {
      var init := us[..|us| - 1];
      var last := us[|us| - 1];
      assert ([u] + us)[..|[u] + us| - 1] == [u] + init;
      ComposeAllCons(d, u, init);
      ComposeAssoc(d, ComposeAll(u, init), last);
    }
  }

  /**
   * Replication as a sequence of merges: receiving the snapshots `ps` one after
   * another gives the state obtained by merging once with their field-wise
   * last-writer-wins combination.
   */
  lemma {:induction false} ApplyAllIsOneMerge(s: GameState, ps: seq<Patch>)
    ensures ApplyAll(s, ps) == Apply(s, ComposeAll(Empty, ps))
    decreases |ps|
  {
    if ps == [] {
      ApplyEmpty(s);
    } else {
      ApplyAllIsOneMerge(Apply(s, ps[0]), ps[1..]);
      ApplyCompose(s, ps[0], ComposeAll(Empty, ps[1..]));
      assert ps == [ps[0]] + ps[1..];
      ComposeAllCons(Empty, ps[0], ps[1..]);
      ComposeAllFrom(ps[0], ps[1..]);
    }
  }

  /** Updates resolved on top of `d` are `d` merged with their combination from empty. */
  lemma {:induction false} ComposeAllFrom(d: Patch, us: seq<Patch>)
    ensures ComposeAll(d, us) == Compose(d, ComposeAll(Empty, us))
    decreases |us|
  {
    if us == [] {
    } else {
      ComposeAllFrom(d, us[..|us| - 1]);
      ComposeAssoc(d, ComposeAll(Empty, us[..|us| - 1]), us[|us| - 1]);
    }
  }

  /**
   * Last writer wins, and a present field never reverts: after any further
   * snapshots, the fields present in the last one hold its values.
   */
  lemma LastSnapshotWins(s: GameState, ps: seq<Patch>)
    requires ps != []
    ensures Agrees(ApplyAll(s, ps), ps[|ps| - 1])
  {
    ApplyAllIsOneMerge(s, ps);
  }
}
