/**
 * The game-progress store as values: the store's fields, the interval
 * timer behind them, and one transition function per action. The class
 * in module Game is proved against these functions; the lemmas here say
 * what the actions promise.
 */
module GameRules {
  import opened Geometry

  /** The period of the game clock and the time each tick adds, in milliseconds. */
  const TickMs: nat := 50

  /** The fields of the store. */
  datatype GameState = GameState(
    timeElapsed: nat,
    isTimerRunning: bool,
    currentLevel: int,
    isGameStarted: bool,
    isBroken: bool,
    snappedPieces: set<string>,
    totalPieces: int,
    isLevelRendered: bool,
    isLevelComplete: bool,
    completionTime: Option<nat>)

  /**
   * The store together with its timer: the interval handle the store keeps
   * (`timerInterval`), the intervals the runtime would still fire, and the
   * handle the next `setInterval` returns.
   */
  datatype StoreState = StoreState(game: GameState, timerInterval: Option<nat>, live: set<nat>, nextTimer: nat)

  const InitialGame: GameState :=
    GameState(0, false, 1, false, false, {}, 0, false, false, None)

  const Initial: StoreState := StoreState(InitialGame, None, {}, 0)

  /** `if (timerInterval) { clearInterval(timerInterval); timerInterval = null; }` */
  function ClearTimer(s: StoreState): StoreState
  {
    match s.timerInterval
    case None => s
    case Some(h) => s.(timerInterval := None, live := s.live - {h})
  }

  /** Clear any interval, start a fresh one, mark the timer running. */
  function StartTimer(s: StoreState): StoreState
  {
    var c := ClearTimer(s);
    c.(game := c.game.(isTimerRunning := true),
       timerInterval := Some(c.nextTimer), live := c.live + {c.nextTimer}, nextTimer := c.nextTimer + 1)
  }

  function StopTimer(s: StoreState): StoreState
  {
    var c := ClearTimer(s);
    c.(game := c.game.(isTimerRunning := false))
  }

  function ResetTimer(s: StoreState): StoreState
  {
    var c := ClearTimer(s);
    c.(game := c.game.(timeElapsed := 0, isTimerRunning := false))
  }

  function StartGame(s: StoreState): StoreState
  {
    StartTimer(s.(game := s.game.(isGameStarted := true)))
  }

  function BreakPieces(s: StoreState): StoreState
  {
    s.(game := s.game.(isBroken := true))
  }

  function ResetLevel(s: StoreState): StoreState
  {
    ResetTimer(s.(game := s.game.(isGameStarted := false, isBroken := false, snappedPieces := {},
                                  totalPieces := 0, isLevelRendered := false,
                                  isLevelComplete := false, completionTime := None)))
  }

  /** Record the piece; when the set reaches the level's total, stop the clock and complete the level. */
  function SnapPiece(s: StoreState, id: string): StoreState
  {
    var snapped := s.game.snappedPieces + {id};
    if |snapped| == s.game.totalPieces then
      var c := ClearTimer(s);
      c.(game := c.game.(snappedPieces := snapped, isLevelComplete := true,
                         completionTime := Some(s.game.timeElapsed), isTimerRunning := false))
    else
      s.(game := s.game.(snappedPieces := snapped))
  }

  function SetLevel(s: StoreState, level: int): StoreState
  {
    ResetLevel(s.(game := s.game.(currentLevel := level)))
  }

  function SetTotalPieces(s: StoreState, count: int): StoreState
  {
    s.(game := s.game.(totalPieces := count))
  }

  function SetLevelRendered(s: StoreState, rendered: bool): StoreState
  {
    s.(game := s.game.(isLevelRendered := rendered))
  }

  /** Interval `h` fires: if it has not been cleared, the clock advances by one tick. */
  function Fire(s: StoreState, h: nat): StoreState
  {
    if h in s.live then s.(game := s.game.(timeElapsed := s.game.timeElapsed + TickMs)) else s
  }

  /** Everything that can happen to the store. */
  datatype Action =
    | StartTimerAction | StopTimerAction | ResetTimerAction | StartGameAction | BreakPiecesAction
    | ResetLevelAction | SnapPieceAction(id: string) | SetLevelAction(level: int)
    | SetTotalPiecesAction(count: int) | SetLevelRenderedAction(rendered: bool) | FireAction(h: nat)

  function Step(s: StoreState, a: Action): StoreState
  {
    match a
    case StartTimerAction => StartTimer(s)
    case StopTimerAction => StopTimer(s)
    case ResetTimerAction => ResetTimer(s)
    case StartGameAction => StartGame(s)
    case BreakPiecesAction => BreakPieces(s)
    case ResetLevelAction => ResetLevel(s)
    case SnapPieceAction(id) => SnapPiece(s, id)
    case SetLevelAction(level) => SetLevel(s, level)
    case SetTotalPiecesAction(count) => SetTotalPieces(s, count)
    case SetLevelRenderedAction(rendered) => SetLevelRendered(s, rendered)
    case FireAction(h) => Fire(s, h)
  }

  function Run(s: StoreState, acts: seq<Action>): StoreState
  {
    if acts == [] then s else Step(Run(s, acts[..|acts| - 1]), acts[|acts| - 1])
  }

  /**
   * What the store keeps true: the running flag says whether an interval is
   * kept, that interval is the only one alive (and older than any handle
   * still to come), and a completed level has a completion time and only then.
   */
  ghost predicate Inv(s: StoreState)
  {
    && (s.game.isTimerRunning <==> s.timerInterval.Some?)
    && s.live == (if s.timerInterval.Some? then {s.timerInterval.value} else {})
    && (s.timerInterval.Some? ==> s.timerInterval.value < s.nextTimer)
    && (s.game.isLevelComplete <==> s.game.completionTime.Some?)
  }

  // ---------------------------------------------------------------- timer

  /** Every action keeps the invariant. */
  lemma StepKeepsInv(s: StoreState, a: Action)
    requires Inv(s)
    ensures Inv(Step(s, a))
  {
  }

  /** From the initial store, any run of actions keeps the invariant. */
  lemma {:induction false} RunKeepsInv(s: StoreState, acts: seq<Action>)
    requires Inv(s)
    ensures Inv(Run(s, acts))
  {
    if acts != [] {
      RunKeepsInv(s, acts[..|acts| - 1]);
      StepKeepsInv(Run(s, acts[..|acts| - 1]), acts[|acts| - 1]);
    }
  }

  /** At most one interval is ever alive, and one is alive exactly while the timer runs. */
  lemma OneTickSource(s: StoreState, acts: seq<Action>)
    requires s == Initial
    ensures var r := Run(s, acts);
      |r.live| <= 1 && (r.live != {} <==> r.game.isTimerRunning)
  {
    RunKeepsInv(s, acts);
  }

  /** Starting the timer clears the interval it had, so only the new one stays alive. */
  lemma StartTimerReplacesInterval(s: StoreState)
    requires Inv(s)
    ensures var r := StartTimer(s);
      r.live == {s.nextTimer} && r.timerInterval == Some(s.nextTimer) && r.game.isTimerRunning &&
      (s.timerInterval.Some? ==> s.timerInterval.value !in r.live)
  {
  }

  /** Stopping and resetting the timer are idempotent; starting it twice leaves one interval and the same fields. */
  lemma TimerIdempotence(s: StoreState)
    requires Inv(s)
    ensures StopTimer(StopTimer(s)) == StopTimer(s)
    ensures ResetTimer(ResetTimer(s)) == ResetTimer(s)
    ensures StartTimer(StartTimer(s)).game == StartTimer(s).game && |StartTimer(StartTimer(s)).live| == 1
  {
    assert |{s.nextTimer + 1}| == 1;
  }

  /** `n` firings of the store's own interval. */
  function Ticks(s: StoreState, n: nat): StoreState
    requires s.timerInterval.Some?
  {
    if n == 0 then s else Fire(Ticks(s, n - 1), s.timerInterval.value)
  }

  /** Each tick of a running timer adds exactly 50 ms, and nothing else changes. */
  lemma {:induction false} TicksAdd(s: StoreState, n: nat)
    requires Inv(s) && s.game.isTimerRunning
    ensures Ticks(s, n) == s.(game := s.game.(timeElapsed := s.game.timeElapsed + TickMs * n))
  {
    if n > 0 {
      TicksAdd(s, n - 1);
    }
  }

  /** A cleared interval's firing changes nothing. */
  lemma StoppedClockStands(s: StoreState, h: nat)
    requires Inv(s) && !s.game.isTimerRunning
    ensures Fire(s, h) == s
  {
  }

  // ---------------------------------------------------------------- game actions

  /** Starting the game marks it started and leaves exactly one interval running. */
  lemma StartGameRuns(s: StoreState)
    requires Inv(s)
    ensures var r := StartGame(s);
      r.game.isGameStarted && r.game.isTimerRunning && r.live == {s.nextTimer} &&
      r.game.timeElapsed == s.game.timeElapsed && r.game.snappedPieces == s.game.snappedPieces
  {
  }

  /** Breaking sets the flag, is idempotent, and touches nothing else. */
  lemma BreakPiecesOnlyBreaks(s: StoreState)
    ensures var r := BreakPieces(s);
      r.game.isBroken && BreakPieces(r) == r &&
      r.(game := r.game.(isBroken := s.game.isBroken)) == s
  {
  }

  /** Resetting restores every initial field but the level and clears the interval. */
  lemma ResetLevelRestoresInitial(s: StoreState)
    requires Inv(s)
    ensures var r := ResetLevel(s);
      r.game == InitialGame.(currentLevel := s.game.currentLevel) &&
      r.timerInterval.None? && r.live == {}
  {
  }

  /** Switching level leaves the new level number on a freshly reset store. */
  lemma SetLevelRestoresInitial(s: StoreState, level: int)
    requires Inv(s)
    ensures var r := SetLevel(s, level);
      r.game == InitialGame.(currentLevel := level) && r.timerInterval.None? && r.live == {}
  {
  }

  // ---------------------------------------------------------------- snapping

  /** Snapping records the id; snapping a recorded id again leaves the set as it was. */
  lemma SnapAddsId(s: StoreState, id: string)
    ensures SnapPiece(s, id).game.snappedPieces == s.game.snappedPieces + {id}
    ensures id in s.game.snappedPieces ==> SnapPiece(s, id).game.snappedPieces == s.game.snappedPieces
  {
  }

  /**
   * The level completes exactly when the new set's size equals the total:
   * then the level is complete at the current time and the clock stops;
   * otherwise only the set changes.
   */
  lemma SnapCompletion(s: StoreState, id: string)
    requires Inv(s)
    ensures var r := SnapPiece(s, id); var snapped := s.game.snappedPieces + {id};
      (|snapped| == s.game.totalPieces ==>
         r.game.isLevelComplete && r.game.completionTime == Some(s.game.timeElapsed) &&
         !r.game.isTimerRunning && r.live == {} && r.game.timeElapsed == s.game.timeElapsed) &&
      (|snapped| != s.game.totalPieces ==> r == s.(game := s.game.(snappedPieces := snapped)))
  {
  }

  /** Snapping the ids one after another. */
  function SnapAll(s: StoreState, ids: seq<string>): StoreState
  {
    if ids == [] then s else SnapPiece(SnapAll(s, ids[..|ids| - 1]), ids[|ids| - 1])
  }

  /** The ids of a sequence, as a set. */
  function Elems(ids: seq<string>): set<string>
  {
    set x | x in ids
  }

  /** After a run of snaps the set holds the ids snapped, and the total and the clock reading are untouched. */
  lemma {:induction false} SnapAllSet(s: StoreState, ids: seq<string>)
    ensures var r := SnapAll(s, ids);
      && r.game.snappedPieces == s.game.snappedPieces + Elems(ids)
      && r.game.totalPieces == s.game.totalPieces && r.game.timeElapsed == s.game.timeElapsed
  {
    if ids != [] {
      var n := |ids| - 1;
      SnapAllSet(s, ids[..n]);
      assert ids == ids[..n] + [ids[n]];
      assert Elems(ids) == Elems(ids[..n]) + {ids[n]};
    }
  }

  /** While the total is 0, its initial value, no snap completes the level: the set never has size 0 after an add. */
  lemma {:induction false} ZeroTotalNeverCompletes(s: StoreState, ids: seq<string>)
    requires s.game.totalPieces == 0 && !s.game.isLevelComplete
    ensures !SnapAll(s, ids).game.isLevelComplete
  {
    if ids != [] {
      var n := |ids| - 1;
      ZeroTotalNeverCompletes(s, ids[..n]);
      SnapAllSet(s, ids[..n]);
      var prev := SnapAll(s, ids[..n]);
      assert ids[n] in prev.game.snappedPieces + {ids[n]};
    }
  }

  /** The snap that brings the set to the total completes the level at the time the run started. */
  lemma SnapAllCompletes(s: StoreState, ids: seq<string>)
    requires Inv(s) && ids != []
    requires |s.game.snappedPieces + Elems(ids)| == s.game.totalPieces
    ensures SnapAll(s, ids).game.isLevelComplete
    ensures SnapAll(s, ids).game.completionTime == Some(s.game.timeElapsed)
  {
    var n := |ids| - 1;
    SnapAllSet(s, ids[..n]);
    SnapAllSet(s, ids);
  }
}
