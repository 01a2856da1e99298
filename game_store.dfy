/**
 * The game-progress store as an object: the store's state, replaced by a
 * merged copy on every `set`, the module-level interval handle, and the
 * runtime's live intervals. Each action is proved to leave exactly the
 * store state its transition function in GameRules describes, and to keep
 * the store's invariant.
 */
module Game {
  import opened Geometry
  import R = GameRules

  class GameStore {
    /** The store's state. */
    var state: R.GameState
    /** `timerInterval`: the handle of the interval the store started last and has not cleared. */
    var timerInterval: Option<nat>
    /** The intervals the runtime still fires. */
    var live: set<nat>
    /** The handle the next `setInterval` returns. */
    var nextTimer: nat

    function Current(): R.StoreState
      reads this
    {
      R.StoreState(state, timerInterval, live, nextTimer)
    }

    ghost predicate Valid()
      reads this
    {
      R.Inv(Current())
    }

    constructor()
      ensures Current() == R.Initial && Valid()
    {
      state := R.InitialGame;
      timerInterval := None;
      live := {};
      nextTimer := 0;
    }

    /** Clear the kept interval, if any, and forget its handle. */
    method ClearTimer()
      modifies this`timerInterval, this`live
      ensures Current() == R.ClearTimer(old(Current()))
    {
      if timerInterval.Some? {
        live := live - {timerInterval.value};
        timerInterval := None;
      }
    }

    method StartTimer()
      requires Valid()
      modifies this
      ensures Valid() && Current() == R.StartTimer(old(Current()))
    {
      ghost var s := Current();
      ClearTimer();
      timerInterval := Some(nextTimer);
      live := live + {nextTimer};
      nextTimer := nextTimer + 1;
      state := state.(isTimerRunning := true);
      R.StepKeepsInv(s, R.StartTimerAction);
    }

    method StopTimer()
      requires Valid()
      modifies this
      ensures Valid() && Current() == R.StopTimer(old(Current()))
    {
      ghost var s := Current();
      ClearTimer();
      state := state.(isTimerRunning := false);
      R.StepKeepsInv(s, R.StopTimerAction);
    }

    method ResetTimer()
      requires Valid()
      modifies this
      ensures Valid() && Current() == R.ResetTimer(old(Current()))
    {
      ghost var s := Current();
      ClearTimer();
      state := state.(timeElapsed := 0, isTimerRunning := false);
      R.StepKeepsInv(s, R.ResetTimerAction);
    }

    /** The interval callback: one live interval adds a tick to the clock. */
    method Fire(h: nat)
      requires Valid()
      modifies this`state
      ensures Valid() && Current() == R.Fire(old(Current()), h)
    {
      if h in live {
        state := state.(timeElapsed := state.timeElapsed + R.TickMs);
      }
    }

    method StartGame()
      requires Valid()
      modifies this
      ensures Valid() && Current() == R.StartGame(old(Current()))
    {
      state := state.(isGameStarted := true);
      StartTimer();
    }

    method BreakPieces()
      requires Valid()
      modifies this`state
      ensures Valid() && Current() == R.BreakPieces(old(Current()))
    {
      state := state.(isBroken := true);
    }

    method ResetLevel()
      requires Valid()
      modifies this
      ensures Valid() && Current() == R.ResetLevel(old(Current()))
    {
      state := state.(isGameStarted := false, isBroken := false, snappedPieces := {}, totalPieces := 0,
                      isLevelRendered := false, isLevelComplete := false, completionTime := None);
      ResetTimer();
    }

    method SnapPiece(id: string)
      requires Valid()
      modifies this
      ensures Valid() && Current() == R.SnapPiece(old(Current()), id)
    {
      ghost var s := Current();
      var snapped := state.snappedPieces + {id};
      if |snapped| == state.totalPieces {
        ClearTimer();
        state := state.(snappedPieces := snapped, isLevelComplete := true,
                        completionTime := Some(state.timeElapsed), isTimerRunning := false);
      } else {
        state := state.(snappedPieces := snapped);
      }
      R.StepKeepsInv(s, R.SnapPieceAction(id));
    }

    method SetLevel(level: int)
      requires Valid()
      modifies this
      ensures Valid() && Current() == R.SetLevel(old(Current()), level)
    {
      state := state.(currentLevel := level);
      ResetLevel();
    }

    method SetTotalPieces(count: int)
      requires Valid()
      modifies this`state
      ensures Valid() && Current() == R.SetTotalPieces(old(Current()), count)
    {
      state := state.(totalPieces := count);
    }

    method SetLevelRendered(rendered: bool)
      requires Valid()
      modifies this`state
      ensures Valid() && Current() == R.SetLevelRendered(old(Current()), rendered)
    {
      state := state.(isLevelRendered := rendered);
    }
  }
}
