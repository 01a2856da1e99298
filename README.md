# Vibeable: the physics core in Dafny

This project models the core of the "break the UI, put it back" game. Each level draws a web page whose elements are physics bodies.

- The page's pieces are pinned in place.
- They then break loose and fall.
- The player drags each one back to where it belongs.

The model covers five parts of the game:

- **The physics canvas.** The component keeps its state in refs:
  - per-piece bodies;
  - three-pin constraint sets;
  - origins;
  - the level-5 repulsion fields and the "has moved" flags.

  It has handlers for level set-up, drag start, drag release (the snap-back test), the Space key, the staggered break, and the per-tick snapshot with its repulsion push.
- **The game store.** This is the timer, the level flags, the set of snapped pieces and the completion rule.
- **The catalogs.** These are the rectangles of the tutorial, of level 1 and of level 2.
- **The level components.** Each draws its elements through `getTransform`. Some elements are sized by catalog index. Level 4 has a flicker latch.
- **The tutorial page.** Before the start it shows a preview. After the start it draws with a `??` fallback to the catalog, and a pending timeout breaks the pieces 1.5 s later.

## Modules

| module | file | what it holds |
|---|---|---|
| `Geometry` | `geometry.dfy` | the vectors, the `BodyDef` catalog entry, `find`, and the tutorial, level-1 and level-2 catalogs |
| `PhysicsRules` | `physics_rules.dfy` | the pure rules inside the canvas |
| `PhysicsWorld` | `physics_world.dfy` | the canvas as a class `World` (its refs and handlers), plus its loops over values |
| `Levels` | `levels.dfy` | `getTransform`, the index-based sizing, level 4's latch and modal pieces |
| `GameRules` | `game_rules.dfy` | the store as values: one transition per action, the invariant, the lemmas |
| `Game` | `game_store.dfy` | the store as a class, proved against `GameRules` action by action |
| `HomePage` | `page.dfy` | the tutorial page's render, its transform and its auto-break latch |

The pure rules in `PhysicsRules` are:

- body labels;
- the pin layout;
- the snap distance;
- the break impulse and its schedule;
- the repulsion force;
- the snapshot.

Numbers are `real`. Two things stand in for what the source computes with the engine:

- **Distances.** The source takes `Math.sqrt` of the squared distance. The model passes the distance `d` with `d * d` equal to the squared distance. `SquaredTest` shows that comparing squares is the same test.
- **Random draws.** The two `Math.random()` draws of the break impulse are parameters `r1` and `r2` in `[0, 1)`.

## Model

| member | source | states |
|---|---|---|
| Geometry.Center | src/components/PhysicsCanvas.tsx:142-143 | the centre shifted back by half the width and height is the piece's top-left corner |
| Geometry.Find | src/components/levels/Level2.tsx:14 | a result is a catalog entry with that id; none is found exactly when no entry has the id |
| Geometry.FindUnique | src/components/levels/Level2.tsx:14 | with unique ids, looking up entry i's id returns entry i |
| Geometry.FindFirst | src/components/levels/Level5.tsx:14 | `find` returns the first entry with the id, whether or not later entries repeat it |
| Geometry.IdSetMember | src/components/PhysicsCanvas.tsx:223 | every id set-up gives a body is found in the catalog |
| Geometry.TutorialWellFormed | src/types.ts:11-14 | the tutorial catalog has unique ids and positive sizes; the legacy `pieces` export is that list |
| Geometry.Level1WellFormed | src/types.ts:17-24 | the level-1 catalog has unique ids and positive sizes |
| Geometry.Level2WellFormed | src/types.ts:27-35 | the level-2 catalog has unique ids and positive sizes |
| Geometry.TutorialIdsMatchPageKeys | src/app/page.tsx:75-95 | the page reads `positions.header` and `positions.button` and sizes them from entries 0 and 1; these are exactly the entries with those ids |
| PhysicsRules.PieceIdOf | src/components/PhysicsCanvas.tsx:197 | stripping `box-` from a label gives the id whose label it is |
| PhysicsRules.LabelRoundTrip | src/components/PhysicsCanvas.tsx:152 | a piece's own label passes the `box-` test and strips back to its id |
| PhysicsRules.AtRest | src/components/PhysicsCanvas.tsx:210-213 | snap-back sets the position to the origin, the angle to 0 and both velocities to 0, and keeps any pending force |
| PhysicsRules.PinSet | src/components/PhysicsCanvas.tsx:157-183 | three pins with consecutive constraint ids, at offsets top-left, top-right and centre, each anchored at centre plus offset |
| PhysicsRules.ActiveAfter | src/components/PhysicsCanvas.tsx:438-444 | a break action removes its own constraints from the world and nothing else |
| PhysicsRules.BreakStages | src/components/PhysicsCanvas.tsx:437-457 | a breakable entry whose three pins are in the world gets two tasks, the first earlier; after the first task's `ActiveAfter` only its centre pin remains, after the second none does |
| PhysicsRules.WithinSnap | src/components/PhysicsCanvas.tsx:203-208 | the snap test on squared coordinates, with no square root; `WithinSnapIsDistanceBelow80` proves it is the source's `distance < 80` |
| PhysicsRules.WithinSnapIsDistanceBelow80 | src/components/PhysicsCanvas.tsx:203-208 | the squared-distance test holds exactly when the distance is strictly below 80 |
| PhysicsRules.SnapBoundaryExamples | src/components/PhysicsCanvas.tsx:208 | 79 units away snaps; 80 and 85 do not |
| PhysicsRules.ForceMultiplier | src/components/PhysicsCanvas.tsx:447-448 | the multiplier is 0 exactly for the eight modal ids, otherwise 1 |
| PhysicsRules.BreakImpulse | src/components/PhysicsCanvas.tsx:447-456 | a modal piece gets a zero force at its centre; any other piece gets an upward force whose horizontal sign follows `r1`, applied within 15 horizontally of the centre and 20 above it |
| PhysicsRules.ApplyForce | src/components/PhysicsCanvas.tsx:456 | the force accumulates; a push at the centre adds no torque; a zero force changes nothing |
| PhysicsRules.EntryTasks | src/components/PhysicsCanvas.tsx:429-459 | one entry's tasks: none for an entry without a body or with fewer than three pins, otherwise the top pins at k·300 ms and the centre pin 800 ms later; `BreakStages` proves their effect |
| PhysicsRules.BreakSchedule | src/components/PhysicsCanvas.tsx:429-459 | the tasks of every entry, entry k staggered by k·300 ms; `BreakScheduleMembers` and `BreakScheduleLength` say which tasks it holds and how many |
| PhysicsRules.BreakScheduleMembers | src/components/PhysicsCanvas.tsx:429-458 | a task is scheduled exactly when it is one of the two tasks of a breakable entry k: top pins at k·300 ms, centre pin at k·300 + 800 ms |
| PhysicsRules.BreakScheduleLength | src/components/PhysicsCanvas.tsx:429-435 | two tasks per entry with a body and at least three pins; none for a skipped entry |
| PhysicsRules.Reverse | src/components/PhysicsCanvas.tsx:426 | the entry list is walked back to front, element i being the old element n−1−i |
| PhysicsRules.SquaredTest | src/components/PhysicsCanvas.tsx:378-384 | `sqrt(s) < r` is the same test as `s < r * r` for a non-negative distance |
| PhysicsRules.RepulsionForce | src/components/PhysicsCanvas.tsx:384-389 | a force exists exactly when 0 < d < 120, and then it is a positive multiple of `pos − centre`, pointing away from the field centre |
| PhysicsRules.RepulsionMagnitude | src/components/PhysicsCanvas.tsx:385-387 | the force's length is 0.0008·(120 − d), so it grows as the body gets closer |
| PhysicsRules.NoRepulsionOutside | src/components/PhysicsCanvas.tsx:384 | no force at 120 or more, and none on the centre itself |
| PhysicsRules.Snapshot | src/components/PhysicsCanvas.tsx:366-373 | the snapshot has exactly one pose per body |
| PhysicsRules.RepulsionTick | src/components/PhysicsCanvas.tsx:375-391 | per tick, a body is pushed only when it has a field with 0 < d < 120; the push is a positive multiple of `pos − centre`, pointing away from the field; position, velocity, angle and torque are untouched |
| PhysicsWorld.AddPieceRefs | src/components/PhysicsCanvas.tsx:141-186 | one piece's set-up: its origin is its centre, its body rests there, and it gets three pins anchored there; `InitialLayout` states the result |
| PhysicsWorld.InitialRefs | src/components/PhysicsCanvas.tsx:140-188 | the refs after the set-up loop, piece by piece in catalog order; `InitialRefsKeys`, `InitialOrder` and `InitialLayout` state its keys, order and layout |
| PhysicsWorld.InitialRefsKeys | src/components/PhysicsCanvas.tsx:141-190 | after set-up, bodies, pins and origins all have exactly the catalog's ids as keys, and the key order lists each once |
| PhysicsWorld.InitialOrder | src/components/PhysicsCanvas.tsx:186 | with unique ids, the pin map's keys come in catalog order |
| PhysicsWorld.InitialLayout | src/components/PhysicsCanvas.tsx:141-188 | with unique ids, piece i's origin is its centre, its body rests there, and its three pins are anchored there with constraint ids first + 3i onwards |
| PhysicsWorld.EntriesOf | src/components/PhysicsCanvas.tsx:426 | the map's `[id, pins]` pairs in key order |
| PhysicsWorld.CreateRefs | src/components/PhysicsCanvas.tsx:141-188 | the set-up loop builds exactly `InitialRefs`, and the constraint ids first .. first + 3n − 1 |
| PhysicsWorld.ScheduleEntries | src/components/PhysicsCanvas.tsx:429-459 | the `forEach` over the entries schedules exactly `BreakSchedule` |
| PhysicsWorld.SyncAndRepel | src/components/PhysicsCanvas.tsx:365-395 | the tick loop returns the snapshot of the bodies before the push, and every body after its repulsion step |
| PhysicsWorld.World.constructor | src/components/PhysicsCanvas.tsx:28-41 | every ref starts empty, with no engine, and the three listener refs hold the props |
| PhysicsWorld.World.SetListeners | src/components/PhysicsCanvas.tsx:44-48 | the listener refs follow the latest props |
| PhysicsWorld.World.InstallPins | src/components/PhysicsCanvas.tsx:255-256 | the piece's pin list is replaced by three new pins whose ids join the world; older pins stay in the world |
| PhysicsWorld.World.Setup | src/components/PhysicsCanvas.tsx:50-190 | a new engine session; the refs are exactly `InitialRefs` of the pieces; no fields, no moved flags, nothing held; the world holds exactly the new pins; the invariant holds |
| PhysicsWorld.World.ClearRefs | src/components/PhysicsCanvas.tsx:53-63 | every ref is emptied and a new empty engine replaces the old one |
| PhysicsWorld.World.ClearMaps | src/components/PhysicsCanvas.tsx:53-58 | the five ref maps and the key order are empty |
| PhysicsWorld.World.NewEngine | src/components/PhysicsCanvas.tsx:60-63 | a new session with an empty world and nothing held |
| PhysicsWorld.World.CreatePieces | src/components/PhysicsCanvas.tsx:141-190 | the emptied refs become `InitialRefs` of the pieces, and the world holds the 3n new constraints |
| PhysicsWorld.World.SnapPieceBack | src/components/PhysicsCanvas.tsx:194-265 | snaps exactly when the label is a piece's, the piece has an origin and the body is strictly within 80 of it; a snap sends the body home, drops its field, re-pins it and notifies once; otherwise nothing changes |
| PhysicsWorld.World.SnapBack | src/components/PhysicsCanvas.tsx:208-263 | the body goes home and the piece is re-pinned at its origin, keeping the invariant |
| PhysicsWorld.World.PutHome | src/components/PhysicsCanvas.tsx:210-220 | the body rests at the origin; a piece with a field loses it and is marked unmoved |
| PhysicsWorld.World.PinHome | src/components/PhysicsCanvas.tsx:222-261 | a catalog piece gets three new pins at the origin and the snapped listener hears of it; an id outside the catalog changes nothing |
| PhysicsWorld.World.StartDrag | src/components/PhysicsCanvas.tsx:272-302 | the mouse holds the body; with the listener set and a piece's label, the listener hears of it, and on the first move a field appears at the origin |
| PhysicsWorld.World.EndDrag | src/components/PhysicsCanvas.tsx:267-269 | the release runs the snap test and the mouse lets go; a snapped piece rests on its origin, pinned there |
| PhysicsWorld.World.KeyDown | src/components/PhysicsCanvas.tsx:305-360 | Space while a catalog piece is held stops it, pins it where it is and notifies the spacebar listener; any other key or state changes nothing |
| PhysicsWorld.World.PinInPlace | src/components/PhysicsCanvas.tsx:314-357 | the body keeps its position and loses both velocities; three pins anchored at its position; the spacebar listener, never the snapped one, hears of it |
| PhysicsWorld.World.ScheduleBreak | src/components/PhysicsCanvas.tsx:416-460 | nothing without break mode or an engine; otherwise exactly the break schedule of the reversed entry list |
| PhysicsWorld.World.RunTask | src/components/PhysicsCanvas.tsx:438-457 | a task of an older engine changes nothing here; otherwise the world's constraints become `ActiveAfter` of the old ones and, at the centre pin, the body receives the break impulse |
| PhysicsWorld.World.Step | src/components/PhysicsCanvas.tsx:398-399 | the solver's step replaces the bodies and keeps their ids |
| PhysicsWorld.World.AfterUpdate | src/components/PhysicsCanvas.tsx:365-395 | the reported snapshot is taken before the push; the bodies afterwards are the repelled bodies |
| Levels.GetTransform | src/components/levels/Level2.tsx:13-31 | no style exactly when the id is not in the catalog; with a position, the element's centre is the body's and it turns by the body's angle; without one, it sits at its catalog rectangle, unturned |
| Levels.OriginRoundTrip | src/components/levels/Level2.tsx:17-29 | a body resting unturned at its set-up centre is drawn exactly where the element was drawn before any report |
| Levels.InitialSnapshotDrawsCatalog | src/components/levels/Level2.tsx:13-31 | a snapshot of the bodies as set-up leaves them, before any solver step, draws every piece at its catalog top-left with rotation 0 |
| Levels.EntrySizedAndPlaced | src/components/levels/Level2.tsx:97-101 | with unique ids, an element sized from entry i and placed by entry i's id is centred on that entry's body |
| Levels.Level2Sizing | src/components/levels/Level2.tsx:97-131 | entries 4, 5 and 6 carry the ids the three elements are placed by, so each element sits on its own body |
| Levels.Level3Sizing | src/components/levels/Level3.tsx:128-240 | given those ids at entries 6, 7, 8, 11, 12 and 13, each index-sized element sits on its own body |
| Levels.Level4Sizing | src/components/levels/Level4.tsx:148-201 | given the five form ids at entries 6 to 10, and `neon-header` at entry 0 (sized at lines 57-59), each index-sized element sits on its own body |
| Levels.Level5Sizing | src/components/levels/Level5.tsx:71-74 | when entry 0 is `easy-button`, the button sized from entry 0 sits on its own body |
| Levels.FlickerTrigger | src/components/levels/Level4.tsx:17-18 | a snapshot sets the flag when it has the neon header turned more than 0.1 rad either way or lower than y = 50 |
| Levels.FlickerAfter | src/components/levels/Level4.tsx:13-21 | the flag after a run of snapshots; `FlickerAfterLatch` and `FlickerNeedsHeader` state when it is set |
| Levels.FlickerAfterLatch | src/components/levels/Level4.tsx:13-21 | after any run of snapshots the flag is set exactly when it was set before or some snapshot showed the header tilted beyond 0.1 rad or below y = 50 |
| Levels.FlickerNeedsHeader | src/components/levels/Level4.tsx:17-18 | snapshots without the neon header never set the flag |
| Levels.FlickerLatch.constructor | src/components/levels/Level4.tsx:13 | the flag starts false |
| Levels.FlickerLatch.OnPositionsChange | src/components/levels/Level4.tsx:16-21 | one run of the effect: the flag is set or kept, never cleared, and unchanged without the header |
| Levels.Level4ModalBreaksGently | src/components/PhysicsCanvas.tsx:423-456 | level 4's modal title, inputs and buttons get a zero force at their centre, which leaves the body as it was |
| Levels.Level1EmailInputBreaksGently | src/components/PhysicsCanvas.tsx:447-448 | level 1's `email-input` shares the id of level 4's, so it too falls without a push |
| GameRules.ClearTimer | src/store/gameStore.ts:63-66 | a kept interval is cleared and its handle forgotten; `StartTimerReplacesInterval` relies on it |
| GameRules.StartTimer | src/store/gameStore.ts:52-60 | clears any interval, starts a new one and marks the timer running; `StartTimerReplacesInterval` and `TimerIdempotence` state its effect |
| GameRules.StopTimer | src/store/gameStore.ts:62-68 | clears any interval and marks the timer stopped; `TimerIdempotence` and `StoppedClockStands` state its effect |
| GameRules.ResetTimer | src/store/gameStore.ts:70-76 | clears any interval, zeroes the clock and marks the timer stopped; `TimerIdempotence` states it is idempotent |
| GameRules.StartGame | src/store/gameStore.ts:79-83 | marks the game started and starts the timer; `StartGameRuns` states its effect |
| GameRules.BreakPieces | src/store/gameStore.ts:85-87 | sets the broken flag; `BreakPiecesOnlyBreaks` states its effect |
| GameRules.ResetLevel | src/store/gameStore.ts:89-101 | restores the level's flags, empties the snapped set and resets the timer; `ResetLevelRestoresInitial` states its effect |
| GameRules.SnapPiece | src/store/gameStore.ts:103-126 | adds the id and completes the level when the set reaches the total; `SnapAddsId`, `SnapCompletion` and `SnapAllCompletes` state its effect |
| GameRules.SetLevel | src/store/gameStore.ts:128-132 | sets the level, then resets it; `SetLevelRestoresInitial` states its effect |
| GameRules.SetTotalPieces | src/store/gameStore.ts:134-136 | sets the total; `ZeroTotalNeverCompletes` and `SnapAllCompletes` use it |
| GameRules.SetLevelRendered | src/store/gameStore.ts:138-140 | sets the rendered flag; `StepKeepsInv` states it keeps the invariant |
| GameRules.Fire | src/store/gameStore.ts:55-57 | a live interval adds one 50 ms tick, a cleared one does nothing; `TicksAdd` and `StoppedClockStands` state its effect |
| GameRules.StepKeepsInv | src/store/gameStore.ts:52-140 | every action keeps the invariant: running iff an interval is kept, that interval is the only live one, and complete iff a completion time exists |
| GameRules.RunKeepsInv | src/store/gameStore.ts:52-140 | any run of actions keeps the invariant |
| GameRules.OneTickSource | src/store/gameStore.ts:34-76 | from the initial store, at most one interval is ever alive, and one is alive exactly while the timer runs |
| GameRules.StartTimerReplacesInterval | src/store/gameStore.ts:52-60 | starting clears the old interval and leaves only the new one alive |
| GameRules.TimerIdempotence | src/store/gameStore.ts:52-76 | stopping and resetting twice equal doing so once; starting twice leaves one interval and the same fields |
| GameRules.TicksAdd | src/store/gameStore.ts:55-57 | n firings of the running interval add exactly 50·n ms and change nothing else |
| GameRules.StoppedClockStands | src/store/gameStore.ts:62-68 | with the timer stopped, no interval firing changes the store |
| GameRules.StartGameRuns | src/store/gameStore.ts:79-83 | starting the game marks it started with exactly one live interval, keeping the clock and the snapped set |
| GameRules.BreakPiecesOnlyBreaks | src/store/gameStore.ts:85-87 | breaking sets the flag, is idempotent, and touches nothing else |
| GameRules.ResetLevelRestoresInitial | src/store/gameStore.ts:89-101 | resetting restores every initial field but the level and leaves no interval |
| GameRules.SetLevelRestoresInitial | src/store/gameStore.ts:128-132 | switching level gives the initial store at the new level, with no interval |
| GameRules.SnapAddsId | src/store/gameStore.ts:103-106 | the id joins the snapped set; snapping it again changes the set no further |
| GameRules.SnapCompletion | src/store/gameStore.ts:103-126 | complete exactly when the new set's size equals the total: then the completion time is now and the clock stops; otherwise only the set changes |
| GameRules.SnapAllSet | src/store/gameStore.ts:103-126 | after a run of snaps the set holds the ids snapped, and the total and the clock are untouched |
| GameRules.ZeroTotalNeverCompletes | src/store/gameStore.ts:108 | while the total is still 0, no snap completes the level |
| GameRules.SnapAllCompletes | src/store/gameStore.ts:108-121 | the snap that brings the set to the total completes the level at the current time |
| Game.GameStore.constructor | src/store/gameStore.ts:37-49 | the store starts in the initial state, satisfying the invariant |
| Game.GameStore.ClearTimer | src/store/gameStore.ts:63-66 | a kept interval is cleared and its handle forgotten |
| Game.GameStore.StartTimer | src/store/gameStore.ts:52-60 | the store becomes `StartTimer` of the old store, keeping the invariant |
| Game.GameStore.StopTimer | src/store/gameStore.ts:62-68 | the store becomes `StopTimer` of the old store, keeping the invariant |
| Game.GameStore.ResetTimer | src/store/gameStore.ts:70-76 | the store becomes `ResetTimer` of the old store, keeping the invariant |
| Game.GameStore.Fire | src/store/gameStore.ts:55-57 | a live interval adds one tick; a cleared one does nothing |
| Game.GameStore.StartGame | src/store/gameStore.ts:79-83 | the store becomes `StartGame` of the old store, keeping the invariant |
| Game.GameStore.BreakPieces | src/store/gameStore.ts:85-87 | the store becomes `BreakPieces` of the old store, keeping the invariant |
| Game.GameStore.ResetLevel | src/store/gameStore.ts:89-101 | the store becomes `ResetLevel` of the old store, keeping the invariant |
| Game.GameStore.SnapPiece | src/store/gameStore.ts:103-126 | the store becomes `SnapPiece` of the old store, keeping the invariant |
| Game.GameStore.SetLevel | src/store/gameStore.ts:128-132 | the store becomes `SetLevel` of the old store, keeping the invariant |
| Game.GameStore.SetTotalPieces | src/store/gameStore.ts:134-136 | the total is set, keeping the invariant |
| Game.GameStore.SetLevelRendered | src/store/gameStore.ts:138-140 | the rendered flag is set, keeping the invariant |
| HomePage.PageTransform | src/app/page.tsx:77-79 | a known position centres the element on it and turns it by its angle; otherwise the `??` fallback draws it at its catalog top-left with rotation 0 |
| HomePage.PageAgreesWithLevels | src/app/page.tsx:77-95 | the page and the level components draw a tutorial piece at the same spot; they differ only in writing `rotate(0)` |
| HomePage.Render | src/app/page.tsx:28-107 | a preview exactly before the start, at the catalog top-lefts; afterwards, elements centred on their bodies or catalog centres, and the canvas mounted on the tutorial catalog with the break flag |
| HomePage.Rearm | src/app/page.tsx:17-25 | the effect on `[isGameStarted, broken]`: a timeout is pending exactly when the game has started and the pieces are not broken |
| HomePage.PageStep | src/app/page.tsx:17-31 | the start click, the timeout firing and a canvas update as steps of the page; `PageRunLatches` and `BreakTimeoutBreaks` state what they keep |
| HomePage.PageRunLatches | src/app/page.tsx:13-25 | the timeout is pending exactly while the game runs unbroken; pieces break only after the start; neither flag returns to false |
| HomePage.BreakTimeoutBreaks | src/app/page.tsx:17-25 | the timeout breaks the pieces exactly when it is pending, and none is pending afterwards |
| HomePage.Page.constructor | src/app/page.tsx:10-14 | empty positions, not broken, not started, no timeout |
| HomePage.Page.Start | src/app/page.tsx:31 | the start click is the `StartClicked` step: started, with the timeout armed |
| HomePage.Page.BreakTimeoutFires | src/app/page.tsx:19-21 | the firing is the `BreakTimeout` step |
| HomePage.Page.OnUpdate | src/app/page.tsx:106 | the canvas's snapshot becomes the page's positions |

## Left out

- **The physics engine.** Integration, gravity, collisions, restitution and friction, the walls, the mouse spring and the renderer are not modelled. `World.Step` takes the next bodies as a parameter. What a pin does to a rotated body is left to the engine. The model records each pin's body-local offset and world anchor exactly as the source computes them.
- **The repulsion body.** The level-5 field is a static sensor circle of radius 40. It is modelled by its centre only, because the handlers read nothing else of it.
- **Square roots.** These are not computed. Each distance is given with its square equal to the squared distance: the `d` parameters and the `dist` map.
- **`Math.random()`.** The two draws are parameters `r1` and `r2` in `[0, 1)`.
- **Floating point.** It is modelled as exact reals. For example, `(x + w/2) - w/2 == x` holds in the model, but a double may round.
- **Timers.**
  - The break's timeouts become a list of tasks, each with its delay. `RunTask` runs one, and the order in which they fire is the caller's.
  - The store's interval is a handle counter plus a set of live handles, and `Fire` is one firing.
  - The page's 1500 ms timeout is a pending flag.
- **Key order of `Object.entries`.** The break walks `pinOrder`, the insertion order of the pin map. `Object.entries` lists integer-like keys first, in ascending order, and only then the others in insertion order. The model therefore assumes that no piece id is integer-like, as is true of every catalog here.
- **Effect cleanup.** The cleanup on level change or unmount is not modelled: removing the key listener, clearing the world, and the hidden canvas and mouse overlay. A new set-up starts a new engine session, and a break task from an older session leaves the current world alone.
- **`event.preventDefault()`.** Omitted; it has no effect on the model's state.
- **Defensive checks.**
  - The `body.position` check of the tick: every body in the model has a position.
  - The `!body` check of the release: `EndDrag` calls the snap test only while a body is held.
- **Logging.** `console.log` is omitted.
- **React and the DOM.** JSX, animations, class names, and the elements that do not go through `getTransform` are not modelled. The components of levels 2 to 5 are modelled only through `getTransform`, their index-based sizing and level 4's latch. Level 1's component has neither; its only part in the model is that its `email-input` id is one of the modal ids of the break.
- **The level 3, 4 and 5 catalogs.** Their source files import these catalogs from `types.ts`, but the `types.ts` in this repository does not declare them. They are parameters of `GetTransform`, `Level3Sizing`, `Level4Sizing` and `Level5Sizing`. That their entries carry the right ids at the right indices is a precondition, not checked against a catalog.
- **The save-layout API route and the shared-layout view page.** These are not part of this model.
- **Zustand.** The merge done by `set` becomes a record update, and `get()` is a direct call.
- PhysicsWorld.World.EndDrag: states the snapped case only. The full effect of the release is `SnapPieceBack`'s contract, which `EndDrag` calls on the held body.
