/**
 * The pure rules inside the physics canvas: body labels, the three-pin
 * layout, the snap-back distance test, the break impulse and schedule, the
 * repulsion force and the per-tick snapshot. The physics library itself is
 * not modelled: a body is a record of its state and a pin is data.
 */
module PhysicsRules {
  import opened Geometry

  /** Release closer than this to the origin snaps a piece back (strict). */
  const SnapRadius: real := 80.0
  /** Repulsion acts only closer than this to a field centre (strict). */
  const RepulsionRadius: real := 120.0
  /** Scale of the repulsion strength `0.0008 * (120 - d) / d`. */
  const RepulsionScale: real := 0.0008
  /** Stagger between consecutive pieces of the break, in milliseconds. */
  const BreakStagger: nat := 300
  /** Delay between losing the two top pins and losing the centre pin. */
  const CentreDelay: nat := 800

  /** Pieces that lose their pins without the random kick. */
  const ModalPieces: seq<string> := [
    "modal-backdrop", "modal-container", "modal-title", "name-input",
    "email-input", "password-input", "submit-btn", "cancel-btn"
  ]

  // ---------------------------------------------------------------- labels

  const BoxPrefix: string := "box-"

  /** The label a piece's body carries: `box-${id}`. */
  function BoxLabel(id: string): string { BoxPrefix + id }

  predicate IsBoxLabel(name: string) { |name| >= 4 && name[..4] == BoxPrefix }

  /** `label.replace('box-', '')` on a label that starts with the prefix. */
  function PieceIdOf(name: string): (id: string)
    requires IsBoxLabel(name)
    ensures BoxLabel(id) == name
  {
    name[4..]
  }

  /** Stripping the prefix from a piece's own label gives back the piece id. */
  lemma LabelRoundTrip(id: string)
    ensures IsBoxLabel(BoxLabel(id)) && PieceIdOf(BoxLabel(id)) == id
  {
    assert BoxLabel(id)[..4] == BoxPrefix;
    assert BoxLabel(id)[4..] == id;
  }

  // ---------------------------------------------------------------- bodies and pins

  /** A piece's dynamic body as the handlers see it. */
  datatype Body = Body(pos: Vec, vel: Vec, angVel: real, angle: real, force: Vec, torque: real)

  /** A freshly created body: at `at`, not rotated, not moving, no pending force. */
  function RestingBody(at: Vec): Body
  {
    Body(at, Zero, 0.0, 0.0, Zero, 0.0)
  }

  /** Snap-back: position and angle forced to the origin state, both velocities zeroed. */
  function AtRest(b: Body, at: Vec): (r: Body)
    ensures r.pos == at && r.angle == 0.0 && r.vel == Zero && r.angVel == 0.0
    ensures r.force == b.force && r.torque == b.torque
  {
    b.(pos := at, vel := Zero, angVel := 0.0, angle := 0.0)
  }

  /** A zero-length pin: body-local point `offset` held at world point `anchor`; `cid` is its identity in the world. */
  datatype Pin = Pin(cid: nat, offset: Vec, anchor: Vec)

  /** The body-local offsets of the three pins: top-left, top-right, centre. */
  function PinOffsets(w: real, h: real): seq<Vec>
  {
    [Vec(-w / 3.0, -h / 3.0), Vec(w / 3.0, -h / 3.0), Zero]
  }

  /** The three pins installed for a `w` by `h` piece whose centre is held at `at`. */
  function PinSet(first: nat, w: real, h: real, at: Vec): (ps: seq<Pin>)
    ensures |ps| == 3
    ensures forall i :: 0 <= i < 3 ==> ps[i].cid == first + i && ps[i].offset == PinOffsets(w, h)[i]
    ensures Anchored(ps, at)
  {
    [ Pin(first, Vec(-w / 3.0, -h / 3.0), Vec(at.x - w / 3.0, at.y - h / 3.0)),
      Pin(first + 1, Vec(w / 3.0, -h / 3.0), Vec(at.x + w / 3.0, at.y - h / 3.0)),
      Pin(first + 2, Zero, at) ]
  }

  /** Every pin's world anchor is the body centre `at` plus its body-local offset. */
  ghost predicate Anchored(ps: seq<Pin>, at: Vec)
  {
    forall i :: 0 <= i < |ps| ==> ps[i].anchor == at.Add(ps[i].offset)
  }

  /** The constraint ids of a pin list. */
  function Cids(ps: seq<Pin>): (s: set<nat>)
    ensures forall i :: 0 <= i < |ps| ==> ps[i].cid in s
    ensures forall c :: c in s ==> exists i :: 0 <= i < |ps| && ps[i].cid == c
  {
    set i | 0 <= i < |ps| :: ps[i].cid
  }

  // ---------------------------------------------------------------- snap-back test

  /** The snap test: squared distance to the origin strictly below 80 * 80. */
  predicate WithinSnap(pos: Vec, origin: Vec)
  {
    pos.Sub(origin).Norm2() < SnapRadius * SnapRadius
  }

  /** Comparing squared distances is the source's `Math.sqrt(...) < r` test, for any radius. */
  lemma SquaredTest(d: real, s: real, r: real)
    requires d >= 0.0 && r > 0.0 && d * d == s
    ensures d < r <==> s < r * r
  {
    if d < r {
      assert d * (r - d) >= 0.0 && r * (r - d) > 0.0;
      assert s < r * r;
    } else {
      assert d * (d - r) >= 0.0 && r * (d - r) >= 0.0;
      assert s >= r * r;
    }
  }

  /** The snap test holds exactly when the Euclidean distance `d` is below 80. */
  lemma WithinSnapIsDistanceBelow80(pos: Vec, origin: Vec, d: real)
    requires d >= 0.0 && d * d == pos.Sub(origin).Norm2()
    ensures WithinSnap(pos, origin) <==> d < SnapRadius
  {
    SquaredTest(d, pos.Sub(origin).Norm2(), SnapRadius);
  }

  /** 80 and 85 units away along an axis do not snap; 79 does. */
  lemma SnapBoundaryExamples(origin: Vec)
    ensures !WithinSnap(origin.Add(Vec(80.0, 0.0)), origin)
    ensures !WithinSnap(origin.Add(Vec(0.0, 85.0)), origin)
    ensures WithinSnap(origin.Add(Vec(79.0, 0.0)), origin)
  {
  }

  // ---------------------------------------------------------------- break impulse

  /** A force applied at a world point. */
  datatype Impulse = Impulse(point: Vec, force: Vec)

  /** 0 for the modal allow-list, 1 otherwise. */
  function ForceMultiplier(id: string): (m: real)
    ensures m == 0.0 || m == 1.0
    ensures m == 0.0 <==> id in ModalPieces
  {
    if id in ModalPieces then 0.0 else 1.0
  }

  /**
   * The impulse applied when a piece loses its centre pin; `r1` and `r2`
   * stand for the two `Math.random()` draws (horizontal force, point offset).
   */
  function BreakImpulse(id: string, pos: Vec, r1: real, r2: real): (imp: Impulse)
    requires 0.0 <= r1 < 1.0 && 0.0 <= r2 < 1.0
    ensures id in ModalPieces ==> imp == Impulse(pos, Zero)
    ensures id !in ModalPieces ==>
      imp.force.y < 0.0 &&
      (imp.force.x > 0.0 <==> r1 > 0.5) && (imp.force.x < 0.0 <==> r1 < 0.5) &&
      -15.0 <= imp.point.x - pos.x <= 15.0 && imp.point.y == pos.y - 20.0
  {
    var m := ForceMultiplier(id);
    Impulse(Vec(pos.x + (r2 - 0.5) * 30.0 * m, pos.y - 20.0 * m),
            Vec((r1 - 0.5) * 0.02 * m, -0.005 * m))
  }

  /** `applyForce(body, point, force)`: the force accumulates, and so does its torque about the centre. */
  function ApplyForce(b: Body, imp: Impulse): (r: Body)
    ensures r.force == b.force.Add(imp.force)
    ensures imp.point == b.pos ==> r.torque == b.torque
    ensures imp.force == Zero ==> r == b
  {
    var arm := imp.point.Sub(b.pos);
    b.(force := b.force.Add(imp.force), torque := b.torque + (arm.x * imp.force.y - arm.y * imp.force.x))
  }

  // ---------------------------------------------------------------- break schedule

  datatype BreakAction =
    | RemoveTopPins(first: nat, second: nat)  // constraints[0] and constraints[1]
    | ReleaseCentre(last: nat)                // constraints[2], then the impulse

  /** A delayed step of the break: `at` milliseconds after the trigger, in engine session `session`. */
  datatype Task = Task(session: nat, at: nat, pieceId: string, action: BreakAction)

  /** One `[pieceId, constraints]` pair of the constraint map. */
  datatype Entry = Entry(pieceId: string, pins: seq<Pin>)

  /** An entry is broken when its piece has a body and at least three pins. */
  predicate Breakable(e: Entry, bodyIds: set<string>)
  {
    e.pieceId in bodyIds && |e.pins| >= 3
  }

  /** The two tasks of the entry at position k of the (reversed) entry list. */
  function EntryTasks(e: Entry, k: nat, bodyIds: set<string>, session: nat): seq<Task>
  {
    if Breakable(e, bodyIds) then
      [ Task(session, k * BreakStagger, e.pieceId, RemoveTopPins(e.pins[0].cid, e.pins[1].cid)),
        Task(session, k * BreakStagger + CentreDelay, e.pieceId, ReleaseCentre(e.pins[2].cid)) ]
    else []
  }

  /** The tasks scheduled for `entries`, entry k getting index k whether or not it is skipped. */
  function BreakSchedule(entries: seq<Entry>, bodyIds: set<string>, session: nat): seq<Task>
  {
    if entries == [] then []
    else BreakSchedule(entries[..|entries| - 1], bodyIds, session)
         + EntryTasks(entries[|entries| - 1], |entries| - 1, bodyIds, session)
  }

  /**
   * A task is scheduled exactly when it is one of the two tasks of a
   * breakable entry k: top pins at k * 300 ms, centre pin at k * 300 + 800 ms.
   */
  lemma {:induction false} BreakScheduleMembers(entries: seq<Entry>, bodyIds: set<string>, session: nat, t: Task)
    ensures t in BreakSchedule(entries, bodyIds, session) <==>
      exists k :: 0 <= k < |entries| && Breakable(entries[k], bodyIds) &&
        (t == Task(session, k * BreakStagger, entries[k].pieceId,
                   RemoveTopPins(entries[k].pins[0].cid, entries[k].pins[1].cid)) ||
         t == Task(session, k * BreakStagger + CentreDelay, entries[k].pieceId,
                   ReleaseCentre(entries[k].pins[2].cid)))
  {
    if entries != [] {
      var n := |entries| - 1;
      var init := entries[..n];
      BreakScheduleMembers(init, bodyIds, session, t);
      forall k | 0 <= k < n ensures init[k] == entries[k] { }
    }
  }

  /** The constraints left in the world once a break action has removed its pins. */
  function ActiveAfter(active: set<nat>, action: BreakAction): (r: set<nat>)
    ensures r <= active
    ensures action.RemoveTopPins? ==> action.first !in r && action.second !in r && active - r <= {action.first, action.second}
    ensures action.ReleaseCentre? ==> action.last !in r && active - r <= {action.last}
  {
    match action
    case RemoveTopPins(a, b) => active - {a, b}
    case ReleaseCentre(c) => active - {c}
  }

  /**
   * The break takes a piece whose three pins are all in the world through
   * exactly two stages: its first task, the earlier one, leaves only its
   * centre pin; its second leaves none. At no point are exactly two of its
   * pins present.
   */
  lemma BreakStages(e: Entry, k: nat, bodyIds: set<string>, session: nat,
                    first: nat, w: real, h: real, at: Vec, active: set<nat>)
    requires e.pieceId in bodyIds && e.pins == PinSet(first, w, h, at) && Cids(e.pins) <= active
    ensures var ts := EntryTasks(e, k, bodyIds, session);
      |ts| == 2 && ts[0].at < ts[1].at &&
      var afterTop := ActiveAfter(active, ts[0].action);
      Cids(e.pins) * afterTop == {first + 2} &&
      Cids(e.pins) * ActiveAfter(afterTop, ts[1].action) == {}
  {
    assert Cids(e.pins) == {first, first + 1, first + 2};
  }

  /** How many entries are breakable. */
  function BreakableCount(entries: seq<Entry>, bodyIds: set<string>): nat
  {
    if entries == [] then 0
    else BreakableCount(entries[..|entries| - 1], bodyIds) + (if Breakable(entries[|entries| - 1], bodyIds) then 1 else 0)
  }

  /** Each breakable entry contributes two tasks; skipped entries none. */
  lemma {:induction false} BreakScheduleLength(entries: seq<Entry>, bodyIds: set<string>, session: nat)
    ensures |BreakSchedule(entries, bodyIds, session)| == 2 * BreakableCount(entries, bodyIds)
  {
    if entries != [] {
      BreakScheduleLength(entries[..|entries| - 1], bodyIds, session);
    }
  }

  /** The reversal of a sequence: the break walks the constraint map back to front. */
  function Reverse<T>(s: seq<T>): (r: seq<T>)
    ensures |r| == |s|
    ensures forall i :: 0 <= i < |s| ==> r[i] == s[|s| - 1 - i]
  {
    if s == [] then [] else [s[|s| - 1]] + Reverse(s[..|s| - 1])
  }

  // ---------------------------------------------------------------- repulsion

  /**
   * The repulsion a field centred at `centre` puts on a body at `pos`,
   * where `d` is their distance (the value the source takes a square root for).
   */
  function RepulsionForce(pos: Vec, centre: Vec, d: real): (f: Option<Vec>)
    requires d >= 0.0 && d * d == pos.Sub(centre).Norm2()
    ensures f.Some? <==> 0.0 < d < RepulsionRadius
    ensures f.Some? ==> exists k: real :: k > 0.0 && f.value == pos.Sub(centre).Scale(k)
    ensures f.Some? ==> f.value.Dot(pos.Sub(centre)) > 0.0
  {
    if d < RepulsionRadius && d > 0.0 then
      var strength := RepulsionScale * (RepulsionRadius - d) / d;
      assert strength > 0.0;
      var away := pos.Sub(centre);
      assert away.Norm2() > 0.0;
      assert away.Scale(strength).Dot(away) == strength * away.Norm2();
      Some(away.Scale(strength))
    else None
  }

  /** The force has magnitude `0.0008 * (120 - d)`: it grows as the body gets closer to the centre. */
  lemma RepulsionMagnitude(pos: Vec, centre: Vec, d: real)
    requires d >= 0.0 && d * d == pos.Sub(centre).Norm2()
    requires 0.0 < d < RepulsionRadius
    ensures var f := RepulsionForce(pos, centre, d).value;
      f.Norm2() == (RepulsionScale * (RepulsionRadius - d)) * (RepulsionScale * (RepulsionRadius - d))
  {
    var away := pos.Sub(centre);
    var s := RepulsionScale * (RepulsionRadius - d) / d;
    var f := RepulsionForce(pos, centre, d).value;
    assert f == away.Scale(s);
    calc {
      f.Norm2();
      s * away.x * (s * away.x) + s * away.y * (s * away.y);
      s * s * away.Norm2();
      s * s * (d * d);
      (s * d) * (s * d);
    }
    assert s * d == RepulsionScale * (RepulsionRadius - d);
  }

  /** The square of a positive distance is positive. */
  lemma PositiveSquare(d: real)
    requires d > 0.0
    ensures d * d > 0.0
  {
  }

  /** A body at least 120 away from the field, or on its centre, feels no field force. */
  lemma NoRepulsionOutside(pos: Vec, centre: Vec, d: real)
    requires d >= 0.0 && d * d == pos.Sub(centre).Norm2()
    requires pos.Sub(centre).Norm2() >= RepulsionRadius * RepulsionRadius || pos == centre
    ensures RepulsionForce(pos, centre, d) == None
  {
    if pos == centre {
      if d > 0.0 {
        PositiveSquare(d);
      }
    } else {
      SquaredTest(d, pos.Sub(centre).Norm2(), RepulsionRadius);
    }
  }

  // ---------------------------------------------------------------- snapshot

  /** What a tick reports for one body: its position and its angle. */
  function PoseOf(b: Body): Pose { Pose(b.pos.x, b.pos.y, b.angle) }

  /** The per-tick snapshot of every body. */
  function Snapshot(bodies: map<string, Body>): (s: map<string, Pose>)
    ensures s.Keys == bodies.Keys
  {
    map id | id in bodies :: PoseOf(bodies[id])
  }

  /** The distances the tick computes: one per body that has a field. */
  ghost predicate FieldDistances(bodies: map<string, Body>, fields: map<string, Vec>, dist: map<string, real>)
  {
    forall id :: id in bodies && id in fields ==>
      id in dist && dist[id] >= 0.0 && dist[id] * dist[id] == bodies[id].pos.Sub(fields[id]).Norm2()
  }

  /** A body after the tick's repulsion step: pushed when its field is in range, untouched otherwise. */
  function Repelled(b: Body, id: string, fields: map<string, Vec>, dist: map<string, real>): Body
    requires id in fields ==> id in dist && dist[id] >= 0.0 && dist[id] * dist[id] == b.pos.Sub(fields[id]).Norm2()
  {
    if id in fields then
      match RepulsionForce(b.pos, fields[id], dist[id])
      case Some(f) => ApplyForce(b, Impulse(b.pos, f))
      case None => b
    else b
  }

  /** The whole map of bodies after the tick's repulsion step. */
  function RepelledAll(bodies: map<string, Body>, fields: map<string, Vec>, dist: map<string, real>): (r: map<string, Body>)
    requires FieldDistances(bodies, fields, dist)
    ensures r.Keys == bodies.Keys
  {
    map id | id in bodies :: Repelled(bodies[id], id, fields, dist)
  }

  /**
   * Per tick: a body is pushed only when it has a field and 0 < d < 120;
   * the push is applied at its centre (no torque), is a positive multiple
   * of the direction away from the field, and nothing else about the body
   * changes.
   */
  lemma RepulsionTick(bodies: map<string, Body>, fields: map<string, Vec>, dist: map<string, real>, id: string)
    requires FieldDistances(bodies, fields, dist) && id in bodies
    ensures var b := bodies[id]; var r := RepelledAll(bodies, fields, dist)[id];
      r.pos == b.pos && r.vel == b.vel && r.angle == b.angle && r.angVel == b.angVel && r.torque == b.torque &&
      (r != b ==> id in fields && 0.0 < dist[id] < RepulsionRadius) &&
      (id in fields && 0.0 < dist[id] < RepulsionRadius ==>
        (exists k: real :: k > 0.0 && r.force.Sub(b.force) == b.pos.Sub(fields[id]).Scale(k)) &&
        r.force.Sub(b.force).Dot(b.pos.Sub(fields[id])) > 0.0)
  {
    var b := bodies[id];
    if id in fields && 0.0 < dist[id] < RepulsionRadius {
      var f := RepulsionForce(b.pos, fields[id], dist[id]).value;
      assert RepelledAll(bodies, fields, dist)[id].force == b.force.Add(f);
      assert b.force.Add(f).Sub(b.force) == f;
    }
  }
}
