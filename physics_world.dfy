/**
 * The physics canvas as an object: the per-piece maps the component keeps
 * in refs (bodies, pins, origins, repulsion fields, "has moved" flags), the
 * piece held by the mouse, and the handlers that change them: level
 * set-up, drag start, drag release (snap-back), the Space key, the break
 * and the per-tick update. The physics solver is a parameter (Step).
 */
module PhysicsWorld {
  import opened Geometry
  import opened PhysicsRules

  /** What the canvas reports to its listeners. */
  datatype Event = PieceSnapped(id: string) | DragStarted(id: string) | SpacebarPinned(id: string)

  /** The ref maps as level set-up leaves them, and the key order of the pin map. */
  datatype Refs = Refs(bodies: map<string, Body>, pins: map<string, seq<Pin>>,
                       origins: map<string, Vec>, order: seq<string>)

  /**
   * Level set-up over `ps`, piece by piece: piece i's body rests at its
   * centre and its pins get constraint ids first + 3i .. first + 3i + 2.
   * A repeated id overwrites the earlier entry but keeps its key position.
   */
  function InitialRefs(ps: seq<BodyDef>, first: nat): Refs
  {
    if ps == [] then Refs(map[], map[], map[], [])
    else
      var n := |ps| - 1;
      AddPieceRefs(InitialRefs(ps[..n], first), ps[n], first + 3 * n)
  }

  /** One step of set-up: piece p's origin, resting body and pins (ids from `cid`) go into the refs. */
  function AddPieceRefs(r: Refs, p: BodyDef, cid: nat): Refs
  {
    Refs(r.bodies[p.id := RestingBody(Center(p))],
         r.pins[p.id := PinSet(cid, p.w, p.h, Center(p))],
         r.origins[p.id := Center(p)],
         if p.id in r.pins then r.order else r.order + [p.id])
  }

  /** No element occurs twice: each one is absent from the elements before it. */
  ghost predicate Distinct<T>(s: seq<T>)
  {
    s == [] || (s[|s| - 1] !in s[..|s| - 1] && Distinct(s[..|s| - 1]))
  }

  /** The four maps set-up fills have the same keys, the ids of the pieces, and the key order lists each once. */
  lemma {:induction false} InitialRefsKeys(ps: seq<BodyDef>, first: nat)
    ensures var r := InitialRefs(ps, first);
      r.bodies.Keys == IdSet(ps) && r.pins.Keys == IdSet(ps) && r.origins.Keys == IdSet(ps) &&
      (forall id :: id in r.order <==> id in r.pins) && Distinct(r.order)
  {
    if ps != [] {
      var n := |ps| - 1;
      var p := ps[n];
      var r0 := InitialRefs(ps[..n], first);
      InitialRefsKeys(ps[..n], first);
      var r := InitialRefs(ps, first);
      assert r.pins.Keys == r0.pins.Keys + {p.id};
      if p.id !in r0.pins {
        assert r.order == r0.order + [p.id];
        assert r.order[..|r.order| - 1] == r0.order;
      }
    }
  }

  /** Dropping the last piece keeps the ids unique. */
  lemma UniquePrefix(ps: seq<BodyDef>, n: nat)
    requires UniqueIds(ps) && n <= |ps|
    ensures UniqueIds(ps[..n])
  {
    forall a, b | 0 <= a < b < n ensures ps[..n][a].id != ps[..n][b].id {
      assert ps[..n][a] == ps[a] && ps[..n][b] == ps[b];
    }
  }

  /** With unique ids, the last piece's id is new to the pieces before it. */
  lemma LastIdIsNew(ps: seq<BodyDef>)
    requires UniqueIds(ps) && ps != []
    ensures ps[|ps| - 1].id !in IdSet(ps[..|ps| - 1])
  {
    var n := |ps| - 1;
    if ps[n].id in IdSet(ps[..n]) {
      IdSetMember(ps[..n], ps[n].id);
    }
  }

  /** With unique ids, the pin map's keys come in declaration order. */
  lemma {:induction false} InitialOrder(ps: seq<BodyDef>, first: nat)
    requires UniqueIds(ps)
    ensures InitialRefs(ps, first).order == Ids(ps)
  {
    if ps != [] {
      var n := |ps| - 1;
      UniquePrefix(ps, n);
      InitialOrder(ps[..n], first);
      InitialRefsKeys(ps[..n], first);
      LastIdIsNew(ps);
      assert Ids(ps) == Ids(ps[..n]) + [ps[n].id];
    }
  }

  /**
   * With unique ids, set-up records for every piece its origin (x + w/2,
   * y + h/2), a body at rest there, and exactly three pins anchored there,
   * the pins of piece i carrying constraint ids first + 3i onwards.
   */
  lemma {:induction false} InitialLayout(ps: seq<BodyDef>, first: nat, i: nat)
    requires UniqueIds(ps) && i < |ps|
    ensures var r := InitialRefs(ps, first); var p := ps[i];
      p.id in r.origins && r.origins[p.id] == Center(p) &&
      p.id in r.bodies && r.bodies[p.id] == RestingBody(Center(p)) &&
      p.id in r.pins && r.pins[p.id] == PinSet(first + 3 * i, p.w, p.h, Center(p)) &&
      Anchored(r.pins[p.id], Center(p))
  {
    var n := |ps| - 1;
    if i < n {
      UniquePrefix(ps, n);
      InitialLayout(ps[..n], first, i);
      assert ps[..n][i] == ps[i];
      assert ps[i].id != ps[n].id;
    }
  }

  /** Whether the piece has been dragged since set-up or since its last snap; a missing entry reads as false. */
  predicate Moved(hasMoved: map<string, bool>, id: string)
  {
    id in hasMoved && hasMoved[id]
  }

  /** The `[pieceId, constraints]` pairs of the pin map, in key order. */
  function EntriesOf(order: seq<string>, pins: map<string, seq<Pin>>): (es: seq<Entry>)
    requires forall id :: id in order ==> id in pins
    ensures |es| == |order|
    ensures forall i :: 0 <= i < |order| ==> es[i] == Entry(order[i], pins[order[i]])
  {
    if order == [] then [] else [Entry(order[0], pins[order[0]])] + EntriesOf(order[1..], pins)
  }

  /**
   * The `forEach` over the entries, last entry of the map first: entry k
   * that has a body and at least three pins gets its two timed tasks.
   */
  method ScheduleEntries(entries: seq<Entry>, bodyIds: set<string>, session: nat) returns (tasks: seq<Task>)
    ensures tasks == BreakSchedule(entries, bodyIds, session)
  {
    tasks := [];
    var k := 0;
    while k < |entries|
      invariant 0 <= k <= |entries|
      invariant tasks == BreakSchedule(entries[..k], bodyIds, session)
    {
      var e := entries[k];
      assert entries[..k + 1][..k] == entries[..k];
      if e.pieceId in bodyIds && |e.pins| >= 3 {
        tasks := tasks + [
          Task(session, k * BreakStagger, e.pieceId, RemoveTopPins(e.pins[0].cid, e.pins[1].cid)),
          Task(session, k * BreakStagger + CentreDelay, e.pieceId, ReleaseCentre(e.pins[2].cid))];
      }
      k := k + 1;
    }
    assert entries[..k] == entries;
  }

  /**
   * The set-up loop on values: piece i's origin, resting body and three
   * pins, with constraint ids first + 3i onwards, go into the refs in turn.
   */
  method CreateRefs(pieces: seq<BodyDef>, first: nat) returns (r: Refs, cids: set<nat>)
    ensures r == InitialRefs(pieces, first)
    ensures forall c :: c in cids <==> first <= c < first + 3 * |pieces|
  {
    r, cids := Refs(map[], map[], map[], []), {};
    var i: nat, cid: nat := 0, first;
    while i < |pieces|
      invariant i <= |pieces| && cid == first + 3 * i
      invariant r == InitialRefs(pieces[..i], first)
      invariant forall c :: c in cids <==> first <= c < cid
    {
      var p := pieces[i];
      ghost var r0 := r;
      var c := Center(p);
      var order := if p.id in r.pins then r.order else r.order + [p.id];
      r := Refs(r.bodies[p.id := RestingBody(c)], r.pins[p.id := PinSet(cid, p.w, p.h, c)],
                r.origins[p.id := c], order);
      var added: set<nat> := {cid, cid + 1, cid + 2};
      cids := cids + added;
      assert r == AddPieceRefs(r0, p, cid);
      assert pieces[..i + 1][..i] == pieces[..i] && pieces[..i + 1][i] == p;
      assert InitialRefs(pieces[..i + 1], first) == AddPieceRefs(InitialRefs(pieces[..i], first), p, cid);
      i, cid := i + 1, cid + 3;
    }
    assert pieces[..i] == pieces;
  }

  /**
   * The tick's loop over the bodies map: each body's pose goes into the
   * snapshot, then the body is pushed away from its field when in range.
   */
  method SyncAndRepel(bodies: map<string, Body>, fields: map<string, Vec>, dist: map<string, real>)
    returns (next: map<string, Body>, snapshot: map<string, Pose>)
    requires FieldDistances(bodies, fields, dist)
    ensures snapshot == Snapshot(bodies)
    ensures next == RepelledAll(bodies, fields, dist)
  {
    next, snapshot := bodies, map[];
    var todo := bodies.Keys;
    while todo != {}
      invariant todo <= bodies.Keys && next.Keys == bodies.Keys
      invariant snapshot.Keys == bodies.Keys - todo
      invariant forall id :: id in snapshot ==> snapshot[id] == PoseOf(bodies[id])
      invariant forall id :: id in todo ==> next[id] == bodies[id]
      invariant forall id :: id in next && id !in todo ==> next[id] == Repelled(bodies[id], id, fields, dist)
      decreases todo
    {
      var id :| id in todo;
      var b := next[id];
      snapshot := snapshot[id := PoseOf(b)];
      if id in fields {
        var f := RepulsionForce(b.pos, fields[id], dist[id]);
        if f.Some? {
          next := next[id := ApplyForce(b, Impulse(b.pos, f.value))];
        }
      }
      todo := todo - {id};
    }
  }

  class World {
    /** The `pieces` prop of the current level. */
    var specs: seq<BodyDef>
    /** Whether an engine exists (`engineRef.current`). */
    var hasEngine: bool
    /** Which engine the refs belong to; bumped by every set-up. */
    var session: nat
    /** bodiesRef: each piece's dynamic body. */
    var bodies: map<string, Body>
    /** constraintsRef: the pin list last installed for each piece. */
    var pins: map<string, seq<Pin>>
    /** The key order of constraintsRef. */
    var pinOrder: seq<string>
    /** originalPositionsRef: each piece's centre at set-up. */
    var origins: map<string, Vec>
    /** antiGravityBodiesRef: the centre of each piece's repulsion field. */
    var fields: map<string, Vec>
    /** hasMovedRef. */
    var hasMoved: map<string, bool>
    /** The constraints present in the physics world, by id. */
    var active: set<nat>
    /** The id the next constraint gets. */
    var nextCid: nat
    /** The label of the body the mouse constraint holds, if any. */
    var dragging: Option<string>
    /** Which of the optional listeners are set. */
    var onPieceSnapped: bool
    var onStartDrag: bool
    var onSpacebarSnap: bool
    /** Every event delivered to a listener, oldest first. */
    var events: seq<Event>

    /** The refs describe one set of pieces: every piece has a body, an origin and a pin list, and nothing else does. */
    ghost predicate Valid()
      reads this`specs, this`bodies, this`origins, this`pins, this`pinOrder
    {
      && bodies.Keys == IdSet(specs)
      && origins.Keys == IdSet(specs)
      && pins.Keys == IdSet(specs)
      && (forall id :: id in pinOrder <==> id in pins)
      && Distinct(pinOrder)
    }

    /** The component mounted, before its first set-up: every ref empty. */
    constructor(snappedListener: bool, startDragListener: bool, spacebarListener: bool)
      ensures Valid()
      ensures specs == [] && !hasEngine && bodies == map[] && pins == map[] && origins == map[]
      ensures fields == map[] && hasMoved == map[] && active == {} && dragging == None && events == []
      ensures onPieceSnapped == snappedListener && onStartDrag == startDragListener
      ensures onSpacebarSnap == spacebarListener
    {
      specs, hasEngine, session := [], false, 0;
      bodies, pins, pinOrder, origins := map[], map[], [], map[];
      fields, hasMoved := map[], map[];
      active, nextCid, dragging := {}, 0, None;
      onPieceSnapped, onStartDrag, onSpacebarSnap := snappedListener, startDragListener, spacebarListener;
      events := [];
    }

    /** The listener refs follow the latest props. */
    method SetListeners(snappedListener: bool, startDragListener: bool, spacebarListener: bool)
      modifies this`onPieceSnapped, this`onStartDrag, this`onSpacebarSnap
      ensures onPieceSnapped == snappedListener && onStartDrag == startDragListener
      ensures onSpacebarSnap == spacebarListener
    {
      onPieceSnapped, onStartDrag, onSpacebarSnap := snappedListener, startDragListener, spacebarListener;
    }

    /** Creates three pins for piece `id` holding its centre at `at`, adds them to the world and records them. */
    method InstallPins(id: string, w: real, h: real, at: Vec)
      modifies this`pins, this`active, this`nextCid
      ensures pins == old(pins)[id := PinSet(old(nextCid), w, h, at)]
      ensures active == old(active) + {old(nextCid), old(nextCid) + 1, old(nextCid) + 2}
      ensures nextCid == old(nextCid) + 3
    {
      var ps := PinSet(nextCid, w, h, at);
      pins := pins[id := ps];
      active := active + {ps[0].cid, ps[1].cid, ps[2].cid};
      nextCid := nextCid + 3;
    }

    /**
     * Level set-up: the refs are emptied, a new engine replaces the old
     * one, and every piece gets a body at rest at its centre, its origin
     * and a fresh set of three pins.
     */
    method Setup(pieces: seq<BodyDef>)
      modifies this`specs, this`hasEngine, this`session, this`bodies, this`pins, this`pinOrder,
               this`origins, this`fields, this`hasMoved, this`active, this`nextCid, this`dragging
      ensures Valid()
      ensures specs == pieces && hasEngine && session == old(session) + 1
      ensures Refs(bodies, pins, origins, pinOrder) == InitialRefs(pieces, old(nextCid))
      ensures fields == map[] && hasMoved == map[] && dragging == None
      ensures nextCid == old(nextCid) + 3 * |pieces|
      ensures forall c :: c in active <==> old(nextCid) <= c < nextCid
    {
      ClearRefs(pieces);
      CreatePieces(pieces);
      InitialRefsKeys(pieces, old(nextCid));
    }

    /** The old engine and every ref are dropped; a new, empty engine takes their place. */
    method ClearRefs(pieces: seq<BodyDef>)
      modifies this`specs, this`hasEngine, this`session, this`bodies, this`pins, this`pinOrder,
               this`origins, this`fields, this`hasMoved, this`active, this`dragging
      ensures specs == pieces && hasEngine && session == old(session) + 1
      ensures bodies == map[] && pins == map[] && origins == map[] && pinOrder == []
      ensures fields == map[] && hasMoved == map[] && active == {} && dragging == None
    {
      ClearMaps();
      NewEngine(pieces);
    }

    /** The five ref maps and the pin map's key order are emptied. */
    method ClearMaps()
      modifies this`bodies, this`pins, this`pinOrder, this`origins, this`fields, this`hasMoved
      ensures bodies == map[] && pins == map[] && origins == map[] && pinOrder == []
      ensures fields == map[] && hasMoved == map[]
    {
      bodies, pins, pinOrder, origins := map[], map[], [], map[];
      fields, hasMoved := map[], map[];
    }

    /** A new engine for `pieces`: a new session, no constraints in its world, nothing held. */
    method NewEngine(pieces: seq<BodyDef>)
      modifies this`specs, this`hasEngine, this`session, this`active, this`dragging
      ensures specs == pieces && hasEngine && session == old(session) + 1
      ensures active == {} && dragging == None
    {
      session, hasEngine, active, dragging := session + 1, true, {}, None;
      specs := pieces;
    }

    /** `pieces.forEach` into emptied refs and a fresh world: origin, body and pins for each piece in turn. */
    method CreatePieces(pieces: seq<BodyDef>)
      requires bodies == map[] && pins == map[] && origins == map[] && pinOrder == [] && active == {}
      modifies this`bodies, this`pins, this`pinOrder, this`origins, this`active, this`nextCid
      ensures Refs(bodies, pins, origins, pinOrder) == InitialRefs(pieces, old(nextCid))
      ensures nextCid == old(nextCid) + 3 * |pieces|
      ensures forall c :: c in active <==> old(nextCid) <= c < nextCid
    {
      var r, cids := CreateRefs(pieces, nextCid);
      bodies, pins, origins, pinOrder := r.bodies, r.pins, r.origins, r.order;
      active, nextCid := cids, nextCid + 3 * |pieces|;
    }

    /**
     * Drag release: a body whose label is not a piece's, or whose piece has
     * no origin, is left alone. Otherwise the piece snaps exactly when it
     * is strictly closer than 80 to its origin: it is put back there at
     * rest, loses its repulsion field, gets three new pins at the origin
     * and the snapped listener hears of it once. Without a snap nothing changes.
     */
    method SnapPieceBack(name: string) returns (snapped: bool)
      requires Valid()
      modifies this`bodies, this`fields, this`hasMoved, this`pins, this`active, this`nextCid, this`events
      ensures Valid()
      ensures snapped <==> IsBoxLabel(name) && PieceIdOf(name) in origins &&
                           WithinSnap(old(bodies)[PieceIdOf(name)].pos, origins[PieceIdOf(name)])
      ensures !snapped ==> unchanged(this)
      ensures snapped ==>
        var id := PieceIdOf(name);
        && WentHome(old(bodies), old(fields), old(hasMoved), id, origins[id])
        && PinnedHome(old(pins), old(active), old(nextCid), old(events), id, origins[id])
    {
      if !IsBoxLabel(name) {
        return false;
      }
      var id := PieceIdOf(name);
      if id !in origins || !WithinSnap(bodies[id].pos, origins[id]) {
        return false;
      }
      SnapBack(id);
      return true;
    }

    /**
     * The body part of a snap, from maps b0, f0, m0: the body rests at `o`;
     * a piece that had a repulsion field loses it and counts as not moved.
     */
    predicate WentHome(b0: map<string, Body>, f0: map<string, Vec>, m0: map<string, bool>, id: string, o: Vec)
      reads this`bodies, this`fields, this`hasMoved
    {
      && id in b0
      && bodies == b0[id := AtRest(b0[id], o)]
      && fields == f0 - {id}
      && hasMoved == (if id in f0 then m0[id := false] else m0)
    }

    /**
     * The pin part of a snap, from pins p0, constraints a0, counter n0 and
     * events e0: a catalog piece gets three new pins at `o` and the snapped
     * listener hears of it; an id outside the catalog changes nothing.
     */
    predicate PinnedHome(p0: map<string, seq<Pin>>, a0: set<nat>, n0: nat, e0: seq<Event>, id: string, o: Vec)
      reads this`specs, this`pins, this`active, this`nextCid, this`events, this`onPieceSnapped
    {
      match Find(specs, id)
      case None => pins == p0 && active == a0 && nextCid == n0 && events == e0
      case Some(p) =>
        && pins == p0[id := PinSet(n0, p.w, p.h, o)]
        && active == a0 + {n0, n0 + 1, n0 + 2}
        && nextCid == n0 + 3
        && events == e0 + (if onPieceSnapped then [PieceSnapped(id)] else [])
    }

    /** The snap itself, for a piece whose release was close enough to its origin. */
    method SnapBack(id: string)
      requires Valid() && id in origins
      modifies this`bodies, this`fields, this`hasMoved, this`pins, this`active, this`nextCid, this`events
      ensures Valid()
      ensures WentHome(old(bodies), old(fields), old(hasMoved), id, origins[id])
      ensures PinnedHome(old(pins), old(active), old(nextCid), old(events), id, origins[id])
    {
      var o := origins[id];
      PutHome(id, o);
      PinHome(id, o);
    }

    /** The body goes back to o at rest; a piece that had a repulsion field loses it and counts as unmoved. */
    method PutHome(id: string, o: Vec)
      requires Valid() && id in bodies
      modifies this`bodies, this`fields, this`hasMoved
      ensures Valid() && WentHome(old(bodies), old(fields), old(hasMoved), id, o)
    {
      bodies := bodies[id := AtRest(bodies[id], o)];
      if id in fields {
        fields := fields - {id};
        hasMoved := hasMoved[id := false];
      }
    }

    /** A catalog piece gets a fresh pin set at o, and the snapped listener hears of it. */
    method PinHome(id: string, o: Vec)
      requires Valid() && id in pins
      modifies this`pins, this`active, this`nextCid, this`events
      ensures Valid() && PinnedHome(old(pins), old(active), old(nextCid), old(events), id, o)
    {
      var piece := Find(specs, id);
      if piece.Some? {
        InstallPins(id, piece.value.w, piece.value.h, o);
        if onPieceSnapped {
          events := events + [PieceSnapped(id)];
        }
      }
    }

    /**
     * Drag start: the mouse holds the body. When the start-drag listener
     * is set and the body is a piece's, the listener hears of it and, on
     * the piece's first drag, a repulsion field appears at its origin.
     */
    method StartDrag(name: string)
      modifies this`dragging, this`events, this`hasMoved, this`fields
      ensures dragging == Some(name)
      ensures DragNoticed(old(events), old(hasMoved), old(fields), name)
    {
      var evs, moved, fs := events, hasMoved, fields;
      if IsBoxLabel(name) && onStartDrag {
        var id := PieceIdOf(name);
        evs := evs + [DragStarted(id)];
        if !Moved(moved, id) {
          moved := moved[id := true];
          if id in origins {
            fs := fs[id := origins[id]];
          }
        }
      }
      dragging, events, hasMoved, fields := Some(name), evs, moved, fs;
    }

    /**
     * The listener part of a drag start, from events e0, moved flags m0 and
     * fields f0: without the listener, or for a body that is not a piece's,
     * nothing changes; otherwise the listener hears of the piece and, if it
     * had not moved yet, it now has, with a field at its origin.
     */
    predicate DragNoticed(e0: seq<Event>, m0: map<string, bool>, f0: map<string, Vec>, name: string)
      reads this`events, this`hasMoved, this`fields, this`origins, this`onStartDrag
    {
      if !(IsBoxLabel(name) && onStartDrag) then
        events == e0 && hasMoved == m0 && fields == f0
      else
        var id := PieceIdOf(name);
        && events == e0 + [DragStarted(id)]
        && (Moved(m0, id) ==> hasMoved == m0 && fields == f0)
        && (!Moved(m0, id) ==>
              hasMoved == m0[id := true] &&
              fields == if id in origins then f0[id := origins[id]] else f0)
    }

    /** Drag end: the released body goes through the snap-back test and the mouse lets go. */
    method EndDrag() returns (snapped: bool)
      requires Valid()
      modifies this`dragging, this`bodies, this`fields, this`hasMoved, this`pins, this`active,
               this`nextCid, this`events
      ensures Valid() && dragging == None
      ensures old(dragging) == None ==> !snapped && unchanged(this`bodies, this`pins, this`events)
      ensures snapped ==>
        && IsBoxLabel(old(dragging).value)
        && var id := PieceIdOf(old(dragging).value);
           id in origins && bodies[id].pos == origins[id] && Anchored(pins[id], origins[id])
    {
      snapped := false;
      if dragging.Some? {
        var name := dragging.value;
        if IsBoxLabel(name) && PieceIdOf(name) in origins {
          IdSetMember(specs, PieceIdOf(name));
        }
        snapped := SnapPieceBack(name);
      }
      dragging := None;
    }

    /**
     * The Space key while a piece's body is held: the body stops where it
     * is, gets three new pins anchored at its current position, and the
     * spacebar listener (never the snapped one) hears of it.
     */
    method KeyDown(code: string)
      requires Valid()
      modifies this`bodies, this`pins, this`active, this`nextCid, this`events
      ensures Valid()
      ensures !SpaceActs(code) ==> unchanged(this)
      ensures SpaceActs(code) ==>
        var id := PieceIdOf(dragging.value);
        PinnedInPlace(id, Find(specs, id).value)
    {
      if code == "Space" && dragging.Some? && IsBoxLabel(dragging.value) {
        var id := PieceIdOf(dragging.value);
        var piece := Find(specs, id);
        if piece.Some? {
          PinInPlace(id, piece.value);
        }
      }
    }

    /** The Space key acts: it is Space, the mouse holds a body, and the body is a catalog piece's. */
    predicate SpaceActs(code: string)
      reads this
    {
      code == "Space" && dragging.Some? && IsBoxLabel(dragging.value) &&
      Find(specs, PieceIdOf(dragging.value)).Some?
    }

    /**
     * The held body stops moving where it is, three new pins hold it
     * there, and the spacebar listener hears of it.
     */
    twostate predicate PinnedInPlace(id: string, p: BodyDef)
      reads this
    {
      && id in old(bodies)
      && var b := old(bodies)[id];
         && bodies == old(bodies)[id := b.(vel := Zero, angVel := 0.0)]
         && pins == old(pins)[id := PinSet(old(nextCid), p.w, p.h, b.pos)]
         && active == old(active) + {old(nextCid), old(nextCid) + 1, old(nextCid) + 2}
         && nextCid == old(nextCid) + 3
         && events == old(events) + (if onSpacebarSnap then [SpacebarPinned(id)] else [])
    }

    /** The body keeps its position but loses its velocities, and a fresh pin set holds it there. */
    method PinInPlace(id: string, p: BodyDef)
      requires id in bodies
      modifies this`bodies, this`pins, this`active, this`nextCid, this`events
      ensures PinnedInPlace(id, p)
    {
      var b := bodies[id];
      bodies := bodies[id := b.(vel := Zero, angVel := 0.0)];
      InstallPins(id, p.w, p.h, b.pos);
      if onSpacebarSnap {
        events := events + [SpacebarPinned(id)];
      }
    }

    /**
     * The break effect: nothing unless break mode is on and an engine
     * exists; otherwise the pin map's entries, last first, each get the
     * two delayed tasks of BreakSchedule.
     */
    method ScheduleBreak(breakMode: bool) returns (tasks: seq<Task>)
      requires Valid()
      ensures !breakMode || !hasEngine ==> tasks == []
      ensures breakMode && hasEngine ==>
        tasks == BreakSchedule(Reverse(EntriesOf(pinOrder, pins)), bodies.Keys, session)
    {
      tasks := [];
      if !breakMode || !hasEngine {
        return;
      }
      tasks := ScheduleEntries(Reverse(EntriesOf(pinOrder, pins)), bodies.Keys, session);
    }

    /**
     * One break task firing. A task of an earlier engine touches a world
     * that is gone. Otherwise the named constraints leave the world and,
     * with the centre pin, the body receives the break impulse; `r1` and
     * `r2` are the two random draws.
     */
    method RunTask(task: Task, r1: real, r2: real)
      requires Valid() && 0.0 <= r1 < 1.0 && 0.0 <= r2 < 1.0
      modifies this`active, this`bodies
      ensures Valid()
      ensures task.session != session ==> unchanged(this)
      ensures task.session == session ==>
        active == ActiveAfter(old(active), task.action) &&
        match task.action
        case RemoveTopPins(_, _) => bodies == old(bodies)
        case ReleaseCentre(_) =>
          var id := task.pieceId;
          bodies == if id in old(bodies)
                    then old(bodies)[id := ApplyForce(old(bodies)[id], BreakImpulse(id, old(bodies)[id].pos, r1, r2))]
                    else old(bodies)
    {
      if task.session != session {
        return;
      }
      match task.action {
        case RemoveTopPins(a, b) =>
          active := active - {a, b};
        case ReleaseCentre(c) =>
          active := active - {c};
          var id := task.pieceId;
          if id in bodies {
            var b := bodies[id];
            bodies := bodies[id := ApplyForce(b, BreakImpulse(id, b.pos, r1, r2))];
          }
      }
    }

    /** The solver's step (integration, constraints, collisions, the mouse spring), taken as given. */
    method Step(next: map<string, Body>)
      requires Valid() && next.Keys == bodies.Keys
      modifies this`bodies
      ensures Valid() && bodies == next
    {
      bodies := next;
    }

    /**
     * After each update: the snapshot of every body, and the repulsion
     * push on every body that has a field; `dist` holds the distances.
     */
    method AfterUpdate(dist: map<string, real>) returns (snapshot: map<string, Pose>)
      requires Valid() && FieldDistances(bodies, fields, dist)
      modifies this`bodies
      ensures Valid()
      ensures snapshot == Snapshot(old(bodies))
      ensures bodies == RepelledAll(old(bodies), fields, dist)
    {
      var next;
      next, snapshot := SyncAndRepel(bodies, fields, dist);
      bodies := next;
    }
  }
}
