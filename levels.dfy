/**
 * The level components' view of the physics: `getTransform` (shared, word
 * for word, by levels 2 to 5) turns a body's centre and angle into the
 * translate/rotate style of the element it stands for, the index-based
 * sizing of levels 2 to 5, and level 4's flicker latch.
 */
module Levels {
  import opened Geometry
  import opened PhysicsRules
  import opened PhysicsWorld

  /** The inline style `getTransform` returns: `{}`, or a translation with an optional rotation. */
  datatype Style = NoStyle | Placed(tx: real, ty: real, rotation: Option<real>)

  /** The centre of an element of size w × h drawn with a placed style. */
  function DrawnCentre(w: real, h: real, s: Style): Vec
    requires s.Placed?
  {
    Vec(s.tx + w / 2.0, s.ty + h / 2.0)
  }

  /**
   * `getTransform(pieceId)`: an id the catalog lacks gets no style; a piece
   * with a physics position is drawn centred on it and turned by its
   * angle; a piece without one is drawn at its catalog rectangle, unturned.
   */
  function GetTransform(catalog: seq<BodyDef>, positions: map<string, Pose>, id: string): (s: Style)
    ensures s.NoStyle? <==> Find(catalog, id).None?
    ensures s.Placed? && id in positions ==>
      var p := Find(catalog, id).value;
      DrawnCentre(p.w, p.h, s) == Vec(positions[id].x, positions[id].y) &&
      s.rotation == Some(positions[id].angle)
    ensures s.Placed? && id !in positions ==>
      var p := Find(catalog, id).value;
      s.tx == p.x && s.ty == p.y && DrawnCentre(p.w, p.h, s) == Center(p) && s.rotation.None?
  {
    match Find(catalog, id)
    case None => NoStyle
    case Some(p) =>
      if id in positions then
        var pos := positions[id];
        Placed(pos.x - p.w / 2.0, pos.y - p.h / 2.0, Some(pos.angle))
      else
        Placed(p.x, p.y, None)
  }

  /**
   * Centre to top-left and back: a body resting at the origin the engine
   * computes for a piece, unturned, is drawn exactly where the piece is
   * drawn before the engine reports anything.
   */
  lemma OriginRoundTrip(catalog: seq<BodyDef>, positions: map<string, Pose>, p: BodyDef)
    requires Find(catalog, p.id) == Some(p)
    requires p.id in positions && positions[p.id] == Pose(Center(p).x, Center(p).y, 0.0)
    ensures var s := GetTransform(catalog, positions, p.id);
      var s0 := GetTransform(catalog, positions - {p.id}, p.id);
      s.tx == s0.tx && s.ty == s0.ty && s.rotation == Some(0.0) && s0.rotation.None?
  {
  }

  /**
   * A snapshot of the bodies as set-up leaves them, before any solver step,
   * draws every piece of a catalog with unique ids at its catalog top-left,
   * with rotation 0.
   */
  lemma InitialSnapshotDrawsCatalog(ps: seq<BodyDef>, first: nat, i: nat)
    requires UniqueIds(ps) && i < |ps|
    ensures GetTransform(ps, Snapshot(InitialRefs(ps, first).bodies), ps[i].id) ==
      Placed(ps[i].x, ps[i].y, Some(0.0))
  {
    InitialLayout(ps, first, i);
    FindUnique(ps, i);
  }

  /**
   * An element sized from catalog entry i and placed by that entry's id is
   * drawn centred on the entry's body, or at the entry's own rectangle
   * while the engine has reported nothing for it.
   */
  predicate SizedAndPlaced(catalog: seq<BodyDef>, positions: map<string, Pose>, i: nat)
    requires i < |catalog|
  {
    var p := catalog[i];
    var s := GetTransform(catalog, positions, p.id);
    s.Placed? &&
    DrawnCentre(p.w, p.h, s) ==
      (if p.id in positions then Vec(positions[p.id].x, positions[p.id].y) else Center(p))
  }

  /** In a catalog with unique ids, every entry can be sized by index and placed by id. */
  lemma EntrySizedAndPlaced(catalog: seq<BodyDef>, positions: map<string, Pose>, i: nat)
    requires UniqueIds(catalog) && i < |catalog|
    ensures SizedAndPlaced(catalog, positions, i)
  {
    FindUnique(catalog, i);
  }

  /**
   * Level 2 gives the button, the image and the accent the width and
   * height of entries 4, 5 and 6 and places them by id: those entries
   * carry exactly those ids, so each element sits on its own body.
   */
  lemma Level2Sizing(positions: map<string, Pose>)
    ensures Level2Pieces[4].id == "learn-more-btn" && SizedAndPlaced(Level2Pieces, positions, 4)
    ensures Level2Pieces[5].id == "hero-image" && SizedAndPlaced(Level2Pieces, positions, 5)
    ensures Level2Pieces[6].id == "decorative-accent" && SizedAndPlaced(Level2Pieces, positions, 6)
  {
    Level2WellFormed();
    EntrySizedAndPlaced(Level2Pieces, positions, 4);
    EntrySizedAndPlaced(Level2Pieces, positions, 5);
    EntrySizedAndPlaced(Level2Pieces, positions, 6);
  }

  /**
   * Level 3 sizes its two buttons, its illustration and its three social
   * icons from entries 6, 7, 8, 11, 12 and 13 and places them by id: in a
   * catalog with unique ids that carries those ids at those entries, each
   * element sits on its own body.
   */
  lemma Level3Sizing(level3: seq<BodyDef>, positions: map<string, Pose>)
    requires UniqueIds(level3) && |level3| > 13
    requires level3[6].id == "get-started-btn" && level3[7].id == "view-demo-btn"
    requires level3[8].id == "hero-illustration" && level3[11].id == "social-icon-1"
    requires level3[12].id == "social-icon-2" && level3[13].id == "social-icon-3"
    ensures SizedAndPlaced(level3, positions, 6) && SizedAndPlaced(level3, positions, 7)
    ensures SizedAndPlaced(level3, positions, 8) && SizedAndPlaced(level3, positions, 11)
    ensures SizedAndPlaced(level3, positions, 12) && SizedAndPlaced(level3, positions, 13)
  {
    EntrySizedAndPlaced(level3, positions, 6);
    EntrySizedAndPlaced(level3, positions, 7);
    EntrySizedAndPlaced(level3, positions, 8);
    EntrySizedAndPlaced(level3, positions, 11);
    EntrySizedAndPlaced(level3, positions, 12);
    EntrySizedAndPlaced(level3, positions, 13);
  }

  /**
   * Level 4 sizes the neon header from entry 0 and the three inputs and
   * two buttons of its modal from entries 6 to 10, placing each by id: in a
   * catalog with unique ids that carries those ids at those entries, each
   * element sits on its own body.
   */
  lemma Level4Sizing(level4: seq<BodyDef>, positions: map<string, Pose>)
    requires UniqueIds(level4) && |level4| > 10
    requires level4[0].id == NeonHeader && level4[6].id == "name-input"
    requires level4[7].id == "email-input" && level4[8].id == "password-input"
    requires level4[9].id == "submit-btn" && level4[10].id == "cancel-btn"
    ensures SizedAndPlaced(level4, positions, 0) && SizedAndPlaced(level4, positions, 6)
    ensures SizedAndPlaced(level4, positions, 7) && SizedAndPlaced(level4, positions, 8)
    ensures SizedAndPlaced(level4, positions, 9) && SizedAndPlaced(level4, positions, 10)
  {
    EntrySizedAndPlaced(level4, positions, 0);
    EntrySizedAndPlaced(level4, positions, 6);
    EntrySizedAndPlaced(level4, positions, 7);
    EntrySizedAndPlaced(level4, positions, 8);
    EntrySizedAndPlaced(level4, positions, 9);
    EntrySizedAndPlaced(level4, positions, 10);
  }

  /**
   * Level 5 sizes `easy-button` from the first entry of its catalog and
   * places it by id: when that entry is `easy-button`, the two agree
   * whatever else the catalog holds.
   */
  lemma Level5Sizing(level5: seq<BodyDef>, positions: map<string, Pose>)
    requires |level5| > 0 && level5[0].id == "easy-button"
    ensures SizedAndPlaced(level5, positions, 0)
  {
    FindFirst(level5, 0);
  }

  // ---------------------------------------------------------------- level 4

  function Abs(x: real): real { if x < 0.0 then -x else x }

  const NeonHeader: string := "neon-header"

  /** The neon header has a position and is tilted by more than 0.1 rad or has dropped below y = 50. */
  predicate FlickerTrigger(positions: map<string, Pose>)
  {
    NeonHeader in positions &&
    (Abs(positions[NeonHeader].angle) > 0.1 || positions[NeonHeader].y > 50.0)
  }

  /** The flag after the effect has run on each snapshot of `history` in turn. */
  function FlickerAfter(flag: bool, history: seq<map<string, Pose>>): bool
    decreases history
  {
    if history == [] then flag
    else FlickerAfter(flag || FlickerTrigger(history[0]), history[1..])
  }

  /**
   * The flag is a latch: after any run of snapshots it is set exactly when
   * it was set before or one of the snapshots showed the header knocked.
   */
  lemma {:induction false} FlickerAfterLatch(flag: bool, history: seq<map<string, Pose>>)
    ensures FlickerAfter(flag, history) <==>
      flag || exists i :: 0 <= i < |history| && FlickerTrigger(history[i])
    decreases history
  {
    if history != [] {
      FlickerAfterLatch(flag || FlickerTrigger(history[0]), history[1..]);
      if exists i :: 0 <= i < |history[1..]| && FlickerTrigger(history[1..][i]) {
        var i :| 0 <= i < |history[1..]| && FlickerTrigger(history[1..][i]);
        assert history[i + 1] == history[1..][i];
      }
      if exists i :: 0 <= i < |history| && FlickerTrigger(history[i]) {
        var i :| 0 <= i < |history| && FlickerTrigger(history[i]);
        if i > 0 {
          assert history[1..][i - 1] == history[i];
        }
      }
    }
  }

  /** Snapshots without the neon header never set the flag. */
  lemma {:induction false} FlickerNeedsHeader(flag: bool, history: seq<map<string, Pose>>)
    requires forall i :: 0 <= i < |history| ==> NeonHeader !in history[i]
    ensures FlickerAfter(flag, history) == flag
    decreases history
  {
    if history != [] {
      assert NeonHeader !in history[0];
      FlickerNeedsHeader(flag, history[1..]);
    }
  }

  /** Level 4's `isFlickering` state and the effect that runs on every positions change. */
  class FlickerLatch {
    var isFlickering: bool

    constructor()
      ensures !isFlickering
    {
      isFlickering := false;
    }

    /** The effect: set the flag when the header is knocked; never clear it. */
    method OnPositionsChange(positions: map<string, Pose>)
      modifies this
      ensures isFlickering == FlickerAfter(old(isFlickering), [positions])
      ensures old(isFlickering) ==> isFlickering
      ensures NeonHeader !in positions ==> isFlickering == old(isFlickering)
    {
      if FlickerTrigger(positions) {
        isFlickering := true;
      }
    }
  }

  /** The modal pieces of level 4. */
  const Level4ModalIds: seq<string> :=
    ["modal-title", "name-input", "email-input", "password-input", "submit-btn", "cancel-btn"]

  /**
   * The modal title, the three inputs and the two buttons of level 4 are on
   * the engine's gentle-break list: losing their centre pin pushes them with
   * a zero force, which leaves the body as it was.
   */
  lemma Level4ModalBreaksGently(i: nat, b: Body, r1: real, r2: real)
    requires i < |Level4ModalIds| && 0.0 <= r1 < 1.0 && 0.0 <= r2 < 1.0
    ensures BreakImpulse(Level4ModalIds[i], b.pos, r1, r2) == Impulse(b.pos, Zero)
    ensures ApplyForce(b, BreakImpulse(Level4ModalIds[i], b.pos, r1, r2)) == b
  {
    assert Level4ModalIds[i] in ModalPieces;
  }

  /**
   * The list matches by id alone, so level 1's email input, which shares
   * the id of level 4's, also falls without a push.
   */
  lemma Level1EmailInputBreaksGently(b: Body, r1: real, r2: real)
    requires 0.0 <= r1 < 1.0 && 0.0 <= r2 < 1.0
    ensures Level1Pieces[3].id == Level4ModalIds[2]
    ensures ApplyForce(b, BreakImpulse(Level1Pieces[3].id, b.pos, r1, r2)) == b
  {
    assert Level1Pieces[3].id in ModalPieces;
  }
}
