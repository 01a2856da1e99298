/**
 * The tutorial page: before the game starts it shows a still preview of the
 * header and the button; once started it draws them from the physics
 * snapshots with a `??` fallback to the catalog, mounts the physics canvas,
 * and a pending timeout breaks the pieces loose 1500 ms after the start.
 */
module HomePage {
  import opened Geometry
  import opened Levels

  /** The delay of the auto-break timeout, in milliseconds. */
  const AutoBreakDelay: nat := 1500

  /** The snapshot entry of a piece, if the engine has reported one. */
  function Lookup(positions: map<string, Pose>, id: string): Option<Pose>
  {
    if id in positions then Some(positions[id]) else None
  }

  /**
   * The page's inline transform: the centre is the snapshot's, or else the
   * catalog centre `x + w/2`, shifted back by half the size; the angle is
   * the snapshot's, or else 0.
   */
  function PageTransform(p: BodyDef, pos: Option<Pose>): (s: Style)
    ensures s.Placed? && s.rotation.Some?
    ensures pos.Some? ==>
      DrawnCentre(p.w, p.h, s) == Vec(pos.value.x, pos.value.y) && s.rotation == Some(pos.value.angle)
    ensures pos.None? ==> s.tx == p.x && s.ty == p.y && s.rotation == Some(0.0)
  {
    var cx := if pos.Some? then pos.value.x else p.x + p.w / 2.0;
    var cy := if pos.Some? then pos.value.y else p.y + p.h / 2.0;
    var angle := if pos.Some? then pos.value.angle else 0.0;
    Placed(cx - p.w / 2.0, cy - p.h / 2.0, Some(angle))
  }

  /**
   * The page and the level components place a tutorial piece at the same
   * spot; they differ only in writing `rotate(0)` where the components
   * write no rotation.
   */
  lemma PageAgreesWithLevels(positions: map<string, Pose>, i: nat)
    requires i < |Pieces|
    ensures var p := PageTransform(Pieces[i], Lookup(positions, Pieces[i].id));
      var q := GetTransform(Pieces, positions, Pieces[i].id);
      q.Placed? && p.tx == q.tx && p.ty == q.ty &&
      (q.rotation.Some? ==> p.rotation == q.rotation) &&
      (q.rotation.None? ==> p.rotation == Some(0.0))
  {
    TutorialWellFormed();
    FindUnique(Pieces, i);
  }

  /** What the page shows. */
  datatype View =
    | Preview(header: Style, button: Style)
    | Playing(header: Style, button: Style, breakMode: bool, canvasPieces: seq<BodyDef>)

  /** The page's state, and whether the auto-break timeout is pending. */
  datatype PageState = PageState(positions: map<string, Pose>, broken: bool, isGameStarted: bool,
                                 breakTimer: bool)

  const InitialPage: PageState := PageState(map[], false, false, false)

  /**
   * The render: the preview draws entries 0 and 1 at their catalog
   * top-left, unturned; the game view draws them through PageTransform
   * and mounts the canvas on the tutorial catalog with the break flag.
   */
  function Render(st: PageState): (v: View)
    ensures !st.isGameStarted <==> v.Preview?
    ensures v.Preview? ==>
      v.header == Placed(Pieces[0].x, Pieces[0].y, None) && v.button == Placed(Pieces[1].x, Pieces[1].y, None)
    ensures v.Playing? ==>
      && v.breakMode == st.broken && v.canvasPieces == Pieces
      && v.header.Placed? && v.button.Placed?
      && DrawnCentre(Pieces[0].w, Pieces[0].h, v.header) ==
           (if "header" in st.positions then Vec(st.positions["header"].x, st.positions["header"].y)
            else Center(Pieces[0]))
      && DrawnCentre(Pieces[1].w, Pieces[1].h, v.button) ==
           (if "button" in st.positions then Vec(st.positions["button"].x, st.positions["button"].y)
            else Center(Pieces[1]))
  {
    if !st.isGameStarted then
      Preview(Placed(Pieces[0].x, Pieces[0].y, None), Placed(Pieces[1].x, Pieces[1].y, None))
    else
      Playing(PageTransform(Pieces[0], Lookup(st.positions, "header")),
              PageTransform(Pieces[1], Lookup(st.positions, "button")),
              st.broken, Pieces)
  }

  /** What happens to the page. */
  datatype PageEvent = StartClicked | BreakTimeout | Update(snapshot: map<string, Pose>)

  /**
   * The effect on `[isGameStarted, broken]`: after either changes, the old
   * timeout is cleared and a new one is pending exactly when the game has
   * started and the pieces are not yet broken.
   */
  function Rearm(st: PageState): PageState
  {
    st.(breakTimer := st.isGameStarted && !st.broken)
  }

  function PageStep(st: PageState, e: PageEvent): PageState
  {
    match e
    case StartClicked => Rearm(st.(isGameStarted := true))
    case BreakTimeout => if st.breakTimer then Rearm(st.(broken := true)) else st
    case Update(snapshot) => st.(positions := snapshot)
  }

  function PageRun(st: PageState, es: seq<PageEvent>): PageState
  {
    if es == [] then st else PageStep(PageRun(st, es[..|es| - 1]), es[|es| - 1])
  }

  /** The timeout is pending exactly while the game runs unbroken. */
  ghost predicate PageInv(st: PageState)
  {
    && (st.breakTimer <==> st.isGameStarted && !st.broken)
    && (st.broken ==> st.isGameStarted)
  }

  /**
   * From the first render on, the timeout is pending exactly while the game
   * runs unbroken, the pieces break only after the start, and neither flag
   * ever goes back to false.
   */
  lemma {:induction false} PageRunLatches(es: seq<PageEvent>, k: nat)
    requires k <= |es|
    ensures PageInv(PageRun(InitialPage, es))
    ensures PageRun(InitialPage, es[..k]).broken ==> PageRun(InitialPage, es).broken
    ensures PageRun(InitialPage, es[..k]).isGameStarted ==> PageRun(InitialPage, es).isGameStarted
  {
    if es != [] {
      var n := |es| - 1;
      if k <= n {
        assert es[..n][..k] == es[..k];
        PageRunLatches(es[..n], k);
      } else {
        assert es[..k] == es;
        PageRunLatches(es[..n], n);
      }
    }
  }

  /** The timeout breaks the pieces when, and only when, it is pending. */
  lemma BreakTimeoutBreaks(st: PageState)
    requires PageInv(st)
    ensures PageStep(st, BreakTimeout).broken <==> st.broken || (st.isGameStarted && !st.broken)
    ensures PageInv(PageStep(st, BreakTimeout)) && !PageStep(st, BreakTimeout).breakTimer
  {
  }

  /** The page's React state and the pending timeout. */
  class Page {
    var positions: map<string, Pose>
    var broken: bool
    var isGameStarted: bool
    var breakTimer: bool

    function Current(): PageState
      reads this
    {
      PageState(positions, broken, isGameStarted, breakTimer)
    }

    constructor()
      ensures Current() == InitialPage
    {
      positions := map[];
      broken := false;
      isGameStarted := false;
      breakTimer := false;
    }

    /** The instructions modal's start button. */
    method Start()
      modifies this`isGameStarted, this`breakTimer
      ensures Current() == PageStep(old(Current()), StartClicked)
    {
      isGameStarted := true;
      breakTimer := isGameStarted && !broken;
    }

    /** The pending 1500 ms timeout fires. */
    method BreakTimeoutFires()
      modifies this`broken, this`breakTimer
      ensures Current() == PageStep(old(Current()), BreakTimeout)
    {
      if breakTimer {
        broken := true;
        breakTimer := isGameStarted && !broken;
      }
    }

    /** The canvas's `onUpdate`: the snapshot becomes the page's positions. */
    method OnUpdate(snapshot: map<string, Pose>)
      modifies this`positions
      ensures Current() == PageStep(old(Current()), Update(snapshot))
    {
      positions := snapshot;
    }
  }
}
