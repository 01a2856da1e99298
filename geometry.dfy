/**
 * The geometry catalog: the rectangles a level breaks into (BodyDef), the
 * constant catalogs of the tutorial and of levels 1 and 2, and the small
 * vector vocabulary the rest of the model shares.
 */
module Geometry {

  datatype Option<T> = None | Some(value: T)

  /** A point or a vector in the page's pixel space (y grows downwards). */
  datatype Vec = Vec(x: real, y: real)
  {
    function Add(o: Vec): Vec { Vec(x + o.x, y + o.y) }
    function Sub(o: Vec): Vec { Vec(x - o.x, y - o.y) }
    function Scale(k: real): Vec { Vec(k * x, k * y) }
    function Dot(o: Vec): real { x * o.x + y * o.y }
    /** Squared length: the engine's distances are compared through it. */
    function Norm2(): real { x * x + y * y }
  }

  const Zero: Vec := Vec(0.0, 0.0)

  /** A piece of a level: the top-left corner and the size of a UI rectangle. */
  datatype BodyDef = BodyDef(id: string, x: real, y: real, w: real, h: real)

  /** One entry of a position snapshot: a body's centre and its angle in radians. */
  datatype Pose = Pose(x: real, y: real, angle: real)

  /** The centre of a piece, where its physics body is created. */
  function Center(p: BodyDef): (c: Vec)
    ensures c.x - p.w / 2.0 == p.x && c.y - p.h / 2.0 == p.y
  {
    Vec(p.x + p.w / 2.0, p.y + p.h / 2.0)
  }

  /** `catalog.find(p => p.id === id)`: the first piece carrying `id`. */
  function Find(catalog: seq<BodyDef>, id: string): (r: Option<BodyDef>)
    ensures r.Some? ==> r.value in catalog && r.value.id == id
    ensures r.None? <==> forall p :: p in catalog ==> p.id != id
  {
    if catalog == [] then None
    else if catalog[0].id == id then Some(catalog[0])
    else Find(catalog[1..], id)
  }

  /** No two pieces of a catalog share an id. */
  ghost predicate UniqueIds(catalog: seq<BodyDef>)
  {
    forall i, j :: 0 <= i < j < |catalog| ==> catalog[i].id != catalog[j].id
  }

  /** Every piece has a strictly positive width and height. */
  ghost predicate PositiveSizes(catalog: seq<BodyDef>)
  {
    forall i :: 0 <= i < |catalog| ==> catalog[i].w > 0.0 && catalog[i].h > 0.0
  }

  /** The ids of a catalog, in declaration order. */
  function Ids(catalog: seq<BodyDef>): (ids: seq<string>)
    ensures |ids| == |catalog|
    ensures forall i :: 0 <= i < |catalog| ==> ids[i] == catalog[i].id
  {
    if catalog == [] then [] else Ids(catalog[..|catalog| - 1]) + [catalog[|catalog| - 1].id]
  }

  /** The set of ids a catalog declares. */
  function IdSet(catalog: seq<BodyDef>): (s: set<string>)
    ensures forall i :: 0 <= i < |catalog| ==> catalog[i].id in s
  {
    if catalog == [] then {} else IdSet(catalog[..|catalog| - 1]) + {catalog[|catalog| - 1].id}
  }

  /** Every id in the set is declared by some entry, and Find finds it. */
  lemma {:induction false} IdSetMember(catalog: seq<BodyDef>, id: string)
    requires id in IdSet(catalog)
    ensures exists i :: 0 <= i < |catalog| && catalog[i].id == id
    ensures Find(catalog, id).Some?
  {
    var n := |catalog| - 1;
    if id != catalog[n].id {
      IdSetMember(catalog[..n], id);
      var i :| 0 <= i < n && catalog[..n][i].id == id;
      assert catalog[i].id == id;
    }
    var i :| 0 <= i < |catalog| && catalog[i].id == id;
    assert catalog[i] in catalog;
  }

  /** In a catalog with unique ids, looking up the id of entry i finds entry i. */
  lemma {:induction false} FindUnique(catalog: seq<BodyDef>, i: nat)
    requires UniqueIds(catalog) && i < |catalog|
    ensures Find(catalog, catalog[i].id) == Some(catalog[i])
  {
    if i > 0 {
      assert catalog[0].id != catalog[i].id;
      assert UniqueIds(catalog[1..]) by {
        forall a, b | 0 <= a < b < |catalog[1..]|
          ensures catalog[1..][a].id != catalog[1..][b].id
        {
          assert catalog[1..][a] == catalog[a + 1] && catalog[1..][b] == catalog[b + 1];
        }
      }
      FindUnique(catalog[1..], i - 1);
      assert catalog[1..][i - 1] == catalog[i];
    }
  }

  /** Find returns the first entry carrying the id, whether or not ids are unique. */
  lemma {:induction false} FindFirst(catalog: seq<BodyDef>, i: nat)
    requires i < |catalog|
    requires forall j :: 0 <= j < i ==> catalog[j].id != catalog[i].id
    ensures Find(catalog, catalog[i].id) == Some(catalog[i])
  {
    if i > 0 {
      FindFirst(catalog[1..], i - 1);
      assert catalog[1..][i - 1] == catalog[i];
    }
  }

  // The catalogs of src/types.ts.

  const TutorialPieces: seq<BodyDef> := [
    BodyDef("header", 350.0, 200.0, 500.0, 100.0),
    BodyDef("button", 450.0, 350.0, 200.0, 80.0)
  ]

  const Level1Pieces: seq<BodyDef> := [
    BodyDef("icon", 320.0, 170.0, 48.0, 48.0),
    BodyDef("title", 320.0, 240.0, 360.0, 60.0),
    BodyDef("subtitle", 320.0, 320.0, 360.0, 40.0),
    BodyDef("email-input", 320.0, 380.0, 240.0, 48.0),
    BodyDef("subscribe-btn", 580.0, 380.0, 100.0, 48.0),
    BodyDef("privacy-note", 320.0, 450.0, 360.0, 30.0)
  ]

  const Level2Pieces: seq<BodyDef> := [
    BodyDef("heading", 240.0, 150.0, 260.0, 60.0),
    BodyDef("bullet-1", 240.0, 230.0, 260.0, 40.0),
    BodyDef("bullet-2", 240.0, 290.0, 260.0, 40.0),
    BodyDef("bullet-3", 240.0, 350.0, 260.0, 40.0),
    BodyDef("learn-more-btn", 240.0, 420.0, 140.0, 48.0),
    BodyDef("hero-image", 540.0, 200.0, 220.0, 280.0),
    BodyDef("decorative-accent", 450.0, 180.0, 60.0, 60.0)
  ]

  /** The legacy export: the same list as the tutorial catalog. */
  const Pieces: seq<BodyDef> := TutorialPieces

  /** The tutorial catalog has unique ids and positive sizes, and `pieces` is that same list. */
  lemma TutorialWellFormed()
    ensures UniqueIds(TutorialPieces) && PositiveSizes(TutorialPieces)
    ensures Pieces == TutorialPieces
  {
  }

  /** The level 1 catalog has unique ids and positive sizes. */
  lemma Level1WellFormed()
    ensures UniqueIds(Level1Pieces) && PositiveSizes(Level1Pieces)
  {
  }

  /** The level 2 catalog has unique ids and positive sizes. */
  lemma Level2WellFormed()
    ensures UniqueIds(Level2Pieces) && PositiveSizes(Level2Pieces)
  {
  }

  /** The page looks up `header` and `button` by key and sizes them from entries 0 and 1. */
  lemma TutorialIdsMatchPageKeys()
    ensures |Pieces| == 2 && Pieces[0].id == "header" && Pieces[1].id == "button"
    ensures Find(Pieces, "header") == Some(Pieces[0])
    ensures Find(Pieces, "button") == Some(Pieces[1])
  {
    TutorialWellFormed();
    FindUnique(Pieces, 0);
    FindUnique(Pieces, 1);
  }
}
