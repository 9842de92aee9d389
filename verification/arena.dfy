/** The part of the renderer's state that the birds and the generation
    controller read and update: the queue of wall pairs, the counters shown
    in the info panel, and the size of the playing field. Sprites are
    anchored at their centre, so a box is its centre and its size. */
module Arena {

  /** A sprite's box: centre (anchor 0.5), width and height. */
  datatype Rect = Rect(x: real, y: real, width: real, height: real)

  /** One pipe: the logical x and width that passing is measured against,
      and the sprite box that collisions are tested against. */
  datatype Wall = Wall(x: real, width: real, sprite: Rect)

  /** The top and bottom pipes spawned together. */
  datatype WallPair = WallPair(top: Wall, bottom: Wall)

  function Abs(v: real): real
  {
    if v < 0.0 then -v else v
  }

  /** `hitTestRectangle`: the centres are closer than the combined half
      widths AND the combined half heights (both strict). */
  function HitTest(r1: Rect, r2: Rect): bool
  {
    var vx := r1.x - r2.x;
    var vy := r1.y - r2.y;
    Abs(vx) < r1.width / 2.0 + r2.width / 2.0 && Abs(vy) < r1.height / 2.0 + r2.height / 2.0
  }

  /** Reference definition: the open horizontal extents overlap and the
      open vertical extents overlap. */
  predicate Overlap(r1: Rect, r2: Rect)
  {
    && r1.x - r1.width / 2.0 < r2.x + r2.width / 2.0
    && r2.x - r2.width / 2.0 < r1.x + r1.width / 2.0
    && r1.y - r1.height / 2.0 < r2.y + r2.height / 2.0
    && r2.y - r2.height / 2.0 < r1.y + r1.height / 2.0
  }

  lemma HitTestIsOverlap(r1: Rect, r2: Rect)
    ensures HitTest(r1, r2) <==> Overlap(r1, r2)
  {
  }

  lemma HitTestSymmetric(r1: Rect, r2: Rect)
    ensures HitTest(r1, r2) == HitTest(r2, r1)
  {
  }

  /** Boxes that only touch along an edge, left or right, top or bottom,
      do not collide. */
  lemma TouchingIsNoHit(r1: Rect, r2: Rect)
    requires || Abs(r1.x - r2.x) == r1.width / 2.0 + r2.width / 2.0
             || Abs(r1.y - r2.y) == r1.height / 2.0 + r2.height / 2.0
    ensures !HitTest(r1, r2)
  {
  }

  /** The collision part of `isCollision`: there is a front pair and the
      bird's box hits its top or its bottom pipe. */
  predicate Collides(bird: Rect, walls: seq<WallPair>)
  {
    |walls| > 0 && (HitTest(bird, walls[0].top.sprite) || HitTest(bird, walls[0].bottom.sprite))
  }

  /** The scoring part of `isCollision`: the bird's right edge is past the
      front top pipe's `x + width`. */
  predicate Passes(x: real, width: real, walls: seq<WallPair>)
  {
    |walls| > 0 && x + width > walls[0].top.x + walls[0].top.width
  }

  /** Leaving the view vertically (`view.height < y || y < 0`). */
  predicate OutOfBounds(viewHeight: real, y: real)
  {
    viewHeight < y || y < 0.0
  }

  /** The renderer singleton's fields that the core reads and writes. */
  class World {
    const viewHeight: real
    const screenWidth: real
    const screenHeight: real
    var walls: seq<WallPair>
    var birdsAlive: int
    var pipesCount: int
    var mutated: int

    constructor (viewHeight: real, screenWidth: real, screenHeight: real)
      ensures this.viewHeight == viewHeight && this.screenWidth == screenWidth
      ensures this.screenHeight == screenHeight
      ensures walls == [] && birdsAlive == 0 && pipesCount == 0 && mutated == 0
    {
      this.viewHeight := viewHeight;
      this.screenWidth := screenWidth;
      this.screenHeight := screenHeight;
      walls := [];
      birdsAlive := 0;
      pipesCount := 0;
      mutated := 0;
    }
  }
}
