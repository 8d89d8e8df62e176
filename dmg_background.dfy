/**
 * The DMG background generator: bubbles are placed by rejection sampling, away from the install
 * arrow and from each other, and the arrow is drawn as a shaft and a triangular head. The random
 * draws are an input: attempt `i` uses `draws[i]`. Pixels are not modelled; each drawn shape is
 * recorded with its geometry.
 *
 * The script tests `sqrt(dx ** 2 + dy ** 2) < r1 + r2 + padding`. Both sides are non-negative,
 * so the model compares the squared distance with the squared bound, in integers.
 */
module DmgBackground {

  /** The `config` dictionary. */
  const Count: nat := 18
  const MinSize: nat := 40
  const MaxSize: nat := 280
  const MinOpacity: nat := 12
  const MaxOpacity: nat := 25
  const Padding: nat := 5

  const MaxAttempts: nat := 500

  /** The arrow position reserved in the middle of the window. */
  const ArrowY: int := 185
  const ArrowStart: int := 245
  const ArrowEnd: int := 415

  /** `placed_bubbles` entries: centre and radius. */
  datatype Bubble = Bubble(x: int, y: int, radius: int)

  /** One filled circle drawn: its bounding box and its alpha. */
  datatype Ellipse = Ellipse(left: int, top: int, right: int, bottom: int, opacity: int)

  /** The values `random.randint` returns in one attempt; `opacity` is read only when placed. */
  datatype Draw = Draw(x: int, y: int, size: int, opacity: int)

  /** `randint` is inclusive at both ends. */
  predicate DrawInRange(d: Draw, width: nat, height: nat) {
    && 0 <= d.x <= width && 0 <= d.y <= height
    && MinSize <= d.size <= MaxSize
    && MinOpacity <= d.opacity <= MaxOpacity
  }

  // ---------------------------------------------------------------------------------------
  // check_overlap
  // ---------------------------------------------------------------------------------------

  /** `arrow_start - 30 < x < arrow_end + 30 and arrow_y - 40 < y < arrow_y + 40` */
  predicate InArrowZone(x: int, y: int) {
    ArrowStart - 30 < x < ArrowEnd + 30 && ArrowY - 40 < y < ArrowY + 40
  }

  function Square(n: int): nat {
    n * n
  }

  /** `distance < radius + br + padding` for the bubble `b`. */
  predicate TooClose(x: int, y: int, radius: int, b: Bubble)
    requires radius >= 0 && b.radius >= 0
  {
    Square(x - b.x) + Square(y - b.y) < Square(radius + b.radius + Padding)
  }

  /** The `for bx, by, br in placed_bubbles` loop: true at the first bubble too close. */
  predicate Overlaps(x: int, y: int, radius: int, placed: seq<Bubble>)
    requires radius >= 0 && forall i :: 0 <= i < |placed| ==> placed[i].radius >= 0
  {
    placed != [] && (TooClose(x, y, radius, placed[0]) || Overlaps(x, y, radius, placed[1..]))
  }

  /** `check_overlap(x, y, radius)` against the bubbles placed so far. */
  predicate CheckOverlap(x: int, y: int, radius: int, placed: seq<Bubble>)
    requires radius >= 0 && forall i :: 0 <= i < |placed| ==> placed[i].radius >= 0
  {
    InArrowZone(x, y) || Overlaps(x, y, radius, placed)
  }

  /** The loop finds an overlap exactly when some placed bubble is too close. */
  lemma {:induction false} OverlapsSpec(x: int, y: int, radius: int, placed: seq<Bubble>)
    requires radius >= 0 && forall i :: 0 <= i < |placed| ==> placed[i].radius >= 0
    ensures Overlaps(x, y, radius, placed) <==> exists i :: 0 <= i < |placed| && TooClose(x, y, radius, placed[i])
  {
    if placed != [] {
      OverlapsSpec(x, y, radius, placed[1..]);
      if exists i :: 0 <= i < |placed| && TooClose(x, y, radius, placed[i]) {
        var i :| 0 <= i < |placed| && TooClose(x, y, radius, placed[i]);
        if i > 0 {
          assert placed[1..][i - 1] == placed[i];
        }
      }
    }
  }

  // ---------------------------------------------------------------------------------------
  // The placement loop
  // ---------------------------------------------------------------------------------------

  /** Two bubbles keep at least `padding` between their circles. */
  predicate Apart(a: Bubble, b: Bubble) {
    Square(a.x - b.x) + Square(a.y - b.y) >= Square(a.radius + b.radius + Padding)
  }

  /** A placed bubble lies within the image, has a drawn radius, and avoids the arrow zone. */
  predicate InPlace(b: Bubble, width: nat, height: nat) {
    && 0 <= b.x <= width && 0 <= b.y <= height
    && MinSize / 2 <= b.radius <= MaxSize / 2
    && !InArrowZone(b.x, b.y)
  }

  /** What the placement loop promises of the bubbles it has placed. */
  predicate WellPlaced(placed: seq<Bubble>, width: nat, height: nat) {
    && (forall i :: 0 <= i < |placed| ==> InPlace(placed[i], width, height))
    && (forall i, j :: 0 <= i < j < |placed| ==> Apart(placed[i], placed[j]))
  }

  /** The ellipse drawn for a placed bubble, in `opacity`. */
  function EllipseOf(b: Bubble, opacity: int): Ellipse {
    Ellipse(b.x - b.radius, b.y - b.radius, b.x + b.radius, b.y + b.radius, opacity)
  }

  /** The loop state: bubbles placed, ellipses drawn, attempts made. */
  datatype State = State(placed: seq<Bubble>, drawn: seq<Ellipse>, attempts: nat)

  /** One attempt with the draw `d`: placed when `check_overlap` finds nothing. */
  function Attempt(st: State, d: Draw): (r: State)
    requires d.size >= 0 && forall i :: 0 <= i < |st.placed| ==> st.placed[i].radius >= 0
    ensures r.attempts == st.attempts + 1
  {
    var radius := d.size / 2;
    if CheckOverlap(d.x, d.y, radius, st.placed) then st.(attempts := st.attempts + 1)
    else
      var b := Bubble(d.x, d.y, radius);
      State(st.placed + [b], st.drawn + [EllipseOf(b, d.opacity)], st.attempts + 1)
  }

  /** The loop condition `len(placed_bubbles) < count and attempts < max_attempts`. */
  predicate Continues(st: State) {
    |st.placed| < Count && st.attempts < MaxAttempts
  }

  predicate Drawable(draws: seq<Draw>, width: nat, height: nat) {
    |draws| >= MaxAttempts && forall i :: 0 <= i < |draws| ==> DrawInRange(draws[i], width, height)
  }

  /** The ellipse `e` is the circle of `b`, drawn in an allowed opacity. */
  predicate DrawnFor(e: Ellipse, b: Bubble) {
    && e.left == b.x - b.radius && e.right == b.x + b.radius
    && e.top == b.y - b.radius && e.bottom == b.y + b.radius
    && MinOpacity <= e.opacity <= MaxOpacity
  }

  /** The invariant of the loop. */
  predicate Good(st: State, width: nat, height: nat) {
    && WellPlaced(st.placed, width, height)
    && |st.placed| <= Count && st.attempts <= MaxAttempts
    && |st.placed| <= st.attempts
    && |st.drawn| == |st.placed|
    && forall i :: 0 <= i < |st.drawn| ==> DrawnFor(st.drawn[i], st.placed[i])
  }

  /** The whole loop from `st` on. */
  function Loop(draws: seq<Draw>, width: nat, height: nat, st: State): (r: State)
    requires Drawable(draws, width, height) && Good(st, width, height)
    decreases MaxAttempts - st.attempts
  {
    if !Continues(st) then st
    else
      AttemptKeepsGood(st, draws[st.attempts], width, height);
      Loop(draws, width, height, Attempt(st, draws[st.attempts]))
  }

  const Start: State := State([], [], 0)

  /** Every attempt keeps the invariant: a placed bubble passed the overlap check. */
  lemma AttemptKeepsGood(st: State, d: Draw, width: nat, height: nat)
    requires Good(st, width, height) && Continues(st) && DrawInRange(d, width, height)
    ensures Good(Attempt(st, d), width, height)
  {
    var radius := d.size / 2;
    if !CheckOverlap(d.x, d.y, radius, st.placed) {
      var b := Bubble(d.x, d.y, radius);
      OverlapsSpec(d.x, d.y, radius, st.placed);
      PlaceKeepsApart(st.placed, b, width, height);
      DrawKeepsMatch(st.placed, st.drawn, b, EllipseOf(b, d.opacity));
    }
  }

  /** A bubble too close to none of the placed ones may join them. */
  lemma PlaceKeepsApart(placed: seq<Bubble>, b: Bubble, width: nat, height: nat)
    requires WellPlaced(placed, width, height) && InPlace(b, width, height)
    requires forall i :: 0 <= i < |placed| ==> !TooClose(b.x, b.y, b.radius, placed[i])
    ensures WellPlaced(placed + [b], width, height)
  {
    var ps := placed + [b];
    forall i, j | 0 <= i < j < |ps| ensures Apart(ps[i], ps[j]) {
      if j == |ps| - 1 {
        assert !TooClose(b.x, b.y, b.radius, placed[i]);
        assert ps[i] == placed[i];
      } else {
        assert ps[i] == placed[i] && ps[j] == placed[j];
      }
    }
  }

  lemma DrawKeepsMatch(placed: seq<Bubble>, drawn: seq<Ellipse>, b: Bubble, e: Ellipse)
    requires |drawn| == |placed| && forall i :: 0 <= i < |drawn| ==> DrawnFor(drawn[i], placed[i])
    requires DrawnFor(e, b)
    ensures forall i :: 0 <= i < |drawn| + 1 ==> DrawnFor((drawn + [e])[i], (placed + [b])[i])
  {
  }

  /**
   * When the loop stops, either all 18 bubbles are placed or the 500 attempts are used up, and
   * the invariant holds: every bubble is within the image, outside the arrow zone, and clear of
   * every other by the padding.
   */
  lemma {:induction false} LoopSpec(draws: seq<Draw>, width: nat, height: nat, st: State)
    requires Drawable(draws, width, height) && Good(st, width, height)
    ensures Good(Loop(draws, width, height, st), width, height)
    ensures !Continues(Loop(draws, width, height, st))
    decreases MaxAttempts - st.attempts
  {
    if Continues(st) {
      AttemptKeepsGood(st, draws[st.attempts], width, height);
      LoopSpec(draws, width, height, Attempt(st, draws[st.attempts]));
    }
  }

  /** The placement loop of `generate_dmg_background`. */
  method PlaceBubbles(draws: seq<Draw>, width: nat, height: nat) returns (placed: seq<Bubble>, drawn: seq<Ellipse>, attempts: nat)
    requires Drawable(draws, width, height)
    ensures State(placed, drawn, attempts) == Loop(draws, width, height, Start)
    ensures |placed| == Count || attempts == MaxAttempts
    ensures |placed| <= Count && attempts <= MaxAttempts
    ensures WellPlaced(placed, width, height)
  {
    placed, drawn, attempts := [], [], 0;
    while |placed| < Count && attempts < MaxAttempts
      invariant Good(State(placed, drawn, attempts), width, height)
      invariant Loop(draws, width, height, State(placed, drawn, attempts)) == Loop(draws, width, height, Start)
      decreases MaxAttempts - attempts
    {
      ghost var st := State(placed, drawn, attempts);
      AttemptKeepsGood(st, draws[attempts], width, height);
      var d := draws[attempts];
      attempts := attempts + 1;
      var radius := d.size / 2;
      if CheckOverlap(d.x, d.y, radius, placed) {
        continue;
      }
      var opacity := d.opacity;
      drawn := drawn + [EllipseOf(Bubble(d.x, d.y, radius), opacity)];
      placed := placed + [Bubble(d.x, d.y, radius)];
    }
  }

  // ---------------------------------------------------------------------------------------
  // draw_arrow
  // ---------------------------------------------------------------------------------------

  /** The shaft from `(x0, y)` to `(x1, y)` and the head triangle `tip`, `top`, `bottom`. */
  datatype Arrow = Arrow(shaftFrom: (int, int), shaftTo: (int, int), tip: (int, int), top: (int, int), bottom: (int, int))

  /** `draw_arrow(draw, start_x, end_x, y, color, thickness, head_size)` */
  function DrawArrow(startX: int, endX: int, y: int, headSize: nat): (a: Arrow)
    ensures a.shaftFrom == (startX, y) && a.shaftTo.1 == y && a.tip == (endX, y)
    ensures a.shaftTo.0 == a.top.0 == a.bottom.0 == endX - headSize
    ensures a.top.1 == y - (headSize / 2 + 2) && a.bottom.1 == y + (headSize / 2 + 2)
  {
    var half := headSize / 2 + 2;
    Arrow((startX, y), (endX - headSize, y), (endX, y), (endX - headSize, y - half), (endX - headSize, y + half))
  }

  /**
   * The arrow the script draws, from 245 to 415 at height 185 with an 18-pixel head, lies
   * strictly inside the zone no bubble centre may take.
   */
  lemma ArrowInsideZone()
    ensures var a := DrawArrow(ArrowStart, ArrowEnd, ArrowY, 18);
      && InArrowZone(a.shaftFrom.0, a.shaftFrom.1) && InArrowZone(a.tip.0, a.tip.1)
      && InArrowZone(a.top.0, a.top.1) && InArrowZone(a.bottom.0, a.bottom.1)
  {
  }

  /** The head's base is centred on the shaft, and the shaft ends where the head begins. */
  lemma ArrowHeadSymmetric(startX: int, endX: int, y: int, headSize: nat)
    ensures var a := DrawArrow(startX, endX, y, headSize);
      a.bottom.1 - y == y - a.top.1 == headSize / 2 + 2 && a.tip.0 - a.shaftTo.0 == headSize
  {
  }
}
