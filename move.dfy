/**
 * The keydown step of the `move` element: a key moves the player's candidate
 * position 10 px, the candidate is clamped to the container, and the move is
 * rejected when the player's rectangle at the candidate overlaps a forbidden
 * area. Sizes that the browser reports (`offsetWidth`, `offsetHeight`) are a
 * `Layout` parameter read afresh on every key press.
 */
module Move {
  import opened Util

  /**
   * The four key bindings taken from `KeyEvent`; `None` is a binding that is
   * `undefined`, which no key name equals.
   */
  datatype Keys = Keys(w: Option<string>, s: Option<string>, a: Option<string>, d: Option<string>)

  /**
   * A forbidden area, in container pixels.  Nothing in the element fixes its
   * coordinates to whole pixels, so they are reals; the player's position only
   * ever moves by whole pixels from 0 and is clamped to the integer sizes the
   * browser reports.
   */
  datatype Rect = Rect(x: real, y: real, width: real, height: real)

  /** The container's and the player's size at the time of the key press. */
  datatype Layout = Layout(containerWidth: int, containerHeight: int, playerWidth: int, playerHeight: int)

  datatype Pos = Pos(x: int, y: int)

  /** `case binding:` under strict equality with `event.key`. */
  predicate Matches(b: Option<string>, key: string)
  {
    b == Some(key)
  }

  /**
   * The `switch`: the first matching case in source order `w`, `s`, `d`, `a`
   * decides; `d` moves left and `a` moves right, as the source has it.
   */
  function Candidate(keys: Keys, key: string, p: Pos): Pos
  {
    if Matches(keys.w, key) then Pos(p.x, p.y - 10)
    else if Matches(keys.s, key) then Pos(p.x, p.y + 10)
    else if Matches(keys.d, key) then Pos(p.x - 10, p.y)
    else if Matches(keys.a, key) then Pos(p.x + 10, p.y)
    else p
  }

  /** The two clamps of one coordinate: the lower bound first, then the upper. */
  function Clamp(v: int, hi: int): int
  {
    var low := if v < 0 then 0 else v;
    if low > hi then hi else low
  }

  function Clamped(layout: Layout, p: Pos): Pos
  {
    Pos(Clamp(p.x, layout.containerWidth - layout.playerWidth),
        Clamp(p.y, layout.containerHeight - layout.playerHeight))
  }

  /** The player's rectangle at `p` and `area` share interior points (all four tests strict). */
  predicate Overlaps(layout: Layout, p: Pos, area: Rect)
  {
    p.x as real < area.x + area.width && (p.x + layout.playerWidth) as real > area.x &&
    p.y as real < area.y + area.height && (p.y + layout.playerHeight) as real > area.y
  }

  predicate Blocked(layout: Layout, areas: seq<Rect>, p: Pos)
  {
    exists i :: 0 <= i < |areas| && Overlaps(layout, p, areas[i])
  }

  /** One key press: the new position of the player. */
  function Step(keys: Keys, layout: Layout, areas: seq<Rect>, key: string, p: Pos): Pos
  {
    var next := Clamped(layout, Candidate(keys, key, p));
    if Blocked(layout, areas, next) then p else next
  }

  /** The `for` loop over the forbidden areas, leaving at the first one that overlaps. */
  method FindBlocking(layout: Layout, areas: seq<Rect>, p: Pos) returns (blocked: bool)
    ensures blocked <==> Blocked(layout, areas, p)
  {
    for i := 0 to |areas|
      invariant forall j :: 0 <= j < i ==> !Overlaps(layout, p, areas[j])
    {
      if p.x as real < areas[i].x + areas[i].width && (p.x + layout.playerWidth) as real > areas[i].x &&
         p.y as real < areas[i].y + areas[i].height && (p.y + layout.playerHeight) as real > areas[i].y
      {
        return true;
      }
    }
    return false;
  }

  /**
   * The state `start(forbiddenAreas)` creates: the closure's `playerX` and
   * `playerY`, with the bindings and areas the listener uses.
   */
  class MoveHandler {
    const keys: Keys
    const forbiddenAreas: seq<Rect>
    var playerX: int
    var playerY: int

    /** `start`: the player begins at the container's top left corner. */
    constructor Start(keys: Keys, forbiddenAreas: seq<Rect>)
      ensures this.keys == keys && this.forbiddenAreas == forbiddenAreas
      ensures playerX == 0 && playerY == 0
    {
      this.keys := keys;
      this.forbiddenAreas := forbiddenAreas;
      playerX := 0;
      playerY := 0;
    }

    /** The keydown listener, with the bindings of this element. */
    method KeyDown(key: string, layout: Layout)
      modifies this
      ensures Pos(playerX, playerY) == Step(keys, layout, forbiddenAreas, key, old(Pos(playerX, playerY)))
    {
      var nextX := playerX;
      var nextY := playerY;
      if Matches(keys.w, key) {
        nextY := playerY - 10;
      } else if Matches(keys.s, key) {
        nextY := playerY + 10;
      } else if Matches(keys.d, key) {
        nextX := playerX - 10;
      } else if Matches(keys.a, key) {
        nextX := playerX + 10;
      }
      if nextX < 0 { nextX := 0; }
      if nextX > layout.containerWidth - layout.playerWidth {
        nextX := layout.containerWidth - layout.playerWidth;
      }
      if nextY < 0 { nextY := 0; }
      if nextY > layout.containerHeight - layout.playerHeight {
        nextY := layout.containerHeight - layout.playerHeight;
      }
      var blocked := FindBlocking(layout, forbiddenAreas, Pos(nextX, nextY));
      if blocked {
        return;
      }
      playerX := nextX;
      playerY := nextY;
    }
  }

  /** Each bound key moves one coordinate by 10 px; a key bound to nothing leaves the candidate put. */
  lemma KeyDispatch(keys: Keys, key: string, p: Pos)
    ensures keys.w == Some(key) ==> Candidate(keys, key, p) == Pos(p.x, p.y - 10)
    ensures keys.s == Some(key) && keys.w != Some(key) ==> Candidate(keys, key, p) == Pos(p.x, p.y + 10)
    ensures keys.d == Some(key) && keys.w != Some(key) && keys.s != Some(key) ==>
              Candidate(keys, key, p) == Pos(p.x - 10, p.y)
    ensures keys.a == Some(key) && keys.w != Some(key) && keys.s != Some(key) && keys.d != Some(key) ==>
              Candidate(keys, key, p) == Pos(p.x + 10, p.y)
    ensures Some(key) !in {keys.w, keys.s, keys.a, keys.d} ==> Candidate(keys, key, p) == p
  {
  }

  /** A candidate differs from the position by exactly 10 px on one axis, or not at all. */
  lemma CandidateDistance(keys: Keys, key: string, p: Pos)
    ensures var c := Candidate(keys, key, p);
            (c.x == p.x && (c.y == p.y || c.y == p.y - 10 || c.y == p.y + 10)) ||
            (c.y == p.y && (c.x == p.x - 10 || c.x == p.x + 10))
  {
  }

  /**
   * When the container is at least as large as the player the clamped value lies
   * in `[0, hi]` and a value already there is kept; otherwise the upper bound,
   * applied last, wins.
   */
  lemma ClampBounds(v: int, hi: int)
    ensures hi >= 0 ==> 0 <= Clamp(v, hi) <= hi
    ensures 0 <= v <= hi ==> Clamp(v, hi) == v
    ensures v < 0 && hi >= 0 ==> Clamp(v, hi) == 0
    ensures v > hi && hi >= 0 ==> Clamp(v, hi) == hi
    ensures hi < 0 ==> Clamp(v, hi) == hi
  {
  }

  /** Every position the handler reaches from inside the container stays inside it. */
  lemma StepStaysInside(keys: Keys, layout: Layout, areas: seq<Rect>, key: string, p: Pos)
    requires 0 <= p.x <= layout.containerWidth - layout.playerWidth
    requires 0 <= p.y <= layout.containerHeight - layout.playerHeight
    ensures var q := Step(keys, layout, areas, key, p);
            0 <= q.x <= layout.containerWidth - layout.playerWidth &&
            0 <= q.y <= layout.containerHeight - layout.playerHeight
  {
    var c := Candidate(keys, key, p);
    ClampBounds(c.x, layout.containerWidth - layout.playerWidth);
    ClampBounds(c.y, layout.containerHeight - layout.playerHeight);
  }

  /** A move into a forbidden area is rejected; any other move lands on the clamped candidate. */
  lemma StepRejectsOverlap(keys: Keys, layout: Layout, areas: seq<Rect>, key: string, p: Pos)
    ensures var next := Clamped(layout, Candidate(keys, key, p));
            (exists i :: 0 <= i < |areas| && Overlaps(layout, next, areas[i])) ==> Step(keys, layout, areas, key, p) == p
    ensures var next := Clamped(layout, Candidate(keys, key, p));
            (forall i :: 0 <= i < |areas| ==> !Overlaps(layout, next, areas[i])) ==> Step(keys, layout, areas, key, p) == next
  {
  }

  /** Rectangles that only touch along an edge do not overlap. */
  lemma EdgeContactIsFree(layout: Layout, p: Pos, area: Rect)
    requires (p.x + layout.playerWidth) as real == area.x || area.x + area.width == p.x as real ||
             (p.y + layout.playerHeight) as real == area.y || area.y + area.height == p.y as real
    ensures !Overlaps(layout, p, area)
  {
  }

  /** A free position is never blocked; a player that sits still never leaves it. */
  lemma NoKeyStaysPut(keys: Keys, layout: Layout, areas: seq<Rect>, key: string, p: Pos)
    requires Some(key) !in {keys.w, keys.s, keys.a, keys.d}
    requires 0 <= p.x <= layout.containerWidth - layout.playerWidth
    requires 0 <= p.y <= layout.containerHeight - layout.playerHeight
    ensures Step(keys, layout, areas, key, p) == p
  {
    ClampBounds(p.x, layout.containerWidth - layout.playerWidth);
    ClampBounds(p.y, layout.containerHeight - layout.playerHeight);
  }

  /**
   * What the listener as written reads for its bindings: it is a plain
   * `function`, so `this` is `document` and `this.w`, `this.s`, `this.a`,
   * `this.d` are all `undefined`.
   */
  function ListenerKeys(): Keys
  {
    Keys(None, None, None, None)
  }

  /** The step as written: the bindings the listener reads in place of the element's. */
  function StepAsWritten(layout: Layout, areas: seq<Rect>, key: string, p: Pos): Pos
  {
    Step(ListenerKeys(), layout, areas, key, p)
  }

  /** As written, no key moves the player: the position can only be clamped back into the container. */
  lemma AsWrittenIgnoresKeys(layout: Layout, areas: seq<Rect>, key: string, p: Pos)
    ensures StepAsWritten(layout, areas, key, p) == p ||
            StepAsWritten(layout, areas, key, p) == Clamped(layout, p)
    ensures 0 <= p.x <= layout.containerWidth - layout.playerWidth &&
            0 <= p.y <= layout.containerHeight - layout.playerHeight ==>
              StepAsWritten(layout, areas, key, p) == p
  {
    ClampBounds(p.x, layout.containerWidth - layout.playerWidth);
    ClampBounds(p.y, layout.containerHeight - layout.playerHeight);
  }

  /** Pressing `w` at (0, 20) in an open 100×100 container: the bindings move the player, the listener as written does not. */
  lemma AsWrittenCounterexample()
    ensures StepAsWritten(Layout(100, 100, 10, 10), [], "w", Pos(0, 20)) == Pos(0, 20)
    ensures Step(Keys(Some("w"), Some("s"), Some("a"), Some("d")), Layout(100, 100, 10, 10), [], "w", Pos(0, 20)) == Pos(0, 10)
  {
  }
}
