/** Position helpers that turn LDtk's top-left, y-down entity positions into the
    engine's y-up coordinates. Positions are exact reals. */
module Utilities {
  /** An entity's box as LDtk exports it. */
  datatype Box = Box(x: real, y: real, width: real, height: real)

  /** The offsets passed alongside it. */
  datatype Offset = Offset(xOffset: real, yOffset: real)

  datatype Position = Position(x: real, y: real)

  /** `flipYPosition`: the negated sum of the position and the height. */
  function FlipYPosition(y: real, height: real): real
  {
    (y + height) * -1.0
  }

  /** Flipping mirrors `y` about `-height / 2`, so flipping twice with the same height
      gives `y` back. */
  lemma FlipYLaws(y: real, height: real)
    ensures (y + FlipYPosition(y, height)) / 2.0 == -height / 2.0
    ensures FlipYPosition(FlipYPosition(y, height), height) == y
  {
  }

  /** `transformToCenter`: the box's origin moved by half its size. */
  function TransformToCenter(b: Box): Position
  {
    Position(b.x + b.width / 2.0, b.y + b.height / 2.0)
  }

  /** The centre lies half the size away from the origin, and taking the halves off again
      recovers the origin. */
  lemma TransformToCenterLaws(b: Box)
    ensures TransformToCenter(b).x - b.width / 2.0 == b.x && TransformToCenter(b).y - b.height / 2.0 == b.y
    ensures TransformToCenter(b).x - b.x == b.width / 2.0 && TransformToCenter(b).y - b.y == b.height / 2.0
  {
  }

  /** `transformEntityPositionToCocosPosition`: shift by the offsets, flip y over the
      height, then add the height back. */
  function TransformEntityPositionToCocosPosition(b: Box, o: Offset): Position
  {
    var xAdapted := b.x - o.xOffset;
    var yAdapted := b.y - o.yOffset;
    var yInverted := FlipYPosition(yAdapted, b.height);
    Position(xAdapted, yInverted + b.height)
  }

  /** The height cancels out: x is shifted by the x offset and y becomes the y offset
      less y, whatever the box's size. */
  lemma CocosPositionClosedForm(b: Box, o: Offset, width: real, height: real)
    ensures TransformEntityPositionToCocosPosition(b, o) == Position(b.x - o.xOffset, o.yOffset - b.y)
    ensures TransformEntityPositionToCocosPosition(Box(b.x, b.y, width, height), o)
            == TransformEntityPositionToCocosPosition(b, o)
  {
  }

  /** Moving the entity by (dx, dy) in LDtk moves it by (dx, -dy) in the engine. */
  lemma CocosPositionTranslation(b: Box, o: Offset, dx: real, dy: real)
    ensures var p := TransformEntityPositionToCocosPosition(b, o);
            var q := TransformEntityPositionToCocosPosition(Box(b.x + dx, b.y + dy, b.width, b.height), o);
            q.x == p.x + dx && q.y == p.y - dy
  {
  }
}
