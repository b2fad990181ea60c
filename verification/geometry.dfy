/**
 Integer plane geometry used by the digit widgets: a position, a 2x2
 integer matrix, translation, and the quarter-turn rotation about an
 anchor that every painted cell goes through (src/widgets.rs).
 */
module Geometry {

  datatype Pos = Pos(x: int, y: int)

  datatype Matrix2x2 = Matrix2x2(a: int, b: int, c: int, d: int)

  /** Row-vector product as the source writes it: x' = a*x + b*y, y' = c*x + d*y. */
  function Multiply(p: Pos, m: Matrix2x2): Pos
  {
    Pos(m.a * p.x + m.b * p.y, m.c * p.x + m.d * p.y)
  }

  /** The counter-clockwise quarter-turn matrix; Rot90 states what
      multiplying by it does. */
  function Matrix90CounterClockwise(): Matrix2x2
  {
    Matrix2x2(0, -1, 1, 0)
  }

  function Translate(p: Pos, tx: int, ty: int): Pos
  {
    Pos(p.x + tx, p.y + ty)
  }

  /** Translating back by the opposite offset restores the position. */
  lemma TranslateRoundTrip(p: Pos, tx: int, ty: int)
    ensures Translate(Translate(p, tx, ty), -tx, -ty) == p
  {
  }

  /** Quarter turn about the origin: (x, y) becomes (-y, x), so the x axis
      goes to the y axis and the y axis to the negative x axis. */
  function Rot90(p: Pos): (r: Pos)
    ensures r == Pos(-p.y, p.x)
  {
    Multiply(p, Matrix90CounterClockwise())
  }

  /** The quarter turn keeps the distance to the origin. */
  lemma Rot90PreservesNorm(p: Pos)
    ensures var r := Rot90(p); r.x * r.x + r.y * r.y == p.x * p.x + p.y * p.y
  {
  }

  /** Four quarter turns are the identity. */
  lemma Rot90FourTimes(p: Pos)
    ensures Rot90(Rot90(Rot90(Rot90(p)))) == p
  {
  }

  /** `rotate(start, cur)`: translate `cur` so that `start` is the origin,
      turn it a quarter, and translate back. The closed form shows that
      the glyph-local coordinates are rotated about the anchor. */
  function Rotate(start: (int, int), cur: (int, int)): (r: (int, int))
    ensures r == (start.0 + start.1 - cur.1, start.1 + cur.0 - start.0)
  {
    var (sx, sy) := start;
    var (cx, cy) := cur;
    var pos := Translate(Rot90(Translate(Pos(cx, cy), -sx, -sy)), sx, sy);
    (pos.x, pos.y)
  }

  /** Seen from the anchor, Rotate is the quarter turn about the origin. */
  lemma RotateIsQuarterTurn(start: (int, int), cur: (int, int))
    ensures var r := Rotate(start, cur);
      Pos(r.0 - start.0, r.1 - start.1) == Rot90(Pos(cur.0 - start.0, cur.1 - start.1))
  {
  }

  /** The anchor is the fixed point of the rotation. */
  lemma RotateFixesStart(start: (int, int))
    ensures Rotate(start, start) == start
  {
  }

  /** Rotating four times about the same anchor returns the point. */
  lemma RotateFourTimes(start: (int, int), p: (int, int))
    ensures Rotate(start, Rotate(start, Rotate(start, Rotate(start, p)))) == p
  {
  }

  /** The clockwise quarter turn about `start`: the inverse of Rotate. */
  function RotateBack(start: (int, int), r: (int, int)): (p: (int, int))
    ensures Rotate(start, p) == r
  {
    (start.0 + r.1 - start.1, start.0 + start.1 - r.0)
  }

  /** RotateBack undoes Rotate, so distinct points have distinct images. */
  lemma RotateRoundTrip(start: (int, int), p: (int, int), q: (int, int))
    ensures RotateBack(start, Rotate(start, p)) == p
    ensures Rotate(start, p) == Rotate(start, q) <==> p == q
  {
  }

  /** Squared distance between two points is preserved by the rotation. */
  lemma RotatePreservesDistance(start: (int, int), p: (int, int), q: (int, int))
    ensures SqDist(Rotate(start, p), Rotate(start, q)) == SqDist(p, q)
  {
  }

  function SqDist(p: (int, int), q: (int, int)): int
  {
    (p.0 - q.0) * (p.0 - q.0) + (p.1 - q.1) * (p.1 - q.1)
  }
}
