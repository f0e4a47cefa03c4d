/** `distancia_manhattan`: the grid distance between two points of the layout. */
module Distance {
  import opened Numbers
  import opened Areas

  function Manhattan(p: Point, q: Point): (r: real)
    ensures r >= 0.0
  {
    Abs(p.x - q.x) + Abs(p.y - q.y)
  }

  lemma ManhattanSymmetric(p: Point, q: Point)
    ensures Manhattan(p, q) == Manhattan(q, p)
  {
  }

  lemma ManhattanZero(p: Point, q: Point)
    ensures Manhattan(p, q) == 0.0 <==> p == q
  {
  }

  lemma ManhattanTriangle(p: Point, q: Point, s: Point)
    ensures Manhattan(p, s) <= Manhattan(p, q) + Manhattan(q, s)
  {
  }
}
