/** The escape-time iteration of MandelbrotSet.getIterations: z := z^2 + c
    from z = 0, counting steps until |z|^2 reaches 4 or the budget runs
    out. */
module EscapeTime {

  /** The loop variables: z = r + i*I, the cached squares r2 = r^2 and
      i2 = i^2, and the step counter. */
  datatype Orbit = Orbit(r: real, i: real, r2: real, i2: real, count: int)

  const Start: Orbit := Orbit(0.0, 0.0, 0.0, 0.0, 0)

  /** One pass of the loop body. The imaginary part is updated first, from
      the old real part; the new real part uses the old squares. */
  function Next(x: real, y: real, o: Orbit): (o': Orbit)
    ensures o'.count == o.count + 1
    ensures o'.r2 == o'.r * o'.r && o'.i2 == o'.i * o'.i
  {
    var i := 2.0 * o.i * o.r + y;
    var r := o.r2 - o.i2 + x;
    Orbit(r, i, r * r, i * i, o.count + 1)
  }

  /** The loop test: strictly inside the radius-2 circle and budget left. */
  predicate Continues(o: Orbit, maxIterations: int) {
    o.r2 + o.i2 < 4.0 && o.count < maxIterations
  }

  /** The count the loop returns when started in state o. */
  function Escape(x: real, y: real, maxIterations: int, o: Orbit): (n: int)
    ensures n >= o.count
    ensures o.count <= maxIterations ==> n <= maxIterations
    ensures n == o.count <==> !Continues(o, maxIterations)
    decreases maxIterations - o.count
  {
    if Continues(o, maxIterations) then Escape(x, y, maxIterations, Next(x, y, o)) else o.count
  }

  /** getIterations(x, y) for a set whose budget is maxIterations. */
  function Iterations(x: real, y: real, maxIterations: int): (n: int)
    ensures maxIterations <= 0 ==> n == 0
    ensures maxIterations >= 1 ==> 1 <= n <= maxIterations
  {
    Escape(x, y, maxIterations, Start)
  }

  /** The loop of getIterations, computing the count of Iterations; the
      four doubles and the counter of the source are the fields of `o`. */
  method GetIterations(x: real, y: real, maxIterations: int) returns (c: int)
    ensures c == Iterations(x, y, maxIterations)
    ensures maxIterations >= 1 ==> 1 <= c <= maxIterations
  {
    var o := Start;
    while o.r2 + o.i2 < 4.0 && o.count < maxIterations
      invariant o.count >= 0 && (maxIterations >= 0 ==> o.count <= maxIterations)
      invariant Escape(x, y, maxIterations, o) == Iterations(x, y, maxIterations)
      decreases maxIterations - o.count
    {
      o := Next(x, y, o);
    }
    c := o.count;
  }

  /** From any state on the orbit of 0 that has not left the origin, the
      loop runs until the budget is spent. */
  lemma {:induction false} OriginStaysPut(maxIterations: int, c: int)
    requires 0 <= c <= maxIterations
    ensures Escape(0.0, 0.0, maxIterations, Orbit(0.0, 0.0, 0.0, 0.0, c)) == maxIterations
    decreases maxIterations - c
  {
    if c < maxIterations {
      OriginStaysPut(maxIterations, c + 1);
    }
  }

  /** The origin belongs to the set: it uses the whole budget, and so gets
      the last colour of the table. */
  lemma OriginNeverEscapes(maxIterations: int)
    requires maxIterations >= 0
    ensures Iterations(0.0, 0.0, maxIterations) == maxIterations
  {
    OriginStaysPut(maxIterations, 0);
  }

  /** The count is 1 exactly when the budget is 1 or the first iterate
      z = x + y*I already has |z|^2 >= 4. */
  lemma EscapesAtFirstStep(x: real, y: real, maxIterations: int)
    requires maxIterations >= 1
    ensures Iterations(x, y, maxIterations) == 1 <==> (maxIterations == 1 || x * x + y * y >= 4.0)
  {
    var o1 := Next(x, y, Start);
    assert o1 == Orbit(x, y, x * x, y * y, 1);
    assert Iterations(x, y, maxIterations) == Escape(x, y, maxIterations, o1);
  }

  /** The escape test is strict: the points (2, 0) and (-2, 0), on the
      radius-2 circle, escape after one step. */
  lemma BoundaryPointsEscape(maxIterations: int)
    requires maxIterations >= 1
    ensures Iterations(2.0, 0.0, maxIterations) == 1
    ensures Iterations(-2.0, 0.0, maxIterations) == 1
  {
    EscapesAtFirstStep(2.0, 0.0, maxIterations);
    EscapesAtFirstStep(-2.0, 0.0, maxIterations);
  }

  /** Once an orbit escapes within the budget, a larger budget gives the same
      count: the count does not depend on maxIterations beyond the escape. */
  lemma {:induction false} EscapeStable(x: real, y: real, m1: int, m2: int, o: Orbit)
    requires o.count <= m1 <= m2
    requires Escape(x, y, m1, o) < m1
    ensures Escape(x, y, m2, o) == Escape(x, y, m1, o)
    decreases m1 - o.count
  {
    if Continues(o, m1) {
      EscapeStable(x, y, m1, m2, Next(x, y, o));
    }
  }

  /** The budget only caps the count: a point that escaped with budget m1
      escapes at the same step with any larger budget. */
  lemma IterationsStable(x: real, y: real, m1: int, m2: int)
    requires 0 <= m1 <= m2
    requires Iterations(x, y, m1) < m1
    ensures Iterations(x, y, m2) == Iterations(x, y, m1)
  {
    EscapeStable(x, y, m1, m2, Start);
  }
}
