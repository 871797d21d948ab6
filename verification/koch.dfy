/** The Koch curve and snowflake generators of KochSnowflakePane, as
    turtle-command traces. */
module Koch {
  import opened Arith
  import opened Turtle

  const PiOver3: real := Pi / 3.0

  /** The four copies of a sub-curve with the three turns between them. */
  function Join(c: seq<Command>, a1: real, a2: real, a3: real): seq<Command> {
    c + [Rotate(a1)] + c + [Rotate(a2)] + c + [Rotate(a3)] + c
  }

  /** generateKochCurve(h, n, length). The source has no guard on `n`: a
      negative depth never reaches the base case, so the recursion only
      terminates for n >= 0. */
  function Curve(n: int, length: real): seq<Command>
    requires n >= 0
    decreases n
  {
    if n == 0 then [Move(length, true)]
    else Join(Curve(n - 1, length / 3.0), PiOver3, -2.0 * PiOver3, PiOver3)
  }

  /** generateKochSnowflake(h, n, length): three curves, each followed by a
      turn of -2*pi/3. */
  function Snowflake(n: int, length: real): seq<Command>
    requires n >= 0
  {
    var c := Curve(n, length);
    c + [Rotate(-2.0 * PiOver3)] + c + [Rotate(-2.0 * PiOver3)] + c + [Rotate(-2.0 * PiOver3)]
  }

  lemma JoinCount(c: seq<Command>, a1: real, a2: real, a3: real, p: Command -> bool)
    ensures Count(Join(c, a1, a2, a3), p)
         == 4 * Count(c, p) + Count([Rotate(a1)], p) + Count([Rotate(a2)], p) + Count([Rotate(a3)], p)
  {
    var r1, r2, r3 := [Rotate(a1)], [Rotate(a2)], [Rotate(a3)];
    CountConcat(c, r1, p);
    CountConcat(c + r1, c, p);
    CountConcat(c + r1 + c, r2, p);
    CountConcat(c + r1 + c + r2, c, p);
    CountConcat(c + r1 + c + r2 + c, r3, p);
    CountConcat(c + r1 + c + r2 + c + r3, c, p);
  }

  lemma JoinNetTurn(c: seq<Command>, a1: real, a2: real, a3: real)
    ensures NetTurn(Join(c, a1, a2, a3)) == 4.0 * NetTurn(c) + a1 + a2 + a3
  {
    var r1, r2, r3 := [Rotate(a1)], [Rotate(a2)], [Rotate(a3)];
    NetTurnConcat(c, r1);
    NetTurnConcat(c + r1, c);
    NetTurnConcat(c + r1 + c, r2);
    NetTurnConcat(c + r1 + c + r2, c);
    NetTurnConcat(c + r1 + c + r2 + c, r3);
    NetTurnConcat(c + r1 + c + r2 + c + r3, c);
  }

  /** At depth n the curve draws 4^n segments, turns 4^n - 1 times
      (R(n) = 4 R(n-1) + 3), never moves with the pen up, and its turns
      cancel out. */
  lemma {:induction false} CurveCounts(n: int, length: real)
    requires n >= 0
    ensures Count(Curve(n, length), IsDrawingMove) == NatPow(4, n)
    ensures Count(Curve(n, length), IsRotation) == NatPow(4, n) - 1
    ensures Count(Curve(n, length), IsPenUpMove) == 0
    ensures NetTurn(Curve(n, length)) == 0.0
    decreases n
  {
    if n > 0 {
      var c := Curve(n - 1, length / 3.0);
      CurveCounts(n - 1, length / 3.0);
      JoinCount(c, PiOver3, -2.0 * PiOver3, PiOver3, IsDrawingMove);
      JoinCount(c, PiOver3, -2.0 * PiOver3, PiOver3, IsRotation);
      JoinCount(c, PiOver3, -2.0 * PiOver3, PiOver3, IsPenUpMove);
      JoinNetTurn(c, PiOver3, -2.0 * PiOver3, PiOver3);
    }
  }

  /** Every move of the depth-n curve draws, and has length length / 3^n;
      at depth 0 the curve is that single move. */
  lemma {:induction false} CurveMoves(n: int, length: real)
    requires n >= 0
    ensures forall m :: m in Curve(n, length) && m.Move? ==> m == Move(length / Pow(3.0, n), true)
    ensures n == 0 ==> Curve(n, length) == [Move(length, true)]
    decreases n
  {
    if n > 0 {
      CurveMoves(n - 1, length / 3.0);
      var p := Pow(3.0, n - 1);
      assert (length / 3.0) / p == length / (3.0 * p);
    }
  }

  /** Drawing a curve leaves the turtle's heading as it found it. */
  lemma CurveKeepsHeading(s: TurtleState, n: int, length: real, dir: real -> Vec)
    requires n >= 0
    ensures Run(s, Curve(n, length), dir).heading == s.heading
  {
    CurveCounts(n, length);
    HeadingIsNetTurn(s, Curve(n, length), dir);
  }

  /** The snowflake draws 3 * 4^n segments, all with the pen down, and turns
      the turtle by -2*pi in total. */
  lemma SnowflakeCounts(s: TurtleState, n: int, length: real, dir: real -> Vec)
    requires n >= 0
    ensures Count(Snowflake(n, length), IsDrawingMove) == 3 * NatPow(4, n)
    ensures Count(Snowflake(n, length), IsPenUpMove) == 0
    ensures NetTurn(Snowflake(n, length)) == -2.0 * Pi
    ensures Run(s, Snowflake(n, length), dir).heading == s.heading - 2.0 * Pi
  {
    var c := Curve(n, length);
    var r := [Rotate(-2.0 * PiOver3)];
    CurveCounts(n, length);
    forall p: Command -> bool | p == IsDrawingMove || p == IsPenUpMove
      ensures Count(Snowflake(n, length), p) == 3 * Count(c, p)
    {
      assert Count(r, p) == 0;
      CountConcat(c, r, p);
      CountConcat(c + r, c, p);
      CountConcat(c + r + c, r, p);
      CountConcat(c + r + c + r, c, p);
      CountConcat(c + r + c + r + c, r, p);
    }
    NetTurnConcat(c, r);
    NetTurnConcat(c + r, c);
    NetTurnConcat(c + r + c, r);
    NetTurnConcat(c + r + c + r, c);
    NetTurnConcat(c + r + c + r + c, r);
    HeadingIsNetTurn(s, Snowflake(n, length), dir);
  }
}
