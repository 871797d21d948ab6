/** The turtle (PathHelper plus its GraphicsContext) as an abstract trace of
    commands. Its trigonometry is unknown, so the unit vector a heading points
    along is a parameter `dir` of the semantics: every fact proved here holds
    for whatever direction function the turtle uses. */
module Turtle {
  import opened Colors

  datatype Vec = Vec(dx: real, dy: real)

  /** move(distance, draw), rotate(angle), setStroke(paint), setLineWidth(w). */
  datatype Command =
    | Move(distance: real, draw: bool)
    | Rotate(angle: real)
    | SetStroke(paint: Paint)
    | SetWidth(width: real)

  /** Cursor position, heading and the drawing attributes of the graphics. */
  datatype TurtleState = TurtleState(x: real, y: real, heading: real, stroke: Paint, lineWidth: real)

  function Step(s: TurtleState, c: Command, dir: real -> Vec): (s': TurtleState)
  {
    match c
    case Move(d, _) =>
      s.(x := s.x + d * dir(s.heading).dx, y := s.y + d * dir(s.heading).dy)
    case Rotate(a) => s.(heading := s.heading + a)
    case SetStroke(p) => s.(stroke := p)
    case SetWidth(w) => s.(lineWidth := w)
  }

  /** The state reached by executing `cmds` in order from `s`. */
  function Run(s: TurtleState, cmds: seq<Command>, dir: real -> Vec): TurtleState
    decreases |cmds|
  {
    if |cmds| == 0 then s else Run(Step(s, cmds[0], dir), cmds[1..], dir)
  }

  lemma {:induction false} RunConcat(s: TurtleState, a: seq<Command>, b: seq<Command>, dir: real -> Vec)
    ensures Run(s, a + b, dir) == Run(Run(s, a, dir), b, dir)
    decreases |a|
  {
    if |a| == 0 {
      assert a + b == b;
    } else {
      assert (a + b)[0] == a[0];
      assert (a + b)[1..] == a[1..] + b;
      RunConcat(Step(s, a[0], dir), a[1..], b, dir);
    }
  }

  lemma RunOne(s: TurtleState, c: Command, dir: real -> Vec)
    ensures Run(s, [c], dir) == Step(s, c, dir)
  {
    assert [c][1..] == [];
  }

  predicate IsDrawingMove(c: Command) {
    c.Move? && c.draw
  }

  predicate IsPenUpMove(c: Command) {
    c.Move? && !c.draw
  }

  predicate IsRotation(c: Command) {
    c.Rotate?
  }

  /** Number of commands of the trace satisfying `p`. */
  function Count(cmds: seq<Command>, p: Command -> bool): nat
    decreases |cmds|
  {
    if |cmds| == 0 then 0 else (if p(cmds[0]) then 1 else 0) + Count(cmds[1..], p)
  }

  lemma {:induction false} CountConcat(a: seq<Command>, b: seq<Command>, p: Command -> bool)
    ensures Count(a + b, p) == Count(a, p) + Count(b, p)
    decreases |a|
  {
    if |a| == 0 {
      assert a + b == b;
    } else {
      assert (a + b)[0] == a[0];
      assert (a + b)[1..] == a[1..] + b;
      CountConcat(a[1..], b, p);
    }
  }

  lemma CountOne(c: Command, p: Command -> bool)
    ensures Count([c], p) == if p(c) then 1 else 0
  {
    assert [c][1..] == [];
  }

  /** A trace none of whose commands satisfies `p` counts zero of them. */
  lemma {:induction false} CountNone(cmds: seq<Command>, p: Command -> bool)
    requires forall i :: 0 <= i < |cmds| ==> !p(cmds[i])
    ensures Count(cmds, p) == 0
    decreases |cmds|
  {
    if |cmds| > 0 {
      CountNone(cmds[1..], p);
    }
  }

  /** The sum of the angles of the trace's rotations. */
  function NetTurn(cmds: seq<Command>): real
    decreases |cmds|
  {
    if |cmds| == 0 then 0.0
    else (if cmds[0].Rotate? then cmds[0].angle else 0.0) + NetTurn(cmds[1..])
  }

  lemma {:induction false} NetTurnConcat(a: seq<Command>, b: seq<Command>)
    ensures NetTurn(a + b) == NetTurn(a) + NetTurn(b)
    decreases |a|
  {
    if |a| == 0 {
      assert a + b == b;
    } else {
      assert (a + b)[0] == a[0];
      assert (a + b)[1..] == a[1..] + b;
      NetTurnConcat(a[1..], b);
    }
  }

  lemma NetTurnOne(c: Command)
    ensures NetTurn([c]) == if c.Rotate? then c.angle else 0.0
  {
    assert [c][1..] == [];
  }

  /** Executing a trace turns the turtle by exactly the trace's net turn,
      whatever the direction function. */
  lemma {:induction false} HeadingIsNetTurn(s: TurtleState, cmds: seq<Command>, dir: real -> Vec)
    ensures Run(s, cmds, dir).heading == s.heading + NetTurn(cmds)
    decreases |cmds|
  {
    if |cmds| > 0 {
      HeadingIsNetTurn(Step(s, cmds[0], dir), cmds[1..], dir);
    }
  }

  /** A trace without SetStroke and SetWidth commands leaves the drawing
      attributes alone. */
  lemma {:induction false} AttributesUntouched(s: TurtleState, cmds: seq<Command>, dir: real -> Vec)
    requires forall i :: 0 <= i < |cmds| ==> cmds[i].Move? || cmds[i].Rotate?
    ensures Run(s, cmds, dir).stroke == s.stroke
    ensures Run(s, cmds, dir).lineWidth == s.lineWidth
    decreases |cmds|
  {
    if |cmds| > 0 {
      AttributesUntouched(Step(s, cmds[0], dir), cmds[1..], dir);
    }
  }
}
