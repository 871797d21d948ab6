/** The Pythagoras tree generator (PythagorasTree) as a turtle-command trace. */
module Pythagoras {
  import opened Wrappers
  import opened Arith
  import opened Colors
  import opened Turtle

  const MinFactor: real := 0.0
  const MaxFactor: real := 1.0
  const MinAngle: real := 0.0
  const MaxAngle: real := HalfPi

  datatype PythagorasTree = PythagorasTree(widthFactor: real, lengthFactor: real, leftAngle: real, rightAngle: real)

  predicate FactorInRange(f: real) {
    MinFactor <= f <= MaxFactor
  }

  predicate AngleInRange(a: real) {
    MinAngle <= a <= MaxAngle
  }

  /** The constructor: each parameter is checked in turn and the first one
      out of range is named in the error. */
  function New(widthFactor: real, lengthFactor: real, leftAngle: real, rightAngle: real): (r: Result<PythagorasTree>)
    ensures r.Success? <==>
      FactorInRange(widthFactor) && FactorInRange(lengthFactor) && AngleInRange(leftAngle) && AngleInRange(rightAngle)
    ensures r.Success? ==> r.value == PythagorasTree(widthFactor, lengthFactor, leftAngle, rightAngle)
    ensures !FactorInRange(widthFactor) ==> r.error == IllegalArgument("widthFactor")
    ensures FactorInRange(widthFactor) && !FactorInRange(lengthFactor) ==> r.error == IllegalArgument("lengthFactor")
    ensures FactorInRange(widthFactor) && FactorInRange(lengthFactor) && !AngleInRange(leftAngle)
      ==> r.error == IllegalArgument("leftAngle")
    ensures r.Failure? && AngleInRange(leftAngle) && FactorInRange(widthFactor) && FactorInRange(lengthFactor)
      ==> r.error == IllegalArgument("rightAngle")
  {
    if widthFactor < MinFactor || widthFactor > MaxFactor then Failure(IllegalArgument("widthFactor"))
    else if lengthFactor < MinFactor || lengthFactor > MaxFactor then Failure(IllegalArgument("lengthFactor"))
    else if leftAngle < MinAngle || leftAngle > MaxAngle then Failure(IllegalArgument("leftAngle"))
    else if rightAngle < MinAngle || rightAngle > MaxAngle then Failure(IllegalArgument("rightAngle"))
    else Success(PythagorasTree(widthFactor, lengthFactor, leftAngle, rightAngle))
  }

  /** The interpolation factor 1 - 0.85^(n-2) of getColor. */
  function ColorFactor(n: int): real {
    1.0 - PowInt(0.85, n - 2)
  }

  /** getColor(n): rejects a negative level, otherwise the paint
      GREEN.interpolate(SADDLEBROWN, 1 - 0.85^(n-2)). */
  function GetColor(n: int): (r: Result<Paint>)
    ensures r.Success? <==> n >= 0
    ensures r.Failure? ==> r.error == IllegalArgument("n")
    ensures r.Success? ==> r.value.Interpolated? && r.value.from == Green && r.value.to == SaddleBrown
  {
    if n < 0 then Failure(IllegalArgument("n"))
    else Success(Interpolated(Green, SaddleBrown, ColorFactor(n)))
  }

  lemma ColorFactorLevel0()
    ensures ColorFactor(0) < 0.0
  {
    var q := 1.0 / 0.85;
    assert q > 1.0;
    assert PowInt(0.85, -2) == q * (q * Pow(q, 0));
  }

  lemma ColorFactorLevel1()
    ensures ColorFactor(1) < 0.0
  {
    assert PowInt(0.85, -1) == (1.0 / 0.85) * Pow(1.0 / 0.85, 0);
  }

  lemma ColorFactorAbove2(n: int)
    requires n > 2
    ensures 0.0 < ColorFactor(n) < 1.0
  {
    var p := Pow(0.85, n - 3);
    assert Pow(0.85, n - 2) == 0.85 * p;
    assert 0.0 < p <= 1.0;
  }

  /** The interpolation factor is negative for the two lowest levels (the
      colour then stays at the green end), zero at level 2, and strictly
      between 0 and 1 above. */
  lemma ColorFactorRange(n: int)
    requires n >= 0
    ensures n < 2 ==> ColorFactor(n) < 0.0
    ensures n == 2 ==> ColorFactor(n) == 0.0
    ensures n > 2 ==> 0.0 < ColorFactor(n) < 1.0
  {
    if n == 0 {
      ColorFactorLevel0();
    } else if n == 1 {
      ColorFactorLevel1();
    } else if n > 2 {
      ColorFactorAbove2(n);
    }
  }

  /** The head of every node: stroke, width, and the drawn branch. */
  function Head(n: int, width: real, length: real): seq<Command>
    requires n >= 0
  {
    [SetStroke(GetColor(n).value), SetWidth(width), Move(length, true)]
  }

  /** What the head of a node draws: one branch, no pen-up move and no
      turn. */
  lemma HeadCounts(n: int, width: real, length: real)
    requires n >= 0
    ensures Count(Head(n, width, length), IsDrawingMove) == 1
    ensures Count(Head(n, width, length), IsPenUpMove) == 0
    ensures Count(Head(n, width, length), IsRotation) == 0
    ensures NetTurn(Head(n, width, length)) == 0.0
  {
    var a, b, c := [SetStroke(GetColor(n).value)], [SetWidth(width)], [Move(length, true)];
    assert Head(n, width, length) == a + b + c;
    forall p: Command -> bool | p == IsDrawingMove || p == IsPenUpMove || p == IsRotation
      ensures Count(a + b + c, p) == Count(a, p) + Count(b, p) + Count(c, p)
    {
      CountConcat(a, b, p);
      CountConcat(a + b, c, p);
    }
    CountOne(a[0], IsDrawingMove);
    CountOne(b[0], IsDrawingMove);
    CountOne(c[0], IsDrawingMove);
    CountOne(a[0], IsPenUpMove);
    CountOne(b[0], IsPenUpMove);
    CountOne(c[0], IsPenUpMove);
    CountOne(a[0], IsRotation);
    CountOne(b[0], IsRotation);
    CountOne(c[0], IsRotation);
    NetTurnConcat(a, b);
    NetTurnConcat(a + b, c);
    NetTurnOne(a[0]);
    NetTurnOne(b[0]);
    NetTurnOne(c[0]);
  }

  /** What executing the head of a node does: the branch is drawn along
      the heading, with the level's stroke and width. */
  lemma HeadRun(s: TurtleState, n: int, width: real, length: real, dir: real -> Vec)
    requires n >= 0
    ensures Run(s, Head(n, width, length), dir)
         == s.(x := s.x + length * dir(s.heading).dx, y := s.y + length * dir(s.heading).dy,
               stroke := GetColor(n).value, lineWidth := width)
  {
    var a, b, c := [SetStroke(GetColor(n).value)], [SetWidth(width)], [Move(length, true)];
    assert Head(n, width, length) == a + b + c;
    RunConcat(s, a, b, dir);
    RunConcat(s, a + b, c, dir);
    RunOne(s, a[0], dir);
    RunOne(Run(s, a, dir), b[0], dir);
    RunOne(Run(s, a + b, dir), c[0], dir);
  }

  /** newWidth = width * widthFactor. */
  function NewWidth(t: PythagorasTree, width: real): real {
    width * t.widthFactor
  }

  /** newLength = length * lengthFactor. */
  function NewLength(t: PythagorasTree, length: real): real {
    length * t.lengthFactor
  }

  /** A full node: the head, the left subtree between the turns -left and
      left+right, the right subtree, the turn -right, and the move back. */
  function Node(t: PythagorasTree, hd: seq<Command>, c: seq<Command>, length: real): seq<Command> {
    hd + [Rotate(-t.leftAngle)] + c + [Rotate(t.leftAngle + t.rightAngle)] + c
      + [Rotate(-t.rightAngle)] + [Move(-length, false)]
  }

  /** _generate(h, n, width, length). The recursion stops at n == -1, and
      a node whose child width or length is exactly 0 returns right after
      drawing its branch, skipping the turns and the move back. */
  function Branch(t: PythagorasTree, n: int, width: real, length: real): seq<Command>
    requires n >= -1
    decreases n + 1
  {
    if n == -1 then []
    else if NewWidth(t, width) == 0.0 || NewLength(t, length) == 0.0 then Head(n, width, length)
    else Node(t, Head(n, width, length), Branch(t, n - 1, NewWidth(t, width), NewLength(t, length)), length)
  }

  /** generate(h, n, initialWidth, initialLength): validates its arguments,
      remembers the stroke and line width, draws the tree and restores them. */
  function Generate(t: PythagorasTree, h: TurtleState, n: int, initialWidth: real, initialLength: real)
    : (r: Result<seq<Command>>)
    ensures r.Success? <==> n >= 0 && initialWidth > 0.0 && initialLength > 0.0
    ensures n < 0 ==> r.error == IllegalArgument("n")
    ensures n >= 0 && initialWidth <= 0.0 ==> r.error == IllegalArgument("initialWidth")
    ensures n >= 0 && initialWidth > 0.0 && initialLength <= 0.0 ==> r.error == IllegalArgument("initialLength")
  {
    if n < 0 then Failure(IllegalArgument("n"))
    else if initialWidth <= 0.0 then Failure(IllegalArgument("initialWidth"))
    else if initialLength <= 0.0 then Failure(IllegalArgument("initialLength"))
    else Success(Branch(t, n, initialWidth, initialLength) + [SetStroke(h.stroke), SetWidth(h.lineWidth)])
  }

  predicate PositiveFactors(t: PythagorasTree) {
    t.widthFactor > 0.0 && t.lengthFactor > 0.0
  }

  /** Counting lemma for the shape of a full node. */
  lemma NodeCount(hd: seq<Command>, c: seq<Command>, a1: real, a2: real, a3: real, back: real, p: Command -> bool)
    ensures Count(hd + [Rotate(a1)] + c + [Rotate(a2)] + c + [Rotate(a3)] + [Move(back, false)], p)
         == Count(hd, p) + 2 * Count(c, p) + Count([Rotate(a1)], p) + Count([Rotate(a2)], p)
          + Count([Rotate(a3)], p) + Count([Move(back, false)], p)
  {
    var r1, r2, r3, m := [Rotate(a1)], [Rotate(a2)], [Rotate(a3)], [Move(back, false)];
    CountConcat(hd, r1, p);
    CountConcat(hd + r1, c, p);
    CountConcat(hd + r1 + c, r2, p);
    CountConcat(hd + r1 + c + r2, c, p);
    CountConcat(hd + r1 + c + r2 + c, r3, p);
    CountConcat(hd + r1 + c + r2 + c + r3, m, p);
  }

  /** A full node draws its head's branches and two copies of the
      child's, and adds one pen-up move, the move back, to theirs. */
  lemma NodeMoves(t: PythagorasTree, hd: seq<Command>, c: seq<Command>, length: real)
    ensures Count(Node(t, hd, c, length), IsDrawingMove) == Count(hd, IsDrawingMove) + 2 * Count(c, IsDrawingMove)
    ensures Count(Node(t, hd, c, length), IsPenUpMove) == Count(hd, IsPenUpMove) + 2 * Count(c, IsPenUpMove) + 1
  {
    var a1, a2, a3 := -t.leftAngle, t.leftAngle + t.rightAngle, -t.rightAngle;
    NodeCount(hd, c, a1, a2, a3, -length, IsDrawingMove);
    NodeCount(hd, c, a1, a2, a3, -length, IsPenUpMove);
    CountOne(Rotate(a1), IsDrawingMove);
    CountOne(Rotate(a2), IsDrawingMove);
    CountOne(Rotate(a3), IsDrawingMove);
    CountOne(Move(-length, false), IsDrawingMove);
    CountOne(Rotate(a1), IsPenUpMove);
    CountOne(Rotate(a2), IsPenUpMove);
    CountOne(Rotate(a3), IsPenUpMove);
    CountOne(Move(-length, false), IsPenUpMove);
  }

  lemma NodeNetTurn(hd: seq<Command>, c: seq<Command>, a1: real, a2: real, a3: real, back: real)
    ensures NetTurn(hd + [Rotate(a1)] + c + [Rotate(a2)] + c + [Rotate(a3)] + [Move(back, false)])
         == NetTurn(hd) + 2.0 * NetTurn(c) + a1 + a2 + a3
  {
    var r1, r2, r3, m := [Rotate(a1)], [Rotate(a2)], [Rotate(a3)], [Move(back, false)];
    NetTurnConcat(hd, r1);
    NetTurnConcat(hd + r1, c);
    NetTurnConcat(hd + r1 + c, r2);
    NetTurnConcat(hd + r1 + c + r2, c);
    NetTurnConcat(hd + r1 + c + r2 + c, r3);
    NetTurnConcat(hd + r1 + c + r2 + c + r3, m);
    NetTurnOne(r1[0]);
    NetTurnOne(r2[0]);
    NetTurnOne(r3[0]);
    NetTurnOne(m[0]);
  }

  lemma PositiveProduct(a: real, b: real)
    requires a > 0.0 && b > 0.0
    ensures a * b > 0.0
  {
  }

  lemma NonNegativeProduct(a: real, b: real)
    requires a >= 0.0 && b >= 0.0
    ensures a * b >= 0.0
  {
  }

  /** With both factors positive no child dimension is ever 0, so a tree of
      level n draws 2^(n+1) - 1 branches and makes exactly as many pen-up
      moves: one move back per branch. */
  lemma {:induction false} BranchCounts(t: PythagorasTree, n: int, width: real, length: real)
    requires n >= -1 && width > 0.0 && length > 0.0 && PositiveFactors(t)
    ensures Count(Branch(t, n, width, length), IsDrawingMove) == NatPow(2, n + 1) - 1
    ensures Count(Branch(t, n, width, length), IsPenUpMove) == NatPow(2, n + 1) - 1
    decreases n + 1
  {
    if n >= 0 {
      var w', l' := NewWidth(t, width), NewLength(t, length);
      PositiveProduct(width, t.widthFactor);
      PositiveProduct(length, t.lengthFactor);
      var c := Branch(t, n - 1, w', l');
      BranchCounts(t, n - 1, w', l');
      var hd := Head(n, width, length);
      assert Branch(t, n, width, length) == Node(t, hd, c, length);
      HeadCounts(n, width, length);
      NodeMoves(t, hd, c, length);
    }
  }

  /** Every move of `cmds` made with the pen up goes backwards. */
  predicate BacksOnly(cmds: seq<Command>) {
    forall m :: m in cmds && IsPenUpMove(m) ==> m.distance < 0.0
  }

  /** A node adds one pen-up move to those of its child: the move back by
      the length of its branch. */
  lemma NodePenUpMoves(t: PythagorasTree, n: int, width: real, length: real, c: seq<Command>)
    requires n >= 0 && length > 0.0 && BacksOnly(c)
    ensures BacksOnly(Node(t, Head(n, width, length), c, length))
  {
  }

  /** The only moves made with the pen up are moves back, against the
      heading, by the length of the branch just drawn. */
  lemma {:induction false} BranchPenUpMovesGoBack(t: PythagorasTree, n: int, width: real, length: real)
    requires n >= -1 && length > 0.0 && t.lengthFactor >= 0.0
    ensures BacksOnly(Branch(t, n, width, length))
    decreases n + 1
  {
    if n >= 0 {
      var w', l' := NewWidth(t, width), NewLength(t, length);
      NonNegativeProduct(length, t.lengthFactor);
      if w' == 0.0 || l' == 0.0 {
        assert Branch(t, n, width, length) == Head(n, width, length);
      } else {
        var c := Branch(t, n - 1, w', l');
        BranchPenUpMovesGoBack(t, n - 1, w', l');
        assert Branch(t, n, width, length) == Node(t, Head(n, width, length), c, length);
        NodePenUpMoves(t, n, width, length, c);
      }
    }
  }

  /** Whatever the parameters, the turns of a subtree cancel out:
      -left, +(left+right) and -right per node. */
  lemma {:induction false} BranchNetTurn(t: PythagorasTree, n: int, width: real, length: real)
    requires n >= -1
    ensures NetTurn(Branch(t, n, width, length)) == 0.0
    decreases n + 1
  {
    if n >= 0 {
      var w', l' := NewWidth(t, width), NewLength(t, length);
      var hd := Head(n, width, length);
      HeadCounts(n, width, length);
      if w' != 0.0 && l' != 0.0 {
        var c := Branch(t, n - 1, w', l');
        BranchNetTurn(t, n - 1, w', l');
        assert Branch(t, n, width, length) == Node(t, hd, c, length);
        NodeNetTurn(hd, c, -t.leftAngle, t.leftAngle + t.rightAngle, -t.rightAngle, -length);
      }
    }
  }

  /** Executing a node is executing its seven parts one after the other. */
  lemma RunNode(s: TurtleState, t: PythagorasTree, hd: seq<Command>, c: seq<Command>, length: real, dir: real -> Vec)
    ensures
      var s2 := Step(Run(s, hd, dir), Rotate(-t.leftAngle), dir);
      var s4 := Step(Run(s2, c, dir), Rotate(t.leftAngle + t.rightAngle), dir);
      var s6 := Step(Run(s4, c, dir), Rotate(-t.rightAngle), dir);
      Run(s, Node(t, hd, c, length), dir) == Step(s6, Move(-length, false), dir)
  {
    var r1, r2, r3, m := [Rotate(-t.leftAngle)], [Rotate(t.leftAngle + t.rightAngle)], [Rotate(-t.rightAngle)], [Move(-length, false)];
    RunConcat(s, hd, r1, dir);
    RunConcat(s, hd + r1, c, dir);
    RunConcat(s, hd + r1 + c, r2, dir);
    RunConcat(s, hd + r1 + c + r2, c, dir);
    RunConcat(s, hd + r1 + c + r2 + c, r3, dir);
    RunConcat(s, hd + r1 + c + r2 + c + r3, m, dir);
    var s1 := Run(s, hd, dir);
    RunOne(s1, r1[0], dir);
    var s3 := Run(Run(s1, r1, dir), c, dir);
    RunOne(s3, r2[0], dir);
    var s5 := Run(Run(s3, r2, dir), c, dir);
    RunOne(s5, r3[0], dir);
    RunOne(Run(s5, r3, dir), m[0], dir);
  }

  /** Executing `cmds` from `s` leaves the turtle where it was, facing the
      same way. */
  predicate Returns(s: TurtleState, cmds: seq<Command>, dir: real -> Vec) {
    var e := Run(s, cmds, dir);
    e.x == s.x && e.y == s.y && e.heading == s.heading
  }

  /** A full node whose child subtree always returns the turtle also
      returns it: the turns cancel and the move back undoes the branch. */
  lemma NodeReturns(t: PythagorasTree, s: TurtleState, n: int, width: real, length: real, c: seq<Command>, dir: real -> Vec)
    requires n >= 0
    requires forall s': TurtleState :: Returns(s', c, dir)
    ensures Returns(s, Node(t, Head(n, width, length), c, length), dir)
  {
    var hd := Head(n, width, length);
    RunNode(s, t, hd, c, length, dir);
    HeadRun(s, n, width, length, dir);
    var s1 := Run(s, hd, dir);
    var s2 := Step(s1, Rotate(-t.leftAngle), dir);
    assert Returns(s2, c, dir);
    var s4 := Step(Run(s2, c, dir), Rotate(t.leftAngle + t.rightAngle), dir);
    assert Returns(s4, c, dir);
    var s6 := Step(Run(s4, c, dir), Rotate(-t.rightAngle), dir);
    assert s6.heading == s.heading;
    assert s6.x == s1.x && s6.y == s1.y;
  }

  /** With both factors positive, drawing a subtree brings the turtle back
      to where it started, facing the same way. */
  lemma {:induction false} BranchReturns(t: PythagorasTree, s: TurtleState, n: int, width: real, length: real, dir: real -> Vec)
    requires n >= -1 && width > 0.0 && length > 0.0 && PositiveFactors(t)
    ensures Run(s, Branch(t, n, width, length), dir).x == s.x
    ensures Run(s, Branch(t, n, width, length), dir).y == s.y
    ensures Run(s, Branch(t, n, width, length), dir).heading == s.heading
    decreases n + 1
  {
    if n >= 0 {
      var w', l' := NewWidth(t, width), NewLength(t, length);
      PositiveProduct(width, t.widthFactor);
      PositiveProduct(length, t.lengthFactor);
      var c := Branch(t, n - 1, w', l');
      forall s': TurtleState
        ensures Returns(s', c, dir)
      {
        BranchReturns(t, s', n - 1, w', l', dir);
      }
      assert Branch(t, n, width, length) == Node(t, Head(n, width, length), c, length);
      NodeReturns(t, s, n, width, length, c, dir);
    }
  }

  /** A node whose child width or length is exactly 0 draws its one branch
      with no turn and no move back, so the turtle is left at the tip of
      that branch. */
  lemma BranchEarlyExit(t: PythagorasTree, s: TurtleState, n: int, width: real, length: real, dir: real -> Vec)
    requires n >= 0
    requires NewWidth(t, width) == 0.0 || NewLength(t, length) == 0.0
    ensures Count(Branch(t, n, width, length), IsDrawingMove) == 1
    ensures Count(Branch(t, n, width, length), IsRotation) == 0
    ensures Count(Branch(t, n, width, length), IsPenUpMove) == 0
    ensures Run(s, Branch(t, n, width, length), dir).x == s.x + length * dir(s.heading).dx
    ensures Run(s, Branch(t, n, width, length), dir).y == s.y + length * dir(s.heading).dy
    ensures Run(s, Branch(t, n, width, length), dir).heading == s.heading
  {
    assert Branch(t, n, width, length) == Head(n, width, length);
    HeadCounts(n, width, length);
    HeadRun(s, n, width, length, dir);
  }

  /** Command i of trace b is the branch of level k of a subtree drawn from
      depth n: it comes right after the stroke getColor(k) and the width
      width * widthFactor^(n-k), and its length is
      length * lengthFactor^(n-k). */
  predicate DrawnAtLevel(t: PythagorasTree, b: seq<Command>, i: int, n: int, width: real, length: real, k: int) {
    2 <= i < |b| && k <= n
    && b[i - 2] == SetStroke(Interpolated(Green, SaddleBrown, ColorFactor(k)))
    && b[i - 1] == SetWidth(Scaled(width, t.widthFactor, n - k))
    && b[i] == Move(Scaled(length, t.lengthFactor, n - k), true)
  }

  /** Position i of a node outside its head that holds a drawing move lies
      in one of the two copies of the child, at child position j, and the
      two commands before it are those of the child. */
  lemma NodeChildIndex(t: PythagorasTree, hd: seq<Command>, c: seq<Command>, length: real, i: int) returns (j: int)
    requires |hd| == 3 && 3 <= i < |Node(t, hd, c, length)| && IsDrawingMove(Node(t, hd, c, length)[i])
    ensures 0 <= j < |c| && Node(t, hd, c, length)[i] == c[j]
    ensures j >= 2 ==> Node(t, hd, c, length)[i - 1] == c[j - 1] && Node(t, hd, c, length)[i - 2] == c[j - 2]
  {
    var m := |c|;
    var r1, r2, r3, mv := [Rotate(-t.leftAngle)], [Rotate(t.leftAngle + t.rightAngle)], [Rotate(-t.rightAngle)], [Move(-length, false)];
    var b := Node(t, hd, c, length);
    assert b == hd + r1 + c + r2 + c + r3 + mv;
    assert i != 3 && i != 4 + m && i != 5 + 2 * m && i != 6 + 2 * m;
    j := if i < 4 + m then i - 4 else i - 5 - m;
  }

  /** A dimension scaled by e levels of a factor. */
  function Scaled(x: real, f: real, e: nat): real {
    x * Pow(f, e)
  }

  /** One more level of factor: the child's dimension scaled e levels
      further down is the parent's scaled e + 1 levels. */
  lemma ScaleOneLevel(f: real, x: real, e: nat)
    ensures Scaled(x * f, f, e) == Scaled(x, f, e + 1)
  {
    assert Pow(f, e + 1) == f * Pow(f, e);
  }

  /** A branch of the child drawn at level k is, seen from the parent one
      level up, a branch drawn at the same level k. */
  lemma ChildLevelLifts(t: PythagorasTree, b: seq<Command>, c: seq<Command>, n: int, width: real, length: real, i: int, j: int, k: int)
    requires 0 <= k <= n - 1
    requires DrawnAtLevel(t, c, j, n - 1, NewWidth(t, width), NewLength(t, length), k)
    requires 2 <= i < |b| && b[i] == c[j] && b[i - 1] == c[j - 1] && b[i - 2] == c[j - 2]
    ensures DrawnAtLevel(t, b, i, n, width, length, k)
  {
    ScaleOneLevel(t.widthFactor, width, n - 1 - k);
    ScaleOneLevel(t.lengthFactor, length, n - 1 - k);
  }

  /** Every branch is drawn right after the stroke and width of its level:
      the branch at level k (counting down from n) has width
      width * widthFactor^(n-k), length length * lengthFactor^(n-k) and
      stroke getColor(k), with k never negative. */
  lemma {:induction false} BranchLevel(t: PythagorasTree, n: int, width: real, length: real, i: int)
    requires n >= -1
    requires 0 <= i < |Branch(t, n, width, length)| && IsDrawingMove(Branch(t, n, width, length)[i])
    ensures exists k :: 0 <= k <= n && DrawnAtLevel(t, Branch(t, n, width, length), i, n, width, length, k)
    decreases n + 1
  {
    var b := Branch(t, n, width, length);
    var w', l' := NewWidth(t, width), NewLength(t, length);
    var hd := Head(n, width, length);
    if i < 3 {
      assert b[..3] == hd;
      assert DrawnAtLevel(t, b, i, n, width, length, n);
    } else {
      var c := Branch(t, n - 1, w', l');
      assert b == Node(t, hd, c, length);
      var j := NodeChildIndex(t, hd, c, length, i);
      BranchLevel(t, n - 1, w', l', j);
      var k :| 0 <= k <= n - 1 && DrawnAtLevel(t, c, j, n - 1, w', l', k);
      ChildLevelLifts(t, b, c, n, width, length, i, j, k);
    }
  }

  /** generate leaves the stroke paint and line width as it found them. */
  lemma GenerateRestoresAttributes(t: PythagorasTree, h: TurtleState, n: int, initialWidth: real, initialLength: real, dir: real -> Vec)
    requires Generate(t, h, n, initialWidth, initialLength).Success?
    ensures Run(h, Generate(t, h, n, initialWidth, initialLength).value, dir).stroke == h.stroke
    ensures Run(h, Generate(t, h, n, initialWidth, initialLength).value, dir).lineWidth == h.lineWidth
  {
    var b := Branch(t, n, initialWidth, initialLength);
    var a, w := [SetStroke(h.stroke)], [SetWidth(h.lineWidth)];
    assert Generate(t, h, n, initialWidth, initialLength).value == b + a + w;
    RunConcat(h, b, a, dir);
    RunConcat(h, b + a, w, dir);
    RunOne(Run(h, b, dir), a[0], dir);
    RunOne(Run(h, b + a, dir), w[0], dir);
  }

  /** With both factors positive, generate returns the turtle to its exact
      starting state: position, heading, stroke and line width. */
  lemma GenerateRestoresTurtle(t: PythagorasTree, h: TurtleState, n: int, initialWidth: real, initialLength: real, dir: real -> Vec)
    requires PositiveFactors(t)
    requires Generate(t, h, n, initialWidth, initialLength).Success?
    ensures Run(h, Generate(t, h, n, initialWidth, initialLength).value, dir) == h
  {
    var b := Branch(t, n, initialWidth, initialLength);
    var a, w := [SetStroke(h.stroke)], [SetWidth(h.lineWidth)];
    assert Generate(t, h, n, initialWidth, initialLength).value == b + a + w;
    RunConcat(h, b, a, dir);
    RunConcat(h, b + a, w, dir);
    RunOne(Run(h, b, dir), a[0], dir);
    RunOne(Run(h, b + a, dir), w[0], dir);
    BranchReturns(t, h, n, initialWidth, initialLength, dir);
  }

  /** A zero width or length factor stops the tree at its root, whatever
      level is asked for: exactly one branch is drawn and no turn is made. */
  lemma ZeroFactorDrawsRootOnly(t: PythagorasTree, h: TurtleState, n: int, initialWidth: real, initialLength: real)
    requires t.widthFactor == 0.0 || t.lengthFactor == 0.0
    requires Generate(t, h, n, initialWidth, initialLength).Success?
    ensures Count(Generate(t, h, n, initialWidth, initialLength).value, IsDrawingMove) == 1
    ensures Count(Generate(t, h, n, initialWidth, initialLength).value, IsRotation) == 0
  {
    var b := Branch(t, n, initialWidth, initialLength);
    var tail := [SetStroke(h.stroke), SetWidth(h.lineWidth)];
    BranchEarlyExit(t, h, n, initialWidth, initialLength, (_: real) => Vec(0.0, 0.0));
    CountConcat(b, tail, IsDrawingMove);
    CountConcat(b, tail, IsRotation);
    CountNone(tail, IsDrawingMove);
    CountNone(tail, IsRotation);
  }
}
