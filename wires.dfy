/** Day 3, the path builder. It turns a line of moves into the list of points
    the wire visits, starting from the origin. It then indexes the points by
    orientation and sorts each index. The intersection search is still a stub
    in this program. */
module Wires {
  import opened Wrappers
  import opened WireSyntax

  /** A point of a path: where the wire is, the direction of the move that
      reached it (`Origin` for the start), and the steps walked so far. */
  datatype Point = Point(x: int, y: int, direction: Direction, steps: nat)
  {
    /** `Point::next`. The new point carries the move's direction and adds the
        move's distance to the step count. A Left or Right move changes only
        `x`, and an Up or Down move changes only `y`. So the new point lies
        exactly `distance` away in the Manhattan metric. */
    function Next(step: Step): (p: Point)
      requires step.direction != Origin
      ensures p.steps == steps + step.distance
      ensures p.direction == step.direction
      ensures IsHorizontal(step.direction) ==> p.y == y && p.x == x + Sign(step.direction) * step.distance
      ensures IsVertical(step.direction) ==> p.x == x && p.y == y + Sign(step.direction) * step.distance
      ensures Manhattan(this, p) == step.distance
    {
      var steps' := steps + step.distance;
      match step.direction
      case Right => Point(x + step.distance, y, step.direction, steps')
      case Left => Point(x - step.distance, y, step.direction, steps')
      case Up => Point(x, y + step.distance, step.direction, steps')
      case Down => Point(x, y - step.distance, step.direction, steps')
    }
  }

  /** Left and Right moves run along the x axis. */
  predicate IsHorizontal(d: Direction)
  {
    d == Left || d == Right
  }

  /** Up and Down moves run along the y axis. */
  predicate IsVertical(d: Direction)
  {
    d == Up || d == Down
  }

  /** The sense of a move along its axis. */
  function Sign(d: Direction): int
  {
    if d == Right || d == Up then 1 else if d == Left || d == Down then -1 else 0
  }

  function Abs(n: int): nat
  {
    if n < 0 then -n else n
  }

  /** The Manhattan distance between two points. */
  function Manhattan(p: Point, q: Point): nat
  {
    Abs(p.x - q.x) + Abs(p.y - q.y)
  }

  /** The first point of every path. */
  const Start := Point(0, 0, Origin, 0)

  /** Two moves in the same direction reach the same point as one move of
      their summed length. */
  lemma NextAdditive(p: Point, d: Direction, a: nat, b: nat)
    requires d != Origin
    ensures p.Next(Step(d, a)).Next(Step(d, b)) == p.Next(Step(d, a + b))
  {
  }

  /** No move in a list goes toward `Origin`. This holds for every list that
      `parse_step` produces. */
  predicate Moves(steps: seq<Step>)
  {
    forall i :: 0 <= i < |steps| ==> steps[i].direction != Origin
  }

  /** The sum of all move distances. */
  function TotalDistance(steps: seq<Step>): nat
  {
    if |steps| == 0 then 0 else TotalDistance(steps[..|steps| - 1]) + steps[|steps| - 1].distance
  }

  /** The fold of `to_points`. It starts at `Start`, and each move appends the
      `Next` of the last point. */
  function Walk(steps: seq<Step>): (path: seq<Point>)
    requires Moves(steps)
    ensures |path| == |steps| + 1
    ensures path[0] == Start
  {
    if |steps| == 0 then [Start]
    else
      var prefix := Walk(steps[..|steps| - 1]);
      prefix + [prefix[|prefix| - 1].Next(steps[|steps| - 1])]
  }

  /** The path of a longer move list extends the path of its prefix. */
  lemma {:induction false} WalkPrefix(steps: seq<Step>, n: nat)
    requires Moves(steps) && n <= |steps|
    ensures Moves(steps[..n])
    ensures Walk(steps[..n]) == Walk(steps)[..n + 1]
    decreases |steps|
  {
    if n < |steps| {
      var s' := steps[..|steps| - 1];
      assert s'[..n] == steps[..n];
      WalkPrefix(s', n);
    } else {
      assert steps[..n] == steps;
    }
  }

  /** Each point after the first is the `Next` of its predecessor under the
      matching move. */
  lemma {:induction false} WalkAt(steps: seq<Step>, i: nat)
    requires Moves(steps) && 1 <= i <= |steps|
    ensures Walk(steps)[i] == Walk(steps)[i - 1].Next(steps[i - 1])
  {
    WalkPrefix(steps, i);
    WalkPrefix(steps, i - 1);
    assert steps[..i][..i - 1] == steps[..i - 1];
  }

  /** Each point's step count is the total distance of the moves before it. */
  lemma {:induction false} WalkStepsAt(steps: seq<Step>, i: nat)
    requires Moves(steps) && i <= |steps|
    ensures Walk(steps)[i].steps == TotalDistance(steps[..i])
    decreases i
  {
    if i > 0 {
      WalkAt(steps, i);
      WalkStepsAt(steps, i - 1);
      assert steps[..i][..i - 1] == steps[..i - 1];
    }
  }

  /** Every point after the first is the `Next` of its predecessor under the
      matching move, and it carries that move's direction, which is never
      `Origin`. Each point's step count is the total distance of the moves
      before it, so the last one is the sum of all distances. */
  lemma WalkShape(steps: seq<Step>)
    requires Moves(steps)
    ensures forall i :: 1 <= i < |Walk(steps)| ==>
              Walk(steps)[i] == Walk(steps)[i - 1].Next(steps[i - 1]) &&
              Walk(steps)[i].direction != Origin
    ensures forall i :: 0 <= i < |Walk(steps)| ==> Walk(steps)[i].steps == TotalDistance(steps[..i])
    ensures Walk(steps)[|steps|].steps == TotalDistance(steps)
  {
    forall i | 1 <= i < |Walk(steps)|
      ensures Walk(steps)[i] == Walk(steps)[i - 1].Next(steps[i - 1])
    {
      WalkAt(steps, i);
    }
    forall i | 0 <= i < |Walk(steps)|
      ensures Walk(steps)[i].steps == TotalDistance(steps[..i])
    {
      WalkStepsAt(steps, i);
    }
    assert steps[..|steps|] == steps;
  }

  /** Step counts along a path never decrease. */
  lemma {:induction false} StepsNondecreasing(steps: seq<Step>, i: nat, j: nat)
    requires Moves(steps) && i <= j < |steps| + 1
    ensures Walk(steps)[i].steps <= Walk(steps)[j].steps
  {
    WalkStepsAt(steps, i);
    WalkStepsAt(steps, j);
    TotalDistancePrefix(steps, i, j);
  }

  /** A longer prefix never has a smaller total distance. */
  lemma {:induction false} TotalDistancePrefix(steps: seq<Step>, i: nat, j: nat)
    requires i <= j <= |steps|
    ensures TotalDistance(steps[..i]) <= TotalDistance(steps[..j])
    decreases j
  {
    if i < j {
      assert steps[..j][..j - 1] == steps[..j - 1];
      TotalDistancePrefix(steps, i, j - 1);
    }
  }

  /** Every token of the line is non-empty and parses. `to_points` unwraps
      each `parse_step`, so anything else panics. */
  predicate WellFormedLine(line: string)
  {
    var tokens := Split(line, ',');
    forall i :: 0 <= i < |tokens| ==> |tokens[i]| > 0 && ParseStep(tokens[i]).Ok?
  }

  /** The moves of a well-formed line, in order. */
  function LineSteps(line: string): (steps: seq<Step>)
    requires WellFormedLine(line)
    ensures |steps| == |Split(line, ',')|
    ensures Moves(steps)
  {
    var tokens := Split(line, ',');
    seq(|tokens|, i requires 0 <= i < |tokens| => ParseStep(tokens[i]).value)
  }

  /** `to_points`. It pushes one point per token onto a vector that starts
      at the origin. The result is the `Walk` of the line's moves, with one
      point more than the line has tokens. */
  method ToPoints(line: string) returns (points: seq<Point>)
    requires WellFormedLine(line)
    ensures points == Walk(LineSteps(line))
    ensures |points| == |Split(line, ',')| + 1 == Count(line, ',') + 2
    ensures points[0] == Start
    ensures points[|points| - 1].steps == TotalDistance(LineSteps(line))
    ensures Indexable(points)
  {
    var tokens := Split(line, ',');
    ghost var steps := LineSteps(line);
    points := [Start];
    for i := 0 to |tokens|
      invariant points == Walk(steps[..i])
    {
      var step := ParseStep(tokens[i]).value;
      assert step == steps[i];
      points := points + [points[|points| - 1].Next(step)];
      assert steps[..i + 1][..i] == steps[..i];
    }
    assert steps[..|tokens|] == steps;
    WalkShape(steps);
    WalkIndexable(steps);
  }

  /** `IndexedPoints::new` needs a non-empty path, because `path[1..]` panics
      on an empty one. Every point after the first must carry a move
      direction, because the `unreachable!()` arm is taken on `Origin`. */
  predicate Indexable(path: seq<Point>)
  {
    |path| >= 1 && forall i :: 1 <= i < |path| ==> path[i].direction != Origin
  }

  /** A path built by `Walk` meets the needs of `IndexedPoints::new`. So on
      `to_points` output the `unreachable!()` arm is never taken. */
  lemma {:induction false} WalkIndexable(steps: seq<Step>)
    requires Moves(steps)
    ensures Indexable(Walk(steps))
  {
    WalkShape(steps);
  }

  /** An index entry: a coordinate and the position of the point in
      `path[1..]`. */
  type Entry = (int, nat)

  /** The horizontal index of the first `n` points of `path[1..]`: each Left or
      Right point as `(x, i)`, in path order. */
  function Horizontals(path: seq<Point>, n: nat): seq<Entry>
    requires n < |path|
  {
    if n == 0 then []
    else
      var p := path[n];
      Horizontals(path, n - 1) + (if IsHorizontal(p.direction) then [(p.x, n - 1)] else [])
  }

  /** The vertical index of the first `n` points of `path[1..]`: each Up or
      Down point as `(y, i)`, in path order. */
  function Verticals(path: seq<Point>, n: nat): seq<Entry>
    requires n < |path|
  {
    if n == 0 then []
    else
      var p := path[n];
      Verticals(path, n - 1) + (if IsVertical(p.direction) then [(p.y, n - 1)] else [])
  }

  /** The two indexes partition the points of `path[1..]`: each of the first
      `n` points becomes exactly one entry. */
  lemma {:induction false} IndexCount(path: seq<Point>, n: nat)
    requires Indexable(path) && n < |path|
    ensures |Horizontals(path, n)| + |Verticals(path, n)| == n
  {
    if n > 0 {
      IndexCount(path, n - 1);
    }
  }

  /** A Left or Right point `path[i + 1]` becomes the horizontal entry
      `(path[i + 1].x, i)`, and the horizontal index holds nothing else. */
  lemma {:induction false} HorizontalMembers(path: seq<Point>, n: nat)
    requires n < |path|
    ensures forall e :: e in Horizontals(path, n) <==>
              e.1 < n && IsHorizontal(path[e.1 + 1].direction) && e.0 == path[e.1 + 1].x
  {
    if n > 0 {
      HorizontalMembers(path, n - 1);
    }
  }

  /** An Up or Down point `path[i + 1]` becomes the vertical entry
      `(path[i + 1].y, i)`, and the vertical index holds nothing else. */
  lemma {:induction false} VerticalMembers(path: seq<Point>, n: nat)
    requires n < |path|
    ensures forall e :: e in Verticals(path, n) <==>
              e.1 < n && IsVertical(path[e.1 + 1].direction) && e.0 == path[e.1 + 1].y
  {
    if n > 0 {
      VerticalMembers(path, n - 1);
    }
  }

  /** Positions increase along each unsorted index, so no point is listed
      twice. */
  lemma {:induction false} IndexIncreasing(path: seq<Point>, n: nat)
    requires n < |path|
    ensures Increasing(Horizontals(path, n)) && Increasing(Verticals(path, n))
  {
    if n > 0 {
      IndexIncreasing(path, n - 1);
      HorizontalMembers(path, n - 1);
      VerticalMembers(path, n - 1);
    }
  }

  /** The positions of an index strictly increase. */
  predicate Increasing(s: seq<Entry>)
  {
    forall i, j :: 0 <= i < j < |s| ==> s[i].1 < s[j].1
  }

  /** An index is sorted ascending by coordinate. */
  predicate SortedByKey(s: seq<Entry>)
  {
    forall i, j :: 0 <= i < j < |s| ==> s[i].0 <= s[j].0
  }

  /** Inserts `e` into a sorted index. */
  function InsertByKey(e: Entry, s: seq<Entry>): (r: seq<Entry>)
    requires SortedByKey(s)
    ensures SortedByKey(r)
    ensures multiset(r) == multiset(s) + multiset{e}
    ensures forall i :: 0 <= i < |r| ==> r[i] == e || r[i] in s
  {
    if |s| == 0 then [e]
    else if e.0 <= s[0].0 then [e] + s
    else
      var rest := InsertByKey(e, s[1..]);
      assert s == [s[0]] + s[1..];
      [s[0]] + rest
  }

  /** `sort_unstable_by_key(|p| p.0)`: a sorted permutation. The order of
      equal keys is not part of what is promised. */
  function SortByKey(s: seq<Entry>): (r: seq<Entry>)
    ensures SortedByKey(r)
    ensures multiset(r) == multiset(s)
  {
    if |s| == 0 then []
    else
      assert s == [s[0]] + s[1..];
      InsertByKey(s[0], SortByKey(s[1..]))
  }

  /** `IndexedPoints`: the points of a path grouped by orientation. `x` holds
      the Left and Right points as `(x, i)`, and `y` holds the Up and Down
      points as `(y, i)`. */
  class IndexedPoints {
    var x: seq<Entry>
    var y: seq<Entry>

    /** `IndexedPoints::new`. It pushes each point of `path[1..]` into the
        index of its orientation and then sorts both. Afterwards each index is
        sorted, and it is a permutation of its entries in path order. */
    constructor (path: seq<Point>)
      requires Indexable(path)
      ensures SortedByKey(x) && SortedByKey(y)
      ensures multiset(x) == multiset(Horizontals(path, |path| - 1))
      ensures multiset(y) == multiset(Verticals(path, |path| - 1))
    {
      x := [];
      y := [];
      new;
      for i := 0 to |path| - 1
        invariant x == Horizontals(path, i) && y == Verticals(path, i)
      {
        var point := path[i + 1];
        match point.direction
        case Left | Right =>
          x := x + [(point.x, i)];
        case Down | Up =>
          y := y + [(point.y, i)];
      }
      SortByAxis();
    }

    /** `sort_by_axis`. It sorts both indexes by key in place. Each index
        keeps its entries. */
    method SortByAxis()
      modifies this
      ensures SortedByKey(x) && SortedByKey(y)
      ensures multiset(x) == multiset(old(x)) && multiset(y) == multiset(old(y))
    {
      x := SortByKey(x);
      y := SortByKey(y);
    }
  }

  /** The steps each wire needs to reach an intersection. */
  datatype StepCount = StepCount(first: nat, second: nat)

  /** `find_sections`. It builds the index of both paths and returns an empty
      list of intersections: the search itself is not written. */
  method FindSections(path1: seq<Point>, path2: seq<Point>)
    returns (intersections: seq<(Point, StepCount)>)
    requires Indexable(path1) && Indexable(path2)
    ensures intersections == []
  {
    intersections := [];
    var indexed1 := new IndexedPoints(path1);
    var indexed2 := new IndexedPoints(path2);
  }

  /** `2^63`: the first `u64` that does not fit in an `i64`. */
  const I64_LIMIT: nat := 0x8000_0000_0000_0000

  /** `distance as i64`: a `u64` reinterpreted in two's complement. */
  function AsI64(n: nat): (r: int)
    requires n <= U64_MAX
    ensures n < I64_LIMIT ==> r == n
    ensures n >= I64_LIMIT ==> r < 0
  {
    if n < I64_LIMIT then n else n - (U64_MAX + 1)
  }

  /** `Point::next` as written, with the `distance as i64` cast. */
  function NextAsWritten(p: Point, step: Step): Point
    requires step.direction != Origin && step.distance <= U64_MAX
  {
    var d := AsI64(step.distance);
    var steps' := p.steps + step.distance;
    match step.direction
    case Right => Point(p.x + d, p.y, step.direction, steps')
    case Left => Point(p.x - d, p.y, step.direction, steps')
    case Up => Point(p.x, p.y + d, step.direction, steps')
    case Down => Point(p.x, p.y - d, step.direction, steps')
  }

  /** For every distance below `2^63` the cast is harmless, and the code as
      written agrees with `Next`. */
  lemma NextAsWrittenAgrees(p: Point, step: Step)
    requires step.direction != Origin && step.distance < I64_LIMIT
    ensures NextAsWritten(p, step) == p.Next(step)
  {
  }

  /** The token `R9223372036854775808` parses, because its distance is a
      valid `u64`. The cast then turns the Right move into a move to the
      left: the new point is `2^63` left of the origin. Its step count is
      still `2^63`. */
  lemma CastReversesMove()
    ensures ParseStep(ShowStep(Step(Right, I64_LIMIT))) == Ok(Step(Right, I64_LIMIT))
    ensures NextAsWritten(Start, Step(Right, I64_LIMIT)).x == -(I64_LIMIT as int)
    ensures Start.Next(Step(Right, I64_LIMIT)).x == I64_LIMIT
  {
    ParseStepRoundTrip(Step(Right, I64_LIMIT));
  }

}
