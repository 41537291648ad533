/** The game agent's per-turn rules: positions on the grid, the spiral
    search for a rich cell, the one-step move choice, the bookkeeping that
    commits one command per ship, and the spawn rule. The game map is a
    function from positions to the halite in that cell; wrapping round the
    edges of the torus is the map's business and not modelled here. */
module MyBot {
  import opened PyMath
  import opened Text

  datatype Position = Position(x: int, y: int)

  /** The four compass directions, as unit offsets: north is y - 1. */
  datatype Direction = North | South | East | West

  function Offset(d: Direction): Position
  {
    match d
    case North => Position(0, -1)
    case South => Position(0, 1)
    case East => Position(1, 0)
    case West => Position(-1, 0)
  }

  /** `position + direction`. */
  function Step(p: Position, d: Direction): Position
  {
    Position(p.x + Offset(d).x, p.y + Offset(d).y)
  }

  /** `dist_betw_positions`: the squared Euclidean distance. */
  function Dist(a: Position, b: Position): int
  {
    (a.x - b.x) * (a.x - b.x) + (a.y - b.y) * (a.y - b.y)
  }

  lemma DistProperties(a: Position, b: Position)
    ensures Dist(a, b) >= 0
    ensures Dist(a, b) == Dist(b, a)
    ensures Dist(a, b) == 0 <==> a == b
  {
    var dx, dy := a.x - b.x, a.y - b.y;
    assert dx * dx >= 0 && dy * dy >= 0;
    if Dist(a, b) == 0 {
      assert dx * dx == 0 && dy * dy == 0;
      assert dx == 0 && dy == 0;
    }
  }

  lemma StepIsUnit(p: Position, d: Direction)
    ensures Dist(p, Step(p, d)) == 1
  {
  }

  // ---------------------------------------------------------------------
  // The spiral walk

  /** `n` unit steps in direction `(dx, dy)` from `(x, y)`, one position
      per step, not including the start. */
  function Leg(x: int, y: int, dx: int, dy: int, n: nat): (leg: seq<Position>)
    ensures |leg| == n
  {
    if n == 0 then [] else Leg(x, y, dx, dy, n - 1) + [Position(x + dx * n, y + dy * n)]
  }

  lemma {:induction false} LegAt(x: int, y: int, dx: int, dy: int, n: nat, k: nat)
    requires k < n
    ensures Leg(x, y, dx, dy, n)[k] == Position(x + dx * (k + 1), y + dy * (k + 1))
  {
    if k < n - 1 {
      LegAt(x, y, dx, dy, n - 1, k);
    }
  }

  /** One turn of the spiral from the corner `(x, y)` with leg length
      `i`: the x+ leg moves `i` cells but yields only where it ends, then
      `i` cells towards y-, `i + 1` towards x- and `i + 1` towards y+,
      one position per cell. */
  function Cycle(x: int, y: int, i: nat): (c: seq<Position>)
    ensures |c| == 3 * i + 3
  {
    [Position(x + i, y)] + Leg(x + i, y, 0, -1, i) + Leg(x + i, y - i, -1, 0, i + 1) + Leg(x - 1, y - i, 0, 1, i + 1)
  }

  /** The first `c` turns of the spiral from `(sx, sy)`: turn `m` starts at
      `(sx - m, sy + m)` with leg length `2m + 1`. */
  function Cycles(sx: int, sy: int, c: nat): (cs: seq<Position>)
    ensures |cs| >= 6 * c
  {
    if c == 0 then [] else Cycles(sx, sy, c - 1) + Lap(sx, sy, c - 1)
  }

  /** Turn `m` of the spiral from `(sx, sy)`. */
  function Lap(sx: int, sy: int, m: nat): (l: seq<Position>)
    ensures |l| == 6 * m + 6
  {
    Cycle(sx - m, sy + m, 2 * m + 1)
  }

  /** Everything `spiral_walk(sx, sy)` yields in its first `c` turns. */
  function Walk(sx: int, sy: int, c: nat): (w: seq<Position>)
    ensures |w| >= 6 * c + 1
  {
    [Position(sx, sy)] + Cycles(sx, sy, c)
  }

  /** The first `n` positions `spiral_walk(sx, sy)` yields. */
  function Spiral(sx: int, sy: int, n: nat): (s: seq<Position>)
    ensures |s| == n
    ensures n >= 1 ==> s[0] == Position(sx, sy)
  {
    Walk(sx, sy, n)[..n]
  }

  /** `spiral_walk` as the generator runs it, stopped after `n` yields. */
  method SpiralWalk(sx: int, sy: int, n: nat) returns (walk: seq<Position>)
    ensures walk == Spiral(sx, sy, n)
  {
    var x, y := sx, sy;
    walk := [Position(x, y)];
    var i := 1;
    ghost var c := 0;
    while |walk| < n
      invariant walk == Walk(sx, sy, c)
      invariant x == sx - c && y == sy + c && i == 2 * c + 1
      decreases n - |walk|
    {
      var turn;
      turn, x, y := SpiralTurn(x, y, i);
      walk := walk + turn;
      i := i + 2;
      c := c + 1;
    }
    WalkPrefix(sx, sy, c, n);
    walk := walk[..n];
  }

  /** One pass of the body of `spiral_walk`'s `while True`: the four legs
      from `(x, y)` with leg length `i`, and the corner where the next
      pass starts. */
  method SpiralTurn(x0: int, y0: int, i0: nat) returns (turn: seq<Position>, x: int, y: int)
    ensures turn == Cycle(x0, y0, i0)
    ensures x == x0 - 1 && y == y0 + 1
  {
    x, y := x0, y0;
    var i := i0;
    var k := 0;
    while k < i
      invariant 0 <= k <= i && x == x0 + k
    {
      x := x + 1;
      k := k + 1;
    }
    turn := [Position(x, y)];
    k := 0;
    while k < i
      invariant 0 <= k <= i && y == y0 - k && x == x0 + i0
      invariant turn == [Position(x0 + i0, y0)] + Leg(x0 + i0, y0, 0, -1, k)
    {
      LegExtend([Position(x0 + i0, y0)], x0 + i0, y0, 0, -1, k);
      y := y - 1;
      turn := turn + [Position(x, y)];
      k := k + 1;
    }
    i := i + 1;
    k := 0;
    while k < i
      invariant 0 <= k <= i && i == i0 + 1 && x == x0 + i0 - k && y == y0 - i0
      invariant turn == [Position(x0 + i0, y0)] + Leg(x0 + i0, y0, 0, -1, i0) + Leg(x0 + i0, y0 - i0, -1, 0, k)
    {
      LegExtend([Position(x0 + i0, y0)] + Leg(x0 + i0, y0, 0, -1, i0), x0 + i0, y0 - i0, -1, 0, k);
      x := x - 1;
      turn := turn + [Position(x, y)];
      k := k + 1;
    }
    k := 0;
    while k < i
      invariant 0 <= k <= i && i == i0 + 1 && x == x0 - 1 && y == y0 - i0 + k
      invariant turn == [Position(x0 + i0, y0)] + Leg(x0 + i0, y0, 0, -1, i0)
                        + Leg(x0 + i0, y0 - i0, -1, 0, i0 + 1) + Leg(x0 - 1, y0 - i0, 0, 1, k)
    {
      LegExtend([Position(x0 + i0, y0)] + Leg(x0 + i0, y0, 0, -1, i0) + Leg(x0 + i0, y0 - i0, -1, 0, i0 + 1),
                x0 - 1, y0 - i0, 0, 1, k);
      y := y + 1;
      turn := turn + [Position(x, y)];
      k := k + 1;
    }
  }

  /** One more step of a leg appends one position. */
  lemma LegExtend(prefix: seq<Position>, x: int, y: int, dx: int, dy: int, k: nat)
    ensures prefix + Leg(x, y, dx, dy, k) + [Position(x + dx * (k + 1), y + dy * (k + 1))]
         == prefix + Leg(x, y, dx, dy, k + 1)
  {
    assert Leg(x, y, dx, dy, k + 1) == Leg(x, y, dx, dy, k) + [Position(x + dx * (k + 1), y + dy * (k + 1))];
  }

  /** A longer run of the generator extends a shorter one. */
  lemma {:induction false} CyclesPrefix(sx: int, sy: int, c: nat, d: nat)
    requires c <= d
    ensures Cycles(sx, sy, c) <= Cycles(sx, sy, d)
  {
    if c < d {
      CyclesPrefix(sx, sy, c, d - 1);
    }
  }

  lemma WalkPrefix(sx: int, sy: int, c: nat, n: nat)
    requires n <= |Walk(sx, sy, c)|
    ensures Walk(sx, sy, c)[..n] == Spiral(sx, sy, n)
  {
    if c <= n {
      CyclesPrefix(sx, sy, c, n);
    } else {
      CyclesPrefix(sx, sy, n, c);
    }
  }

  /** Closed form of the `k`-th position of one turn. */
  lemma CycleAt(x: int, y: int, i: nat, k: nat)
    requires k < 3 * i + 3
    ensures k == 0 ==> Cycle(x, y, i)[k] == Position(x + i, y)
    ensures 1 <= k <= i ==> Cycle(x, y, i)[k] == Position(x + i, y - k)
    ensures i + 1 <= k <= 2 * i + 1 ==> Cycle(x, y, i)[k] == Position(x + 2 * i - k, y - i)
    ensures 2 * i + 2 <= k ==> Cycle(x, y, i)[k] == Position(x - 1, y + k - 3 * i - 1)
  {
    var a := [Position(x + i, y)];
    var b := Leg(x + i, y, 0, -1, i);
    var c := Leg(x + i, y - i, -1, 0, i + 1);
    var d := Leg(x - 1, y - i, 0, 1, i + 1);
    assert Cycle(x, y, i) == a + b + c + d;
    if 1 <= k <= i {
      LegAt(x + i, y, 0, -1, i, k - 1);
      assert Cycle(x, y, i)[k] == b[k - 1];
    } else if i + 1 <= k <= 2 * i + 1 {
      LegAt(x + i, y - i, -1, 0, i + 1, k - i - 1);
      assert Cycle(x, y, i)[k] == c[k - i - 1];
    } else if 2 * i + 2 <= k {
      LegAt(x - 1, y - i, 0, 1, i + 1, k - 2 * i - 2);
      assert Cycle(x, y, i)[k] == d[k - 2 * i - 2];
    }
  }

  /** Within one turn every yield is one cell from the one before (the
      y-, x- and y+ legs), the turn opens `i` cells along x+ from its corner
      (the x+ leg yields only its end) and closes one cell diagonally past
      the corner, where the next turn starts. */
  lemma CycleShape(x: int, y: int, i: nat)
    ensures Cycle(x, y, i)[0] == Position(x + i, y)
    ensures Cycle(x, y, i)[3 * i + 2] == Position(x - 1, y + 1)
    ensures forall k :: 0 <= k < 3 * i + 2 ==> Dist(Cycle(x, y, i)[k], Cycle(x, y, i)[k + 1]) == 1
  {
    CycleAt(x, y, i, 0);
    CycleAt(x, y, i, 3 * i + 2);
    forall k | 0 <= k < 3 * i + 2
      ensures Dist(Cycle(x, y, i)[k], Cycle(x, y, i)[k + 1]) == 1
    {
      CycleAt(x, y, i, k);
      CycleAt(x, y, i, k + 1);
      Neighbours(Cycle(x, y, i)[k], Cycle(x, y, i)[k + 1]);
    }
  }

  lemma Neighbours(a: Position, b: Position)
    requires (a.x == b.x && (a.y - b.y == 1 || b.y - a.y == 1)) || (a.y == b.y && (a.x - b.x == 1 || b.x - a.x == 1))
    ensures Dist(a, b) == 1
  {
  }

  /** Turn `m` of the walk starts right after the yields of the turns
      before it, at `(sx + m + 1, sy + m)`, jumping `2m + 1` cells along x+
      from the corner `(sx - m, sy + m)` where turn `m - 1` ended: the leg
      length goes 1, 3, 5, ... */
  lemma TurnStart(sx: int, sy: int, m: nat)
    ensures Walk(sx, sy, m)[|Walk(sx, sy, m)| - 1] == Position(sx - m, sy + m)
    ensures Walk(sx, sy, m + 1)[|Walk(sx, sy, m)|] == Position(sx + m + 1, sy + m)
  {
    var w, l := Walk(sx, sy, m), Lap(sx, sy, m);
    WalkGrows(sx, sy, m);
    LapEnds(sx, sy, m);
    assert (w + l)[|w|] == l[0];
    if m > 0 {
      var w', l' := Walk(sx, sy, m - 1), Lap(sx, sy, m - 1);
      WalkGrows(sx, sy, m - 1);
      LapEnds(sx, sy, m - 1);
      assert (w' + l')[|w' + l'| - 1] == l'[6 * (m - 1) + 5];
    }
  }

  /** One more turn appends that turn's yields. */
  lemma WalkGrows(sx: int, sy: int, m: nat)
    ensures Walk(sx, sy, m + 1) == Walk(sx, sy, m) + Lap(sx, sy, m)
  {
  }

  /** Turn `m` opens at `(sx + m + 1, sy + m)` and closes at the corner
      `(sx - m - 1, sy + m + 1)` of turn `m + 1`. */
  lemma LapEnds(sx: int, sy: int, m: nat)
    ensures Lap(sx, sy, m)[0] == Position(sx + m + 1, sy + m)
    ensures Lap(sx, sy, m)[6 * m + 5] == Position(sx - (m + 1), sy + (m + 1))
  {
    var i := 2 * m + 1;
    CycleAt(sx - m, sy + m, i, 0);
    CycleAt(sx - m, sy + m, i, 3 * i + 2);
  }

  /** The walk's first `m` turns hold `1 + 3m(m+1)` yields. */
  lemma {:induction false} WalkLength(sx: int, sy: int, m: nat)
    ensures |Walk(sx, sy, m)| == 1 + 3 * m * (m + 1)
  {
    if m > 0 {
      WalkLength(sx, sy, m - 1);
      assert |Walk(sx, sy, m)| == |Walk(sx, sy, m - 1)| + 6 * m;
      TurnCount(m);
    }
  }

  lemma TurnCount(m: int)
    ensures 3 * (m - 1) * m + 6 * m == 3 * m * (m + 1)
  {
  }

  /** Shifts every position by `(dx, dy)`. */
  function Translate(s: seq<Position>, dx: int, dy: int): (t: seq<Position>)
    ensures |t| == |s|
    ensures forall k :: 0 <= k < |s| ==> t[k] == Position(s[k].x + dx, s[k].y + dy)
  {
    seq(|s|, k requires 0 <= k < |s| => Position(s[k].x + dx, s[k].y + dy))
  }

  lemma TranslateConcat(s: seq<Position>, t: seq<Position>, dx: int, dy: int)
    ensures Translate(s + t, dx, dy) == Translate(s, dx, dy) + Translate(t, dx, dy)
  {
  }

  lemma {:induction false} LegShift(x: int, y: int, ddx: int, ddy: int, n: nat, dx: int, dy: int)
    ensures Leg(x + dx, y + dy, ddx, ddy, n) == Translate(Leg(x, y, ddx, ddy, n), dx, dy)
  {
    if n > 0 {
      LegShift(x, y, ddx, ddy, n - 1, dx, dy);
    }
  }

  lemma CycleShift(x: int, y: int, i: nat, dx: int, dy: int)
    ensures Cycle(x + dx, y + dy, i) == Translate(Cycle(x, y, i), dx, dy)
  {
    var p, q, r, t := [Position(x + i, y)], Leg(x + i, y, 0, -1, i), Leg(x + i, y - i, -1, 0, i + 1), Leg(x - 1, y - i, 0, 1, i + 1);
    calc {
      Cycle(x + dx, y + dy, i);
      [Position(x + i + dx, y + dy)] + Leg(x + i + dx, y + dy, 0, -1, i)
        + Leg(x + i + dx, y - i + dy, -1, 0, i + 1) + Leg(x - 1 + dx, y - i + dy, 0, 1, i + 1);
      { LegShift(x + i, y, 0, -1, i, dx, dy);
        LegShift(x + i, y - i, -1, 0, i + 1, dx, dy);
        LegShift(x - 1, y - i, 0, 1, i + 1, dx, dy); }
      Translate(p, dx, dy) + Translate(q, dx, dy) + Translate(r, dx, dy) + Translate(t, dx, dy);
      { TranslateFour(p, q, r, t, dx, dy); }
      Translate(Cycle(x, y, i), dx, dy);
    }
  }

  lemma TranslateFour(p: seq<Position>, q: seq<Position>, r: seq<Position>, t: seq<Position>, dx: int, dy: int)
    ensures Translate(p + q + r + t, dx, dy) == Translate(p, dx, dy) + Translate(q, dx, dy) + Translate(r, dx, dy) + Translate(t, dx, dy)
  {
    TranslateConcat(p, q, dx, dy);
    TranslateConcat(p + q, r, dx, dy);
    TranslateConcat(p + q + r, t, dx, dy);
  }

  lemma {:induction false} CyclesShift(sx: int, sy: int, c: nat)
    ensures Cycles(sx, sy, c) == Translate(Cycles(0, 0, c), sx, sy)
  {
    if c > 0 {
      CyclesShift(sx, sy, c - 1);
      var m := c - 1;
      LapShift(sx, sy, m);
      ShiftAppend(Cycles(0, 0, m), Lap(0, 0, m), Cycles(sx, sy, m), Lap(sx, sy, m), sx, sy);
    }
  }

  lemma LapShift(sx: int, sy: int, m: nat)
    ensures Lap(sx, sy, m) == Translate(Lap(0, 0, m), sx, sy)
  {
    var corner := -(m as int);
    CycleShift(corner, m, 2 * m + 1, sx, sy);
    assert Lap(sx, sy, m) == Cycle(corner + sx, m + sy, 2 * m + 1);
  }

  lemma ShiftAppend(a: seq<Position>, b: seq<Position>, a2: seq<Position>, b2: seq<Position>, dx: int, dy: int)
    requires a2 == Translate(a, dx, dy) && b2 == Translate(b, dx, dy)
    ensures a2 + b2 == Translate(a + b, dx, dy)
  {
    TranslateConcat(a, b, dx, dy);
  }

  /** The `k`-th yield of `spiral_walk(sx, sy)` is the `k`-th yield of
      `spiral_walk(0, 0)` moved by `(sx, sy)`. */
  lemma SpiralShift(sx: int, sy: int, n: nat)
    ensures Spiral(sx, sy, n) == Translate(Spiral(0, 0, n), sx, sy)
  {
    var w0 := Walk(0, 0, n);
    CyclesShift(sx, sy, n);
    TranslateConcat([Position(0, 0)], Cycles(0, 0, n), sx, sy);
    assert Walk(sx, sy, n) == Translate(w0, sx, sy);
    TranslateTake(w0, n, sx, sy);
  }

  lemma TranslateTake(s: seq<Position>, n: nat, dx: int, dy: int)
    requires n <= |s|
    ensures Translate(s, dx, dy)[..n] == Translate(s[..n], dx, dy)
  {
  }

  // ---------------------------------------------------------------------
  // Personality and the target rule

  /** The game constants the agent reads from the SDK. */
  datatype Constants = Constants(maxHalite: int, shipCost: int, width: int, height: int)

  /** `q`: the cell halite below which a cell counts as depleted, the
      cargo above which a ship heads home, and the largest fleet that
      still spawns. */
  datatype Thresholds = Thresholds(depleted: real, returning: real, maxShips: int)

  /** `q` from the personality parameters `p`. */
  function Personality(p0: real, p1: real, p2: real, maxHalite: int): (q: Thresholds)
    ensures 0.0 <= p0 <= 1.0 ==> 0.0 <= q.depleted <= 200.0
    ensures 0.0 <= p1 <= 1.0 && maxHalite >= 0 ==>
              0.5 * (maxHalite as real) <= q.returning <= 0.75 * (maxHalite as real)
    ensures 0.0 <= p2 <= 1.0 ==> 1 <= q.maxShips <= 30
  {
    Thresholds(p0 * 200.0, (0.5 + p1 * 0.25) * (maxHalite as real), 1 + RoundHalfEven(p2 * 29.0))
  }

  datatype Ship = Ship(id: int, position: Position, cargo: int)

  /** A map cell counts as rich when its halite reaches the depleted
      threshold. */
  predicate Rich(halite: Position -> int, p: Position, q: Thresholds)
  {
    (halite(p) as real) >= q.depleted
  }

  /** The ship heads for the shipyard: it is full, or it carries more than
      the returning threshold and sits on a depleted cell. */
  predicate GoesHome(ship: Ship, halite: Position -> int, k: Constants, q: Thresholds)
  {
    ship.cargo == k.maxHalite || ((ship.cargo as real) > q.returning && (halite(ship.position) as real) < q.depleted)
  }

  /** The number of cells searched after which the search gives up:
      `4 * max(WIDTH, HEIGHT) ** 2`. */
  function SearchBound(k: Constants): nat
  {
    var side := if k.width >= k.height then k.width else k.height;
    4 * (side * side)
  }

  /** The index of the first rich cell of `walk`, or `|walk|`. */
  function FirstRich(walk: seq<Position>, halite: Position -> int, q: Thresholds): (k: nat)
    ensures k <= |walk|
    ensures k < |walk| ==> Rich(halite, walk[k], q)
    ensures forall j :: 0 <= j < k ==> !Rich(halite, walk[j], q)
  {
    if |walk| == 0 then 0
    else if Rich(halite, walk[0], q) then 0
    else 1 + FirstRich(walk[1..], halite, q)
  }

  /** Where `determine_target` sends the ship: home when `GoesHome`,
      otherwise the first rich cell among the `SearchBound + 1` positions
      the spiral from the ship visits, or the ship's own position when
      none of them is rich. */
  function Target(ship: Ship, halite: Position -> int, shipyard: Position, k: Constants, q: Thresholds): (t: Position)
    ensures GoesHome(ship, halite, k, q) ==> t == shipyard
    ensures !GoesHome(ship, halite, k, q) ==>
      var n := SearchBound(k) + 1;
      var walk := Spiral(ship.position.x, ship.position.y, n);
      || (exists j :: 0 <= j < n && walk[j] == t && Rich(halite, t, q) && forall i :: 0 <= i < j ==> !Rich(halite, walk[i], q))
      || (t == ship.position && forall i :: 0 <= i < n ==> !Rich(halite, walk[i], q))
  {
    if GoesHome(ship, halite, k, q) then shipyard
    else
      var n := SearchBound(k) + 1;
      var walk := Spiral(ship.position.x, ship.position.y, n);
      var j := FirstRich(walk, halite, q);
      if j < n then walk[j] else ship.position
  }

  /** A rich position with no rich one before it is the first. */
  lemma FirstRichAt(walk: seq<Position>, halite: Position -> int, q: Thresholds, j: nat)
    requires j <= |walk|
    requires j < |walk| ==> Rich(halite, walk[j], q)
    requires forall i :: 0 <= i < j ==> !Rich(halite, walk[i], q)
    ensures FirstRich(walk, halite, q) == j
  {
  }

  /** `determine_target`, walking the spiral and counting searched cells. */
  method DetermineTarget(ship: Ship, halite: Position -> int, shipyard: Position, k: Constants, q: Thresholds)
    returns (target: Position)
    ensures target == Target(ship, halite, shipyard, k, q)
  {
    if GoesHome(ship, halite, k, q) {
      return shipyard;
    }
    var bound := SearchBound(k);
    var walk := SpiralWalk(ship.position.x, ship.position.y, bound + 1);
    var searched := 0;
    while searched < |walk|
      invariant 0 <= searched <= |walk|
      invariant forall j :: 0 <= j < searched ==> !Rich(halite, walk[j], q)
    {
      if Rich(halite, walk[searched], q) {
        FirstRichAt(walk, halite, q, searched);
        return walk[searched];
      }
      searched := searched + 1;
      if searched > bound {
        break;
      }
    }
    FirstRichAt(walk, halite, q, |walk|);
    return ship.position;
  }

  // ---------------------------------------------------------------------
  // The move choice

  /** The move part of a command: stay still, or step one way. */
  datatype Order = Stay | Move(direction: Direction)

  /** The directions in the order `desired_move` tries them. */
  const Options: seq<Direction> := [North, South, East, West]

  /** The ship leaves its cell alone: it cannot pay to move (its cargo is
      below a tenth of the cell's halite) or it is already on target. */
  predicate StaysPut(ship: Ship, halite: Position -> int, target: Position)
  {
    10 * ship.cargo < halite(ship.position) || ship.position == target
  }

  /** The distance a step must beat: 1000 on the shipyard, so that ships
      leave it whenever they can, otherwise the current distance. */
  function StartBound(ship: Ship, shipyard: Position, target: Position): int
  {
    if ship.position == shipyard then 1000 else Dist(ship.position, target)
  }

  /** Option `j` is a step into an uncommitted cell strictly closer to the
      target than the start bound. */
  predicate Eligible(ship: Ship, j: nat, invalid: seq<Position>, shipyard: Position, target: Position)
    requires j < |Options|
  {
    var p := Step(ship.position, Options[j]);
    p !in invalid && Dist(p, target) < StartBound(ship, shipyard, target)
  }

  /** What `desired_move` answers: stay in place when `StaysPut` or when no
      option is eligible; otherwise step to the eligible neighbour closest
      to the target, the earliest of N, S, E, W among equals. */
  ghost predicate IsDesiredMove(ship: Ship, halite: Position -> int, invalid: seq<Position>, shipyard: Position,
                                target: Position, order: Order, destination: Position)
  {
    if StaysPut(ship, halite, target) then order == Stay && destination == ship.position
    else if order == Stay then
      destination == ship.position && forall j :: 0 <= j < 4 ==> !Eligible(ship, j, invalid, shipyard, target)
    else
      exists m :: 0 <= m < 4 && order == Move(Options[m]) && Eligible(ship, m, invalid, shipyard, target)
        && destination == Step(ship.position, Options[m])
        && (forall j :: 0 <= j < m && Eligible(ship, j, invalid, shipyard, target) ==>
              Dist(destination, target) < Dist(Step(ship.position, Options[j]), target))
        && (forall j :: m < j < 4 && Eligible(ship, j, invalid, shipyard, target) ==>
              Dist(destination, target) <= Dist(Step(ship.position, Options[j]), target))
  }

  /** `desired_move`: the move towards the ship's target, avoiding the
      committed cells `invalid`. */
  method DesiredMove(ship: Ship, halite: Position -> int, invalid: seq<Position>, shipyard: Position,
                     k: Constants, q: Thresholds)
    returns (order: Order, destination: Position)
    ensures IsDesiredMove(ship, halite, invalid, shipyard, Target(ship, halite, shipyard, k, q), order, destination)
    ensures order.Move? ==> destination !in invalid && Dist(ship.position, destination) == 1
  {
    var position := ship.position;
    var target := DetermineTarget(ship, halite, shipyard, k, q);
    if StaysPut(ship, halite, target) {
      return Stay, position;
    }
    order, destination := Stay, position;
    var best := StartBound(ship, shipyard, target);
    ghost var m := 0;
    for j := 0 to 4
      invariant order == Stay ==> destination == position && best == StartBound(ship, shipyard, target)
                                  && forall i :: 0 <= i < j ==> !Eligible(ship, i, invalid, shipyard, target)
      invariant order.Move? ==> m < j && order == Move(Options[m]) && Eligible(ship, m, invalid, shipyard, target)
                                && destination == Step(position, Options[m]) && best == Dist(destination, target)
                                && (forall i :: 0 <= i < m && Eligible(ship, i, invalid, shipyard, target) ==>
                                      best < Dist(Step(position, Options[i]), target))
                                && (forall i :: m < i < j && Eligible(ship, i, invalid, shipyard, target) ==>
                                      best <= Dist(Step(position, Options[i]), target))
    {
      var option := Options[j];
      var distance := Dist(Step(position, option), target);
      if distance < best && Step(position, option) !in invalid {
        order, destination, best := Move(option), Step(position, option), distance;
        m := j;
      }
    }
    if order.Move? {
      StepIsUnit(position, order.direction);
    }
  }

  // ---------------------------------------------------------------------
  // Committing one command per ship

  /** The commands a turn sends: `ship.stay_still()`, `ship.move(d)` and
      `shipyard.spawn()`. */
  datatype Command = StillCommand(shipId: int) | MoveCommand(shipId: int, direction: Direction) | SpawnCommand

  /** The cell a ship's command leaves it on. */
  function Destination(ship: Ship, c: Command): Position
  {
    if c.MoveCommand? then Step(ship.position, c.direction) else ship.position
  }

  function OrderOf(c: Command): Order
  {
    if c.MoveCommand? then Move(c.direction) else Stay
  }

  /** No command of `cs` is a spawn. */
  predicate ShipCommands(cs: seq<Command>)
  {
    forall j :: 0 <= j < |cs| ==> !cs[j].SpawnCommand?
  }

  /** Some command of `cs` is for the ship with id `id`. */
  predicate Commanded(cs: seq<Command>, id: int)
  {
    exists j :: 0 <= j < |cs| && !cs[j].SpawnCommand? && cs[j].shipId == id
  }

  /** No two commands of `cs` are for the same ship. */
  predicate OneEach(cs: seq<Command>)
    requires ShipCommands(cs)
  {
    forall i, j :: 0 <= i < j < |cs| ==> cs[i].shipId != cs[j].shipId
  }

  /** Commands kept after a queue grew, with ship `i` now commanded too,
      cover the first `i + 1` ships. */
  lemma CoveredOneMore(ships: seq<Ship>, i: nat, a: seq<Command>, b: seq<Command>)
    requires i < |ships| && a <= b
    requires forall i' :: 0 <= i' < i ==> Commanded(a, ships[i'].id)
    requires Commanded(b, ships[i].id)
    ensures forall i' :: 0 <= i' < i + 1 ==> Commanded(b, ships[i'].id)
  {
    forall i' | 0 <= i' < i
      ensures Commanded(b, ships[i'].id)
    {
      assert Commanded(a, ships[i'].id);
      var j :| 0 <= j < |a| && !a[j].SpawnCommand? && a[j].shipId == ships[i'].id;
      assert b[j] == a[j];
    }
  }

  predicate NoDup<T(==)>(s: seq<T>)
  {
    forall i, j :: 0 <= i < j < |s| ==> s[i] != s[j]
  }

  /** A value in neither the old part nor the new part of a list is not in it. */
  lemma NotInGrown<T>(s0: seq<T>, s: seq<T>, x: T)
    requires s0 <= s && x !in s0
    requires forall j :: |s0| <= j < |s| ==> s[j] != x
    ensures x !in s
  {
    forall j | 0 <= j < |s0|
      ensures s[j] != x
    {
      assert s[j] == s0[j];
    }
  }

  /** Every value of a list is in any list it is a prefix of. */
  lemma PrefixMembers<T>(a: seq<T>, b: seq<T>)
    requires a <= b
    ensures forall x :: x in a ==> x in b
  {
    forall x | x in a
      ensures x in b
    {
      var j :| 0 <= j < |a| && a[j] == x;
      assert b[j] == x;
    }
  }

  /** The queue ends in a spawn. */
  predicate Spawns(commands: seq<Command>)
  {
    |commands| > 0 && commands[|commands| - 1] == SpawnCommand
  }

  /** The queue without its closing spawn, if it has one. */
  function ShipPart(commands: seq<Command>): seq<Command>
  {
    if Spawns(commands) then commands[..|commands| - 1] else commands
  }

  predicate DistinctIds(ships: seq<Ship>)
  {
    forall i, j :: 0 <= i < j < |ships| ==> ships[i].id != ships[j].id
  }

  /** No two ships of the fleet share a cell. */
  predicate DistinctPositions(ships: seq<Ship>)
  {
    forall i, j :: 0 <= i < j < |ships| ==> ships[i].position != ships[j].position
  }

  /** No other ship of the fleet stands on `ship`'s cell. */
  predicate Alone(ship: Ship, ships: seq<Ship>)
  {
    forall s :: s in ships && s.id != ship.id ==> s.position != ship.position
  }

  lemma DistinctPositionsAlone(ships: seq<Ship>, ship: Ship)
    requires DistinctPositions(ships) && ship in ships
    ensures Alone(ship, ships)
  {
    forall s | s in ships && s.id != ship.id
      ensures s.position != ship.position
    {
      var i :| 0 <= i < |ships| && ships[i] == s;
      var i0 :| 0 <= i0 < |ships| && ships[i0] == ship;
      assert i != i0;
    }
  }

  predicate HasId(ships: seq<Ship>, id: int)
  {
    exists j :: 0 <= j < |ships| && ships[j].id == id
  }

  /** The first ship of the fleet with id `id`. */
  function ShipWith(ships: seq<Ship>, id: int): (s: Ship)
    requires HasId(ships, id)
    ensures s in ships && s.id == id
  {
    if ships[0].id == id then ships[0]
    else
      assert HasId(ships[1..], id) by {
        var j :| 0 <= j < |ships| && ships[j].id == id;
        assert ships[1..][j - 1] == ships[j];
      }
      ShipWith(ships[1..], id)
  }

  lemma ShipWithUnique(ships: seq<Ship>, s: Ship)
    requires DistinctIds(ships) && s in ships
    ensures HasId(ships, s.id) && ShipWith(ships, s.id) == s
  {
    var i0 :| 0 <= i0 < |ships| && ships[i0] == s;
    assert HasId(ships, s.id);
    var t := ShipWith(ships, s.id);
    var i :| 0 <= i < |ships| && ships[i] == t;
    assert i == i0;
  }

  /** The ids of the fleet's ships that are neither in `ignore` nor `id`:
      each recursive call leaves fewer of them. */
  ghost function Pending(ships: seq<Ship>, ignore: seq<int>, id: int): set<int>
  {
    (set s | s in ships :: s.id) - (set x | x in ignore) - {id}
  }

  lemma PendingShrinks(ships: seq<Ship>, ignore: seq<int>, id: int, other: Ship)
    requires other in ships && other.id !in ignore && other.id != id
    ensures Pending(ships, ignore + [id], other.id) < Pending(ships, ignore, id)
  {
    assert other.id in Pending(ships, ignore, id);
  }

  /** The four cells next to `p`, in the order of `Options`. */
  function Around(p: Position): (cells: seq<Position>)
    ensures |cells| == 4 && forall m :: 0 <= m < 4 ==> cells[m] == Step(p, Options[m])
  {
    [Step(p, North), Step(p, South), Step(p, East), Step(p, West)]
  }

  /** How many of `cells` are committed in `invalid`. */
  ghost function CountIn(cells: seq<Position>, invalid: seq<Position>): (n: nat)
    ensures n <= |cells|
  {
    if cells == [] then 0
    else CountIn(cells[..|cells| - 1], invalid) + if cells[|cells| - 1] in invalid then 1 else 0
  }

  lemma {:induction false} CountInMonotone(cells: seq<Position>, a: seq<Position>, b: seq<Position>)
    requires forall p :: p in a ==> p in b
    ensures CountIn(cells, a) <= CountIn(cells, b)
  {
    if cells != [] {
      CountInMonotone(cells[..|cells| - 1], a, b);
    }
  }

  /** Committing a further cell of `cells` raises the count. */
  lemma {:induction false} CountInRises(cells: seq<Position>, a: seq<Position>, b: seq<Position>, i: nat)
    requires forall p :: p in a ==> p in b
    requires i < |cells| && cells[i] !in a && cells[i] in b
    ensures CountIn(cells, a) < CountIn(cells, b)
  {
    var n := |cells| - 1;
    if i == n {
      CountInMonotone(cells[..n], a, b);
    } else {
      assert cells[..n][i] == cells[i];
      CountInRises(cells[..n], a, b, i);
    }
  }

  /** One entry of a turn's lists: the command is for `ship` and `cell` is
      where it leaves the ship. */
  predicate Commits(ship: Ship, c: Command, cell: Position)
  {
    !c.SpawnCommand? && c.shipId == ship.id && cell == Destination(ship, c)
  }

  /** The lists `one_game_step` threads through `move_ship_recursive`:
      the committed destinations, the ships that have moved and the
      command queue. */
  class Turn {
    var invalidPositions: seq<Position>
    var movedShips: seq<int>
    var commands: seq<Command>
    /** The ship each command is for. */
    ghost var movers: seq<Ship>
    /** Where in the queue each moved ship's command is. */
    ghost var movedAt: seq<nat>

    /** Entry `j` of the queue is a command for `movers[j]` that leaves it
        on `invalidPositions[j]`, and moved ship `m` has command `movedAt[m]`. */
    ghost predicate Valid()
      reads this
    {
      && |movers| == |commands| == |invalidPositions| && |movedAt| == |movedShips|
      && (forall j :: 0 <= j < |commands| ==> Commits(movers[j], commands[j], invalidPositions[j]))
      && (forall m :: 0 <= m < |movedShips| ==> movedAt[m] < |movers| && movers[movedAt[m]].id == movedShips[m])
    }

    /** No ship has fallen back to staying still without being marked
        moved: the moved ships are the commanded ships, in order. */
    ghost predicate Orderly()
      reads this
    {
      |movedShips| == |movers| && forall j :: 0 <= j < |movers| ==> movedShips[j] == movers[j].id
    }

    /** Since the lists were `c0`, `p0`, `m0` and `v0` they have only grown,
        every new command is for `ship` or a ship of the fleet, and every
        newly moved ship is `ship` or outside `ignore`. */
    ghost predicate GrewFrom(c0: seq<Command>, p0: seq<Position>, m0: seq<int>, v0: seq<Ship>,
                             ship: Ship, ships: seq<Ship>, ignore: seq<int>)
      reads this
    {
      && Valid()
      && c0 <= commands && p0 <= invalidPositions && m0 <= movedShips && v0 <= movers
      && (forall j :: |v0| <= j < |movers| ==> movers[j] in ships || movers[j] == ship)
      && (forall j :: |m0| <= j < |movedShips| ==> movedShips[j] !in ignore || movedShips[j] == ship.id)
    }

    /** `ship` was the last to commit, as moved: its command, the last, is
        its desired move towards `target` against the cells committed
        before some point after the first `from`; a step goes to a cell
        nobody committed before it; and `ship` was marked moved once since
        the first `movedFrom` marks. */
    ghost predicate MovedLast(ship: Ship, halite: Position -> int, shipyard: Position, target: Position,
                              from: nat, movedFrom: nat)
      reads this
    {
      && from < |commands| == |invalidPositions|
      && movedFrom < |movedShips| && movedShips[|movedShips| - 1] == ship.id
      && Unmarked(ship, movedFrom, |movedShips| - 1)
      && var c := commands[|commands| - 1];
         && (exists n :: from <= n < |invalidPositions|
               && IsDesiredMove(ship, halite, invalidPositions[..n], shipyard, target, OrderOf(c), Destination(ship, c)))
         && (c.MoveCommand? ==> Destination(ship, c) !in invalidPositions[..|invalidPositions| - 1])
    }

    /** `ship` is not among the moved ships from mark `from` up to mark
        `upTo`. */
    ghost predicate Unmarked(ship: Ship, from: nat, upTo: int)
      reads this
    {
      forall j :: from <= j < upTo && j < |movedShips| ==> movedShips[j] != ship.id
    }

    /** The lists' last entries are `ship`'s command. */
    ghost predicate LastFor(ship: Ship, before: nat)
      reads this
    {
      before < |commands| && |movers| == |commands| && !commands[|commands| - 1].SpawnCommand?
      && commands[|commands| - 1].shipId == ship.id
      && movers[|movers| - 1] == ship
    }

    constructor()
      ensures Valid() && Orderly()
      ensures invalidPositions == [] && movedShips == [] && commands == []
    {
      invalidPositions, movedShips, commands := [], [], [];
      movers, movedAt := [], [];
    }

    /** `move_ship_recursive` for `ship` among the fleet `ships`, skipping
        the ships in `ignore`: up to ten rounds, then, when none committed,
        the ship stays. */
    method MoveShip(ship: Ship, ships: seq<Ship>, ignore: seq<int>, halite: Position -> int, shipyard: Position,
                    k: Constants, q: Thresholds)
      requires Valid()
      modifies this
      decreases Pending(ships, ignore, ship.id), 4
      ensures GrewFrom(old(commands), old(invalidPositions), old(movedShips), old(movers), ship, ships, ignore)
      ensures LastFor(ship, |old(commands)|)
      ensures || MovedLast(ship, halite, shipyard, Target(ship, halite, shipyard, k, q),
                           |old(invalidPositions)|, |old(movedShips)|)
              || (commands[|commands| - 1] == StillCommand(ship.id) && Unmarked(ship, |old(movedShips)|, |movedShips|))
      ensures Alone(ship, ships) ==>
                MovedLast(ship, halite, shipyard, Target(ship, halite, shipyard, k, q), |old(invalidPositions)|, |old(movedShips)|)
      ensures old(Orderly()) && DistinctPositions(ships) && ship in ships ==> Orderly()
      ensures old(NoDup(movedShips)) && ship.id !in old(movedShips) ==> NoDup(movedShips)
    {
      ghost var c0, p0, m0, v0 := commands, invalidPositions, movedShips, movers;
      var moved := Rounds(ship, ships, ignore, halite, shipyard, k, q);
      if !moved {
        if DistinctPositions(ships) && ship in ships {
          DistinctPositionsAlone(ships, ship);
        }
        StayStill(ship, ships, ignore, c0, p0, m0, v0);
      }
    }

    /** The loop of `move_ship_recursive`: rounds until one commits, at most
        ten. A ship alone on its cell commits within five, because each
        failed round commits one more of its four neighbours. */
    method Rounds(ship: Ship, ships: seq<Ship>, ignore: seq<int>, halite: Position -> int, shipyard: Position,
                  k: Constants, q: Thresholds)
      returns (moved: bool)
      requires Valid()
      modifies this
      decreases Pending(ships, ignore, ship.id), 3
      ensures GrewFrom(old(commands), old(invalidPositions), old(movedShips), old(movers), ship, ships, ignore)
      ensures moved ==> && LastFor(ship, |old(commands)|)
                        && MovedLast(ship, halite, shipyard, Target(ship, halite, shipyard, k, q),
                                     |old(invalidPositions)|, |old(movedShips)|)
      ensures !moved ==> Unmarked(ship, |old(movedShips)|, |movedShips|) && !Alone(ship, ships)
      ensures old(Orderly()) && DistinctPositions(ships) && ship in ships ==> Orderly()
      ensures old(NoDup(movedShips)) && ship.id !in old(movedShips) ==> NoDup(movedShips)
    {
      ghost var target := Target(ship, halite, shipyard, k, q);
      ghost var c0, p0, m0, v0 := commands, invalidPositions, movedShips, movers;
      ghost var orderly := Orderly() && DistinctPositions(ships) && ship in ships;
      ghost var unique := NoDup(movedShips) && ship.id !in movedShips;
      moved := false;
      var loopCounter := 0;
      while !moved && loopCounter < 10
        invariant 0 <= loopCounter <= 10
        invariant GrewFrom(c0, p0, m0, v0, ship, ships, ignore)
        invariant !moved ==> Unmarked(ship, |m0|, |movedShips|)
        invariant moved ==> LastFor(ship, |c0|) && MovedLast(ship, halite, shipyard, target, |p0|, |m0|)
        invariant Alone(ship, ships) && !moved ==> loopCounter <= CountIn(Around(ship.position), invalidPositions)
        invariant orderly ==> Orderly()
        invariant unique ==> NoDup(movedShips)
      {
        moved := Attempt(ship, ships, ignore, halite, shipyard, k, q, c0, p0, m0, v0, orderly, unique);
        loopCounter := loopCounter + 1;
      }
    }

    /** One pass of the loop in `move_ship_recursive`, a `Round`, seen from
        the start of the loop: the lists still grew only as `ship` may
        make them grow since `(c0, p0, m0, v0)`, and a failed pass leaves
        one more neighbour of a ship alone on its cell committed. */
    method Attempt(ship: Ship, ships: seq<Ship>, ignore: seq<int>, halite: Position -> int, shipyard: Position,
                   k: Constants, q: Thresholds,
                   ghost c0: seq<Command>, ghost p0: seq<Position>, ghost m0: seq<int>, ghost v0: seq<Ship>,
                   ghost orderly: bool, ghost unique: bool)
      returns (moved: bool)
      requires GrewFrom(c0, p0, m0, v0, ship, ships, ignore)
      requires Unmarked(ship, |m0|, |movedShips|)
      requires orderly ==> Orderly() && DistinctPositions(ships)
      requires unique ==> NoDup(movedShips) && ship.id !in m0
      modifies this
      decreases Pending(ships, ignore, ship.id), 2
      ensures GrewFrom(c0, p0, m0, v0, ship, ships, ignore)
      ensures moved ==> LastFor(ship, |c0|) && MovedLast(ship, halite, shipyard, Target(ship, halite, shipyard, k, q), |p0|, |m0|)
      ensures !moved ==> && Unmarked(ship, |m0|, |movedShips|)
                         && (Alone(ship, ships) ==>
                               CountIn(Around(ship.position), old(invalidPositions)) < CountIn(Around(ship.position), invalidPositions))
      ensures orderly ==> Orderly()
      ensures unique ==> NoDup(movedShips)
    {
      ghost var c1, p1, m1, v1 := commands, invalidPositions, movedShips, movers;
      assert forall j :: |m0| <= j < |m1| ==> m1[j] != ship.id;
      if unique {
        NotInGrown(m0, m1, ship.id);
      }
      moved := Round(ship, ships, ignore, halite, shipyard, k, q);
      GrewTwice(c0, p0, m0, v0, c1, p1, m1, v1, ship, ships, ignore);
      if moved {
        MovedLastSince(ship, halite, shipyard, Target(ship, halite, shipyard, k, q), |p0|, |p1|, |m0|, m1);
      } else {
        UnmarkedJoin(ship, |m0|, m1);
      }
    }

    /** The fallback after ten rounds: `ship.stay_still()` queued and its
        cell committed, without marking the ship moved. Growth since
        `(c0, p0, m0, v0)` stays growth, with `ship`'s command last. */
    method StayStill(ship: Ship, ghost ships: seq<Ship>, ghost ignore: seq<int>,
                     ghost c0: seq<Command>, ghost p0: seq<Position>, ghost m0: seq<int>, ghost v0: seq<Ship>)
      requires GrewFrom(c0, p0, m0, v0, ship, ships, ignore)
      modifies this
      ensures Valid()
      ensures commands == old(commands) + [StillCommand(ship.id)]
      ensures invalidPositions == old(invalidPositions) + [ship.position]
      ensures movers == old(movers) + [ship] && movedShips == old(movedShips) && movedAt == old(movedAt)
      ensures GrewFrom(c0, p0, m0, v0, ship, ships, ignore) && LastFor(ship, |c0|)
    {
      commands := commands + [StillCommand(ship.id)];
      invalidPositions := invalidPositions + [ship.position];
      movers := movers + [ship];
    }

    /** One round of the loop in `move_ship_recursive`: the desired move,
        the ships on its destination going first, then the commit unless
        one of them took the destination. */
    method Round(ship: Ship, ships: seq<Ship>, ignore: seq<int>, halite: Position -> int, shipyard: Position,
                 k: Constants, q: Thresholds)
      returns (moved: bool)
      requires Valid()
      modifies this
      decreases Pending(ships, ignore, ship.id), 1
      ensures GrewFrom(old(commands), old(invalidPositions), old(movedShips), old(movers), ship, ships, ignore)
      ensures moved ==> LastFor(ship, |old(commands)|)
                        && MovedLast(ship, halite, shipyard, Target(ship, halite, shipyard, k, q),
                                     |old(invalidPositions)|, |old(movedShips)|)
      ensures !moved ==> && Unmarked(ship, |old(movedShips)|, |movedShips|)
                         && (Alone(ship, ships) ==>
                               CountIn(Around(ship.position), old(invalidPositions)) < CountIn(Around(ship.position), invalidPositions))
      ensures old(Orderly()) && DistinctPositions(ships) ==> Orderly()
      ensures old(NoDup(movedShips)) && ship.id !in old(movedShips) ==> NoDup(movedShips)
    {
      var order, destination := DesiredMove(ship, halite, invalidPositions, shipyard, k, q);
      ghost var p1 := invalidPositions;
      moved := ClearTarget(ship, ships, ignore, destination, halite, shipyard, k, q);
      if moved {
        ghost var c2, p2, m2, v2 := commands, invalidPositions, movedShips, movers;
        if old(NoDup(movedShips)) && ship.id !in old(movedShips) {
          NotInGrown(old(movedShips), m2, ship.id);
        }
        Settle(ship, ships, ignore, halite, shipyard, k, q, order, destination, p1, |old(movedShips)|);
        GrewTwice(old(commands), old(invalidPositions), old(movedShips), old(movers), c2, p2, m2, v2, ship, ships, ignore);
      } else if Alone(ship, ships) {
        var other :| other in ships && other.id != ship.id && other.position == destination;
        RoundFailed(ship, halite, p1, invalidPositions, shipyard, Target(ship, halite, shipyard, k, q),
                    order, destination);
      }
    }

    /** The commit of a round whose destination `ClearTarget` kept clear:
        the desired move chosen against `p1` becomes `ship`'s last
        command. */
    method Settle(ship: Ship, ships: seq<Ship>, ignore: seq<int>, halite: Position -> int, shipyard: Position,
                  k: Constants, q: Thresholds, order: Order, destination: Position,
                  ghost p1: seq<Position>, ghost movedFrom: nat)
      requires Valid()
      requires IsDesiredMove(ship, halite, p1, shipyard, Target(ship, halite, shipyard, k, q), order, destination)
      requires order.Move? ==> destination !in invalidPositions && destination == Step(ship.position, order.direction)
      requires order == Stay ==> destination == ship.position
      requires p1 <= invalidPositions && movedFrom <= |movedShips| && Unmarked(ship, movedFrom, |movedShips|)
      modifies this
      ensures GrewFrom(old(commands), old(invalidPositions), old(movedShips), old(movers), ship, ships, ignore)
      ensures LastFor(ship, |old(commands)|)
      ensures MovedLast(ship, halite, shipyard, Target(ship, halite, shipyard, k, q), |p1|, movedFrom)
      ensures old(Orderly()) ==> Orderly()
      ensures old(NoDup(movedShips)) && ship.id !in old(movedShips) ==> NoDup(movedShips)
    {
      ghost var m2, p2 := movedShips, invalidPositions;
      Commit(ship, order, destination);
      CommitMovedLast(ship, halite, shipyard, Target(ship, halite, shipyard, k, q), order, destination,
                      p1, p2, m2, movedFrom);
    }

    /** The commit at the end of a round: `ship.stay_still()` or
        `ship.move(d)` queued, its cell committed, the ship marked moved. */
    method Commit(ship: Ship, order: Order, destination: Position)
      requires Valid()
      requires order.Move? ==> destination == Step(ship.position, order.direction)
      modifies this
      ensures Valid()
      ensures commands == old(commands) + [if order == Stay then StillCommand(ship.id) else MoveCommand(ship.id, order.direction)]
      ensures invalidPositions == old(invalidPositions) + [if order == Stay then ship.position else destination]
      ensures movers == old(movers) + [ship] && movedShips == old(movedShips) + [ship.id]
      ensures movedAt == old(movedAt) + [|old(movers)|]
      ensures old(Orderly()) ==> Orderly()
    {
      if order == Stay {
        commands := commands + [StillCommand(ship.id)];
        invalidPositions := invalidPositions + [ship.position];
      } else {
        commands := commands + [MoveCommand(ship.id, order.direction)];
        invalidPositions := invalidPositions + [destination];
      }
      movers := movers + [ship];
      movedShips, movedAt := movedShips + [ship.id], movedAt + [|movers| - 1];
    }

    /** The scan over the fleet inside one round of `move_ship_recursive`:
        every unmoved ship outside `ignore` standing on `destination` moves
        first, with `ship` added to what it ignores; the scan stops with
        `clear` false as soon as `destination` is committed. */
    method ClearTarget(ship: Ship, ships: seq<Ship>, ignore: seq<int>, destination: Position,
                       halite: Position -> int, shipyard: Position, k: Constants, q: Thresholds)
      returns (clear: bool)
      requires Valid()
      modifies this
      decreases Pending(ships, ignore, ship.id), 0
      ensures GrewFrom(old(commands), old(invalidPositions), old(movedShips), old(movers), ship, ships, ignore)
      ensures Unmarked(ship, |old(movedShips)|, |movedShips|)
      ensures clear && destination !in old(invalidPositions) ==> destination !in invalidPositions
      ensures !clear ==> && destination in invalidPositions
                         && exists other :: other in ships && other.id != ship.id && other.position == destination
      ensures old(Orderly()) && DistinctPositions(ships) ==> Orderly()
      ensures old(NoDup(movedShips)) ==> NoDup(movedShips)
    {
      clear := true;
      for j := 0 to |ships|
        invariant GrewFrom(old(commands), old(invalidPositions), old(movedShips), old(movers), ship, ships, ignore)
        invariant Unmarked(ship, |old(movedShips)|, |movedShips|)
        invariant destination !in old(invalidPositions) ==> destination !in invalidPositions
        invariant old(Orderly()) && DistinctPositions(ships) ==> Orderly()
        invariant old(NoDup(movedShips)) ==> NoDup(movedShips)
      {
        var other := ships[j];
        if ship.id != other.id && other.position == destination && other.id !in ignore && other.id !in movedShips {
          PendingShrinks(ships, ignore, ship.id, other);
          Yield(ship, other, ships, ignore, halite, shipyard, k, q,
                old(commands), old(invalidPositions), old(movedShips), old(movers),
                old(Orderly()) && DistinctPositions(ships), old(NoDup(movedShips)));
          if destination in invalidPositions {
            return false;
          }
        }
      }
    }

    /** `move_ship_recursive` for `other`, which stands on the cell `ship`
        wants, with `ship` added to what it ignores, seen from the start of
        `ship`'s scan: the lists still grew only as `ship` may make them
        grow since `(c0, p0, m0, v0)`, and `ship` is still unmarked. */
    method Yield(ship: Ship, other: Ship, ships: seq<Ship>, ignore: seq<int>, halite: Position -> int,
                 shipyard: Position, k: Constants, q: Thresholds,
                 ghost c0: seq<Command>, ghost p0: seq<Position>, ghost m0: seq<int>, ghost v0: seq<Ship>,
                 ghost orderly: bool, ghost unique: bool)
      requires other in ships && other.id != ship.id && other.id !in ignore && other.id !in movedShips
      requires GrewFrom(c0, p0, m0, v0, ship, ships, ignore) && Unmarked(ship, |m0|, |movedShips|)
      requires orderly ==> Orderly() && DistinctPositions(ships)
      requires unique ==> NoDup(movedShips)
      modifies this
      decreases Pending(ships, ignore + [ship.id], other.id), 5
      ensures GrewFrom(c0, p0, m0, v0, ship, ships, ignore) && Unmarked(ship, |m0|, |movedShips|)
      ensures orderly ==> Orderly()
      ensures unique ==> NoDup(movedShips)
    {
      ghost var c1, p1, m1, v1 := commands, invalidPositions, movedShips, movers;
      assert forall j :: |m0| <= j < |m1| ==> m1[j] != ship.id;
      if orderly {
        DistinctPositionsAlone(ships, other);
      }
      MoveShip(other, ships, ignore + [ship.id], halite, shipyard, k, q);
      Adopt(c1, p1, m1, v1, ship, other, ships, ignore);
      GrewTwice(c0, p0, m0, v0, c1, p1, m1, v1, ship, ships, ignore);
      UnmarkedJoin(ship, |m0|, m1);
    }

    /** Right after `Commit`, the desired move chosen against `p1` and
        kept clear until `p2` is `ship`'s last commit. */
    lemma CommitMovedLast(ship: Ship, halite: Position -> int, shipyard: Position, target: Position,
                          order: Order, destination: Position,
                          p1: seq<Position>, p2: seq<Position>, m2: seq<int>, movedFrom: nat)
      requires IsDesiredMove(ship, halite, p1, shipyard, target, order, destination)
      requires order.Move? ==> destination !in p2 && destination == Step(ship.position, order.direction)
      requires order == Stay ==> destination == ship.position
      requires p1 <= p2 && movedFrom <= |m2|
      requires forall j :: movedFrom <= j < |m2| ==> m2[j] != ship.id
      requires |commands| == |invalidPositions| && movedShips == m2 + [ship.id]
      requires invalidPositions == p2 + [if order == Stay then ship.position else destination]
      requires commands[|commands| - 1] == if order == Stay then StillCommand(ship.id) else MoveCommand(ship.id, order.direction)
      ensures MovedLast(ship, halite, shipyard, target, |p1|, movedFrom)
    {
      var c := commands[|commands| - 1];
      assert OrderOf(c) == order && Destination(ship, c) == destination;
      assert invalidPositions[..|p1|] == p1;
      assert invalidPositions[..|invalidPositions| - 1] == p2;
    }

    /** The loop of `one_game_step`: `move_ship_recursive` for every ship
        of the fleet that has not moved yet, in fleet order, on a fresh
        turn. */
    method MoveFleet(ships: seq<Ship>, halite: Position -> int, shipyard: Position, k: Constants, q: Thresholds)
      requires Valid() && movers == [] && movedShips == []
      modifies this
      ensures Valid()
      ensures forall j :: 0 <= j < |movers| ==> movers[j] in ships
      ensures forall i :: 0 <= i < |ships| ==> Commanded(commands, ships[i].id)
      ensures DistinctPositions(ships) ==> Orderly() && NoDup(movedShips)
    {
      for i := 0 to |ships|
        invariant Valid()
        invariant forall j :: 0 <= j < |movers| ==> movers[j] in ships
        invariant forall i' :: 0 <= i' < i ==> Commanded(commands, ships[i'].id)
        invariant DistinctPositions(ships) ==> Orderly() && NoDup(movedShips)
      {
        ghost var c0 := commands;
        MoveUnlessMoved(ships[i], ships, halite, shipyard, k, q);
        CoveredOneMore(ships, i, c0, commands);
      }
    }

    /** One pass of the loop of `one_game_step`: `move_ship_recursive` for
        `ship`, with nothing to ignore, unless it has moved already. */
    method MoveUnlessMoved(ship: Ship, ships: seq<Ship>, halite: Position -> int, shipyard: Position,
                           k: Constants, q: Thresholds)
      requires Valid() && ship in ships
      requires forall j :: 0 <= j < |movers| ==> movers[j] in ships
      modifies this
      ensures Valid() && old(commands) <= commands
      ensures forall j :: 0 <= j < |movers| ==> movers[j] in ships
      ensures Commanded(commands, ship.id)
      ensures old(Orderly() && NoDup(movedShips)) && DistinctPositions(ships) ==> Orderly() && NoDup(movedShips)
    {
      if ship.id !in movedShips {
        MoveShip(ship, ships, [], halite, shipyard, k, q);
        assert !commands[|commands| - 1].SpawnCommand?;
      } else {
        var m :| 0 <= m < |movedShips| && movedShips[m] == ship.id;
        assert !commands[movedAt[m]].SpawnCommand?;
      }
    }

    /** `GrewFrom` composes: growth from `(c0, p0, m0, v0)` to
        `(c1, p1, m1, v1)`, then growth from there to now. */
    lemma GrewTwice(c0: seq<Command>, p0: seq<Position>, m0: seq<int>, v0: seq<Ship>,
                    c1: seq<Command>, p1: seq<Position>, m1: seq<int>, v1: seq<Ship>,
                    ship: Ship, ships: seq<Ship>, ignore: seq<int>)
      requires c0 <= c1 && p0 <= p1 && m0 <= m1 && v0 <= v1
      requires forall j :: |v0| <= j < |v1| ==> v1[j] in ships || v1[j] == ship
      requires forall j :: |m0| <= j < |m1| ==> m1[j] !in ignore || m1[j] == ship.id
      requires GrewFrom(c1, p1, m1, v1, ship, ships, ignore)
      ensures GrewFrom(c0, p0, m0, v0, ship, ships, ignore)
    {
      forall j | |v0| <= j < |v1|
        ensures movers[j] == v1[j]
      {
      }
      forall j | |m0| <= j < |m1|
        ensures movedShips[j] == m1[j]
      {
      }
    }

    /** What a recursive call for `other`, ignoring `ship` as well, grew
        is growth for `ship`: only fleet ships were commanded, and none
        of those marked moved is `ship` or in `ignore`. */
    lemma Adopt(c1: seq<Command>, p1: seq<Position>, m1: seq<int>, v1: seq<Ship>,
                ship: Ship, other: Ship, ships: seq<Ship>, ignore: seq<int>)
      requires other in ships && other.id !in ignore && other.id != ship.id
      requires GrewFrom(c1, p1, m1, v1, other, ships, ignore + [ship.id])
      ensures GrewFrom(c1, p1, m1, v1, ship, ships, ignore)
      ensures forall j :: |v1| <= j < |movers| ==> movers[j] in ships
      ensures Unmarked(ship, |m1|, |movedShips|)
    {
    }

    /** A commit that is `ship`'s last since later marks is its last since
        earlier ones, when `ship` was not marked in between. */
    lemma MovedLastSince(ship: Ship, halite: Position -> int, shipyard: Position, target: Position,
                         from0: nat, from1: nat, movedFrom0: nat, m1: seq<int>)
      requires from0 <= from1 && movedFrom0 <= |m1| && m1 <= movedShips
      requires forall j :: movedFrom0 <= j < |m1| ==> m1[j] != ship.id
      requires MovedLast(ship, halite, shipyard, target, from1, |m1|)
      ensures MovedLast(ship, halite, shipyard, target, from0, movedFrom0)
    {
      var c := commands[|commands| - 1];
      var n :| from1 <= n < |invalidPositions|
               && IsDesiredMove(ship, halite, invalidPositions[..n], shipyard, target, OrderOf(c), Destination(ship, c));
      forall j | movedFrom0 <= j < |movedShips| - 1
        ensures movedShips[j] != ship.id
      {
        if j < |m1| {
          assert movedShips[j] == m1[j];
        }
      }
    }

    lemma UnmarkedJoin(ship: Ship, movedFrom0: nat, m1: seq<int>)
      requires movedFrom0 <= |m1| && m1 <= movedShips
      requires forall j :: movedFrom0 <= j < |m1| ==> m1[j] != ship.id
      requires Unmarked(ship, |m1|, |movedShips|)
      ensures Unmarked(ship, movedFrom0, |movedShips|)
    {
      forall j | movedFrom0 <= j < |m1|
        ensures movedShips[j] == m1[j]
      {
      }
    }
  }

  /** A round that `ship`, alone on its cell, could not commit asked for a
      step into a neighbour that is committed now but was not when the
      round began, so one more of its neighbours is committed. */
  lemma RoundFailed(ship: Ship, halite: Position -> int, before: seq<Position>, after: seq<Position>,
                    shipyard: Position, target: Position, order: Order, destination: Position)
    requires before <= after
    requires IsDesiredMove(ship, halite, before, shipyard, target, order, destination)
    requires order.Move? ==> destination !in before
    requires destination in after && destination != ship.position
    ensures CountIn(Around(ship.position), before) < CountIn(Around(ship.position), after)
  {
    var m :| 0 <= m < 4 && order == Move(Options[m]) && destination == Step(ship.position, Options[m]);
    PrefixMembers(before, after);
    CountInRises(Around(ship.position), before, after, m);
  }

  /** The queue a whole fleet pass leaves, against the fleet: every command
      is for a ship of the fleet, the shipyard is among the committed cells
      exactly when some command leaves its ship on the shipyard, and, when
      each commanded ship was marked moved once, no ship has two commands. */
  lemma FleetQueue(ships: seq<Ship>, commands: seq<Command>, movers: seq<Ship>, invalid: seq<Position>,
                   moved: seq<int>, shipyard: Position)
    requires DistinctIds(ships) && |movers| == |commands| == |invalid|
    requires forall j :: 0 <= j < |commands| ==> Commits(movers[j], commands[j], invalid[j])
    requires forall j :: 0 <= j < |movers| ==> movers[j] in ships
    requires DistinctPositions(ships) ==>
               |moved| == |movers| && NoDup(moved) && forall j :: 0 <= j < |movers| ==> moved[j] == movers[j].id
    ensures ShipCommands(commands)
    ensures forall c :: c in commands ==> HasId(ships, c.shipId)
    ensures shipyard !in invalid <==>
              forall c :: c in commands && HasId(ships, c.shipId) ==> Destination(ShipWith(ships, c.shipId), c) != shipyard
    ensures DistinctPositions(ships) ==> OneEach(commands)
  {
    forall c | c in commands
      ensures HasId(ships, c.shipId) && Destination(ShipWith(ships, c.shipId), c) in invalid
    {
      var j :| 0 <= j < |commands| && commands[j] == c;
      ShipWithUnique(ships, movers[j]);
      assert invalid[j] == Destination(movers[j], c);
    }
    if shipyard in invalid {
      var j :| 0 <= j < |commands| && invalid[j] == shipyard;
      ShipWithUnique(ships, movers[j]);
      assert commands[j] in commands;
    }
    if DistinctPositions(ships) {
      OneEachMoved(commands, movers, moved);
    }
  }

  /** Commands for the ships `movers`, marked moved once each in `moved`,
      are for distinct ships. */
  lemma OneEachMoved(commands: seq<Command>, movers: seq<Ship>, moved: seq<int>)
    requires |moved| == |movers| == |commands| && NoDup(moved)
    requires forall j :: 0 <= j < |commands| ==> !commands[j].SpawnCommand? && commands[j].shipId == movers[j].id
    requires forall j :: 0 <= j < |movers| ==> moved[j] == movers[j].id
    ensures ShipCommands(commands) && OneEach(commands)
  {
    forall i, j | 0 <= i < j < |commands|
      ensures commands[i].shipId != commands[j].shipId
    {
      assert commands[i].shipId == moved[i] && commands[j].shipId == moved[j];
    }
  }

  /** `one_game_step`: every ship of the fleet gets a command, each for a
      ship of the fleet, then a spawn exactly when the bank `bank` covers a
      ship, no command leaves a ship on the shipyard and the fleet is at
      most `q.maxShips`. When no two ships share a cell, no ship gets two
      commands. */
  method OneGameStep(ships: seq<Ship>, bank: int, halite: Position -> int, shipyard: Position, k: Constants, q: Thresholds)
    returns (commands: seq<Command>)
    requires DistinctIds(ships)
    ensures ShipCommands(ShipPart(commands))
    ensures forall c :: c in ShipPart(commands) ==> HasId(ships, c.shipId)
    ensures forall i :: 0 <= i < |ships| ==> Commanded(ShipPart(commands), ships[i].id)
    ensures Spawns(commands) <==>
              && bank >= k.shipCost && |ships| <= q.maxShips
              && forall c :: c in ShipPart(commands) && HasId(ships, c.shipId) ==>
                   Destination(ShipWith(ships, c.shipId), c) != shipyard
    ensures DistinctPositions(ships) ==> OneEach(ShipPart(commands))
  {
    var turn := new Turn();
    turn.MoveFleet(ships, halite, shipyard, k, q);
    var queue := turn.commands;
    FleetQueue(ships, queue, turn.movers, turn.invalidPositions, turn.movedShips, shipyard);
    if bank >= k.shipCost && shipyard !in turn.invalidPositions && |ships| <= q.maxShips {
      commands := queue + [SpawnCommand];
    } else {
      commands := queue;
    }
    assert ShipPart(commands) == queue;
  }


  /** The line `##FL-Round:{turn}:{halite}` logged at the start of every
      turn. */
  function RoundLogLine(turn: int, bank: int): string
  {
    "##FL-Round:" + ShowInt(turn) + ":" + ShowInt(bank)
  }

  /** The line `##FL-Map:{json}` logged once before the first turn, the
      map's halite as JSON text. */
  function MapLogLine(mapJson: string): string
  {
    "##FL-Map:" + mapJson
  }

  /** Split on ':', the round line gives back its tag and both numbers. */
  lemma RoundLogLineFields(turn: int, bank: int)
    ensures Split(RoundLogLine(turn, bank), ':') == ["##FL-Round", ShowInt(turn), ShowInt(bank)]
  {
    var t, b := ShowInt(turn), ShowInt(bank);
    assert ':' !in t && ':' !in b by {
      assert forall k :: 0 <= k < |t| ==> t[k] != ':';
      assert forall k :: 0 <= k < |b| ==> b[k] != ':';
    }
    assert RoundLogLine(turn, bank) == "##FL-Round" + [':'] + (t + [':'] + b);
    SplitThree("##FL-Round", t, b);
  }

  lemma SplitThree(p0: string, p1: string, p2: string)
    requires ':' !in p0 && ':' !in p1 && ':' !in p2
    ensures Split(p0 + [':'] + (p1 + [':'] + p2), ':') == [p0, p1, p2]
  {
    SplitNoSeparator(p2, ':');
    SplitFirstPiece(p1, ':', p2);
    SplitFirstPiece(p0, ':', p1 + [':'] + p2);
  }
}
