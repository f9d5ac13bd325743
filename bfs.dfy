/**
 * The reachability heuristic of bfs.rs: a breadth-first search over the
 * 4-connected cells of the screen grid, from a start position to the food,
 * treating every cell a snake segment occupies as blocked.
 *
 * The search is specified against paths: it answers true exactly when some
 * chain of adjacent, in-grid, unblocked cells leads from the start cell to
 * the food cell.
 */
module Bfs {
  import opened Game

  datatype Cell = Cell(x: int, y: int)

  /** `(v / BLOCK_SIZE) as i32`: the quotient truncated toward zero. */
  function Truncate(v: int): (c: int)
    ensures v % BlockSize == 0 ==> c * BlockSize == v
  {
    if v >= 0 then v / BlockSize else -((-v) / BlockSize)
  }

  /** The closure `to_cell`; exact on aligned points. */
  function ToCell(p: Point): (c: Cell)
    ensures Aligned(p) ==> c.x * BlockSize == p.x && c.y * BlockSize == p.y
  {
    Cell(Truncate(p.x), Truncate(p.y))
  }

  predicate InGrid(c: Cell) {
    0 <= c.x < Columns && 0 <= c.y < Rows
  }

  /** A cell the search may stand on. */
  predicate Open(c: Cell, blocked: set<Cell>) {
    InGrid(c) && c !in blocked
  }

  /** The cells of the segments of a body. */
  function Blocked(snake: seq<Point>): (b: set<Cell>)
    ensures forall i :: 0 <= i < |snake| ==> ToCell(snake[i]) in b
    ensures forall c :: c in b ==> exists i :: 0 <= i < |snake| && ToCell(snake[i]) == c
  {
    set i | 0 <= i < |snake| :: ToCell(snake[i])
  }

  /** The offsets `neighbours` of bfs.rs:45, in their order. */
  const Neighbours: seq<(int, int)> := [(1, 0), (-1, 0), (0, 1), (0, -1)]

  function Shift(c: Cell, k: nat): Cell
    requires k < |Neighbours|
  {
    Cell(c.x + Neighbours[k].0, c.y + Neighbours[k].1)
  }

  /** 4-connectivity, stated without the offset table. */
  predicate Adjacent(a: Cell, b: Cell) {
    Abs(a.x - b.x) + Abs(a.y - b.y) == 1
  }

  /** The offset table lists exactly the 4-connected neighbours. */
  lemma AdjacentIsShift(a: Cell, b: Cell)
    ensures Adjacent(a, b) <==> exists k :: 0 <= k < 4 && Shift(a, k) == b
  {
    if Adjacent(a, b) {
      if b.x == a.x + 1 {
        assert Shift(a, 0) == b;
      } else if b.x == a.x - 1 {
        assert Shift(a, 1) == b;
      } else if b.y == a.y + 1 {
        assert Shift(a, 2) == b;
      } else {
        assert Shift(a, 3) == b;
      }
    }
  }

  /** A chain of open cells, each adjacent to the next. */
  ghost predicate IsPath(p: seq<Cell>, blocked: set<Cell>) {
    && |p| >= 1
    && (forall i :: 0 <= i < |p| ==> Open(p[i], blocked))
    && (forall i :: 0 < i < |p| ==> Adjacent(p[i - 1], p[i]))
  }

  /** A path from `s` to `t`. */
  ghost predicate PathBetween(p: seq<Cell>, s: Cell, t: Cell, blocked: set<Cell>) {
    IsPath(p, blocked) && p[0] == s && p[|p| - 1] == t
  }

  /** The food cell can be reached from the start cell through open cells. */
  ghost predicate Reachable(s: Cell, t: Cell, blocked: set<Cell>) {
    exists p :: PathBetween(p, s, t, blocked)
  }

  /** Only open cells are reachable, and only from open cells. */
  lemma ReachableEndsOpen(s: Cell, t: Cell, blocked: set<Cell>)
    requires Reachable(s, t, blocked)
    ensures Open(s, blocked) && Open(t, blocked)
  {
    var p :| PathBetween(p, s, t, blocked);
    assert Open(p[0], blocked) && Open(p[|p| - 1], blocked);
  }

  /** An open start reaches itself. */
  lemma ReachableSelf(s: Cell, blocked: set<Cell>)
    requires Open(s, blocked)
    ensures Reachable(s, s, blocked)
  {
    assert PathBetween([s], s, s, blocked);
  }

  lemma ReachableExtend(s: Cell, c: Cell, n: Cell, blocked: set<Cell>)
    requires Reachable(s, c, blocked) && Adjacent(c, n) && Open(n, blocked)
    ensures Reachable(s, n, blocked)
  {
    var p :| PathBetween(p, s, c, blocked);
    var q := p + [n];
    assert PathBetween(q, s, n, blocked);
  }

  /**
   * A target other than the start is reachable only through one of its
   * neighbours, so a target walled in on all four sides is unreachable.
   */
  lemma TargetNeedsOpenNeighbour(s: Cell, t: Cell, blocked: set<Cell>)
    requires Reachable(s, t, blocked) && s != t
    ensures exists k :: 0 <= k < 4 && Open(Shift(t, k), blocked)
  {
    var p :| PathBetween(p, s, t, blocked);
    var q := p[|p| - 2];
    assert Adjacent(p[|p| - 2], p[|p| - 1]);
    AdjacentIsShift(t, q);
    var k :| 0 <= k < 4 && Shift(t, k) == q;
    assert Open(Shift(t, k), blocked);
  }

  /** Every open neighbour of `c` is already in `seen`. */
  ghost predicate Expanded(c: Cell, seen: set<Cell>, blocked: set<Cell>) {
    forall k :: 0 <= k < 4 && Open(Shift(c, k), blocked) ==> Shift(c, k) in seen
  }

  /** A set closed under open neighbours holds every cell on a path that starts in it. */
  lemma {:induction false} ClosedSetHoldsPath(seen: set<Cell>, p: seq<Cell>, blocked: set<Cell>)
    requires IsPath(p, blocked) && p[0] in seen
    requires forall c :: c in seen ==> Expanded(c, seen, blocked)
    ensures p[|p| - 1] in seen
  {
    if |p| > 1 {
      var front := p[..|p| - 1];
      assert IsPath(front, blocked) by {
        forall i | 0 < i < |front| ensures Adjacent(front[i - 1], front[i]) {
          assert front[i - 1] == p[i - 1] && front[i] == p[i];
        }
      }
      ClosedSetHoldsPath(seen, front, blocked);
      var a, b := p[|p| - 2], p[|p| - 1];
      assert a in seen && Adjacent(a, b) && Open(b, blocked);
      AdjacentIsShift(a, b);
    }
  }

  lemma SubsetCard(a: set<Cell>, b: set<Cell>)
    requires a <= b
    ensures |a| <= |b|
  {
    assert b == a + (b - a);
  }

  /** The cells of columns [0, w) and rows [0, h). */
  function GridCells(w: nat, h: nat): (cells: set<Cell>)
    ensures forall c :: c in cells <==> 0 <= c.x < w && 0 <= c.y < h
    ensures |cells| == w * h
  {
    if w == 0 then {} else GridCells(w - 1, h) + ColumnCells(w - 1, h)
  }

  function ColumnCells(x: int, h: nat): (cells: set<Cell>)
    ensures forall c :: c in cells <==> c.x == x && 0 <= c.y < h
    ensures |cells| == h
  {
    if h == 0 then {} else ColumnCells(x, h - 1) + {Cell(x, h - 1)}
  }

  /** The visited matrix marks exactly the cells of `seen`. */
  ghost predicate Mirrors(visited: array2<bool>, seen: set<Cell>)
    reads visited
  {
    && visited.Length0 == Columns && visited.Length1 == Rows
    && forall i, j :: 0 <= i < Columns && 0 <= j < Rows ==> (visited[i, j] <==> Cell(i, j) in seen)
  }

  /** Every cell marked so far is open and reachable from the start. */
  ghost predicate SoundlySeen(s: Cell, seen: set<Cell>, blocked: set<Cell>) {
    forall c :: c in seen ==> Open(c, blocked) && Reachable(s, c, blocked)
  }

  /**
   * `is_reachable`: false for a start off the grid or on the snake; otherwise a
   * breadth-first search that tests each cell for the food as it is dequeued.
   * It answers true exactly when an open path leads from the start cell to the
   * food cell, and it dequeues at most one cell per grid cell.
   */
  method IsReachable(start: Point, food: Point, snake: seq<Point>) returns (found: bool, ghost dequeued: nat)
    ensures found <==> Reachable(ToCell(start), ToCell(food), Blocked(snake))
    ensures dequeued <= Columns * Rows
  {
    var startCell := ToCell(start);
    var foodCell := ToCell(food);

    if startCell.x < 0 || startCell.y < 0 || startCell.x >= Columns || startCell.y >= Rows {
      OffGridStartUnreachable(start, food, snake);
      return false, 0;
    }

    var blocked: set<Cell> := {};
    for i := 0 to |snake|
      invariant blocked == set j | 0 <= j < i :: ToCell(snake[j])
    {
      blocked := blocked + {ToCell(snake[i])};
    }
    assert blocked == Blocked(snake);

    if startCell in blocked {
      BlockedStartUnreachable(startCell, foodCell, blocked);
      return false, 0;
    }

    found, dequeued := Search(startCell, foodCell, blocked);
  }

  /** Growing the queue by newly seen cells keeps every queued cell seen. */
  lemma QueueStaysSeen(queue0: seq<Cell>, queue: seq<Cell>, seen0: set<Cell>, seen: set<Cell>)
    requires forall i :: 0 <= i < |queue0| ==> queue0[i] in seen0
    requires seen0 <= seen && |queue0| <= |queue| && queue[..|queue0|] == queue0
    requires forall i :: |queue0| <= i < |queue| ==> queue[i] in seen
    ensures forall i :: 0 <= i < |queue| ==> queue[i] in seen
  {
    forall i | 0 <= i < |queue0| ensures queue[i] in seen {
      assert queue[i] == queue[..|queue0|][i];
    }
  }

  /**
   * After `c` is expanded, every seen cell that is not queued is expanded and
   * is not the food: the cells newly seen are all queued.
   */
  lemma RestStaysExpanded(c: Cell, foodCell: Cell, queue0: seq<Cell>, queue: seq<Cell>,
                          seen0: set<Cell>, seen: set<Cell>, blocked: set<Cell>)
    requires forall d :: d in seen0 && d !in queue0 && d != c ==> d != foodCell && Expanded(d, seen0, blocked)
    requires c != foodCell && Expanded(c, seen, blocked) && seen0 <= seen
    requires forall d :: d in queue0 ==> d in queue
    requires forall d :: d in seen && d !in seen0 ==> d in queue
    ensures forall d :: d in seen && d !in queue ==> d != foodCell && Expanded(d, seen, blocked)
  {
  }

  /**
   * The queue-and-seen state of the search: every seen cell is an open grid
   * cell reachable from the start, the start is seen, the queue holds seen
   * cells, every seen cell off the queue has been expanded and is not the
   * food, and each seen cell has been dequeued or is still queued.
   */
  ghost predicate Frontier(start: Cell, food: Cell, blocked: set<Cell>,
                           queue: seq<Cell>, seen: set<Cell>, dequeued: nat) {
    && seen <= GridCells(Columns, Rows)
    && SoundlySeen(start, seen, blocked)
    && start in seen
    && (forall i :: 0 <= i < |queue| ==> queue[i] in seen)
    && (forall c :: c in seen && c !in queue ==> c != food && Expanded(c, seen, blocked))
    && dequeued + |queue| == |seen| <= Columns * Rows
  }

  /**
   * One round of the search keeps the frontier: the head `c` of the queue, not
   * the food, is dequeued and expanded, and the newly seen cells are queued.
   * Either more cells are seen or the queue is shorter.
   */
  lemma RoundKeepsFrontier(start: Cell, food: Cell, blocked: set<Cell>,
                           queue0: seq<Cell>, seen0: set<Cell>, dequeued0: nat,
                           queue: seq<Cell>, seen: set<Cell>)
    requires Frontier(start, food, blocked, queue0, seen0, dequeued0)
    requires queue0 != [] && queue0[0] != food
    requires SoundlySeen(start, seen, blocked) && Expanded(queue0[0], seen, blocked)
    requires seen0 <= seen && |queue| - |queue0[1..]| == |seen| - |seen0|
    requires |queue0[1..]| <= |queue| && queue[..|queue0[1..]|] == queue0[1..]
    requires forall i :: |queue0[1..]| <= i < |queue| ==> queue[i] in seen && queue[i] !in seen0
    requires forall d :: d in seen && d !in seen0 ==> d in queue
    ensures Frontier(start, food, blocked, queue, seen, dequeued0 + 1)
    ensures |seen0| < |seen| || (|seen0| == |seen| && |queue| < |queue0|)
  {
    var c, rest := queue0[0], queue0[1..];
    QueueStaysSeen(rest, queue, seen0, seen);
    forall d | d in rest ensures d in queue {
      var i :| 0 <= i < |rest| && rest[i] == d;
      assert queue[i] == queue[..|rest|][i];
    }
    forall d | d in seen0 && d !in rest && d != c
      ensures d != food && Expanded(d, seen0, blocked)
    {
      assert d !in queue0 by {
        assert queue0 == [c] + rest;
      }
    }
    RestStaysExpanded(c, food, rest, queue, seen0, seen, blocked);
    OpenCellsFitGrid(seen, blocked);
  }

  /** Open cells all lie on the grid, so there are at most as many as grid cells. */
  lemma OpenCellsFitGrid(seen: set<Cell>, blocked: set<Cell>)
    requires forall c :: c in seen ==> Open(c, blocked)
    ensures seen <= GridCells(Columns, Rows) && |seen| <= Columns * Rows
  {
    SubsetCard(seen, GridCells(Columns, Rows));
  }

  /** The search loop of `is_reachable` (bfs.rs:39-73), from an open start cell. */
  method Search(startCell: Cell, foodCell: Cell, blocked: set<Cell>) returns (found: bool, ghost dequeued: nat)
    requires Open(startCell, blocked)
    ensures found <==> Reachable(startCell, foodCell, blocked)
    ensures dequeued <= Columns * Rows
  {
    dequeued := 0;
    var visited := new bool[Columns, Rows]((_, _) => false);
    visited[startCell.x, startCell.y] := true;
    var queue := [startCell];
    ghost var seen := {startCell};
    FirstFrontier(startCell, foodCell, blocked);

    while queue != []
      invariant Mirrors(visited, seen)
      invariant Frontier(startCell, foodCell, blocked, queue, seen, dequeued)
      decreases Columns * Rows - |seen|, |queue|
    {
      ghost var queue0, seen0, dequeued0 := queue, seen, dequeued;
      var c := queue[0];
      queue := queue[1..];
      dequeued := dequeued + 1;
      if c == foodCell {
        return true, dequeued;
      }
      queue, seen := VisitNeighbours(c, visited, queue, blocked, startCell, seen);
      RoundKeepsFrontier(startCell, foodCell, blocked, queue0, seen0, dequeued0, queue, seen);
    }

    ExhaustedFrontierMissesFood(startCell, foodCell, blocked, seen, dequeued);
    found := false;
  }

  /** The search starts from the start cell alone, which is open and reaches itself. */
  lemma FirstFrontier(start: Cell, food: Cell, blocked: set<Cell>)
    requires Open(start, blocked)
    ensures Frontier(start, food, blocked, [start], {start}, 0)
  {
    ReachableSelf(start, blocked);
    OpenCellsFitGrid({start}, blocked);
  }

  /**
   * Once the queue is empty every seen cell is expanded, so the seen set is
   * closed under open neighbours and, not holding the food, no path reaches it.
   */
  lemma ExhaustedFrontierMissesFood(start: Cell, food: Cell, blocked: set<Cell>, seen: set<Cell>, dequeued: nat)
    requires Frontier(start, food, blocked, [], seen, dequeued)
    ensures !Reachable(start, food, blocked)
  {
    if Reachable(start, food, blocked) {
      var p :| PathBetween(p, start, food, blocked);
      ClosedSetHoldsPath(seen, p, blocked);
    }
  }

  /** The offset is fresh for `c`: that neighbour is open and not yet seen. */
  predicate FreshOffset(c: Cell, seen: set<Cell>, blocked: set<Cell>, k: nat)
    requires k < |Neighbours|
  {
    Open(Shift(c, k), blocked) && Shift(c, k) !in seen
  }

  /**
   * The fresh offsets among the first `k`, in increasing order: the neighbours
   * the loop of bfs.rs:52-70 enqueues, in the order it enqueues them.
   */
  function FreshOffsets(c: Cell, seen: set<Cell>, blocked: set<Cell>, k: nat): (ks: seq<nat>)
    requires k <= |Neighbours|
    ensures forall i :: 0 <= i < |ks| ==> ks[i] < k
  {
    if k == 0 then []
    else FreshOffsets(c, seen, blocked, k - 1) + (if FreshOffset(c, seen, blocked, k - 1) then [k - 1] else [])
  }

  /**
   * The fresh offsets below `k` are listed each once, in increasing order, and
   * no fresh offset is missing.
   */
  lemma {:induction false} FreshOffsetsMeaning(c: Cell, seen: set<Cell>, blocked: set<Cell>, k: nat)
    requires k <= |Neighbours|
    ensures var ks := FreshOffsets(c, seen, blocked, k);
      && (forall i :: 0 <= i < |ks| ==> FreshOffset(c, seen, blocked, ks[i]))
      && (forall i, i' :: 0 <= i < i' < |ks| ==> ks[i] < ks[i'])
      && (forall j :: 0 <= j < k && FreshOffset(c, seen, blocked, j) ==> j in ks)
  {
    if k > 0 {
      FreshOffsetsMeaning(c, seen, blocked, k - 1);
    }
  }

  /** The neighbours of `c` at the given offsets, in order. */
  function ShiftAll(c: Cell, ks: seq<nat>): (cells: seq<Cell>)
    requires forall i :: 0 <= i < |ks| ==> ks[i] < |Neighbours|
    ensures |cells| == |ks| && forall i :: 0 <= i < |ks| ==> cells[i] == Shift(c, ks[i])
  {
    seq(|ks|, i requires 0 <= i < |ks| => Shift(c, ks[i]))
  }

  /** The four neighbours of a cell are distinct. */
  lemma ShiftsDistinct(c: Cell, j: nat, k: nat)
    requires j < |Neighbours| && k < |Neighbours| && j != k
    ensures Shift(c, j) != Shift(c, k)
  {
  }

  /**
   * One step of the neighbour loop: the cells enqueued so far are those of the
   * fresh offsets below `k`, so neighbour `k` is seen now only if it was seen
   * before, and enqueueing it exactly when it is fresh extends the list.
   */
  lemma FreshStep(c: Cell, seen: set<Cell>, blocked: set<Cell>, k: nat, seen': set<Cell>, added: seq<Cell>)
    requires k < |Neighbours|
    requires added == ShiftAll(c, FreshOffsets(c, seen, blocked, k))
    requires forall d :: d in seen' && d !in seen ==> d in added
    ensures Shift(c, k) in seen' ==> Shift(c, k) in seen
    ensures ShiftAll(c, FreshOffsets(c, seen, blocked, k + 1)) ==
      added + (if FreshOffset(c, seen, blocked, k) then [Shift(c, k)] else [])
  {
    var ks := FreshOffsets(c, seen, blocked, k);
    if Shift(c, k) in seen' && Shift(c, k) !in seen {
      var i :| 0 <= i < |added| && added[i] == Shift(c, k);
      ShiftsDistinct(c, ks[i], k);
    }
  }

  /**
   * The bookkeeping of the neighbour loop of `c` after the first `k` offsets:
   * the cells appended to `queue` are the neighbours at the fresh offsets below
   * `k`, in order; they are exactly the cells newly seen, and they are
   * reachable; every open neighbour below `k` is seen.
   */
  ghost predicate Enqueued(c: Cell, s: Cell, blocked: set<Cell>, queue: seq<Cell>, seen: set<Cell>,
                           k: nat, queue': seq<Cell>, seen': set<Cell>)
    requires k <= |Neighbours|
  {
    && SoundlySeen(s, seen', blocked)
    && seen <= seen' && |queue'| - |queue| == |seen'| - |seen|
    && |queue| <= |queue'| && queue'[..|queue|] == queue
    && (forall i :: |queue| <= i < |queue'| ==> queue'[i] in seen' && queue'[i] !in seen)
    && (forall d :: d in seen' && d !in seen ==> d in queue'[|queue|..])
    && queue'[|queue|..] == ShiftAll(c, FreshOffsets(c, seen, blocked, k))
    && (forall j :: 0 <= j < k && Open(Shift(c, j), blocked) ==> Shift(c, j) in seen')
  }

  /** Before the first offset nothing is appended. */
  lemma EnqueuedStart(c: Cell, s: Cell, blocked: set<Cell>, queue: seq<Cell>, seen: set<Cell>)
    requires SoundlySeen(s, seen, blocked)
    ensures Enqueued(c, s, blocked, queue, seen, 0, queue, seen)
  {
  }

  /**
   * Neighbour `k` is skipped when it is off the grid, blocked or already
   * marked; it is then not fresh, and the bookkeeping carries over.
   */
  lemma EnqueuedSkip(c: Cell, s: Cell, blocked: set<Cell>, queue: seq<Cell>, seen: set<Cell>,
                     k: nat, queue': seq<Cell>, seen': set<Cell>)
    requires k < |Neighbours| && Enqueued(c, s, blocked, queue, seen, k, queue', seen')
    requires !Open(Shift(c, k), blocked) || Shift(c, k) in seen'
    ensures Enqueued(c, s, blocked, queue, seen, k + 1, queue', seen')
  {
    FreshStep(c, seen, blocked, k, seen', queue'[|queue|..]);
  }

  /** An open, unmarked neighbour `k` is fresh; marking and appending it extends the bookkeeping. */
  lemma EnqueuedPush(c: Cell, s: Cell, blocked: set<Cell>, queue: seq<Cell>, seen: set<Cell>,
                     k: nat, queue': seq<Cell>, seen': set<Cell>)
    requires k < |Neighbours| && Enqueued(c, s, blocked, queue, seen, k, queue', seen')
    requires c in seen' && Open(Shift(c, k), blocked) && Shift(c, k) !in seen'
    ensures Enqueued(c, s, blocked, queue, seen, k + 1, queue' + [Shift(c, k)], seen' + {Shift(c, k)})
  {
    var n := Shift(c, k);
    FreshStep(c, seen, blocked, k, seen', queue'[|queue|..]);
    EnqueueKeepsOrder(queue, seen, queue', seen', n);
    assert (queue' + [n])[|queue|..] == queue'[|queue|..] + [n];
    AdjacentIsShift(c, n);
    ReachableExtend(s, c, n, blocked);
  }

  /** After all four offsets the bookkeeping gives the contract of the neighbour loop. */
  lemma EnqueuedDone(c: Cell, s: Cell, blocked: set<Cell>, queue: seq<Cell>, seen: set<Cell>,
                     queue': seq<Cell>, seen': set<Cell>)
    requires Enqueued(c, s, blocked, queue, seen, |Neighbours|, queue', seen')
    ensures forall d :: d in seen' && d !in seen ==> d in queue'
    ensures Expanded(c, seen', blocked)
  {
    forall d | d in seen' && d !in seen ensures d in queue' {
      var i :| 0 <= i < |queue'[|queue|..]| && queue'[|queue|..][i] == d;
      assert queue'[|queue| + i] == d;
    }
  }

  /**
   * The neighbour loop of bfs.rs:52-70: each in-grid, unvisited, unblocked
   * neighbour of `c`, in the order of `Neighbours`, is marked and enqueued.
   */
  method VisitNeighbours(c: Cell, visited: array2<bool>, queue: seq<Cell>, blocked: set<Cell>,
                         ghost s: Cell, ghost seen: set<Cell>)
    returns (queue': seq<Cell>, ghost seen': set<Cell>)
    requires Mirrors(visited, seen) && SoundlySeen(s, seen, blocked) && c in seen
    modifies visited
    ensures Mirrors(visited, seen') && SoundlySeen(s, seen', blocked)
    ensures seen <= seen' && |queue'| - |queue| == |seen'| - |seen|
    ensures |queue| <= |queue'| && queue'[..|queue|] == queue
    ensures forall i :: |queue| <= i < |queue'| ==> queue'[i] in seen' && queue'[i] !in seen
    ensures forall d :: d in seen' && d !in seen ==> d in queue'
    ensures queue'[|queue|..] == ShiftAll(c, FreshOffsets(c, seen, blocked, |Neighbours|))
    ensures Expanded(c, seen', blocked)
  {
    queue', seen' := queue, seen;
    EnqueuedStart(c, s, blocked, queue, seen);
    for k := 0 to 4
      invariant Mirrors(visited, seen') && c in seen'
      invariant Enqueued(c, s, blocked, queue, seen, k, queue', seen')
    {
      var nx := c.x + Neighbours[k].0;
      var ny := c.y + Neighbours[k].1;
      ghost var n := Cell(nx, ny);
      assert n == Shift(c, k);
      if nx < 0 || ny < 0 || nx >= Columns || ny >= Rows {
        EnqueuedSkip(c, s, blocked, queue, seen, k, queue', seen');
        continue;
      }
      if visited[nx, ny] {
        EnqueuedSkip(c, s, blocked, queue, seen, k, queue', seen');
        continue;
      }
      if Cell(nx, ny) in blocked {
        EnqueuedSkip(c, s, blocked, queue, seen, k, queue', seen');
        continue;
      }
      visited[nx, ny] := true;
      EnqueuedPush(c, s, blocked, queue, seen, k, queue', seen');
      queue' := queue' + [Cell(nx, ny)];
      seen' := seen' + {n};
    }
    EnqueuedDone(c, s, blocked, queue, seen, queue', seen');
  }

  /** Enqueueing a cell not seen before, and marking it, keeps the queue in step with the seen set. */
  lemma EnqueueKeepsOrder(queue: seq<Cell>, seen: set<Cell>, queue': seq<Cell>, seen': set<Cell>, n: Cell)
    requires seen <= seen' && |queue'| - |queue| == |seen'| - |seen| && n !in seen'
    requires |queue| <= |queue'| && queue'[..|queue|] == queue
    requires forall i :: |queue| <= i < |queue'| ==> queue'[i] in seen' && queue'[i] !in seen
    requires forall d :: d in seen' && d !in seen ==> d in queue'
    ensures seen <= seen' + {n} && |queue' + [n]| - |queue| == |seen' + {n}| - |seen|
    ensures |queue| <= |queue' + [n]| && (queue' + [n])[..|queue|] == queue
    ensures forall i :: |queue| <= i < |queue' + [n]| ==> (queue' + [n])[i] in seen' + {n} && (queue' + [n])[i] !in seen
    ensures forall d :: d in seen' + {n} && d !in seen ==> d in queue' + [n]
  {
    assert (queue' + [n])[..|queue|] == queue'[..|queue|];
  }

  /** A start off the grid reaches nothing, whatever the snake and the food. */
  lemma OffGridStartUnreachable(start: Point, food: Point, snake: seq<Point>)
    requires !InGrid(ToCell(start))
    ensures !Reachable(ToCell(start), ToCell(food), Blocked(snake))
  {
    if Reachable(ToCell(start), ToCell(food), Blocked(snake)) {
      ReachableEndsOpen(ToCell(start), ToCell(food), Blocked(snake));
    }
  }

  /** A start cell that is blocked reaches nothing. */
  lemma BlockedStartUnreachable(s: Cell, t: Cell, blocked: set<Cell>)
    requires s in blocked
    ensures !Reachable(s, t, blocked)
  {
    if Reachable(s, t, blocked) {
      ReachableEndsOpen(s, t, blocked);
    }
  }

  /** A start on any snake segment reaches nothing. */
  lemma StartOnSnakeUnreachable(start: Point, food: Point, snake: seq<Point>)
    requires start in snake
    ensures !Reachable(ToCell(start), ToCell(food), Blocked(snake))
  {
    var i :| 0 <= i < |snake| && snake[i] == start;
    assert ToCell(start) in Blocked(snake);
    if Reachable(ToCell(start), ToCell(food), Blocked(snake)) {
      ReachableEndsOpen(ToCell(start), ToCell(food), Blocked(snake));
    }
  }

  /** A start on the food, off the snake and on the grid, is reachable at once. */
  lemma StartOnFoodReachable(start: Point, snake: seq<Point>)
    requires InGrid(ToCell(start)) && ToCell(start) !in Blocked(snake)
    ensures Reachable(ToCell(start), ToCell(start), Blocked(snake))
  {
    ReachableSelf(ToCell(start), Blocked(snake));
  }

  /** Food off the grid or on the snake is never reached. */
  lemma ClosedFoodUnreachable(start: Point, food: Point, snake: seq<Point>)
    requires !Open(ToCell(food), Blocked(snake))
    ensures !Reachable(ToCell(start), ToCell(food), Blocked(snake))
  {
    if Reachable(ToCell(start), ToCell(food), Blocked(snake)) {
      ReachableEndsOpen(ToCell(start), ToCell(food), Blocked(snake));
    }
  }

  /** On aligned points the conversion keeps the screen test and tells positions apart. */
  lemma ToCellOfAligned(p: Point, q: Point)
    requires Aligned(p) && Aligned(q)
    ensures OutOfScreen(p) <==> !InGrid(ToCell(p))
    ensures ToCell(p) == ToCell(q) <==> p == q
  {
  }

  /**
   * The conditions of `is_collision_point` make the search fail: an aligned
   * start off screen or on the snake reaches no food.
   */
  lemma CollidingStartUnreachable(start: Point, food: Point, snake: seq<Point>)
    requires Aligned(start) && (OutOfScreen(start) || start in snake)
    ensures !Reachable(ToCell(start), ToCell(food), Blocked(snake))
  {
    if OutOfScreen(start) {
      ToCellOfAligned(start, start);
      OffGridStartUnreachable(start, food, snake);
    } else {
      StartOnSnakeUnreachable(start, food, snake);
    }
  }

  /** The cells of an aligned body are the cells of its segments, one to one. */
  lemma BlockedOfAligned(snake: seq<Point>, p: Point)
    requires Aligned(p) && forall i :: 0 <= i < |snake| ==> Aligned(snake[i])
    ensures ToCell(p) in Blocked(snake) <==> p in snake
  {
    if ToCell(p) in Blocked(snake) {
      var i :| 0 <= i < |snake| && ToCell(snake[i]) == ToCell(p);
      ToCellOfAligned(snake[i], p);
    }
  }
}
