/**
 * Day 17, part 2: a crucible crosses a grid of heat-loss digits from the
 * top-left to the bottom-right cell. It may turn left or right or go
 * straight, never back; it must go at least `min_steps` cells in a line
 * before turning (or stopping at the goal) and at most `max_steps` cells.
 *
 * The search keeps a priority queue of steps ordered by accumulated heat
 * loss and a set of visited keys (position, direction, run length), marked
 * when a step is pushed.
 */
module Day17Part2 {
  import opened Text

  datatype Direction = North | East | South | West

  function Reverse(d: Direction): Direction {
    match d
    case North => South
    case South => North
    case East => West
    case West => East
  }

  /** `Direction::string`. */
  function Name(d: Direction): string {
    match d
    case North => "n"
    case West => "w"
    case South => "s"
    case East => "e"
  }

  /** `Step`: a position, the direction moved in, the heat lost so far and the cells moved in a line. */
  datatype Step = Step(x: nat, y: nat, direction: Direction, heatLoss: nat, steps: nat)

  /** What `cache_key` keeps of a step: everything except the heat loss. */
  datatype Key = Key(x: nat, y: nat, direction: Direction, steps: nat)

  function KeyOf(s: Step): Key {
    Key(s.x, s.y, s.direction, s.steps)
  }

  /** `cache_key`: the fields joined with underscores. */
  function CacheKey(s: Step): string {
    Decimal(s.x) + "_" + Decimal(s.y) + "_" + Name(s.direction) + "_" + Decimal(s.steps)
  }

  lemma NoUnderscore(n: nat)
    ensures '_' !in Decimal(n)
  {
    var s := Decimal(n);
    forall k | 0 <= k < |s| ensures s[k] != '_' {
      assert IsDigit(s[k]);
    }
  }

  /** The text before the first underscore is determined: two keys that agree agree on their first field and the rest. */
  lemma PeelField(f: string, rest: string, g: string, rest2: string)
    requires '_' !in f && '_' !in g && f + ['_'] + rest == g + ['_'] + rest2
    ensures f == g && rest == rest2
  {
    SplitOnceAt(f, rest, '_');
    SplitOnceAt(g, rest2, '_');
  }

  /** Three underscore-free fields and a last one, joined with underscores, determine each other. */
  lemma JoinedFields(x1: string, y1: string, n1: string, s1: string, x2: string, y2: string, n2: string, s2: string)
    requires '_' !in x1 && '_' !in y1 && '_' !in n1 && '_' !in x2 && '_' !in y2 && '_' !in n2
    requires x1 + "_" + y1 + "_" + n1 + "_" + s1 == x2 + "_" + y2 + "_" + n2 + "_" + s2
    ensures x1 == x2 && y1 == y2 && n1 == n2 && s1 == s2
  {
    assert x1 + "_" + y1 + "_" + n1 + "_" + s1 == x1 + ['_'] + (y1 + ['_'] + (n1 + ['_'] + s1));
    assert x2 + "_" + y2 + "_" + n2 + "_" + s2 == x2 + ['_'] + (y2 + ['_'] + (n2 + ['_'] + s2));
    PeelField(x1, y1 + ['_'] + (n1 + ['_'] + s1), x2, y2 + ['_'] + (n2 + ['_'] + s2));
    PeelField(y1, n1 + ['_'] + s1, y2, n2 + ['_'] + s2);
    PeelField(n1, s1, n2, s2);
  }

  /**
   * Two steps share a cache key exactly when they agree on position,
   * direction and run length, so the string-keyed visited set is a set of
   * keys.
   */
  lemma CacheKeyInjective(a: Step, b: Step)
    ensures CacheKey(a) == CacheKey(b) <==> KeyOf(a) == KeyOf(b)
  {
    if CacheKey(a) == CacheKey(b) {
      NoUnderscore(a.x);
      NoUnderscore(b.x);
      NoUnderscore(a.y);
      NoUnderscore(b.y);
      assert '_' !in Name(a.direction) && '_' !in Name(b.direction);
      JoinedFields(Decimal(a.x), Decimal(a.y), Name(a.direction), Decimal(a.steps),
                   Decimal(b.x), Decimal(b.y), Name(b.direction), Decimal(b.steps));
      assert DecimalValue(Decimal(a.x)) == DecimalValue(Decimal(b.x));
      assert DecimalValue(Decimal(a.y)) == DecimalValue(Decimal(b.y));
      assert DecimalValue(Decimal(a.steps)) == DecimalValue(Decimal(b.steps));
    }
  }

  // ---------------------------------------------------------------------------
  // Successors
  // ---------------------------------------------------------------------------

  /** A grid of heat-loss digits with a first row to take the width from, no shorter rows below it. */
  predicate GridOk(grid: seq<seq<nat>>) {
    |grid| > 0 && |grid[0]| > 0 && forall y :: 0 <= y < |grid| ==> |grid[y]| >= |grid[0]|
  }

  function Width(grid: seq<seq<nat>>): nat
    requires GridOk(grid)
  {
    |grid[0]|
  }

  /** The cell one step in direction `d`, which may be off the grid. */
  function Toward(x: int, y: int, d: Direction): (int, int) {
    match d
    case North => (x, y - 1)
    case South => (x, y + 1)
    case East => (x + 1, y)
    case West => (x - 1, y)
  }

  /** `next_steps`: straight on first, then the two turns, in the source's order. */
  function Moves(current: Step): (r: seq<Direction>)
    ensures |r| == 3 && r[0] == current.direction
  {
    match current.direction
    case North => [North, West, East]
    case West => [West, South, North]
    case South => [South, West, East]
    case East => [East, South, North]
  }

  /** The moves are every direction but back. */
  lemma MovesExact(current: Step, d: Direction)
    ensures d in Moves(current) <==> d != Reverse(current.direction)
  {
    match current.direction
    case North =>
    case West =>
    case South =>
    case East =>
  }

  /**
   * One candidate of the `for next_step in next_steps` loop: dropped when
   * off the grid, when going straight after `max_steps` or when turning
   * before `min_steps`; otherwise the step into that cell.
   */
  function Admit(grid: seq<seq<nat>>, current: Step, d: Direction, minSteps: nat, maxSteps: nat): Option<Step>
    requires GridOk(grid)
  {
    var (nx, ny) := Toward(current.x, current.y, d);
    if nx < 0 || ny < 0 || nx >= Width(grid) || ny >= |grid| then None
    else if current.steps >= maxSteps && current.direction == d then None
    else if current.steps < minSteps && current.direction != d then None
    else Some(Step(nx, ny, d, current.heatLoss + grid[ny][nx],
                   if current.direction == d then current.steps + 1 else 1))
  }

  /** The steps the loop would push, before the visited check, in order. */
  function Successors(grid: seq<seq<nat>>, current: Step, minSteps: nat, maxSteps: nat): seq<Step>
    requires GridOk(grid)
  {
    Admitted(grid, current, Moves(current), minSteps, maxSteps)
  }

  function Admitted(grid: seq<seq<nat>>, current: Step, ds: seq<Direction>, minSteps: nat, maxSteps: nat): (r: seq<Step>)
    requires GridOk(grid)
    ensures forall s :: s in r <==> exists d :: d in ds && Admit(grid, current, d, minSteps, maxSteps) == Some(s)
  {
    if |ds| == 0 then []
    else
      var rest := Admitted(grid, current, ds[1..], minSteps, maxSteps);
      assert forall d :: d in ds <==> d == ds[0] || d in ds[1..];
      match Admit(grid, current, ds[0], minSteps, maxSteps)
      case Some(s) => [s] + rest
      case None => rest
  }

  /**
   * The successor rules: a step follows `current` exactly when it moves
   * one cell, in any direction but back, onto the grid; goes straight only
   * below `max_steps` and turns only from `min_steps` on; adds the entered
   * cell's digit to the heat loss; and counts its run from 1 after a turn.
   */
  lemma SuccessorRules(grid: seq<seq<nat>>, current: Step, s: Step, minSteps: nat, maxSteps: nat)
    requires GridOk(grid)
    ensures s in Successors(grid, current, minSteps, maxSteps) <==>
      s.direction != Reverse(current.direction)
      && (s.x as int, s.y as int) == Toward(current.x, current.y, s.direction)
      && s.x < Width(grid) && s.y < |grid|
      && (s.direction == current.direction ==> current.steps < maxSteps && s.steps == current.steps + 1)
      && (s.direction != current.direction ==> current.steps >= minSteps && s.steps == 1)
      && s.heatLoss == current.heatLoss + grid[s.y][s.x]
  {
    var rules := s.direction != Reverse(current.direction)
      && (s.x as int, s.y as int) == Toward(current.x, current.y, s.direction)
      && s.x < Width(grid) && s.y < |grid|
      && (s.direction == current.direction ==> current.steps < maxSteps && s.steps == current.steps + 1)
      && (s.direction != current.direction ==> current.steps >= minSteps && s.steps == 1)
      && s.heatLoss == current.heatLoss + grid[s.y][s.x];
    MovesExact(current, s.direction);
    if rules {
      assert Admit(grid, current, s.direction, minSteps, maxSteps) == Some(s);
    }
  }

  // ---------------------------------------------------------------------------
  // Paths
  // ---------------------------------------------------------------------------

  predicate AtGoal(grid: seq<seq<nat>>, s: Step)
    requires GridOk(grid)
  {
    s.x == Width(grid) - 1 && s.y == |grid| - 1
  }

  /** The two steps the queue starts with: at the top-left cell heading east and south, nothing lost. */
  predicate Start(s: Step) {
    s == Step(0, 0, East, 0, 0) || s == Step(0, 0, South, 0, 0)
  }

  /**
   * A route the search can follow to `target`: it begins at a start, each
   * step is a successor of the one before, and it passes no goal cell
   * before its end (goal steps are never expanded).
   */
  ghost predicate PathTo(grid: seq<seq<nat>>, path: seq<Step>, target: Step, minSteps: nat, maxSteps: nat)
    requires GridOk(grid)
  {
    |path| > 0 && Start(path[0]) && path[|path| - 1] == target
    && forall i :: 0 <= i < |path| - 1 ==>
         !AtGoal(grid, path[i]) && path[i + 1] in Successors(grid, path[i], minSteps, maxSteps)
  }

  /** The heat lost along a route: the digits of every cell entered after the first. */
  function Entered(grid: seq<seq<nat>>, path: seq<Step>): nat
    requires forall i :: 0 <= i < |path| ==> path[i].y < |grid| && path[i].x < |grid[path[i].y]|
  {
    if |path| <= 1 then 0
    else Entered(grid, path[..|path| - 1]) + grid[path[|path| - 1].y][path[|path| - 1].x]
  }

  /** Every step of a route is on the grid. */
  lemma PathOnGrid(grid: seq<seq<nat>>, path: seq<Step>, target: Step, minSteps: nat, maxSteps: nat)
    requires GridOk(grid) && PathTo(grid, path, target, minSteps, maxSteps)
    ensures forall i :: 0 <= i < |path| ==> path[i].y < |grid| && path[i].x < |grid[path[i].y]|
  {
    forall i | 0 <= i < |path| ensures path[i].y < |grid| && path[i].x < |grid[path[i].y]| {
      if i > 0 {
        SuccessorRules(grid, path[i - 1], path[i], minSteps, maxSteps);
      }
    }
  }

  /** A step's heat loss is exactly what the cells entered on any route to it cost. */
  lemma {:induction false} PathLoss(grid: seq<seq<nat>>, path: seq<Step>, target: Step, minSteps: nat, maxSteps: nat)
    requires GridOk(grid) && PathTo(grid, path, target, minSteps, maxSteps)
    requires forall i :: 0 <= i < |path| ==> path[i].y < |grid| && path[i].x < |grid[path[i].y]|
    ensures target.heatLoss == Entered(grid, path)
  {
    if |path| > 1 {
      var prefix := path[..|path| - 1];
      var last := prefix[|prefix| - 1];
      assert forall i :: 0 <= i < |prefix| ==> prefix[i] == path[i];
      PathLoss(grid, prefix, last, minSteps, maxSteps);
      SuccessorRules(grid, last, target, minSteps, maxSteps);
    }
  }

  // ---------------------------------------------------------------------------
  // The search
  // ---------------------------------------------------------------------------

  /** What the push loop leaves: the steps pushed, in order, and the visited keys. */
  datatype Pushed = Pushed(steps: seq<Step>, visited: set<Key>)

  /** The keys of a sequence of steps. */
  function KeysOf(steps: seq<Step>): set<Key> {
    if |steps| == 0 then {} else {KeyOf(steps[0])} + KeysOf(steps[1..])
  }

  lemma {:induction false} KeysOfWithin(steps: seq<Step>, all: set<Key>)
    requires forall i :: 0 <= i < |steps| ==> KeyOf(steps[i]) in all
    ensures KeysOf(steps) <= all
  {
    if |steps| > 0 {
      assert forall i :: 0 <= i < |steps[1..]| ==> steps[1..][i] == steps[i + 1];
      KeysOfWithin(steps[1..], all);
    }
  }

  /** Push every candidate whose key is not yet visited, marking it visited. */
  function Enqueue(candidates: seq<Step>, visited: set<Key>): (r: Pushed)
    ensures r.visited == visited + KeysOf(r.steps)
    ensures forall s :: s in candidates ==> KeyOf(s) in r.visited
    ensures forall i :: 0 <= i < |r.steps| ==> r.steps[i] in candidates && KeyOf(r.steps[i]) !in visited
    ensures forall i, j :: 0 <= i < j < |r.steps| ==> KeyOf(r.steps[i]) != KeyOf(r.steps[j])
  {
    if |candidates| == 0 then Pushed([], visited)
    else
      var s := candidates[0];
      if KeyOf(s) in visited then
        var r := Enqueue(candidates[1..], visited);
        assert forall t :: t in candidates[1..] ==> t in candidates;
        r
      else
        var rest := Enqueue(candidates[1..], visited + {KeyOf(s)});
        var r := Pushed([s] + rest.steps, rest.visited);
        assert r.steps[1..] == rest.steps;
        assert forall i :: 1 <= i < |r.steps| ==> r.steps[i] == rest.steps[i - 1];
        assert forall t :: t in candidates[1..] ==> t in candidates;
        r
  }

  /** The keys a search on this grid can produce: cells of the grid, runs up to one past `max_steps`. */
  function Keys(grid: seq<seq<nat>>, maxSteps: nat): set<Key>
    requires GridOk(grid)
  {
    set x: nat, y: nat, d: Direction, n: nat | x < Width(grid) && y < |grid| && n <= maxSteps + 1
      && d in {North, East, South, West} :: Key(x, y, d, n)
  }

  predicate Bounded(grid: seq<seq<nat>>, s: Step, maxSteps: nat)
    requires GridOk(grid)
  {
    s.x < Width(grid) && s.y < |grid| && s.steps <= maxSteps + 1
  }

  lemma KeyInKeys(grid: seq<seq<nat>>, s: Step, maxSteps: nat)
    requires GridOk(grid) && Bounded(grid, s, maxSteps)
    ensures KeyOf(s) in Keys(grid, maxSteps)
  {
    assert s.direction in {North, East, South, West} by {
      match s.direction
      case North =>
      case East =>
      case South =>
      case West =>
    }
  }

  lemma SuccessorsBounded(grid: seq<seq<nat>>, current: Step, minSteps: nat, maxSteps: nat)
    requires GridOk(grid) && Bounded(grid, current, maxSteps)
    ensures forall s :: s in Successors(grid, current, minSteps, maxSteps) ==> Bounded(grid, s, maxSteps)
  {
    forall s | s in Successors(grid, current, minSteps, maxSteps) ensures Bounded(grid, s, maxSteps) {
      SuccessorRules(grid, current, s, minSteps, maxSteps);
    }
  }

  /** Every pushed step takes one key out of those not yet visited. */
  lemma {:induction false} PushCost(all: set<Key>, visited: set<Key>, pushed: seq<Step>)
    requires forall i :: 0 <= i < |pushed| ==> KeyOf(pushed[i]) in all && KeyOf(pushed[i]) !in visited
    requires forall i, j :: 0 <= i < j < |pushed| ==> KeyOf(pushed[i]) != KeyOf(pushed[j])
    ensures |all - (visited + KeysOf(pushed))| + |pushed| == |all - visited|
    decreases |pushed|
  {
    if |pushed| > 0 {
      var k := KeyOf(pushed[0]);
      var rest := pushed[1..];
      assert forall i :: 0 <= i < |rest| ==> rest[i] == pushed[i + 1];
      PushCost(all, visited + {k}, rest);
      assert visited + KeysOf(pushed) == (visited + {k}) + KeysOf(rest);
      assert all - visited == (all - (visited + {k})) + {k};
    }
  }

  function MinIndex(queue: seq<Step>): (i: nat)
    requires |queue| > 0
    ensures i < |queue| && forall j :: 0 <= j < |queue| ==> queue[i].heatLoss <= queue[j].heatLoss
  {
    if |queue| == 1 then 0
    else
      var k := 1 + MinIndex(queue[1..]);
      assert forall j :: 1 <= j < |queue| ==> queue[j] == queue[1..][j - 1];
      if queue[0].heatLoss <= queue[k].heatLoss then 0 else k
  }

  /** A route to a step that is not the goal extends to each of its successors. */
  lemma Extend(grid: seq<seq<nat>>, route: seq<Step>, current: Step, s: Step, minSteps: nat, maxSteps: nat)
    requires GridOk(grid) && PathTo(grid, route, current, minSteps, maxSteps)
    requires !AtGoal(grid, current) && s in Successors(grid, current, minSteps, maxSteps)
    ensures PathTo(grid, route + [s], s, minSteps, maxSteps)
  {
    var p := route + [s];
    forall k | 0 <= k < |p| - 1
      ensures !AtGoal(grid, p[k]) && p[k + 1] in Successors(grid, p[k], minSteps, maxSteps)
    {
      assert p[k] == route[k];
      if k < |route| - 1 {
        assert p[k + 1] == route[k + 1];
      } else {
        assert p[k + 1] == s;
      }
    }
  }

  /** The routes recorded for newly pushed steps: each one extends the route to the step they follow. */
  function Extended(paths: map<Step, seq<Step>>, route: seq<Step>, steps: seq<Step>): map<Step, seq<Step>> {
    paths + map s | s in steps :: route + [s]
  }

  /**
   * What the search keeps true of its queue: every queued step is on the
   * grid with its key visited, and a recorded route reaches it.
   */
  ghost predicate Tracked(grid: seq<seq<nat>>, minSteps: nat, maxSteps: nat, all: set<Key>,
                          queue: seq<Step>, visited: set<Key>, paths: map<Step, seq<Step>>)
    requires GridOk(grid)
  {
    visited <= all
    && forall i :: 0 <= i < |queue| ==>
         Bounded(grid, queue[i], maxSteps) && KeyOf(queue[i]) in visited
         && queue[i] in paths && PathTo(grid, paths[queue[i]], queue[i], minSteps, maxSteps)
  }

  lemma TrackedPop(grid: seq<seq<nat>>, minSteps: nat, maxSteps: nat, all: set<Key>,
                   queue: seq<Step>, visited: set<Key>, paths: map<Step, seq<Step>>, i: nat)
    requires GridOk(grid) && i < |queue| && Tracked(grid, minSteps, maxSteps, all, queue, visited, paths)
    ensures Tracked(grid, minSteps, maxSteps, all, queue[..i] + queue[i + 1..], visited, paths)
    ensures Bounded(grid, queue[i], maxSteps) && queue[i] in paths
    ensures PathTo(grid, paths[queue[i]], queue[i], minSteps, maxSteps)
  {
    var rest := queue[..i] + queue[i + 1..];
    assert forall j :: 0 <= j < |rest| ==> rest[j] == if j < i then queue[j] else queue[j + 1];
  }

  lemma TrackedPush(grid: seq<seq<nat>>, minSteps: nat, maxSteps: nat, all: set<Key>,
                    queue: seq<Step>, visited: set<Key>, paths: map<Step, seq<Step>>,
                    current: Step, route: seq<Step>, pushed: Pushed)
    requires GridOk(grid) && Tracked(grid, minSteps, maxSteps, all, queue, visited, paths)
    requires all == Keys(grid, maxSteps)
    requires Bounded(grid, current, maxSteps) && !AtGoal(grid, current)
    requires PathTo(grid, route, current, minSteps, maxSteps)
    requires pushed == Enqueue(Successors(grid, current, minSteps, maxSteps), visited)
    ensures Tracked(grid, minSteps, maxSteps, all, queue + pushed.steps, pushed.visited, Extended(paths, route, pushed.steps))
    ensures |all - pushed.visited| + |pushed.steps| == |all - visited|
  {
    SuccessorsBounded(grid, current, minSteps, maxSteps);
    forall k | 0 <= k < |pushed.steps| ensures KeyOf(pushed.steps[k]) in all {
      KeyInKeys(grid, pushed.steps[k], maxSteps);
    }
    PushCost(all, visited, pushed.steps);
    KeysOfWithin(pushed.steps, all);
    assert pushed.visited <= all;
    var more := Extended(paths, route, pushed.steps);
    forall s | s in pushed.steps ensures PathTo(grid, more[s], s, minSteps, maxSteps) {
      Extend(grid, route, current, s, minSteps, maxSteps);
    }
    var q := queue + pushed.steps;
    forall j | 0 <= j < |q|
      ensures Bounded(grid, q[j], maxSteps) && KeyOf(q[j]) in pushed.visited
      ensures q[j] in more && PathTo(grid, more[q[j]], q[j], minSteps, maxSteps)
    {
      if j < |queue| {
        assert q[j] == queue[j];
        if q[j] !in pushed.steps {
          assert more[q[j]] == paths[q[j]];
        }
      } else {
        assert q[j] == pushed.steps[j - |queue|];
      }
    }
  }

  // ---------------------------------------------------------------------------
  // Completeness: an empty queue means no route reaches the goal
  // ---------------------------------------------------------------------------

  /** A route the search accepts: it reaches the goal after a run of at least `min_steps`. */
  ghost predicate Arrives(grid: seq<seq<nat>>, path: seq<Step>, goal: Step, minSteps: nat, maxSteps: nat)
    requires GridOk(grid)
  {
    PathTo(grid, path, goal, minSteps, maxSteps) && AtGoal(grid, goal) && goal.steps >= minSteps
  }

  /** The step a key stands for, with no heat lost yet. */
  function AtKey(k: Key): Step {
    Step(k.x, k.y, k.direction, 0, k.steps)
  }

  /** Which successors a step has depends on its key alone: the heat loss only shifts theirs. */
  lemma SuccessorKeys(grid: seq<seq<nat>>, a: Step, b: Step, s: Step, minSteps: nat, maxSteps: nat)
    requires GridOk(grid) && KeyOf(a) == KeyOf(b) && s in Successors(grid, a, minSteps, maxSteps)
    ensures Step(s.x, s.y, s.direction, b.heatLoss + grid[s.y][s.x], s.steps) in Successors(grid, b, minSteps, maxSteps)
  {
    SuccessorRules(grid, a, s, minSteps, maxSteps);
    SuccessorRules(grid, b, Step(s.x, s.y, s.direction, b.heatLoss + grid[s.y][s.x], s.steps), minSteps, maxSteps);
  }

  /**
   * A popped key is spent: at the goal it was dropped for a run shorter
   * than `min_steps`; elsewhere the keys of all its successors are visited.
   */
  ghost predicate Spent(grid: seq<seq<nat>>, minSteps: nat, maxSteps: nat, visited: set<Key>, k: Key)
    requires GridOk(grid)
  {
    if AtGoal(grid, AtKey(k)) then k.steps < minSteps
    else forall s :: s in Successors(grid, AtKey(k), minSteps, maxSteps) ==> KeyOf(s) in visited
  }

  /** Every visited key is still queued or already spent. */
  ghost predicate Closed(grid: seq<seq<nat>>, minSteps: nat, maxSteps: nat,
                         queue: seq<Step>, visited: set<Key>, spent: set<Key>)
    requires GridOk(grid)
  {
    (forall k :: k in visited ==> k in KeysOf(queue) || k in spent)
    && (forall k :: k in spent ==> Spent(grid, minSteps, maxSteps, visited, k))
  }

  lemma {:induction false} KeysOfAppend(a: seq<Step>, b: seq<Step>)
    ensures KeysOf(a + b) == KeysOf(a) + KeysOf(b)
    decreases |a|
  {
    if |a| == 0 {
      assert a + b == b;
    } else {
      assert (a + b)[0] == a[0] && (a + b)[1..] == a[1..] + b;
      KeysOfAppend(a[1..], b);
    }
  }

  /** Expanding a step that is not the goal spends its key. */
  lemma ExpandSpends(grid: seq<seq<nat>>, minSteps: nat, maxSteps: nat, current: Step, visited: set<Key>)
    requires GridOk(grid) && !AtGoal(grid, current)
    ensures Spent(grid, minSteps, maxSteps, Enqueue(Successors(grid, current, minSteps, maxSteps), visited).visited, KeyOf(current))
  {
    var pushed := Enqueue(Successors(grid, current, minSteps, maxSteps), visited);
    var k := KeyOf(current);
    forall s | s in Successors(grid, AtKey(k), minSteps, maxSteps) ensures KeyOf(s) in pushed.visited {
      SuccessorKeys(grid, AtKey(k), current, s, minSteps, maxSteps);
    }
  }

  /** Popping the step at `i`, spending its key and pushing more steps keeps every visited key queued or spent. */
  lemma ClosedStep(grid: seq<seq<nat>>, minSteps: nat, maxSteps: nat, queue: seq<Step>, visited: set<Key>,
                   spent: set<Key>, i: nat, pushed: seq<Step>, visited': set<Key>)
    requires GridOk(grid) && i < |queue| && Closed(grid, minSteps, maxSteps, queue, visited, spent)
    requires visited' == visited + KeysOf(pushed) && Spent(grid, minSteps, maxSteps, visited', KeyOf(queue[i]))
    ensures Closed(grid, minSteps, maxSteps, queue[..i] + queue[i + 1..] + pushed, visited', spent + {KeyOf(queue[i])})
  {
    var rest := queue[..i] + queue[i + 1..];
    assert queue == queue[..i] + [queue[i]] + queue[i + 1..];
    KeysOfAppend(queue[..i] + [queue[i]], queue[i + 1..]);
    KeysOfAppend(queue[..i], [queue[i]]);
    KeysOfAppend(queue[..i], queue[i + 1..]);
    KeysOfAppend(rest, pushed);
    forall k | k in spent ensures Spent(grid, minSteps, maxSteps, visited', k) {
      assert Spent(grid, minSteps, maxSteps, visited, k);
    }
  }

  /** With nothing queued, every key on a route is visited. */
  lemma {:induction false} RouteVisited(grid: seq<seq<nat>>, minSteps: nat, maxSteps: nat, visited: set<Key>,
                                        path: seq<Step>, goal: Step, i: nat)
    requires GridOk(grid) && Closed(grid, minSteps, maxSteps, [], visited, visited)
    requires KeyOf(Step(0, 0, East, 0, 0)) in visited && KeyOf(Step(0, 0, South, 0, 0)) in visited
    requires PathTo(grid, path, goal, minSteps, maxSteps) && i < |path|
    ensures KeyOf(path[i]) in visited
  {
    if i > 0 {
      RouteVisited(grid, minSteps, maxSteps, visited, path, goal, i - 1);
      var k := KeyOf(path[i - 1]);
      assert Spent(grid, minSteps, maxSteps, visited, k);
      SuccessorKeys(grid, path[i - 1], AtKey(k), path[i], minSteps, maxSteps);
    }
  }

  /** A search whose queue runs empty has visited no key from which the goal is accepted. */
  lemma Unreachable(grid: seq<seq<nat>>, minSteps: nat, maxSteps: nat, visited: set<Key>, path: seq<Step>, goal: Step)
    requires GridOk(grid) && Closed(grid, minSteps, maxSteps, [], visited, visited)
    requires KeyOf(Step(0, 0, East, 0, 0)) in visited && KeyOf(Step(0, 0, South, 0, 0)) in visited
    ensures !Arrives(grid, path, goal, minSteps, maxSteps)
  {
    if Arrives(grid, path, goal, minSteps, maxSteps) {
      RouteVisited(grid, minSteps, maxSteps, visited, path, goal, |path| - 1);
    }
  }

  /**
   * One round of the search loop on the step at `i`: at the goal it is
   * accepted when its run is long enough and dropped otherwise; elsewhere
   * its successors whose keys are new are pushed. A round that accepts
   * nothing keeps the search's invariants and uses up one unit of work.
   */
  method Expand(grid: seq<seq<nat>>, minSteps: nat, maxSteps: nat, queue: seq<Step>, visited: set<Key>, i: nat,
                ghost all: set<Key>, ghost paths: map<Step, seq<Step>>, ghost spent: set<Key>)
    returns (found: Option<nat>, queue': seq<Step>, visited': set<Key>,
             ghost paths': map<Step, seq<Step>>, ghost spent': set<Key>)
    requires GridOk(grid) && all == Keys(grid, maxSteps) && i < |queue|
    requires Tracked(grid, minSteps, maxSteps, all, queue, visited, paths)
    requires Closed(grid, minSteps, maxSteps, queue, visited, spent)
    ensures found.Some? ==>
      exists path, goal :: Arrives(grid, path, goal, minSteps, maxSteps) && goal.heatLoss == found.value
    ensures found.None? ==>
      && Tracked(grid, minSteps, maxSteps, all, queue', visited', paths')
      && Closed(grid, minSteps, maxSteps, queue', visited', spent')
      && visited <= visited' && |all - visited'| + |queue'| < |all - visited| + |queue|
  {
    var current := queue[i];
    ghost var route := paths[current];
    TrackedPop(grid, minSteps, maxSteps, all, queue, visited, paths, i);
    var rest := queue[..i] + queue[i + 1..];
    spent' := spent + {KeyOf(current)};
    if AtGoal(grid, current) {
      if current.steps >= minSteps {
        assert Arrives(grid, route, current, minSteps, maxSteps);
        return Some(current.heatLoss), rest, visited, paths, spent';
      }
      ClosedStep(grid, minSteps, maxSteps, queue, visited, spent, i, [], visited);
      assert rest + [] == rest;
      found, queue', visited', paths' := None, rest, visited, paths;
    } else {
      var pushed := Enqueue(Successors(grid, current, minSteps, maxSteps), visited);
      ExpandSpends(grid, minSteps, maxSteps, current, visited);
      ClosedStep(grid, minSteps, maxSteps, queue, visited, spent, i, pushed.steps, pushed.visited);
      TrackedPush(grid, minSteps, maxSteps, all, rest, visited, paths, current, route, pushed);
      found, queue', visited', paths' := None, rest + pushed.steps, pushed.visited, Extended(paths, route, pushed.steps);
    }
  }

  /**
   * `compute_least_heat_loss`: pop a step of least heat loss; at the goal,
   * return its loss if its run is long enough and drop it otherwise; else
   * push its successors whose keys are new. An empty queue gives 0. A
   * non-zero answer is the heat loss of a route that obeys the successor
   * rules and reaches the goal with a run of at least `min_steps`; and when
   * any such route exists, the answer is the heat loss of one, never the
   * empty queue's 0.
   */
  method LeastHeatLoss(grid: seq<seq<nat>>, minSteps: nat, maxSteps: nat) returns (loss: nat)
    requires GridOk(grid)
    ensures loss != 0 ==>
      exists path, goal :: Arrives(grid, path, goal, minSteps, maxSteps) && goal.heatLoss == loss
    ensures (exists path, goal :: Arrives(grid, path, goal, minSteps, maxSteps)) ==>
      exists path, goal :: Arrives(grid, path, goal, minSteps, maxSteps) && goal.heatLoss == loss
  {
    var east := Step(0, 0, East, 0, 0);
    var south := Step(0, 0, South, 0, 0);
    var queue := [east, south];
    var visited := {KeyOf(east), KeyOf(south)};
    ghost var paths: map<Step, seq<Step>> := map[east := [east], south := [south]];
    ghost var all := Keys(grid, maxSteps);
    KeyInKeys(grid, east, maxSteps);
    KeyInKeys(grid, south, maxSteps);
    ghost var spent: set<Key> := {};
    assert KeysOf(queue) == visited by {
      assert queue[1..] == [south] && [south][1..] == [];
      assert KeysOf([south]) == {KeyOf(south)};
    }
    while |queue| > 0
      invariant Tracked(grid, minSteps, maxSteps, all, queue, visited, paths)
      invariant KeyOf(east) in visited && KeyOf(south) in visited
      invariant Closed(grid, minSteps, maxSteps, queue, visited, spent)
      decreases |all - visited| + |queue|
    {
      ghost var least := MinIndex(queue);
      var i :| 0 <= i < |queue| && forall j :: 0 <= j < |queue| ==> queue[i].heatLoss <= queue[j].heatLoss;
      var found;
      found, queue, visited, paths, spent := Expand(grid, minSteps, maxSteps, queue, visited, i, all, paths, spent);
      if found.Some? {
        return found.value;
      }
    }
    forall path, goal ensures !Arrives(grid, path, goal, minSteps, maxSteps) {
      Unreachable(grid, minSteps, maxSteps, visited, path, goal);
    }
    return 0;
  }

  // ---------------------------------------------------------------------------
  // Parsing
  // ---------------------------------------------------------------------------

  /** A one-character string parses as a number exactly when the character is a digit, to its value. */
  lemma SingleCharParse(c: char, max: nat)
    requires max >= 9
    ensures ParseUnsigned([c], max) == if IsDigit(c) then Some(DigitValue(c)) else None
  {
    if IsDigit(c) {
      assert DecimalValue([c]) == DecimalValue([c][..0]) * 10 + DigitValue(c);
    } else if c == '+' {
      assert UnsignedBody([c]) == [];
    } else {
      assert UnsignedBody([c]) == [c];
    }
  }

  /** A line of the grid: the characters that parse as numbers (the digits), as their values. */
  function DigitRow(line: string): seq<nat> {
    var ds := Digits(line);
    seq(|ds|, k requires 0 <= k < |ds| => DigitValue(ds[k]))
  }

  /** The grid `compute_path` builds, one row per line. */
  function HeatGrid(input: string): seq<seq<nat>> {
    var lines := Lines(input);
    seq(|lines|, i requires 0 <= i < |lines| => DigitRow(lines[i]))
  }

  /**
   * `compute_path`: the search with runs of 4 to 10 cells. A non-zero
   * answer is the heat loss of a route that obeys those rules and stops at
   * the goal after at least 4 cells in a line; when such a route exists,
   * the answer is the heat loss of one.
   */
  method ComputePath(input: string) returns (loss: nat)
    requires GridOk(HeatGrid(input))
    ensures loss != 0 ==>
      exists path, goal :: Arrives(HeatGrid(input), path, goal, 4, 10) && goal.heatLoss == loss
    ensures (exists path, goal :: Arrives(HeatGrid(input), path, goal, 4, 10)) ==>
      exists path, goal :: Arrives(HeatGrid(input), path, goal, 4, 10) && goal.heatLoss == loss
  {
    loss := LeastHeatLoss(HeatGrid(input), 4, 10);
  }
}
