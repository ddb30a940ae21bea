/**
 * The Snake game of the arcade app: a snake on a 20 by 20 grid that moves one
 * cell per tick, grows and scores on food, speeds up as it grows, and ends on
 * a wall or on itself.
 *
 * The timer that calls a tick every `gameSpeed` milliseconds while playing, the
 * keyboard listener and the rendering are left to the caller; each handler is
 * one atomic method here. `Math.random()` becomes a sequence of candidate food
 * cells.
 */
module ArcadeGame {
  import opened Wrappers

  const GridSize: int := 20
  const InitialSpeed: int := 200
  const MinSpeed: int := 100
  const SpeedStep: int := 5
  const FoodScore: int := 10

  datatype Position = Position(x: int, y: int)

  datatype Direction = Up | Down | Left | Right

  const InitialSnake: seq<Position> := [Position(10, 10)]
  const InitialFood: Position := Position(15, 10)

  function Opposite(d: Direction): Direction {
    match d
    case Up => Down
    case Down => Up
    case Left => Right
    case Right => Left
  }

  /** The cell next to `p` in direction `d`; `y` grows downwards. */
  function Step(p: Position, d: Direction): Position {
    match d
    case Up => p.(y := p.y - 1)
    case Down => p.(y := p.y + 1)
    case Left => p.(x := p.x - 1)
    case Right => p.(x := p.x + 1)
  }

  /** A step undoes another exactly when it goes the opposite way. */
  lemma StepBack(p: Position, d: Direction, e: Direction)
    ensures Step(Step(p, d), e) == p <==> e == Opposite(d)
    ensures Opposite(Opposite(d)) == d && Opposite(d) != d
  {
  }

  predicate InGrid(p: Position) {
    0 <= p.x < GridSize && 0 <= p.y < GridSize
  }

  predicate AllInGrid(snake: seq<Position>) {
    forall i :: 0 <= i < |snake| ==> InGrid(snake[i])
  }

  /** No two segments share a cell. */
  predicate Distinct(snake: seq<Position>) {
    forall i, j :: 0 <= i < j < |snake| ==> snake[i] != snake[j]
  }

  // ------------------------------------------------------------------ tick

  /** What one tick does to the snake: it crashes and stays as it was, grows by
      its new head, or slides (new head on, last segment off). */
  datatype Outcome = Crash | Grow(grown: seq<Position>) | Slide(slid: seq<Position>)

  /** The body of `moveSnake`: the head steps in `direction`; a head off the grid
      or on any current segment, the last one included, is a crash; a head on
      the food grows the snake. */
  function Advance(snake: seq<Position>, direction: Direction, food: Position): (r: Outcome)
    requires |snake| > 0
    ensures r.Crash? <==> !InGrid(Step(snake[0], direction)) || Step(snake[0], direction) in snake
    ensures r.Grow? <==> !r.Crash? && Step(snake[0], direction) == food
    ensures r.Grow? ==> |r.grown| == |snake| + 1 && r.grown[0] == Step(snake[0], direction) && r.grown[1..] == snake
    ensures r.Slide? ==> (|r.slid| == |snake| && r.slid[0] == Step(snake[0], direction)
                          && r.slid[1..] == snake[..|snake| - 1])
  {
    var head := Step(snake[0], direction);
    if !InGrid(head) || head in snake then Crash
    else if head == food then Grow([head] + snake)
    else Slide([head] + snake[..|snake| - 1])
  }

  /** A tick keeps the snake on the grid and free of overlaps, and the food off a
      snake that slid. */
  lemma AdvanceKeepsShape(snake: seq<Position>, direction: Direction, food: Position)
    requires |snake| > 0 && AllInGrid(snake) && Distinct(snake)
    ensures var r := Advance(snake, direction, food);
      && (r.Grow? ==> AllInGrid(r.grown) && Distinct(r.grown))
      && (r.Slide? ==> AllInGrid(r.slid) && Distinct(r.slid) && (food !in snake ==> food !in r.slid))
  {
    var head := Step(snake[0], direction);
    var r := Advance(snake, direction, food);
    if r.Slide? {
      var s := r.slid;
      forall i | 1 <= i < |s| ensures s[i] == snake[i - 1] {
        assert s[i] == s[1..][i - 1];
      }
    } else if r.Grow? {
      var s := r.grown;
      forall i | 1 <= i < |s| ensures s[i] == snake[i - 1] {
        assert s[i] == s[1..][i - 1];
      }
    }
  }

  /** A snake on the grid without overlaps, food on a free cell, and a head one
      step from the neck in the direction last moved. */
  predicate Shaped(snake: seq<Position>, food: Position, heading: Direction) {
    && |snake| > 0 && AllInGrid(snake) && Distinct(snake)
    && InGrid(food) && food !in snake
    && (|snake| >= 2 ==> snake[0] == Step(snake[1], heading))
  }

  /** A slide keeps the shape, with the new heading. */
  lemma SlideShaped(snake: seq<Position>, food: Position, heading: Direction, direction: Direction)
    requires Shaped(snake, food, heading) && Advance(snake, direction, food).Slide?
    ensures Shaped(Advance(snake, direction, food).slid, food, direction)
  {
    AdvanceKeepsShape(snake, direction, food);
    var s := Advance(snake, direction, food).slid;
    if |s| >= 2 {
      assert s[1] == s[1..][0];
    }
  }

  /** Growing keeps the shape once new food is put on a free grid cell. */
  lemma GrowShaped(snake: seq<Position>, food: Position, heading: Direction, direction: Direction, newFood: Position)
    requires Shaped(snake, food, heading) && Advance(snake, direction, food).Grow?
    requires InGrid(newFood) && newFood !in Advance(snake, direction, food).grown
    ensures Shaped(Advance(snake, direction, food).grown, newFood, direction)
  {
    AdvanceKeepsShape(snake, direction, food);
    var s := Advance(snake, direction, food).grown;
    assert s[1] == s[1..][0];
  }

  // ----------------------------------------------------------------- turns

  /** The turn rule as written: a requested direction is refused only when it is
      opposite to the direction last requested, so the new direction is never
      the reverse of the previous request. */
  function TurnAsWritten(current: Direction, requested: Direction): (r: Direction)
    ensures r == requested || r == current
    ensures r != Opposite(current)
    ensures r == requested <==> requested != Opposite(current)
  {
    if current != Opposite(requested) then requested else current
  }

  /** The turn rule as intended: a requested direction is refused when it is
      opposite to the direction the snake last moved in (`heading`), so a
      direction that was not the reverse of the heading stays so. */
  function Turn(heading: Direction, current: Direction, requested: Direction): (r: Direction)
    ensures r == requested || r == current
    ensures current != Opposite(heading) ==> r != Opposite(heading)
    ensures r == requested <==> requested != Opposite(heading) || requested == current
  {
    if heading != Opposite(requested) then requested else current
  }

  /** A snake whose head is one step from its neck in `heading` cannot step onto
      its neck in any direction the corrected rule lets through. */
  lemma NoReversal(snake: seq<Position>, heading: Direction, current: Direction, requested: Direction)
    requires |snake| >= 2 && snake[0] == Step(snake[1], heading)
    requires current != Opposite(heading)
    ensures Turn(heading, current, requested) != Opposite(heading)
    ensures Step(snake[0], Turn(heading, current, requested)) != snake[1]
  {
    StepBack(snake[1], heading, Turn(heading, current, requested));
  }

  /** Two key presses between ticks defeat the rule as written: a two-segment
      snake moving right, sent up and then left, turns back onto its own neck and
      the game ends. The corrected rule refuses the second press and the snake
      moves up. */
  lemma DoubleTurnReverses()
    ensures var snake := [Position(11, 10), Position(10, 10)];
      var asWritten := TurnAsWritten(TurnAsWritten(Right, Up), Left);
      var corrected := Turn(Right, Turn(Right, Right, Up), Left);
      && asWritten == Left && Advance(snake, asWritten, InitialFood).Crash?
      && corrected == Up && Advance(snake, corrected, InitialFood) == Slide([Position(11, 9), Position(11, 10)])
  {
    var snake := [Position(11, 10), Position(10, 10)];
    assert Step(snake[0], Left) == snake[1];
  }

  // ------------------------------------------------------------------ food

  /** Some candidate cell is free of `snake`. */
  predicate HasFreeDraw(snake: seq<Position>, draws: seq<Position>) {
    exists k :: 0 <= k < |draws| && draws[k] !in snake
  }

  /** The first candidate cell not on the snake. */
  function FirstFreeDraw(snake: seq<Position>, draws: seq<Position>): (p: Position)
    requires HasFreeDraw(snake, draws)
    ensures p in draws && p !in snake
  {
    if draws[0] !in snake then draws[0]
    else
      assert HasFreeDraw(snake, draws[1..]) by {
        var k :| 0 <= k < |draws| && draws[k] !in snake;
        assert draws[1..][k - 1] == draws[k];
      }
      FirstFreeDraw(snake, draws[1..])
  }

  /** `generateFood`: draws cells until one is not on the snake. The draws are
      the successive `Math.floor(Math.random() * GRID_SIZE)` pairs; the source
      loops for ever when none is free, which the precondition excludes. */
  method GenerateFood(snake: seq<Position>, draws: seq<Position>) returns (food: Position)
    requires HasFreeDraw(snake, draws)
    ensures food == FirstFreeDraw(snake, draws)
    ensures food in draws && food !in snake
  {
    var k := 0;
    while draws[k] in snake
      invariant 0 <= k < |draws| && HasFreeDraw(snake, draws[k..])
      invariant FirstFreeDraw(snake, draws[k..]) == FirstFreeDraw(snake, draws)
      decreases |draws| - k
    {
      assert draws[k..][1..] == draws[k + 1..];
      k := k + 1;
    }
    food := draws[k];
    assert draws[k..][0] == draws[k];
  }

  // ----------------------------------------------------------------- speed

  /** The tick interval after `eaten` pieces of food: 5 ms faster per piece, never
      below 100 ms. */
  function Speed(eaten: nat): (ms: int)
    ensures MinSpeed <= ms <= InitialSpeed
    ensures ms == MinSpeed || ms == InitialSpeed - SpeedStep * eaten
  {
    if InitialSpeed - SpeedStep * eaten < MinSpeed then MinSpeed else InitialSpeed - SpeedStep * eaten
  }

  /** Eating once more is `Math.max(100, prev - 5)`. */
  lemma SpeedUp(eaten: nat)
    ensures Speed(eaten + 1) == if Speed(eaten) - SpeedStep < MinSpeed then MinSpeed else Speed(eaten) - SpeedStep
  {
  }

  // ----------------------------------------------------------------- class

  /** All the fields of a `Game` at one moment. */
  datatype Snapshot = Snapshot(snake: seq<Position>, food: Position, gameOver: bool, score: int,
                               isPlaying: bool, highScore: int, gameSpeed: int,
                               direction: Direction, heading: Direction)

  /** The `useState` initial values, with a high score of 0. */
  const Start: Snapshot := Snapshot(InitialSnake, InitialFood, false, 0, false, 0, InitialSpeed, Right, Right)

  /** The state after the snake grows into `grown` and new food is put on
      `newFood`: ten more points, the high score raised to the score when it is
      beaten, the interval 5 ms shorter down to 100 ms, and the step just taken
      as the heading. */
  function Ate(s: Snapshot, grown: seq<Position>, newFood: Position): Snapshot {
    var score := s.score + FoodScore;
    s.(snake := grown, food := newFood, score := score,
       highScore := if score > s.highScore then score else s.highScore,
       gameSpeed := if s.gameSpeed - SpeedStep < MinSpeed then MinSpeed else s.gameSpeed - SpeedStep,
       heading := s.direction)
  }

  /** The component's state, for the game as corrected by the turn rule `Turn`:
      `direction` is `directionRef`, and `heading` is the direction of the last
      step taken, which the corrected rule tests against. */
  class Game {
    var snake: seq<Position>
    var food: Position
    var gameOver: bool
    var score: int
    var isPlaying: bool
    var highScore: int
    var gameSpeed: int
    var direction: Direction
    var heading: Direction

    /** The invariant every handler keeps: a non-empty snake on the grid without
        overlaps, food on a free cell, ten points and one more segment per piece
        eaten, the interval that many steps faster, a high score no lower than the
        score, a finished game not playing, and a direction that does not turn the
        head back onto the neck. */
    predicate Valid()
      reads this
    {
      && Shaped(snake, food, heading)
      && score == FoodScore * (|snake| - 1)
      && gameSpeed == Speed(|snake| - 1)
      && highScore >= score
      && (gameOver ==> !isPlaying)
      && direction != Opposite(heading)
    }

    function Current(): Snapshot
      reads this
    {
      Snapshot(snake, food, gameOver, score, isPlaying, highScore, gameSpeed, direction, heading)
    }

    /** The initial `useState` values. */
    constructor()
      ensures Valid() && Current() == Start
    {
      snake := InitialSnake;
      food := InitialFood;
      gameOver := false;
      score := 0;
      isPlaying := false;
      highScore := 0;
      gameSpeed := InitialSpeed;
      direction := Right;
      heading := Right;
    }

    /** `resetGame`: everything back to the start but the high score, and not
        playing. */
    method ResetGame()
      requires Valid()
      modifies this
      ensures Valid() && Current() == Start.(highScore := old(highScore))
    {
      snake := InitialSnake;
      food := InitialFood;
      direction := Right;
      heading := Right;
      gameOver := false;
      score := 0;
      isPlaying := false;
      gameSpeed := InitialSpeed;
    }

    /** `startGame`: a finished game is reset first; then playing. */
    method StartGame()
      requires Valid()
      modifies this
      ensures Valid() && isPlaying && !gameOver
      ensures old(gameOver) ==> Current() == Start.(highScore := old(highScore), isPlaying := true)
      ensures !old(gameOver) ==> Current() == old(Current()).(isPlaying := true)
    {
      if gameOver {
        ResetGame();
      }
      isPlaying := true;
    }

    /** `pauseGame`. */
    method PauseGame()
      requires Valid()
      modifies this
      ensures Valid() && Current() == old(Current()).(isPlaying := false)
    {
      isPlaying := false;
    }

    /** `moveSnake`, one tick: a crash ends the game and leaves the snake as it
        was; otherwise the snake takes its new shape, and on food the score rises
        by 10, the high score follows, new food is drawn on a free cell and the
        interval shortens by 5 ms down to 100 ms. */
    method MoveSnake(draws: seq<Position>)
      requires Valid()
      requires forall k :: 0 <= k < |draws| ==> InGrid(draws[k])
      requires HasFreeDraw([Step(snake[0], direction)] + snake, draws)
      modifies this
      ensures Valid()
      ensures var outcome := Advance(old(snake), old(direction), old(food));
        && (outcome.Crash? ==> Current() == old(Current()).(gameOver := true, isPlaying := false))
        && (outcome.Slide? ==> Current() == old(Current()).(snake := outcome.slid, heading := old(direction)))
        && (outcome.Grow? ==> Current() == Ate(old(Current()), outcome.grown, FirstFreeDraw(outcome.grown, draws)))
      ensures highScore == (if score > old(highScore) then score else old(highScore))
    {
      var outcome := Advance(snake, direction, food);
      match outcome
      case Crash =>
        gameOver := true;
        isPlaying := false;
      case Slide(slid) =>
        Crawl(slid);
      case Grow(grown) =>
        Eat(grown, draws);
    }

    /** The slide branch of a tick. */
    method Crawl(slid: seq<Position>)
      requires Valid() && Advance(snake, direction, food) == Slide(slid)
      modifies this
      ensures Valid() && Current() == old(Current()).(snake := slid, heading := old(direction))
    {
      StepBack(snake[0], direction, direction);
      SlideShaped(snake, food, heading, direction);
      snake := slid;
      heading := direction;
    }

    /** The food branch of a tick. */
    method Eat(grown: seq<Position>, draws: seq<Position>)
      requires Valid() && Advance(snake, direction, food) == Grow(grown)
      requires forall k :: 0 <= k < |draws| ==> InGrid(draws[k])
      requires HasFreeDraw(grown, draws)
      modifies this
      ensures Valid() && Current() == Ate(old(Current()), grown, FirstFreeDraw(grown, draws))
    {
      StepBack(snake[0], direction, direction);
      SpeedUp(|snake| - 1);
      var newFood := GenerateFood(grown, draws);
      GrowShaped(snake, food, heading, direction, newFood);
      score := score + FoodScore;
      if score > highScore {
        highScore := score;
      }
      food := newFood;
      gameSpeed := if gameSpeed - SpeedStep < MinSpeed then MinSpeed else gameSpeed - SpeedStep;
      snake := grown;
      heading := direction;
    }

    /** A direction request under the corrected rule: the next step never takes
        the head onto the neck. */
    method Steer(requested: Direction)
      requires Valid()
      modifies this
      ensures Valid()
      ensures Current() == old(Current()).(direction := Turn(heading, old(direction), requested))
      ensures |snake| >= 2 ==> Step(snake[0], direction) != snake[1]
    {
      if |snake| >= 2 {
        NoReversal(snake, heading, direction, requested);
      }
      if heading != Opposite(requested) {
        direction := requested;
      }
    }

    /** `handleKeyPress`: when not playing, Space or Enter starts (resetting a
        finished game) and other keys do nothing; when playing, the arrow keys and
        W/A/S/D steer and Space pauses. */
    method HandleKeyPress(key: string)
      requires Valid()
      modifies this
      ensures Valid()
      ensures !old(isPlaying) && (key == " " || key == "Enter") ==>
        && (old(gameOver) ==> Current() == Start.(highScore := old(highScore), isPlaying := true))
        && (!old(gameOver) ==> Current() == old(Current()).(isPlaying := true))
      ensures !old(isPlaying) && key != " " && key != "Enter" ==> Current() == old(Current())
      ensures old(isPlaying) && KeyDirection(key).Some? ==>
        Current() == old(Current()).(direction := Turn(old(heading), old(direction), KeyDirection(key).value))
      ensures old(isPlaying) && key == " " ==> Current() == old(Current()).(isPlaying := false)
      ensures old(isPlaying) && key != " " && KeyDirection(key).None? ==> Current() == old(Current())
    {
      if !isPlaying {
        if key == " " || key == "Enter" {
          StartGame();
        }
        return;
      }
      var requested := KeyDirection(key);
      if requested.Some? {
        Steer(requested.value);
      } else if key == " " {
        PauseGame();
      }
    }

    /** `handleDirectionClick`: the on-screen arrows steer only while playing. */
    method HandleDirectionClick(requested: Direction)
      requires Valid()
      modifies this
      ensures Valid()
      ensures old(isPlaying) ==> Current() == old(Current()).(direction := Turn(old(heading), old(direction), requested))
      ensures !old(isPlaying) ==> Current() == old(Current())
    {
      if isPlaying {
        Steer(requested);
      }
    }
  }

  /** The direction a key steers: the arrow keys and W/A/S/D in either case. */
  function KeyDirection(key: string): (r: Option<Direction>)
    ensures r.Some? ==> key != " " && key != "Enter"
  {
    if key == "ArrowUp" || key == "w" || key == "W" then Some(Up)
    else if key == "ArrowDown" || key == "s" || key == "S" then Some(Down)
    else if key == "ArrowLeft" || key == "a" || key == "A" then Some(Left)
    else if key == "ArrowRight" || key == "d" || key == "D" then Some(Right)
    else None
  }
}
