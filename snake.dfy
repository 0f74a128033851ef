/**
 * The grid snake game: a 30 x 20 board, a snake moving one cell per
 * simulation tick, food placed on a free cell, a direction buffer that
 * refuses reversals, a Running/Paused/Over state machine, a speed that
 * drops every third apple, and a capped pool of short-lived particles.
 * Only the integer state is modelled; particle positions, interpolation
 * progress and the apple pulse are floating point and left out.
 */
module Snake {
  import opened Wrappers

  const GridWidth := 30
  const GridHeight := 20
  const InitSpeed := 150
  /** `change_speed` never lets the tick interval drop below this. */
  const MinSpeed := 30
  /** Eating drops the interval by this much every `SpeedUpEvery` points. */
  const SpeedStep := 10
  const SpeedUpEvery := 3

  const MaxParticles := 60
  const ParticlesPerEat := 18
  const ParticleMinTtl := 10
  const ParticleMaxTtl := 24

  type Cell = (int, int)
  type Vec = (int, int)
  type Color = (int, int, int)

  /** The colours a burst particle is drawn from. */
  const Palette: seq<Color> := [(255, 200, 80), (255, 140, 80), (255, 90, 90), (255, 220, 120)]

  datatype GameState = Running | Paused | GameOver

  /** The keys the game widget reacts to; every other key is `OtherKey`. */
  datatype Key = KeyUp | KeyDown | KeyLeft | KeyRight | KeySpace | KeyR | OtherKey

  /** The arrow-key table: screen y grows downwards. */
  function DirectionOf(k: Key): Option<Vec> {
    match k
    case KeyUp => Some((0, -1))
    case KeyDown => Some((0, 1))
    case KeyLeft => Some((-1, 0))
    case KeyRight => Some((1, 0))
    case _ => None
  }

  predicate IsDirection(d: Vec) {
    d == (0, -1) || d == (0, 1) || d == (-1, 0) || d == (1, 0)
  }

  function Reverse(d: Vec): Vec {
    (-d.0, -d.1)
  }

  predicate InGrid(c: Cell) {
    0 <= c.0 < GridWidth && 0 <= c.1 < GridHeight
  }

  /** The cells food may be placed on: on the board and not on the snake. */
  function FreeCells(snake: seq<Cell>): (free: set<Cell>)
    ensures forall c :: c in free <==> InGrid(c) && c !in snake
  {
    set x, y | 0 <= x < GridWidth && 0 <= y < GridHeight && (x, y) !in snake :: (x, y)
  }

  predicate Distinct<T(==)>(s: seq<T>) {
    forall i, j :: 0 <= i < j < |s| ==> s[i] != s[j]
  }

  /** A snake body: at least a head, no cell twice, every cell on the board. */
  predicate ValidBody(s: seq<Cell>) {
    |s| >= 1 && Distinct(s) && forall i :: 0 <= i < |s| ==> InGrid(s[i])
  }

  /** Food is on a free cell, and missing only when no cell is free. */
  predicate FoodOk(food: Option<Cell>, snake: seq<Cell>) {
    match food
    case Some(c) => InGrid(c) && c !in snake
    case None => FreeCells(snake) == {}
  }

  /** The snake a round starts with: three cells in the middle row, head rightmost. */
  function InitialSnake(): seq<Cell> {
    var midX, midY := GridWidth / 2, GridHeight / 2;
    [(midX, midY), (midX - 1, midY), (midX - 2, midY)]
  }

  lemma InitialSnakeValid()
    ensures ValidBody(InitialSnake()) && |InitialSnake()| == 3
    ensures InitialSnake() == [(15, 10), (14, 10), (13, 10)]
  {
  }

  /** The cell the head moves to. */
  function NewHead(snake: seq<Cell>, d: Vec): Cell
    requires |snake| >= 1
  {
    (snake[0].0 + d.0, snake[0].1 + d.1)
  }

  /** What one tick does, read off the body, the committed direction and the food. */
  datatype Move = Crash | Eat(head: Cell) | Slide(head: Cell)

  function Classify(snake: seq<Cell>, d: Vec, food: Option<Cell>): Move
    requires |snake| >= 1
  {
    var h := NewHead(snake, d);
    if !InGrid(h) || h in snake then Crash
    else if food == Some(h) then Eat(h)
    else Slide(h)
  }

  /** The interval after eating has raised the score to `score`. */
  function SpeedAfterEating(score: int, speed: int): int {
    if score % SpeedUpEvery == 0 then Max(MinSpeed, speed - SpeedStep) else speed
  }

  /** How many particles a burst adds to a pool of `n`. */
  function SpawnCount(n: int): (r: int)
    ensures 0 <= r <= ParticlesPerEat
    ensures r == 0 <==> n >= MaxParticles
    ensures r > 0 ==> n + r <= MaxParticles && (r == ParticlesPerEat || n + r == MaxParticles)
  {
    var space := MaxParticles - n;
    if space <= 0 then 0 else Min(space, ParticlesPerEat)
  }

  /** A move that does not eat keeps the length and the body valid. */
  lemma SlideKeepsBody(s: seq<Cell>, h: Cell)
    requires ValidBody(s) && InGrid(h) && h !in s
    ensures var t := [h] + s[..|s| - 1]; ValidBody(t) && |t| == |s| && t[0] == h
  {
    var t := [h] + s[..|s| - 1];
    forall i, j | 0 <= i < j < |t| ensures t[i] != t[j] {
      if i > 0 {
        assert t[i] == s[i - 1] && t[j] == s[j - 1];
      } else {
        assert t[j] == s[j - 1];
      }
    }
  }

  /** An eating move adds exactly one cell and keeps the body valid. */
  lemma GrowKeepsBody(s: seq<Cell>, h: Cell)
    requires ValidBody(s) && InGrid(h) && h !in s
    ensures var t := [h] + s; ValidBody(t) && |t| == |s| + 1 && t[1..] == s
  {
    var t := [h] + s;
    forall i, j | 0 <= i < j < |t| ensures t[i] != t[j] {
      if i > 0 {
        assert t[i] == s[i - 1] && t[j] == s[j - 1];
      } else {
        assert t[j] == s[j - 1];
      }
    }
  }

  /** Food the snake did not reach is still off the body after the tail moves. */
  lemma SlideKeepsFoodOff(s: seq<Cell>, h: Cell, f: Cell)
    requires ValidBody(s) && FoodOk(Some(f), s) && f != h
    ensures FoodOk(Some(f), [h] + s[..|s| - 1])
  {
    assert forall c :: c in s[..|s| - 1] ==> c in s;
  }

  /** When no cell is free every move crashes, so a missing apple ends the round. */
  lemma FullBoardCrashes(s: seq<Cell>, d: Vec, food: Option<Cell>)
    requires |s| >= 1 && FreeCells(s) == {}
    ensures Classify(s, d, food) == Crash
  {
    var h := NewHead(s, d);
    assert InGrid(h) && h !in s ==> h in FreeCells(s);
  }

  /** A unit direction is never its own reverse. */
  lemma ReverseDiffers(d: Vec)
    requires IsDirection(d)
    ensures Reverse(d) != d && IsDirection(Reverse(d))
  {
  }

  /** Picks the food cell; the choice among free cells is left open. */
  method ChooseFood(snake: seq<Cell>) returns (food: Option<Cell>)
    ensures food.Some? ==> InGrid(food.value) && food.value !in snake
    ensures food.None? <==> FreeCells(snake) == {}
  {
    var empty := FreeCells(snake);
    if empty == {} {
      food := None;
    } else {
      var c :| c in empty;
      food := Some(c);
    }
  }

  /** A burst particle; only its integer lifetime and its colour are modelled. */
  class Particle {
    var life: int
    const maxLife: int
    const color: Color

    constructor (life: int, color: Color)
      ensures this.life == life && maxLife == life && this.color == color
    {
      this.life := life;
      this.maxLife := life;
      this.color := color;
    }

    /** One animation frame: the lifetime drops by one. */
    method Step()
      modifies this
      ensures life == old(life) - 1
    {
      life := life - 1;
    }

    predicate Alive()
      reads this
    {
      life > 0
    }
  }

  /** The particles of `ps` that are still alive, in order. */
  function Survivors(ps: seq<Particle>): (r: seq<Particle>)
    reads ps
    ensures |r| <= |ps|
  {
    if ps == [] then []
    else
      var rest := Survivors(ps[..|ps| - 1]);
      var p := ps[|ps| - 1];
      if p.Alive() then rest + [p] else rest
  }

  /** The survivors are exactly the live particles of `ps`, and no particle is kept twice. */
  lemma {:induction false} SurvivorsMembers(ps: seq<Particle>)
    ensures forall p :: p in Survivors(ps) ==> p in ps && p.Alive()
    ensures forall p :: p in ps && p.Alive() ==> p in Survivors(ps)
    ensures Distinct(ps) ==> Distinct(Survivors(ps))
  {
    if ps != [] {
      var init := ps[..|ps| - 1];
      var p := ps[|ps| - 1];
      SurvivorsMembers(init);
      assert forall q :: q in init ==> q in ps;
      assert forall q :: q in ps ==> q == p || q in init;
      if p.Alive() {
        assert Distinct(ps) ==> p !in init;
      }
    }
  }

  /** Everything of a round except the particle pool. */
  datatype Round = Round(snake: seq<Cell>, prevSnake: seq<Cell>, direction: Vec, nextDirection: Vec,
                         food: Option<Cell>, score: int, speed: int, state: GameState)

  class SnakeGame {
    var snake: seq<Cell>
    /** The body before the last tick, which the renderer interpolates from. */
    var prevSnake: seq<Cell>
    var direction: Vec
    /** The buffered direction, committed on the next tick. */
    var nextDirection: Vec
    var food: Option<Cell>
    var score: int
    /** The tick interval in milliseconds. */
    var speed: int
    var state: GameState
    var particles: seq<Particle>

    ghost function View(): Round
      reads this
    {
      Round(snake, prevSnake, direction, nextDirection, food, score, speed, state)
    }

    ghost predicate RoundValid()
      reads this
    {
      && ValidBody(snake)
      && IsDirection(direction) && IsDirection(nextDirection)
      && nextDirection != Reverse(direction)
      && FoodOk(food, snake)
      && speed >= MinSpeed && score >= 0
    }

    ghost predicate PoolValid()
      reads this, particles
    {
      && |particles| <= MaxParticles
      && Distinct(particles)
      && forall p :: p in particles ==> 0 < p.life <= p.maxLife <= ParticleMaxTtl
    }

    ghost predicate Valid()
      reads this, particles
    {
      RoundValid() && PoolValid()
    }

    /** A new widget starts a round (`__init__` calls `reset_game`). */
    constructor ()
      ensures Valid()
      ensures snake == InitialSnake() && prevSnake == snake
      ensures direction == (1, 0) && nextDirection == (1, 0)
      ensures food.Some?
      ensures score == 0 && speed == InitSpeed && state == Running && particles == []
    {
      new;
      ResetGame();
    }

    /** Starts a round from any state. */
    method ResetGame()
      modifies this
      ensures Valid()
      ensures snake == InitialSnake() && prevSnake == snake
      ensures direction == (1, 0) && nextDirection == (1, 0)
      ensures food.Some?
      ensures score == 0 && speed == InitSpeed && state == Running && particles == []
    {
      snake := InitialSnake();
      InitialSnakeValid();
      direction := (1, 0);
      nextDirection := direction;
      SpawnFood();
      assert (0, 0) in FreeCells(snake);
      score := 0;
      speed := InitSpeed;
      state := Running;
      prevSnake := snake;
      particles := [];
    }

    method SpawnFood()
      modifies this`food
      ensures FoodOk(food, snake)
    {
      food := ChooseFood(snake);
    }

    /** Space toggles pause, R restarts a lost round, arrows buffer a direction. */
    method KeyPress(k: Key)
      requires Valid()
      modifies this
      ensures Valid()
      ensures k == KeySpace ==>
        && particles == old(particles)
        && View() == old(View()).(state := match old(state)
                                           case Running => Paused
                                           case Paused => Running
                                           case GameOver => GameOver)
      ensures k == KeyR && old(state) == GameOver ==>
        snake == InitialSnake() && direction == (1, 0) && nextDirection == (1, 0)
        && score == 0 && speed == InitSpeed && state == Running && particles == []
        && prevSnake == snake && food.Some?
      ensures (k == KeyR && old(state) != GameOver) || k == OtherKey ==>
        View() == old(View()) && particles == old(particles)
      ensures DirectionOf(k).Some? ==>
        && particles == old(particles)
        && View() == old(View()).(nextDirection :=
             if old(state) == Running && DirectionOf(k).value != Reverse(old(direction))
             then DirectionOf(k).value else old(nextDirection))
    {
      if k == KeySpace {
        if state == Running {
          Pause();
        } else if state == Paused {
          Resume();
        }
        return;
      }
      if k == KeyR && state == GameOver {
        ResetGame();
        return;
      }
      var d := DirectionOf(k);
      if d.Some? && state == Running {
        if d.value != Reverse(direction) {
          nextDirection := d.value;
        }
        return;
      }
    }

    method Pause()
      requires Valid()
      modifies this`state
      ensures Valid()
      ensures state == if old(state) == Running then Paused else old(state)
    {
      if state != Running {
        return;
      }
      state := Paused;
    }

    method Resume()
      requires Valid()
      modifies this`state
      ensures Valid()
      ensures state == if old(state) == Paused then Running else old(state)
    {
      if state != Paused {
        return;
      }
      state := Running;
    }

    method ChangeSpeed(delta: int)
      modifies this`speed
      ensures speed == Max(MinSpeed, old(speed) + delta)
    {
      speed := Max(MinSpeed, speed + delta);
    }

    method EndGame()
      modifies this`state
      ensures state == GameOver
    {
      state := GameOver;
    }

    /** One simulation tick; the tick timer only runs while the round is Running. */
    method GameStep()
      requires Valid() && state == Running
      modifies this`prevSnake, this`direction, this`snake, this`score, this`speed, this`particles, this`food, this`state
      ensures Valid()
      ensures prevSnake == old(snake)
      ensures direction == old(nextDirection) && nextDirection == old(nextDirection)
      ensures direction != Reverse(old(direction))
      ensures match Classify(old(snake), old(nextDirection), old(food))
        case Crash =>
          && state == GameOver && snake == old(snake) && food == old(food)
          && score == old(score) && speed == old(speed) && particles == old(particles)
        case Eat(h) =>
          && state == Running && snake == [h] + old(snake)
          && score == old(score) + 1 && speed == SpeedAfterEating(score, old(speed))
          && |particles| == |old(particles)| + SpawnCount(|old(particles)|)
          && particles[..|old(particles)|] == old(particles)
        case Slide(h) =>
          && state == Running && snake == [h] + old(snake)[..|old(snake)| - 1]
          && food == old(food) && score == old(score) && speed == old(speed)
          && particles == old(particles)
    {
      ghost var m := Classify(snake, nextDirection, food);
      prevSnake := snake;
      direction := nextDirection;
      ReverseDiffers(direction);
      var h := (snake[0].0 + direction.0, snake[0].1 + direction.1);
      if !(0 <= h.0 < GridWidth && 0 <= h.1 < GridHeight) {
        assert m == Crash;
        EndGame();
        return;
      }
      if h in snake {
        assert m == Crash;
        EndGame();
        return;
      }
      assert m == if food == Some(h) then Eat(h) else Slide(h);
      MoveTo(h);
    }

    /** A tick whose new head `h` is free: eat when `h` holds the apple, slide otherwise. */
    method MoveTo(h: Cell)
      requires RoundValid() && PoolValid() && InGrid(h) && h !in snake
      modifies this`snake, this`score, this`speed, this`particles, this`food
      ensures RoundValid() && PoolValid()
      ensures old(food) == Some(h) ==>
        && snake == [h] + old(snake)
        && score == old(score) + 1 && speed == SpeedAfterEating(score, old(speed))
        && |particles| == |old(particles)| + SpawnCount(|old(particles)|)
        && particles[..|old(particles)|] == old(particles)
      ensures old(food) != Some(h) ==>
        && snake == [h] + old(snake)[..|old(snake)| - 1]
        && food == old(food) && score == old(score) && speed == old(speed)
        && particles == old(particles)
    {
      if food.Some? && h == food.value {
        EatAt(h);
      } else {
        SlideTo(h);
      }
    }

    /** The eating branch of a tick: grow, score, maybe speed up, burst, new food. */
    method EatAt(h: Cell)
      requires ValidBody(snake) && InGrid(h) && h !in snake && food == Some(h)
      requires PoolValid() && speed >= MinSpeed
      modifies this`snake, this`score, this`speed, this`particles, this`food
      ensures ValidBody(snake) && FoodOk(food, snake) && PoolValid() && speed >= MinSpeed
      ensures snake == [h] + old(snake) && score == old(score) + 1
      ensures speed == SpeedAfterEating(score, old(speed))
      ensures |particles| == |old(particles)| + SpawnCount(|old(particles)|)
      ensures particles[..|old(particles)|] == old(particles)
    {
      GrowKeepsBody(snake, h);
      snake := [h] + snake;
      score := score + 1;
      if score % SpeedUpEvery == 0 {
        ChangeSpeed(-SpeedStep);
      }
      SpawnParticles();
      SpawnFood();
    }

    /** The plain branch of a tick: the head moves on and the tail follows. */
    method SlideTo(h: Cell)
      requires ValidBody(snake) && InGrid(h) && h !in snake && food != Some(h) && FoodOk(food, snake)
      modifies this`snake
      ensures ValidBody(snake) && FoodOk(food, snake)
      ensures snake == [h] + old(snake)[..|old(snake)| - 1]
    {
      SlideKeepsBody(snake, h);
      SlideKeepsFoodOff(snake, h, food.value);
      snake := [h] + snake;
      snake := snake[..|snake| - 1];
    }

    /** Adds a burst of particles, as many as fit under the cap, at most 18. */
    method SpawnParticles()
      requires PoolValid()
      modifies this`particles
      ensures PoolValid()
      ensures |particles| == |old(particles)| + SpawnCount(|old(particles)|)
      ensures particles[..|old(particles)|] == old(particles)
      ensures forall i :: |old(particles)| <= i < |particles| ==>
        && fresh(particles[i])
        && ParticleMinTtl <= particles[i].life <= ParticleMaxTtl
        && particles[i].life == particles[i].maxLife
        && particles[i].color in Palette
    {
      var space := MaxParticles - |particles|;
      if space <= 0 {
        return;
      }
      var count := Min(space, ParticlesPerEat);
      var k := 0;
      while k < count
        invariant 0 <= k <= count
        invariant |particles| == |old(particles)| + k
        invariant particles[..|old(particles)|] == old(particles)
        invariant forall i :: |old(particles)| <= i < |particles| ==>
          && fresh(particles[i])
          && ParticleMinTtl <= particles[i].life <= ParticleMaxTtl
          && particles[i].life == particles[i].maxLife
          && particles[i].color in Palette
        invariant PoolValid()
      {
        var ttl :| ParticleMinTtl <= ttl <= ParticleMaxTtl;
        assert Palette[0] in Palette;
        var col :| col in Palette;
        var p := new Particle(ttl, col);
        particles := particles + [p];
        k := k + 1;
      }
    }

    /** One animation frame: every particle ages by one and the dead are dropped. */
    method AnimTick()
      requires Valid()
      modifies this`particles, particles
      ensures Valid()
      ensures View() == old(View())
      ensures forall p :: p in old(particles) ==> p.life == old(p.life) - 1
      ensures particles == Survivors(old(particles))
    {
      var kept := StepAll(particles);
      SurvivorsMembers(old(particles));
      particles := kept;
    }
  }

  /** Ages every particle of `ps` by one frame and returns the survivors in order. */
  method StepAll(ps: seq<Particle>) returns (kept: seq<Particle>)
    requires Distinct(ps)
    modifies ps
    ensures forall p :: p in ps ==> p.life == old(p.life) - 1
    ensures kept == Survivors(ps)
  {
    kept := [];
    var i := 0;
    while i < |ps|
      invariant 0 <= i <= |ps|
      invariant forall j :: 0 <= j < |ps| ==> ps[j].life == old(ps[j].life) - (if j < i then 1 else 0)
      invariant kept == Survivors(ps[..i])
    {
      kept := StepNext(ps, i, kept);
      i := i + 1;
    }
    assert ps[..i] == ps;
  }

  /** One iteration of the particle loop: ages `ps[i]` and keeps it when it is still alive. */
  method StepNext(ps: seq<Particle>, i: nat, kept: seq<Particle>) returns (next: seq<Particle>)
    requires i < |ps| && Distinct(ps)
    requires kept == Survivors(ps[..i])
    modifies ps[i]
    ensures ps[i].life == old(ps[i].life) - 1
    ensures next == Survivors(ps[..i + 1])
  {
    var p := ps[i];
    assert p !in ps[..i];
    p.Step();
    assert Survivors(ps[..i]) == kept;
    assert ps[..i + 1][..i] == ps[..i] && ps[..i + 1][i] == p;
    next := kept;
    if p.Alive() {
      next := next + [p];
    }
  }
}
