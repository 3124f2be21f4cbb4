/**
 * One snake: Grains/PlayerGrain.cs. The grain is a class whose methods update its fields in
 * place; the body is the list `_body`, head first.
 */
module Players {
  import opened Wrappers
  import opened Values
  import opened Geometry

  /** Every field a round reads or writes, as a value (the grain key is constant). */
  datatype PlayerState = PlayerState(
    body: seq<Point>,
    boardSize: Size,
    last: Option<Point>,
    score: int,
    alive: bool,
    direction: Direction,
    human: bool,
    name: string)

  /**
   * The body after one Advance: the head moves one cell in direction d, every other segment
   * takes the place of the one before it, and the old tail is dropped.
   */
  function Shifted(body: seq<Point>, d: Direction): (r: seq<Point>)
    requires |body| > 0
    ensures |r| == |body|
    ensures r[0] == Move(body[0], d)
    ensures forall i :: 1 <= i < |r| ==> r[i] == body[i - 1]
  {
    [Move(body[0], d)] + body[..|body| - 1]
  }

  /** The body after FoundBerry: the remembered tail cell, when there is one, is added back. */
  function Grown(body: seq<Point>, last: Option<Point>): (r: seq<Point>)
    ensures last.None? ==> r == body
    ensures last.Some? ==> |r| == |body| + 1 && r[..|body|] == body && r[|body|] == last.value
  {
    if last.Some? then body + [last.value] else body
  }

  /**
   * Advance followed by FoundBerry keeps the old tail: the snake is its old body with the
   * new head in front.
   */
  lemma AdvanceThenGrow(body: seq<Point>, d: Direction)
    requires |body| > 0
    ensures Grown(Shifted(body, d), Some(body[|body| - 1])) == [Move(body[0], d)] + body
  {
    var n := |body|;
    var g := Grown(Shifted(body, d), Some(body[n - 1]));
    var e := [Move(body[0], d)] + body;
    assert |g| == |e|;
    forall i | 0 <= i < |g| ensures g[i] == e[i] {
      if 1 <= i < n {
        assert g[i] == Shifted(body, d)[i];
      }
    }
  }

  /**
   * The starting snake of JoinGame: n segments from head, each one cell behind the one before
   * it, with "behind" opposite to d.
   */
  function Trail(head: Point, d: Direction, n: nat): (r: seq<Point>)
    ensures |r| == n
    ensures n > 0 ==> r[0] == head
    decreases n
  {
    if n == 0 then []
    else if n == 1 then [head]
    else
      var t := Trail(head, d, n - 1);
      t + [Move(t[n - 2], OppositeOf(d))]
  }

  /** Each segment of a trail is one move behind the previous one. */
  lemma {:induction false} TrailSteps(head: Point, d: Direction, n: nat, i: nat)
    requires 1 <= i < n
    ensures Trail(head, d, n)[i] == Move(Trail(head, d, n)[i - 1], OppositeOf(d))
    decreases n
  {
    if i < n - 1 {
      TrailSteps(head, d, n - 1, i);
      assert Trail(head, d, n)[..n - 1] == Trail(head, d, n - 1);
    }
  }

  /** Segment i of a trail is at most i cells from the head in each coordinate. */
  lemma {:induction false} TrailNear(head: Point, d: Direction, n: nat, i: nat)
    requires i < n
    ensures var p := Trail(head, d, n)[i];
      -(i as int) <= p.x - head.x <= i && -(i as int) <= p.y - head.y <= i
    decreases i
  {
    if i > 0 {
      TrailNear(head, d, n, i - 1);
      TrailSteps(head, d, n, i);
    }
  }

  /**
   * What JoinGame guarantees: a head placed 5 cells inside the edges of a board keeps all
   * five segments of the starting snake on the board.
   */
  lemma JoinedSnakeOnBoard(head: Point, d: Direction, size: Size)
    requires Placed(head, 5, size)
    ensures forall i :: 0 <= i < 5 ==> OnBoard(Trail(head, d, 5)[i], size)
  {
    forall i | 0 <= i < 5 ensures OnBoard(Trail(head, d, 5)[i], size) {
      TrailNear(head, d, 5, i);
    }
  }

  class PlayerGrain {
    /** The grain's primary key. */
    const key: string
    var body: seq<Point>
    var boardSize: Size
    var last: Option<Point>
    var score: int
    var isAlive: bool
    var direction: Direction
    var humanControlled: bool
    var name: string

    /** A fresh activation: `_isAlive` starts true, everything else at its default. */
    constructor (key: string)
      ensures this.key == key && body == [] && boardSize == EmptySize() && last == None
      ensures score == 0 && isAlive && direction == Up && !humanControlled && name == ""
    {
      this.key := key;
      body := [];
      boardSize := EmptySize();
      last := None;
      score := 0;
      isAlive := true;
      direction := Up;
      humanControlled := false;
      name := "";
    }

    /** The grain's fields as a value. */
    function State(): PlayerState
      reads this
    {
      PlayerState(body, boardSize, last, score, isAlive, direction, humanControlled, name)
    }

    /**
     * Resets the snake (the score is kept) and lays out a new one: a random direction, a
     * random head at least 5 cells inside every edge, and four segments trailing behind it.
     * Returns false where the source throws because the board is too small for the border;
     * the reset fields are then already changed and the body is empty.
     */
    method JoinGame(size: Size) returns (joined: bool)
      modifies this`body, this`last, this`isAlive, this`boardSize, this`direction
      ensures last == None && isAlive && boardSize == size
      ensures joined <==> 10 <= size.width && 10 <= size.height
      ensures !joined ==> body == []
      ensures joined ==> |body| == 5 && Placed(body[0], 5, size)
      ensures joined ==> body == Trail(body[0], direction, 5)
      ensures joined ==> forall i :: 0 <= i < 5 ==> OnBoard(body[i], size)
    {
      body := [];
      last := None;
      isAlive := true;
      boardSize := size;
      var d: Direction :| true;
      direction := d;
      var start := OnScreen(5, size);
      if start.None? {
        return false;
      }
      var head := start.value;
      body := [head];
      var prev := head;
      for i := 0 to 4
        invariant body == Trail(head, direction, i + 1)
        invariant prev == body[i]
        invariant last == None && isAlive && boardSize == size
      {
        prev := Move(prev, OppositeOf(direction));
        body := body + [prev];
      }
      JoinedSnakeOnBoard(head, direction, size);
      return true;
    }

    /**
     * Remembers the tail as `_last`, shifts every segment into its predecessor's place and
     * moves the head one cell. Returns whether the new head is on the board.
     */
    method Advance() returns (inBounds: bool)
      requires |body| > 0
      modifies this`body, this`last
      ensures body == Shifted(old(body), direction)
      ensures last == Some(old(body)[|old(body)| - 1])
      ensures inBounds <==> OnBoard(body[0], boardSize)
    {
      last := Some(body[|body| - 1]);
      var i := |body| - 1;
      while i > 0
        invariant 0 <= i < |body| && |body| == |old(body)|
        invariant last == Some(old(body)[|old(body)| - 1])
        invariant forall k :: 0 <= k <= i ==> body[k] == old(body)[k]
        invariant forall k :: i < k < |body| ==> body[k] == old(body)[k - 1]
      {
        body := body[i := body[i - 1]];
        i := i - 1;
      }
      body := body[0 := Move(body[0], direction)];
      inBounds := !(body[0].x < 0 || body[0].y < 0 || body[0].x >= boardSize.width || body[0].y >= boardSize.height);
    }

    function GetHead(): Point
      reads this
      requires |body| > 0
    {
      body[0]
    }

    function GetBody(): seq<Point>
      reads this
    {
      body
    }

    function IsAlive(): bool
      reads this
    {
      isAlive
    }

    function GetScore(): int
      reads this
    {
      score
    }

    function IsHumanControlled(): bool
      reads this
    {
      humanControlled
    }

    function GetName(): string
      reads this
    {
      name
    }

    method SetHumanControlled(humanControlled: bool)
      modifies this`humanControlled
      ensures this.humanControlled == humanControlled
    {
      this.humanControlled := humanControlled;
    }

    method SetName(name: string)
      modifies this`name
      ensures this.name == name
    {
      this.name := name;
    }

    /** Marks the player dead; the body, score and direction stay, so the last frame still shows it. */
    method Die()
      modifies this`isAlive
      ensures !isAlive
    {
      isAlive := false;
    }

    /** A quarter turn to the left; nothing else changes. */
    method TurnLeft()
      modifies this`direction
      ensures direction == LeftOf(old(direction))
    {
      direction := LeftOf(direction);
    }

    /** A quarter turn to the right; nothing else changes. */
    method TurnRight()
      modifies this`direction
      ensures direction == RightOf(old(direction))
    {
      direction := RightOf(direction);
    }

    /**
     * Scores a point and grows the snake by the cell its last Advance vacated; `_last` is not
     * cleared, so every further call grows it by that cell again.
     */
    method FoundBerry()
      modifies this`score, this`body
      ensures score == old(score) + 1
      ensures body == Grown(old(body), last)
    {
      score := score + 1;
      if last.Some? {
        body := body + [last.value];
      }
    }
  }

  /** The states of a roster, in order. */
  function Snapshot(ps: seq<PlayerGrain>): (r: seq<PlayerState>)
    reads ps
    ensures |r| == |ps| && forall k :: 0 <= k < |ps| ==> r[k] == ps[k].State()
  {
    seq(|ps|, k requires 0 <= k < |ps| reads ps => ps[k].State())
  }

  /** The keys of a roster, in order. */
  function Keys(ps: seq<PlayerGrain>): (r: seq<string>)
    ensures |r| == |ps| && forall k :: 0 <= k < |ps| ==> r[k] == ps[k].key
  {
    seq(|ps|, k requires 0 <= k < |ps| => ps[k].key)
  }

  /** A client's view: turning left and then right leaves the snake heading as before. */
  method TurnLeftThenRight(p: PlayerGrain)
    modifies p`direction
    ensures p.direction == old(p.direction)
  {
    p.TurnLeft();
    p.TurnRight();
    TurnsAreInverse(old(p.direction));
  }
}
