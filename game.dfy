/**
 * The game session: Grains/GameGrain.cs. The grain is a class over its roster, its berries, the
 * board size, the expected player count and the session state. The notifications it sends to its
 * subscribers are recorded, in order, in the ghost field `events`.
 */
module Game {
  import opened Wrappers
  import opened Values
  import opened Geometry
  import opened Players
  import opened Sequences
  import opened Rounds

  /** The character of a decimal digit. */
  function DigitChar(d: nat): (c: char)
    requires d < 10
    ensures '0' <= c <= '9' && c as int - '0' as int == d
  {
    ('0' as int + d) as char
  }

  /** The decimal digits of n, most significant first, without leading zeros. */
  function Decimal(n: nat): (r: string)
    ensures |r| > 0 && (|r| > 1 ==> r[0] != '0')
    ensures forall i :: 0 <= i < |r| ==> '0' <= r[i] <= '9'
  {
    if n < 10 then [DigitChar(n)] else Decimal(n / 10) + [DigitChar(n % 10)]
  }

  /** The number a string of decimal digits denotes, most significant digit first. */
  function DecimalValue(s: string): nat
    requires forall i :: 0 <= i < |s| ==> '0' <= s[i] <= '9'
  {
    if |s| == 0 then 0 else DecimalValue(s[..|s| - 1]) * 10 + (s[|s| - 1] as int - '0' as int)
  }

  /** Reading back the digits of n gives n. */
  lemma {:induction false} DecimalRoundTrip(n: nat)
    ensures DecimalValue(Decimal(n)) == n
  {
    if n >= 10 {
      DecimalRoundTrip(n / 10);
      var r := Decimal(n);
      assert r[..|r| - 1] == Decimal(n / 10);
    }
  }

  /** Different numbers have different digits. */
  lemma DecimalInjective(n: nat, m: nat)
    requires Decimal(n) == Decimal(m)
    ensures n == m
  {
    DecimalRoundTrip(n);
    DecimalRoundTrip(m);
  }

  /** The grain key of the i-th filled-in computer player. */
  function AiPlayerKey(i: nat): (k: string)
    ensures |k| > 20 && k[..20] == "AI-ControlledPlayer-" && k[20..] == Decimal(i)
  {
    "AI-ControlledPlayer-" + Decimal(i)
  }

  /** The computer players Start fills in get pairwise different grain keys. */
  lemma AiPlayerKeysDistinct(i: nat, j: nat)
    requires i != j
    ensures AiPlayerKey(i) != AiPlayerKey(j)
  {
    if AiPlayerKey(i) == AiPlayerKey(j) {
      DecimalInjective(i, j);
    }
  }

  /** The turning loop of a round: each computer player turns left on a roll of 0 and right on 1. */
  method TurnAiPlayers(ps: seq<PlayerGrain>, rolls: seq<int>)
    requires Distinct(ps) && |rolls| == |ps|
    modifies ps
    ensures forall k :: 0 <= k < |ps| ==> ps[k].State() == AiTurn(old(ps[k].State()), rolls[k])
  {
    for i := 0 to |ps|
      invariant forall k :: 0 <= k < i ==> ps[k].State() == AiTurn(old(ps[k].State()), rolls[k])
      invariant forall k :: i <= k < |ps| ==> ps[k].State() == old(ps[k].State())
    {
      var p := ps[i];
      if !p.humanControlled {
        if rolls[i] == 0 {
          p.TurnLeft();
        } else if rolls[i] == 1 {
          p.TurnRight();
        }
      }
    }
  }

  /**
   * One player's Advance, stated on its whole state: the player reaches its stepped state next,
   * and the result says whether its new head is on the board.
   */
  method AdvanceOne(p: PlayerGrain, ghost next: PlayerState) returns (inBounds: bool)
    requires |p.body| > 0 && next == Stepped(p.State())
    modifies p`body, p`last
    ensures p.State() == next
    ensures inBounds <==> OnBoard(Head(next), next.boardSize)
  {
    inBounds := p.Advance();
  }

  /**
   * Where the advancing loop stands after i passes over the roster ps, whose states were s0 and
   * are adv once stepped: the first i players have stepped, and the list holds those of them
   * whose heads left the board.
   */
  ghost predicate AdvancedUpTo(ps: seq<PlayerGrain>, s0: seq<PlayerState>, adv: seq<PlayerState>, i: int,
                               outOfBounds: seq<PlayerGrain>)
    reads ps
    requires |s0| == |ps| && |adv| == |ps| && AllJoined(adv) && 0 <= i <= |ps|
  {
    && (forall k :: 0 <= k < |ps| ==> ps[k].State() == if k < i then adv[k] else s0[k])
    && outOfBounds == OffBoard(ps, adv, i)
  }

  /** One pass of the advancing loop: player i reaches its stepped state, and is listed when its head left the board. */
  method AdvanceAt(ps: seq<PlayerGrain>, ghost s0: seq<PlayerState>, ghost adv: seq<PlayerState>, i: nat,
                   p: PlayerGrain, outOfBounds: seq<PlayerGrain>) returns (outOfBounds': seq<PlayerGrain>)
    requires Distinct(ps) && |s0| == |ps| && |adv| == |ps| && AllJoined(adv) && i < |ps| && p == ps[i]
    requires forall k :: 0 <= k < |ps| ==> Joined(s0[k]) && adv[k] == Stepped(s0[k])
    requires AdvancedUpTo(ps, s0, adv, i, outOfBounds)
    modifies p`body, p`last
    ensures AdvancedUpTo(ps, s0, adv, i + 1, outOfBounds')
  {
    assert forall k :: 0 <= k < |ps| && k != i ==> ps[k] != p;
    var inBounds := AdvanceOne(p, adv[i]);
    outOfBounds' := if inBounds then outOfBounds else outOfBounds + [p];
  }

  /**
   * The advancing loop of a round, on a roster whose stepped states are adv: every player
   * reaches its stepped state, and the returned list holds the players whose heads left the
   * board, in roster order.
   */
  method AdvancePlayers(ps: seq<PlayerGrain>, ghost adv: seq<PlayerState>) returns (outOfBounds: seq<PlayerGrain>)
    requires Distinct(ps) && forall k :: 0 <= k < |ps| ==> |ps[k].body| > 0
    requires |adv| == |ps| && AllJoined(adv) && forall k :: 0 <= k < |ps| ==> adv[k] == Stepped(ps[k].State())
    modifies ps
    ensures Snapshot(ps) == adv
    ensures outOfBounds == OffBoard(ps, adv, |ps|)
  {
    ghost var s0 := Snapshot(ps);
    outOfBounds := [];
    for i := 0 to |ps|
      invariant AdvancedUpTo(ps, s0, adv, i, outOfBounds)
    {
      outOfBounds := AdvanceAt(ps, s0, adv, i, ps[i], outOfBounds);
    }
  }

  /** The turning loop followed by the advancing loop. */
  method MoveAll(ps: seq<PlayerGrain>, rolls: seq<int>) returns (outOfBounds: seq<PlayerGrain>, ghost adv: seq<PlayerState>)
    requires Distinct(ps) && |rolls| == |ps|
    requires forall k :: 0 <= k < |ps| ==> |ps[k].body| > 0
    modifies ps
    ensures AllJoined(old(Snapshot(ps))) && adv == Advanced(old(Snapshot(ps)), rolls)
    ensures Snapshot(ps) == adv
    ensures outOfBounds == OffBoard(ps, adv, |ps|)
  {
    ghost var s0 := Snapshot(ps);
    assert AllJoined(s0);
    adv := Advanced(s0, rolls);
    TurnAiPlayers(ps, rolls);
    outOfBounds := AdvancePlayers(ps, adv);
  }

  /** p's head meets p2: at p2's head when p2 is another player, or on any non-head segment of p2. */
  predicate HitsGrain(head: Point, p: PlayerGrain, p2: PlayerGrain)
    reads p2
  {
    |p2.body| > 0 && ((p != p2 && head == p2.body[0]) || head in p2.body[1..])
  }

  /**
   * One pass of the berry loop on a player fed n times so far: a berry under the head is one
   * more FoundBerry call, one more score notification and one more eaten berry.
   */
  method FeedStep(p: PlayerGrain, head: Point, berry: Point, ghost s0: PlayerState, ghost n: nat,
                  eaten: seq<Point>, ghost log: seq<GameEvent>)
    returns (eaten': seq<Point>, ghost log': seq<GameEvent>, ghost n': nat)
    requires p.score == s0.score + n && p.body == Fed(s0, n).body && p.last == s0.last
    requires eaten == Repeat(head, n) && log == ScoreLog(p.key, s0, n)
    modifies p`score, p`body
    ensures n' == n + (if head == berry then 1 else 0)
    ensures p.score == s0.score + n' && p.body == Fed(s0, n').body
    ensures eaten' == Repeat(head, n') && log' == ScoreLog(p.key, s0, n')
  {
    eaten', log', n' := eaten, log, n;
    if head == berry {
      eaten', log' := Eat(p, head, s0, n, eaten, log);
      n' := n + 1;
    }
  }

  /** One berry under the head: FoundBerry, its score notification, and the berry counted as eaten. */
  method Eat(p: PlayerGrain, head: Point, ghost s0: PlayerState, ghost n: nat,
             eaten: seq<Point>, ghost log: seq<GameEvent>)
    returns (eaten': seq<Point>, ghost log': seq<GameEvent>)
    requires p.score == s0.score + n && p.body == Fed(s0, n).body && p.last == s0.last
    requires eaten == Repeat(head, n) && log == ScoreLog(p.key, s0, n)
    modifies p`score, p`body
    ensures p.score == s0.score + n + 1 && p.body == Fed(s0, n + 1).body
    ensures eaten' == Repeat(head, n + 1) && log' == ScoreLog(p.key, s0, n + 1)
  {
    assert Fed(s0, n + 1).body == Grown(Fed(s0, n).body, s0.last);
    p.FoundBerry();
    ScoreLogStep(p.key, s0, n, p.score);
    log' := log + [ScoreChanged(p.key, p.score)];
    eaten' := eaten + [head];
  }

  /** The berry loop for one player: one FoundBerry and one score notification per berry under its head. */
  method FeedPlayer(p: PlayerGrain, head: Point, berries: seq<Point>) returns (eaten: seq<Point>, ghost log: seq<GameEvent>)
    modifies p`score, p`body
    ensures p.State() == Fed(old(p.State()), multiset(berries)[head])
    ensures forall j :: 0 <= j < |eaten| ==> eaten[j] == head
    ensures multiset(eaten)[head] == multiset(berries)[head]
    ensures log == ScoreLog(p.key, old(p.State()), multiset(berries)[head])
  {
    eaten := [];
    log := [];
    ghost var s0 := p.State();
    ghost var n := 0;
    for m := 0 to |berries|
      invariant n == CountIn(berries, head, m)
      invariant p.score == s0.score + n && p.body == Fed(s0, n).body && p.State() == s0.(score := p.score, body := p.body)
      invariant eaten == Repeat(head, n)
      invariant log == ScoreLog(p.key, s0, n)
    {
      eaten, log, n := FeedStep(p, head, berries[m], s0, n, eaten, log);
    }
    CountInPrefix(berries, head, |berries|);
    assert berries[..|berries|] == berries;
  }

  /**
   * How often p's collision checks against roster entry p2 list p: once for the head of another
   * player on p's head, and once for every other segment of p2 under p's head.
   */
  function HitsOnGrain(head: Point, p: PlayerGrain, p2: PlayerGrain): nat
    reads p2
    requires |p2.body| > 0
  {
    (if p != p2 && head == p2.body[0] then 1 else 0) + multiset(p2.body[1..])[head]
  }

  /** How often the collision loop lists p against the first n roster entries. */
  function GrainHits(head: Point, p: PlayerGrain, ps: seq<PlayerGrain>, n: nat): nat
    reads ps
    requires n <= |ps| && forall j :: 0 <= j < |ps| ==> |ps[j].body| > 0
  {
    if n == 0 then 0 else GrainHits(head, p, ps, n - 1) + HitsOnGrain(head, p, ps[n - 1])
  }

  /** p is hit at all by the first n roster entries exactly when it meets one of them. */
  lemma {:induction false} GrainHitsPositive(head: Point, p: PlayerGrain, ps: seq<PlayerGrain>, n: nat)
    requires n <= |ps| && forall j :: 0 <= j < |ps| ==> |ps[j].body| > 0
    ensures GrainHits(head, p, ps, n) > 0 <==> exists m :: 0 <= m < n && HitsGrain(head, p, ps[m])
  {
    if n > 0 {
      GrainHitsPositive(head, p, ps, n - 1);
      var p2 := ps[n - 1];
      assert multiset(p2.body[1..])[head] > 0 <==> head in p2.body[1..];
      assert HitsOnGrain(head, p, p2) > 0 <==> HitsGrain(head, p, p2);
    }
  }

  /**
   * The checks of p against one roster entry p2, its head then every other segment, on a list
   * that holds p n0 times after listed: p is listed once more for each hit.
   */
  method CheckAgainst(p: PlayerGrain, head: Point, p2: PlayerGrain, listed: seq<PlayerGrain>,
                      toRemove0: seq<PlayerGrain>, ghost n0: nat) returns (toRemove: seq<PlayerGrain>)
    requires |p2.body| > 0 && toRemove0 == listed + Repeat(p, n0)
    ensures toRemove == listed + Repeat(p, n0 + HitsOnGrain(head, p, p2))
  {
    var body2 := p2.body;
    toRemove := toRemove0;
    ghost var n := n0;
    if p != p2 && head == body2[0] {
      toRemove, n := toRemove + [p], n0 + 1;
    }
    assert n + multiset(body2[1..])[head] == n0 + HitsOnGrain(head, p, p2);
    toRemove := CheckSegments(p, head, body2[1..], listed, toRemove, n);
  }

  /** The loop over the other segments of a body: p is listed once more for each one under its head. */
  method CheckSegments(p: PlayerGrain, head: Point, rest: seq<Point>, listed: seq<PlayerGrain>,
                       toRemove0: seq<PlayerGrain>, ghost n0: nat) returns (toRemove: seq<PlayerGrain>)
    requires toRemove0 == listed + Repeat(p, n0)
    ensures toRemove == listed + Repeat(p, n0 + multiset(rest)[head])
  {
    toRemove := toRemove0;
    ghost var n := n0;
    for q := 0 to |rest|
      invariant n == n0 + CountIn(rest, head, q)
      invariant toRemove == listed + Repeat(p, n)
    {
      if head == rest[q] {
        toRemove, n := toRemove + [p], n + 1;
      }
    }
    CountInPrefix(rest, head, |rest|);
    assert rest[..|rest|] == rest;
  }

  /** The collision loop for one player: p is listed (again) for every hit against every roster entry. */
  method CollectHits(p: PlayerGrain, head: Point, ps: seq<PlayerGrain>, listed: seq<PlayerGrain>) returns (toRemove: seq<PlayerGrain>)
    requires forall j :: 0 <= j < |ps| ==> |ps[j].body| > 0
    ensures toRemove == listed + Repeat(p, GrainHits(head, p, ps, |ps|))
  {
    toRemove := listed;
    ghost var n: nat := 0;
    for j := 0 to |ps|
      invariant n == GrainHits(head, p, ps, j)
      invariant toRemove == listed + Repeat(p, n)
    {
      toRemove := CheckAgainst(p, head, ps[j], listed, toRemove, n);
      n := n + HitsOnGrain(head, p, ps[j]);
    }
  }

  /**
   * One pass of the berry and collision loop, for player i: it eats the berries under its head,
   * then is listed once for every hit, against bodies of which those up to i have eaten.
   */
  method SettlePlayer(ps: seq<PlayerGrain>, i: int, berries: seq<Point>, listed: seq<PlayerGrain>, ghost adv: seq<PlayerState>)
    returns (toRemove: seq<PlayerGrain>, eaten: seq<Point>, ghost log: seq<GameEvent>)
    requires Distinct(ps) && |adv| == |ps| && AllJoined(adv) && 0 <= i < |ps|
    requires forall k :: 0 <= k < i ==> ps[k].State() == FedAt(adv, berries, k)
    requires forall k :: i <= k < |ps| ==> ps[k].State() == adv[k]
    modifies ps[i]
    ensures forall k :: 0 <= k <= i ==> ps[k].State() == FedAt(adv, berries, k)
    ensures forall k :: i < k < |ps| ==> ps[k].State() == adv[k]
    ensures forall j :: 0 <= j < |eaten| ==> eaten[j] == Head(adv[i])
    ensures multiset(eaten)[Head(adv[i])] == Meals(adv, berries, i)
    ensures log == ScoreLog(ps[i].key, adv[i], Meals(adv, berries, i))
    ensures toRemove == listed + Repeat(ps[i], HitCount(adv, berries, i, |adv|))
  {
    var p := ps[i];
    assert forall k :: 0 <= k < |ps| && k != i ==> ps[k] != p;
    var head := p.GetHead();
    eaten, log := FeedPlayer(p, head, berries);
    forall k | 0 <= k < |ps| ensures ps[k].body == SeenBody(adv, berries, i, k) {
    }
    toRemove := CollectHits(p, head, ps, listed);
    GrainHitsAgree(ps, adv, berries, i, |ps|);
  }

  /** Counted on the grains or on the reference states, player i is listed equally often. */
  lemma {:induction false} GrainHitsAgree(ps: seq<PlayerGrain>, adv: seq<PlayerState>, berries: seq<Point>, i: int, n: nat)
    requires Distinct(ps) && |adv| == |ps| && AllJoined(adv) && 0 <= i < |ps| && n <= |ps|
    requires forall k :: 0 <= k < |ps| ==> |ps[k].body| > 0 && ps[k].body == SeenBody(adv, berries, i, k)
    ensures GrainHits(Head(adv[i]), ps[i], ps, n) == HitCount(adv, berries, i, n)
  {
    if n > 0 {
      GrainHitsAgree(ps, adv, berries, i, n - 1);
      assert ps[i] != ps[n - 1] <==> i != n - 1;
      assert ps[n - 1].body[0] == Head(adv[n - 1]);
    }
  }

  /**
   * Where the berry and collision loop stands after i passes over the roster ps, whose states
   * after advancing were adv: the first i players have eaten, the berry removal list covers
   * their heads, and the removal list and the score notifications are those of the first i.
   */
  ghost predicate ResolvedUpTo(ps: seq<PlayerGrain>, berries: seq<Point>, adv: seq<PlayerState>, i: int,
                               toRemove: seq<PlayerGrain>, eaten: seq<Point>, log: seq<GameEvent>)
    reads ps
    requires |adv| == |ps| && AllJoined(adv) && 0 <= i <= |ps|
  {
    && (forall k :: 0 <= k < |ps| ==> ps[k].State() == if k < i then FedAt(adv, berries, k) else adv[k])
    && (forall j :: 0 <= j < |eaten| ==> eaten[j] in Heads(adv))
    && (forall k :: 0 <= k < i ==> multiset(berries)[Head(adv[k])] <= multiset(eaten)[Head(adv[k])])
    && log == ScoreLogs(Keys(ps), adv, berries, i)
    && toRemove == RemovalOrder(ps, adv, berries, i)
  }

  /** The berry and collision loop of a round, from player i to player i + 1. */
  method ResolveStep(ps: seq<PlayerGrain>, i: int, berries: seq<Point>, ghost adv: seq<PlayerState>,
                     listed: seq<PlayerGrain>, eaten0: seq<Point>, ghost log0: seq<GameEvent>)
    returns (toRemove: seq<PlayerGrain>, eaten: seq<Point>, ghost log: seq<GameEvent>)
    requires Distinct(ps) && |adv| == |ps| && AllJoined(adv) && 0 <= i < |ps|
    requires ResolvedUpTo(ps, berries, adv, i, listed, eaten0, log0)
    modifies ps[i]
    ensures ResolvedUpTo(ps, berries, adv, i + 1, toRemove, eaten, log)
  {
    assert Head(adv[i]) in Heads(adv);
    var more;
    ghost var scoreLog;
    toRemove, more, scoreLog := SettlePlayer(ps, i, berries, listed, adv);
    assert multiset(eaten0 + more) == multiset(eaten0) + multiset(more);
    eaten := eaten0 + more;
    assert Keys(ps)[i] == ps[i].key;
    log := log0 + scoreLog;
  }

  /**
   * The berry and collision loop of a round, player by player in roster order. Starts from the
   * players listed by the advancing loop.
   */
  method ResolveLoop(ps: seq<PlayerGrain>, berries: seq<Point>, outOfBounds: seq<PlayerGrain>, ghost adv: seq<PlayerState>)
    returns (toRemove: seq<PlayerGrain>, eaten: seq<Point>, ghost log: seq<GameEvent>)
    requires Distinct(ps) && |adv| == |ps| && AllJoined(adv)
    requires forall k :: 0 <= k < |ps| ==> ps[k].State() == adv[k]
    requires outOfBounds == OffBoard(ps, adv, |ps|)
    modifies ps
    ensures forall k :: 0 <= k < |ps| ==> ps[k].State() == FedAt(adv, berries, k)
    ensures forall j :: 0 <= j < |eaten| ==> eaten[j] in Heads(adv)
    ensures forall k :: 0 <= k < |adv| ==> multiset(berries)[Head(adv[k])] <= multiset(eaten)[Head(adv[k])]
    ensures log == ScoreLogs(Keys(ps), adv, berries, |ps|)
    ensures toRemove == RemovalOrder(ps, adv, berries, |ps|)
  {
    toRemove := outOfBounds;
    eaten := [];
    log := [];
    for i := 0 to |ps|
      invariant ResolvedUpTo(ps, berries, adv, i, toRemove, eaten, log)
    {
      toRemove, eaten, log := ResolveStep(ps, i, berries, adv, toRemove, eaten, log);
    }
  }

  /** The berry and collision loop, its results stated per cell and per removed player. */
  method ResolveCollisions(ps: seq<PlayerGrain>, berries: seq<Point>, outOfBounds: seq<PlayerGrain>, ghost adv: seq<PlayerState>)
    returns (toRemove: seq<PlayerGrain>, eaten: seq<Point>, ghost log: seq<GameEvent>)
    requires Distinct(ps) && |adv| == |ps| && AllJoined(adv)
    requires Snapshot(ps) == adv
    requires outOfBounds == OffBoard(ps, adv, |ps|)
    modifies ps
    ensures Snapshot(ps) == FedAll(adv, berries)
    ensures forall k :: 0 <= k < |ps| ==> (ps[k] in toRemove <==> Removed(adv, berries, k))
    ensures forall j :: 0 <= j < |toRemove| ==> toRemove[j] in ps
    ensures Members(toRemove) == Leaving(ps, adv, berries)
    ensures forall j :: 0 <= j < |eaten| ==> eaten[j] in Heads(adv)
    ensures forall h :: h in Heads(adv) ==> multiset(berries)[h] <= multiset(eaten)[h]
    ensures log == ScoreLogs(Keys(ps), adv, berries, |ps|)
    ensures toRemove == RemovalOrder(ps, adv, berries, |ps|)
  {
    toRemove, eaten, log := ResolveLoop(ps, berries, outOfBounds, adv);
    HeadsEaten(adv, berries, eaten);
    RemovalOrderLeaving(ps, adv, berries);
  }

  lemma HeadsEaten(adv: seq<PlayerState>, berries: seq<Point>, eaten: seq<Point>)
    requires AllJoined(adv)
    requires forall k :: 0 <= k < |adv| ==> multiset(berries)[Head(adv[k])] <= multiset(eaten)[Head(adv[k])]
    ensures forall h :: h in Heads(adv) ==> multiset(berries)[h] <= multiset(eaten)[h]
  {
    forall h | h in Heads(adv) ensures multiset(berries)[h] <= multiset(eaten)[h] {
      var k :| 0 <= k < |adv| && Head(adv[k]) == h;
    }
  }

  class GameGrain {
    var berries: seq<Point>
    var players: seq<PlayerGrain>
    var boardSize: Size
    var expectedPlayers: int
    var currentState: GameState
    /** Whether the round timer is registered. */
    var timerArmed: bool
    /** Every notification sent to the subscribers so far. */
    ghost var events: seq<GameEvent>

    /**
     * The timer runs exactly while a game is in progress; a lobby has no berries yet; a game in
     * progress has a board its berries can be drawn on.
     */
    ghost predicate Valid()
      reads this`timerArmed, this`currentState, this`berries, this`boardSize
    {
      (timerArmed <==> currentState == InProgress)
      && (currentState == Lobby ==> berries == [])
      && (currentState == InProgress ==> 0 <= boardSize.width && 0 <= boardSize.height)
    }

    constructor ()
      ensures Valid()
      ensures currentState == NoGame && berries == [] && players == [] && !timerArmed
      ensures boardSize == EmptySize() && expectedPlayers == 0 && events == []
    {
      berries := [];
      players := [];
      boardSize := EmptySize();
      expectedPlayers := 0;
      currentState := NoGame;
      timerArmed := false;
      events := [];
    }

    /** Changes the state, notifying the subscribers only when it really changes. */
    method SetState(state: GameState)
      modifies this`currentState, this`events
      ensures currentState == state
      ensures events == old(events) + (if old(currentState) != state then [StateChanged(state)] else [])
    {
      if currentState != state {
        currentState := state;
        events := events + [StateChanged(state)];
      }
    }

    /**
     * Opens a lobby: only from NoGame; clears the roster and the berries and records the board
     * size and expected player count, announcing each change.
     */
    method InitializeNewGame(size: Size, expected: int) returns (r: Outcome<GameError>)
      requires Valid()
      modifies this
      ensures Valid()
      ensures r.Fail? <==> old(currentState) != NoGame
      ensures r.Fail? ==> r.error == InvalidTransition(old(currentState), Lobby) && unchanged(this)
      ensures r.Pass? ==>
        && berries == [] && players == [] && expectedPlayers == expected && boardSize == size
        && currentState == Lobby && !timerArmed
        && events == old(events) + [ExpectedPlayerCountChanged(expected), BoardSizeChanged(size), StateChanged(Lobby)]
    {
      if currentState != NoGame {
        return Fail(InvalidTransition(currentState, Lobby));
      }
      berries := [];
      players := [];
      expectedPlayers := expected;
      events := events + [ExpectedPlayerCountChanged(expected)];
      boardSize := size;
      events := events + [BoardSizeChanged(size)];
      SetState(Lobby);
      return Pass;
    }

    function GetBoardSize(): Size
      reads this
    {
      boardSize
    }

    function GetExpectedPlayers(): int
      reads this
    {
      expectedPlayers
    }

    function GetCurrentState(): GameState
      reads this
    {
      currentState
    }

    function GetBerryPositions(): seq<Point>
      reads this
    {
      berries
    }

    function GetPlayers(): seq<PlayerGrain>
      reads this
    {
      players
    }

    /** Appends a player to the roster and announces the new roster size. */
    method AddPlayer(player: PlayerGrain)
      modifies this`players, this`events
      ensures players == old(players) + [player]
      ensures events == old(events) + [PlayerJoined(|players|)]
    {
      players := players + [player];
      events := events + [PlayerJoined(|players|)];
    }

    /**
     * Starts the game from the lobby. Computer players are created and joined for the places the
     * roster lacks (they do not enter the roster), one berry is drawn per roster entry, and the
     * round timer is armed. Fails without changing anything when not in the lobby, when the
     * roster is empty, or when a random draw does not fit the board.
     */
    method Start() returns (r: Outcome<GameError>)
      requires Valid()
      modifies this
      ensures Valid()
      ensures old(currentState) != Lobby ==> r == Fail(InvalidTransition(old(currentState), InProgress))
      ensures old(currentState) == Lobby && old(players) == [] ==> r == Fail(NoHumanPlayer)
      ensures old(currentState) == Lobby && old(players) != [] ==>
        r == (if StartFits(|old(players)|, old(expectedPlayers), old(boardSize)) then Pass else Fail(ArgumentOutOfRange))
      ensures r.Fail? ==> unchanged(this)
      ensures r.Pass? ==>
        && players == old(players) && boardSize == old(boardSize) && expectedPlayers == old(expectedPlayers)
        && |berries| == |players|
        && (forall i :: 0 <= i < |berries| ==> Placed(berries[i], 0, boardSize))
        && currentState == InProgress && timerArmed
        && events == old(events) + [StateChanged(InProgress)]
    {
      if currentState != Lobby {
        return Fail(InvalidTransition(currentState, InProgress));
      }
      if |players| == 0 {
        return Fail(NoHumanPlayer);
      }
      var i: nat := |players|;
      while i < expectedPlayers
        invariant unchanged(this)
        invariant |players| <= i
        invariant i > |players| ==> 10 <= boardSize.width && 10 <= boardSize.height
      {
        var ai := new PlayerGrain(AiPlayerKey(i));
        ai.SetHumanControlled(false);
        var joined := ai.JoinGame(boardSize);
        if !joined {
          return Fail(ArgumentOutOfRange);
        }
        i := i + 1;
      }
      var drawn: seq<Point> := [];
      for k := 0 to |players|
        invariant unchanged(this)
        invariant |drawn| == k
        invariant forall j :: 0 <= j < k ==> Placed(drawn[j], 0, boardSize)
        invariant k > 0 ==> 0 <= boardSize.width && 0 <= boardSize.height
      {
        var b := OnScreen(0, boardSize);
        if b.None? {
          return Fail(ArgumentOutOfRange);
        }
        drawn := drawn + [b.value];
      }
      berries := berries + drawn;
      SetState(InProgress);
      timerArmed := true;
      return Pass;
    }

    /** Whether the game goes on: more than one living player, and a living human among them. */
    method IsInProgress() returns (going: bool)
      ensures going <==> KeepsGoing(Snapshot(players))
    {
      ghost var ss := Snapshot(players);
      var alive := LivingPlayers();
      going := false;
      if |alive| > 1 {
        going := AnyHuman(alive);
        if going {
          var j :| 0 <= j < |alive| && alive[j].humanControlled;
          var k :| 0 <= k < |players| && players[k] == alive[j];
          assert ss[k].alive && ss[k].human;
        } else {
          forall k | 0 <= k < |ss| && ss[k].alive ensures !ss[k].human {
            assert players[k] in alive;
          }
        }
      }
    }

    /** The first loop of IsInProgress: the living roster entries, in roster order. */
    method LivingPlayers() returns (alive: seq<PlayerGrain>)
      ensures |alive| == AliveCount(Snapshot(players), |players|)
      ensures forall j :: 0 <= j < |alive| ==> alive[j].isAlive && alive[j] in players
      ensures forall k :: 0 <= k < |players| && players[k].isAlive ==> players[k] in alive
    {
      ghost var ss := Snapshot(players);
      alive := [];
      for i := 0 to |players|
        invariant |alive| == AliveCount(ss, i)
        invariant forall j :: 0 <= j < |alive| ==> alive[j].isAlive && alive[j] in players
        invariant forall k :: 0 <= k < i && players[k].isAlive ==> players[k] in alive
      {
        if players[i].isAlive {
          alive := alive + [players[i]];
        }
      }
    }

    /** The second loop of IsInProgress: whether any of the given players is human-controlled. */
    static method AnyHuman(alive: seq<PlayerGrain>) returns (found: bool)
      ensures found <==> exists j :: 0 <= j < |alive| && alive[j].humanControlled
    {
      for j := 0 to |alive|
        invariant forall m :: 0 <= m < j ==> !alive[m].humanControlled
      {
        if alive[j].humanControlled {
          return true;
        }
      }
      return false;
    }

    /** One pass of the removal loop, for entry j of the list, seen from the roster p0 it started on. */
    method RemoveStep(toRemove: seq<PlayerGrain>, j: int, ghost p0: seq<PlayerGrain>, ghost s0: seq<PlayerState>, ghost e0: seq<GameEvent>)
      requires 0 <= j < |toRemove| && |s0| == |p0|
      requires players == RemoveEach(p0, toRemove, j)
      requires forall k :: 0 <= k < |p0| ==> p0[k].State() == s0[k].(alive := s0[k].alive && p0[k] !in toRemove[..j])
      requires events == e0 + DiedLog(toRemove[..j])
      modifies this`players, this`events, toRemove[j]
      ensures players == RemoveEach(p0, toRemove, j + 1)
      ensures forall k :: 0 <= k < |p0| ==> p0[k].State() == s0[k].(alive := s0[k].alive && p0[k] !in toRemove[..j + 1])
      ensures events == e0 + DiedLog(toRemove[..j + 1])
    {
      DropListed(toRemove, j, p0);
      KillListed(toRemove, j, p0, s0);
      AnnounceDied(toRemove, j, e0);
    }

    /** The roster half of one removal: `_players.Remove` of the j-th listed player. */
    method DropListed(toRemove: seq<PlayerGrain>, j: int, ghost p0: seq<PlayerGrain>)
      requires 0 <= j < |toRemove| && players == RemoveEach(p0, toRemove, j)
      modifies this`players
      ensures players == RemoveEach(p0, toRemove, j + 1)
    {
      players := RemoveFirst(players, toRemove[j]);
    }

    /** The notification half of one removal: the j-th listed player is announced as dead. */
    method AnnounceDied(toRemove: seq<PlayerGrain>, j: int, ghost e0: seq<GameEvent>)
      requires 0 <= j < |toRemove| && events == e0 + DiedLog(toRemove[..j])
      modifies this`events
      ensures events == e0 + DiedLog(toRemove[..j + 1])
    {
      events := events + [Died(toRemove[j].key)];
      DiedLogStep(toRemove, j);
    }

    /** The Die call of the removal loop, stated for the whole original roster. */
    static method KillListed(toRemove: seq<PlayerGrain>, j: int, ghost p0: seq<PlayerGrain>, ghost s0: seq<PlayerState>)
      requires 0 <= j < |toRemove| && |s0| == |p0|
      requires forall k :: 0 <= k < |p0| ==> p0[k].State() == s0[k].(alive := s0[k].alive && p0[k] !in toRemove[..j])
      modifies toRemove[j]
      ensures forall k :: 0 <= k < |p0| ==> p0[k].State() == s0[k].(alive := s0[k].alive && p0[k] !in toRemove[..j + 1])
    {
      toRemove[j].Die();
      assert toRemove[..j + 1] == toRemove[..j] + [toRemove[j]];
    }

    /** The removal loop: each listed player leaves the roster, dies and is announced as dead. */
    method RemovePlayers(toRemove: seq<PlayerGrain>)
      requires Distinct(players)
      modifies this`players, this`events, toRemove
      ensures players == Keep(old(players), Members(toRemove))
      ensures forall k :: 0 <= k < |old(players)| ==>
        old(players)[k].State() == old(Snapshot(players))[k].(alive := old(Snapshot(players))[k].alive && old(players)[k] !in toRemove)
      ensures events == old(events) + DiedLog(toRemove)
    {
      ghost var p0 := players;
      ghost var s0 := Snapshot(players);
      assert toRemove[..0] == [];
      assert DiedLog([]) == [];
      for j := 0 to |toRemove|
        invariant players == RemoveEach(p0, toRemove, j)
        invariant forall k :: 0 <= k < |p0| ==> p0[k].State() == s0[k].(alive := s0[k].alive && p0[k] !in toRemove[..j])
        invariant events == old(events) + DiedLog(toRemove[..j])
      {
        RemoveStep(toRemove, j, p0, s0, old(events));
      }
      assert toRemove[..|toRemove|] == toRemove;
      RemoveEachKeeps(p0, toRemove, |toRemove|);
    }

    /** The berry removal loop: one `List.Remove` per eaten berry takes every berry under a head away. */
    method RemoveBerries(eaten: seq<Point>, ghost heads: set<Point>)
      requires forall j :: 0 <= j < |eaten| ==> eaten[j] in heads
      requires forall h :: h in heads ==> multiset(berries)[h] <= multiset(eaten)[h]
      modifies this`berries
      ensures berries == Keep(old(berries), heads)
    {
      for j := 0 to |eaten|
        invariant Keep(berries, heads) == Keep(old(berries), heads)
        invariant forall h :: h in heads ==> multiset(berries)[h] <= multiset(eaten[j..])[h]
      {
        KeepRemoveFirst(berries, eaten[j], heads);
        RemoveFirstOutstanding(berries, eaten, j, heads);
        berries := RemoveFirst(berries, eaten[j]);
      }
      KeepNoneOf(berries, heads);
    }

    /**
     * The replenishing loop. Its bound, roster size minus berry count, shrinks as berries are
     * added while the counter grows, so it adds ReplenishCount berries, each drawn on the board.
     */
    method Replenish()
      requires 0 <= boardSize.width && 0 <= boardSize.height
      modifies this`berries
      ensures Replenished(old(berries), berries, |players|, boardSize)
    {
      var i := 0;
      while i < |players| - |berries|
        invariant 0 <= i <= ReplenishCount(|players|, |old(berries)|)
        invariant |berries| == |old(berries)| + i
        invariant berries[..|old(berries)|] == old(berries)
        invariant forall k :: |old(berries)| <= k < |berries| ==> Placed(berries[k], 0, boardSize)
        decreases |players| - |berries| - i
      {
        var b := OnScreen(0, boardSize);
        berries := berries + [b.value];
        i := i + 1;
      }
    }

    /**
     * The player removal loop of a round, entered with the roster fed and the removal list
     * complete, after the score notifications: the players end up settled.
     */
    method RemoveAll(toRemove: seq<PlayerGrain>, ghost adv: seq<PlayerState>, ghost berries0: seq<Point>, ghost scoreLog: seq<GameEvent>)
      requires Distinct(players) && AllJoined(adv) && |adv| == |players|
      requires Snapshot(players) == FedAll(adv, berries0)
      requires forall k :: 0 <= k < |players| ==> (players[k] in toRemove <==> Removed(adv, berries0, k))
      modifies this`players, this`events, toRemove
      ensures berries == old(berries) && boardSize == old(boardSize)
      ensures currentState == old(currentState) && timerArmed == old(timerArmed)
      ensures players == Keep(old(players), Members(toRemove))
      ensures Snapshot(old(players)) == SettledAll(adv, berries0)
      ensures events == old(events) + scoreLog + DiedLog(toRemove)
    {
      ghost var p0 := players;
      events := events + scoreLog;
      RemovePlayers(toRemove);
      forall k | 0 <= k < |p0| ensures p0[k].State() == Settled(adv, berries0, k) {
      }
    }

    /** The berry removal loop and the replenishing loop of a round. */
    method RefreshBerries(eaten: seq<Point>, ghost adv: seq<PlayerState>)
      requires Valid() && currentState == InProgress && AllJoined(adv)
      requires forall j :: 0 <= j < |eaten| ==> eaten[j] in Heads(adv)
      requires forall h :: h in Heads(adv) ==> multiset(berries)[h] <= multiset(eaten)[h]
      modifies this`berries
      ensures Valid()
      ensures Replenished(Uneaten(old(berries), adv), berries, |players|, boardSize)
    {
      RemoveBerries(eaten, Heads(adv));
      Replenish();
    }

    /**
     * The end of a round: the new round is announced, and the game ends, with the timer
     * disarmed, unless it is still in progress.
     */
    method EndRound() returns (going: bool)
      requires Valid() && currentState == InProgress
      modifies this`events, this`currentState, this`timerArmed
      ensures going == KeepsGoing(Snapshot(players))
      ensures Valid()
      ensures events == old(events) + [NewRound] + (if going then [] else [StateChanged(NoGame)])
      ensures currentState == (if going then InProgress else NoGame) && timerArmed == going
    {
      events := events + [NewRound];
      going := IsInProgress();
      if !going {
        StopGame();
      }
    }

    /** The end of a game: NoGame is announced and the round timer is disposed of. */
    method StopGame()
      requires currentState == InProgress
      modifies this`events, this`currentState, this`timerArmed
      ensures currentState == NoGame && !timerArmed
      ensures events == old(events) + [StateChanged(NoGame)]
    {
      SetState(NoGame);
      timerArmed := false;
    }

    /**
     * The berry half of a round and its end: the eaten berries go, new ones are drawn, and the
     * round ends. No player changes, so any roster `ps` keeps its snapshot.
     */
    method FinishRound(eaten: seq<Point>, ghost adv: seq<PlayerState>, ghost ps: seq<PlayerGrain>) returns (going: bool)
      requires Valid() && currentState == InProgress && AllJoined(adv)
      requires forall j :: 0 <= j < |eaten| ==> eaten[j] in Heads(adv)
      requires forall h :: h in Heads(adv) ==> multiset(berries)[h] <= multiset(eaten)[h]
      modifies this`berries, this`events, this`currentState, this`timerArmed
      ensures Valid()
      ensures Snapshot(ps) == old(Snapshot(ps))
      ensures Replenished(Uneaten(old(berries), adv), berries, |players|, boardSize)
      ensures going == KeepsGoing(Snapshot(players))
      ensures events == old(events) + [NewRound] + (if going then [] else [StateChanged(NoGame)])
      ensures currentState == (if going then InProgress else NoGame) && timerArmed == going
    {
      RefreshBerries(eaten, adv);
      going := EndRound();
    }

    /**
     * The player loops of a round before the removal: the computer players turn, every player
     * advances, eats the berries under its head and is checked for collisions. The game's own
     * fields stay as they are.
     */
    method PlayPlayers(rolls: seq<int>)
      returns (toRemove: seq<PlayerGrain>, eaten: seq<Point>, ghost log: seq<GameEvent>, ghost adv: seq<PlayerState>)
      requires Distinct(players) && |rolls| == |players|
      requires forall k :: 0 <= k < |players| ==> |players[k].body| > 0
      modifies players
      ensures unchanged(this)
      ensures AllJoined(old(Snapshot(players))) && adv == Advanced(old(Snapshot(players)), rolls)
      ensures Snapshot(players) == FedAll(adv, berries)
      ensures forall k :: 0 <= k < |players| ==> (players[k] in toRemove <==> Removed(adv, berries, k))
      ensures forall j :: 0 <= j < |toRemove| ==> toRemove[j] in players
      ensures Members(toRemove) == Leaving(players, adv, berries)
      ensures toRemove == RemovalOrder(players, adv, berries, |players|)
      ensures forall j :: 0 <= j < |eaten| ==> eaten[j] in Heads(adv)
      ensures forall h :: h in Heads(adv) ==> multiset(berries)[h] <= multiset(eaten)[h]
      ensures log == ScoreLogs(Keys(players), adv, berries, |players|)
    {
      var outOfBounds;
      outOfBounds, adv := MoveAll(players, rolls);
      toRemove, eaten, log := ResolveCollisions(players, berries, outOfBounds, adv);
    }

    /**
     * The player half of a round: the computer players turn, every player advances, eats and is
     * checked for collisions, the score notifications go out and the removed players leave the
     * roster and die. The berries are untouched; `eaten` is the berry removal list.
     */
    method MovePlayers(rolls: seq<int>) returns (ghost adv: seq<PlayerState>, ghost dying: seq<PlayerGrain>, eaten: seq<Point>)
      requires Distinct(players) && |rolls| == |players|
      requires forall k :: 0 <= k < |players| ==> |players[k].body| > 0
      modifies this`players, this`events, players
      ensures berries == old(berries) && boardSize == old(boardSize)
      ensures currentState == old(currentState) && timerArmed == old(timerArmed)
      ensures AllJoined(old(Snapshot(players))) && adv == Advanced(old(Snapshot(players)), rolls)
      ensures Snapshot(old(players)) == SettledAll(adv, berries)
      ensures dying == RemovalOrder(old(players), adv, berries, |adv|)
      ensures players == Keep(old(players), Members(dying))
      ensures forall j :: 0 <= j < |eaten| ==> eaten[j] in Heads(adv)
      ensures forall h :: h in Heads(adv) ==> multiset(berries)[h] <= multiset(eaten)[h]
      ensures events == old(events) + ScoreLogs(Keys(old(players)), adv, berries, |adv|) + DiedLog(dying)
    {
      var toRemove;
      ghost var scoreLog;
      toRemove, eaten, scoreLog, adv := PlayPlayers(rolls);
      RemoveAll(toRemove, adv, berries, scoreLog);
      dying := toRemove;
    }

    /**
     * One tick of the round timer: the computer players turn (rolls[k] is the random draw for
     * roster entry k), every player advances, eats the berries under its head and is checked
     * for collisions; the removed players leave the roster and die, the eaten berries are taken
     * away and some are drawn anew; a new round is announced, and the game ends unless it is
     * still in progress. `adv` is the roster after advancing and `dying` the removal list.
     *
     * The source's single PlayRound (Grains/GameGrain.cs:123-211) is split by loop:
     * TurnAiPlayers is the turning loop (125-139); AdvancePlayers, AdvanceAt and AdvanceOne the
     * advancing loop (141-150); ResolveLoop, ResolveStep and SettlePlayer the loop over the
     * roster (152-185), with FeedPlayer, Eat and FeedStep its berry loop (155-163) and
     * CollectHits, CheckAgainst and CheckSegments its collision loop (166-184); RemovePlayers,
     * RemoveStep, DropListed, KillListed and AnnounceDied the removal loop (187-192);
     * RemoveBerries (194-197) and Replenish (199-202) the berry loops; EndRound and StopGame the
     * end (204-210). PlayPlayers, MovePlayers, RemoveAll, RefreshBerries and FinishRound group
     * these steps, so that each proof stays small.
     */
    method PlayRound(rolls: seq<int>) returns (ghost adv: seq<PlayerState>, ghost dying: seq<PlayerGrain>, ghost going: bool)
      requires Valid() && timerArmed
      requires Distinct(players) && |rolls| == |players|
      requires forall k :: 0 <= k < |players| ==> |players[k].body| > 0
      modifies this`players, this`berries, this`currentState, this`timerArmed, this`events, players
      ensures Valid()
      ensures AllJoined(old(Snapshot(players))) && adv == Advanced(old(Snapshot(players)), rolls)
      ensures Snapshot(old(players)) == SettledAll(adv, old(berries))
      ensures dying == RemovalOrder(old(players), adv, old(berries), |adv|)
      ensures players == Keep(old(players), Members(dying))
      ensures Replenished(Uneaten(old(berries), adv), berries, |players|, boardSize)
      ensures going == KeepsGoing(Snapshot(players))
      ensures events == old(events) + ScoreLogs(Keys(old(players)), adv, old(berries), |adv|) + DiedLog(dying)
        + [NewRound] + (if going then [] else [StateChanged(NoGame)])
      ensures currentState == (if going then InProgress else NoGame) && timerArmed == going
    {
      var eaten;
      adv, dying, eaten := MovePlayers(rolls);
      going := FinishRound(eaten, adv, old(players));
    }
  }
}
