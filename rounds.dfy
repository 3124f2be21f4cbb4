/**
 * The game session's vocabulary (Grains/GameGrain.cs) and a value-level description of what
 * one `PlayRound` tick does to the roster and the berries. The GameGrain class in module Game
 * is proved to do exactly this.
 */
module Rounds {
  import opened Wrappers
  import opened Values
  import opened Geometry
  import opened Players
  import opened Sequences

  datatype GameState = NoGame | Lobby | InProgress

  /** The exceptions the session throws. */
  datatype GameError =
    | InvalidTransition(from: GameState, to: GameState)  // InvalidOperationException "Can't transition from ..."
    | NoHumanPlayer                                      // InvalidOperationException "No human player when starting"
    | ArgumentOutOfRange                                 // thrown by Random.Next when a border does not fit

  /** The observer notifications the session emits, in the order it emits them. */
  datatype GameEvent =
    | ExpectedPlayerCountChanged(count: int)
    | BoardSizeChanged(size: Size)
    | StateChanged(state: GameState)
    | PlayerJoined(count: int)
    | ScoreChanged(id: string, score: int)
    | Died(id: string)
    | NewRound

  /**
   * Whether Start gets past its random draws: every AI player it fills in must fit the
   * 5-cell join border, and every berry must fit the board.
   */
  predicate StartFits(rosterSize: int, expectedPlayers: int, size: Size) {
    (expectedPlayers <= rosterSize || (10 <= size.width && 10 <= size.height))
    && 0 <= size.width && 0 <= size.height
  }

  /** A player that has joined has a body, so it has a head. */
  predicate Joined(s: PlayerState) {
    |s.body| > 0
  }

  ghost predicate AllJoined(ss: seq<PlayerState>) {
    forall k :: 0 <= k < |ss| ==> Joined(ss[k])
  }

  function Head(s: PlayerState): Point
    requires Joined(s)
  {
    s.body[0]
  }

  /**
   * The first loop of PlayRound for one player: an AI player turns left on a roll of 0 and
   * right on 1. Only the direction can change, and a turn is a quarter turn, never a reversal.
   */
  function AiTurn(s: PlayerState, roll: int): (r: PlayerState)
  {
    if s.human then s
    else if roll == 0 then s.(direction := LeftOf(s.direction))
    else if roll == 1 then s.(direction := RightOf(s.direction))
    else s
  }

  /**
   * A player's state after its Advance: the head moves one cell in the player's direction,
   * every other segment moves into the cell of the one before it, and the cell the tail left
   * is remembered. Nothing else changes.
   */
  function Stepped(s: PlayerState): (r: PlayerState)
    requires Joined(s)
  {
    s.(body := Shifted(s.body, s.direction), last := Some(s.body[|s.body| - 1]))
  }

  /**
   * A player's state after one FoundBerry: one more point, and the body grows at its tail by
   * the remembered cell (not at all when there is none).
   */
  function Found(s: PlayerState): (r: PlayerState)
  {
    s.(score := s.score + 1, body := Grown(s.body, s.last))
  }

  /** n FoundBerry calls in a row: n points, and nothing but the score and the body changes. */
  function Fed(s: PlayerState, n: nat): (r: PlayerState)
    ensures r == s.(score := s.score + n, body := r.body)
  {
    if n == 0 then s else Found(Fed(s, n - 1))
  }

  /**
   * The body after n FoundBerry calls: the old body followed by n copies of the remembered
   * tail cell (none when there is no remembered cell).
   */
  lemma {:induction false} FedBody(s: PlayerState, n: nat)
    ensures |Fed(s, n).body| == |s.body| + (if s.last.Some? then n else 0)
    ensures Fed(s, n).body[..|s.body|] == s.body
    ensures forall i :: |s.body| <= i < |Fed(s, n).body| ==> Fed(s, n).body[i] == s.last.value
  {
    if n > 0 {
      FedBody(s, n - 1);
    }
  }

  /** The roster's states after the turning loop and the advancing loop of one round. */
  function Advanced(s0: seq<PlayerState>, rolls: seq<int>): (adv: seq<PlayerState>)
    requires AllJoined(s0) && |rolls| == |s0|
    ensures |adv| == |s0| && AllJoined(adv)
    ensures forall k :: 0 <= k < |s0| ==> adv[k] == Stepped(AiTurn(s0[k], rolls[k]))
  {
    seq(|s0|, k requires 0 <= k < |s0| => Stepped(AiTurn(s0[k], rolls[k])))
  }

  /** How many berries lie under player k's head: FoundBerry is called once for each. */
  function Meals(adv: seq<PlayerState>, berries: seq<Point>, k: int): (n: nat)
    requires AllJoined(adv) && 0 <= k < |adv|
  {
    multiset(berries)[Head(adv[k])]
  }

  /** Player k after its berries. */
  function FedAt(adv: seq<PlayerState>, berries: seq<Point>, k: int): PlayerState
    requires AllJoined(adv) && 0 <= k < |adv|
  {
    Fed(adv[k], Meals(adv, berries, k))
  }

  /**
   * The body of player j as player k's collision check sees it: players are handled in
   * roster order, so those up to and including k have already eaten.
   */
  function SeenBody(adv: seq<PlayerState>, berries: seq<Point>, k: int, j: int): (b: seq<Point>)
    requires AllJoined(adv) && 0 <= k < |adv| && 0 <= j < |adv|
    ensures |b| > 0 && b[0] == Head(adv[j])
  {
    FedBody(adv[j], Meals(adv, berries, j));
    if j <= k then FedAt(adv, berries, j).body else adv[j].body
  }

  /** Player k collides with player j: the same head cell (j another player), or k's head on a non-head segment of j. */
  predicate Hits(adv: seq<PlayerState>, berries: seq<Point>, k: int, j: int)
    requires AllJoined(adv) && 0 <= k < |adv| && 0 <= j < |adv|
  {
    (j != k && Head(adv[j]) == Head(adv[k])) || Head(adv[k]) in SeenBody(adv, berries, k, j)[1..]
  }

  predicate Collides(adv: seq<PlayerState>, berries: seq<Point>, k: int)
    requires AllJoined(adv) && 0 <= k < |adv|
  {
    exists j :: 0 <= j < |adv| && Hits(adv, berries, k, j)
  }

  /** Player k leaves the roster this round: its head left the board, or it collides with someone. */
  predicate Removed(adv: seq<PlayerState>, berries: seq<Point>, k: int)
    requires AllJoined(adv) && 0 <= k < |adv|
  {
    !OnBoard(Head(adv[k]), adv[k].boardSize) || Collides(adv, berries, k)
  }

  /** The roster entries a round removes; ps is the roster whose states were adv. */
  function Leaving(ps: seq<PlayerGrain>, adv: seq<PlayerState>, berries: seq<Point>): set<PlayerGrain>
    requires AllJoined(adv) && |ps| == |adv|
  {
    set k | 0 <= k < |adv| && Removed(adv, berries, k) :: ps[k]
  }

  /** The advancing loop's list: the players whose heads left the board, in roster order. */
  function OffBoard(ps: seq<PlayerGrain>, adv: seq<PlayerState>, n: nat): seq<PlayerGrain>
    requires AllJoined(adv) && |ps| == |adv| && n <= |adv|
  {
    if n == 0 then []
    else OffBoard(ps, adv, n - 1) + (if !OnBoard(Head(adv[n - 1]), adv[n - 1].boardSize) then [ps[n - 1]] else [])
  }

  /**
   * How often player k's check against player j lists it: once when j is another player
   * whose head is k's head, and once more for every other segment of j under k's head.
   */
  function HitsOn(adv: seq<PlayerState>, berries: seq<Point>, k: int, j: int): nat
    requires AllJoined(adv) && 0 <= k < |adv| && 0 <= j < |adv|
  {
    (if j != k && Head(adv[j]) == Head(adv[k]) then 1 else 0)
    + multiset(SeenBody(adv, berries, k, j)[1..])[Head(adv[k])]
  }

  /** How often player k's collision checks against the first n players list it. */
  function HitCount(adv: seq<PlayerState>, berries: seq<Point>, k: int, n: nat): nat
    requires AllJoined(adv) && 0 <= k < |adv| && n <= |adv|
  {
    if n == 0 then 0 else HitCount(adv, berries, k, n - 1) + HitsOn(adv, berries, k, n - 1)
  }

  /**
   * The removal list after the collision checks of the first n players: the advancing
   * loop's list, then each player once per hit, in roster order.
   */
  function RemovalOrder(ps: seq<PlayerGrain>, adv: seq<PlayerState>, berries: seq<Point>, n: nat): seq<PlayerGrain>
    requires AllJoined(adv) && |ps| == |adv| && n <= |adv|
  {
    if n == 0 then OffBoard(ps, adv, |adv|)
    else RemovalOrder(ps, adv, berries, n - 1) + Repeat(ps[n - 1], HitCount(adv, berries, n - 1, |adv|))
  }

  /** Player k at the end of the round: fed, and dead if removed. */
  function Settled(adv: seq<PlayerState>, berries: seq<Point>, k: int): PlayerState
    requires AllJoined(adv) && 0 <= k < |adv|
  {
    var f := FedAt(adv, berries, k);
    if Removed(adv, berries, k) then f.(alive := false) else f
  }

  /** The whole roster after its berries. */
  function FedAll(adv: seq<PlayerState>, berries: seq<Point>): (r: seq<PlayerState>)
    requires AllJoined(adv)
    ensures |r| == |adv| && forall k :: 0 <= k < |adv| ==> r[k] == FedAt(adv, berries, k)
  {
    seq(|adv|, k requires 0 <= k < |adv| => FedAt(adv, berries, k))
  }

  /** The whole roster at the end of the round. */
  function SettledAll(adv: seq<PlayerState>, berries: seq<Point>): (r: seq<PlayerState>)
    requires AllJoined(adv)
    ensures |r| == |adv| && forall k :: 0 <= k < |adv| ==> r[k] == Settled(adv, berries, k)
  {
    seq(|adv|, k requires 0 <= k < |adv| => Settled(adv, berries, k))
  }

  /** The cells under the players' heads. */
  function Heads(adv: seq<PlayerState>): set<Point>
    requires AllJoined(adv)
  {
    set k | 0 <= k < |adv| :: Head(adv[k])
  }

  /** The berries left once every berry under a head is eaten, in their original order. */
  function Uneaten(berries: seq<Point>, adv: seq<PlayerState>): seq<Point>
    requires AllJoined(adv)
  {
    Keep(berries, Heads(adv))
  }

  /**
   * How many berries the replenishing loop adds. Its bound `players - berries` is
   * re-evaluated as the berries grow, so it stops half way: ceil(d / 2) for a shortfall d.
   */
  function ReplenishCount(players: int, berries: int): (r: nat)
    ensures r > 0 ==> r - 1 < players - (berries + (r - 1))
    ensures !(r < players - (berries + r))
  {
    if players - berries > 0 then (players - berries + 1) / 2 else 0
  }

  /**
   * The berries after the replenishing loop: the kept ones in their order, then one fresh berry
   * per count from ReplenishCount, each drawn on the board.
   */
  predicate Replenished(kept: seq<Point>, berries: seq<Point>, rosterSize: int, size: Size) {
    |berries| == |kept| + ReplenishCount(rosterSize, |kept|)
    && berries[..|kept|] == kept
    && forall i :: |kept| <= i < |berries| ==> Placed(berries[i], 0, size)
  }

  /** One ScoreChanged per berry eaten, carrying the running score. */
  ghost function ScoreLog(key: string, s: PlayerState, n: nat): seq<GameEvent> {
    if n == 0 then [] else ScoreLog(key, s, n - 1) + [ScoreChanged(key, s.score + n)]
  }

  lemma ScoreLogStep(key: string, s: PlayerState, n: nat, score: int)
    requires score == s.score + n + 1
    ensures ScoreLog(key, s, n + 1) == ScoreLog(key, s, n) + [ScoreChanged(key, score)]
  {
  }

  /** The score notifications of the first n players of a round, in roster order. */
  ghost function ScoreLogs(keys: seq<string>, adv: seq<PlayerState>, berries: seq<Point>, n: nat): seq<GameEvent>
    requires AllJoined(adv) && |keys| == |adv| && n <= |adv|
  {
    if n == 0 then []
    else ScoreLogs(keys, adv, berries, n - 1) + ScoreLog(keys[n - 1], adv[n - 1], Meals(adv, berries, n - 1))
  }

  /** One Died notification per entry of the removal list. */
  ghost function DiedLog(ps: seq<PlayerGrain>): seq<GameEvent> {
    seq(|ps|, i requires 0 <= i < |ps| => Died(ps[i].key))
  }

  lemma DiedLogStep(ps: seq<PlayerGrain>, j: int)
    requires 0 <= j < |ps|
    ensures DiedLog(ps[..j + 1]) == DiedLog(ps[..j]) + [Died(ps[j].key)]
  {
  }

  /** The number of living players among the first n. */
  function AliveCount(ss: seq<PlayerState>, n: nat): (c: nat)
    requires n <= |ss|
    ensures c <= n
    ensures c == 0 <==> forall k :: 0 <= k < n ==> !ss[k].alive
  {
    if n == 0 then 0
    else AliveCount(ss, n - 1) + (if ss[n - 1].alive then 1 else 0)
  }

  /** IsInProgress: more than one player alive, and a human among the living. */
  predicate KeepsGoing(ss: seq<PlayerState>) {
    AliveCount(ss, |ss|) > 1 && exists k :: 0 <= k < |ss| && ss[k].alive && ss[k].human
  }

  // ---- Properties of a round ----

  /**
   * The AI turn changes nothing but the direction; a human player, and a roll other than 0
   * or 1, leaves the player as it was; a turn is a quarter turn, never a reversal.
   */
  lemma AiTurnTurns(s: PlayerState, roll: int)
    ensures AiTurn(s, roll) == s.(direction := AiTurn(s, roll).direction)
    ensures s.human || (roll != 0 && roll != 1) ==> AiTurn(s, roll) == s
    ensures !s.human && (roll == 0 || roll == 1) ==> IsVertical(AiTurn(s, roll).direction) != IsVertical(s.direction)
  {
  }

  /**
   * Advance moves the head one cell in the player's direction, moves every other segment into
   * the cell of the one before it, remembers the cell the tail left and changes nothing else.
   */
  lemma SteppedMoves(s: PlayerState)
    requires Joined(s)
    ensures Stepped(s) == s.(body := Stepped(s).body, last := Stepped(s).last) && Joined(Stepped(s))
    ensures |Stepped(s).body| == |s.body| && Head(Stepped(s)) == Move(Head(s), s.direction)
    ensures Stepped(s).body[1..] == s.body[..|s.body| - 1]
    ensures Stepped(s).last == Some(s.body[|s.body| - 1])
  {
  }

  /**
   * FoundBerry adds one point and grows the body at its tail by the remembered cell (not at
   * all when there is none); nothing else changes.
   */
  lemma FoundGrows(s: PlayerState)
    ensures Found(s) == s.(score := s.score + 1, body := Found(s).body)
    ensures |Found(s).body| == |s.body| + (if s.last.Some? then 1 else 0) && Found(s).body[..|s.body|] == s.body
    ensures s.last.Some? ==> Found(s).body[|s.body|] == s.last.value
  {
  }

  /** A player eats this round exactly when a berry lies under its head. */
  lemma MealsUnderHead(adv: seq<PlayerState>, berries: seq<Point>, k: int)
    requires AllJoined(adv) && 0 <= k < |adv|
    ensures Meals(adv, berries, k) > 0 <==> Head(adv[k]) in berries
  {
  }

  /** Two players whose heads meet are both removed, whatever their order in the roster. */
  lemma HeadOnHeadRemovesBoth(adv: seq<PlayerState>, berries: seq<Point>, j: int, k: int)
    requires AllJoined(adv) && 0 <= j < |adv| && 0 <= k < |adv| && j != k
    requires Head(adv[j]) == Head(adv[k])
    ensures Removed(adv, berries, j) && Removed(adv, berries, k)
  {
    assert Hits(adv, berries, k, j);
    assert Hits(adv, berries, j, k);
  }

  /** A head on any non-head segment, of its own snake or another's, removes the player. */
  lemma BodyHitRemoves(adv: seq<PlayerState>, berries: seq<Point>, k: int, j: int, i: int)
    requires AllJoined(adv) && 0 <= k < |adv| && 0 <= j < |adv|
    requires 1 <= i < |SeenBody(adv, berries, k, j)| && SeenBody(adv, berries, k, j)[i] == Head(adv[k])
    ensures Removed(adv, berries, k)
  {
    var b := SeenBody(adv, berries, k, j);
    assert b[1..][i - 1] == b[i];
    assert Hits(adv, berries, k, j);
  }

  /** Player k is listed by some collision check exactly when it collides. */
  lemma {:induction false} HitCountCollides(adv: seq<PlayerState>, berries: seq<Point>, k: int, n: nat)
    requires AllJoined(adv) && 0 <= k < |adv| && n <= |adv|
    ensures HitCount(adv, berries, k, n) > 0 <==> exists j :: 0 <= j < n && Hits(adv, berries, k, j)
  {
    if n > 0 {
      HitCountCollides(adv, berries, k, n - 1);
      var b := SeenBody(adv, berries, k, n - 1)[1..];
      assert multiset(b)[Head(adv[k])] > 0 <==> Head(adv[k]) in b;
      assert HitsOn(adv, berries, k, n - 1) > 0 <==> Hits(adv, berries, k, n - 1);
    }
  }

  /** On a roster without repetitions, the advancing loop's list holds the first n players whose heads left the board. */
  lemma {:induction false} OffBoardHas(ps: seq<PlayerGrain>, adv: seq<PlayerState>, n: nat, k: int)
    requires AllJoined(adv) && |ps| == |adv| && n <= |adv| && Distinct(ps) && 0 <= k < |ps|
    ensures ps[k] in OffBoard(ps, adv, n) <==> k < n && !OnBoard(Head(adv[k]), adv[k].boardSize)
  {
    if n > 0 {
      OffBoardHas(ps, adv, n - 1, k);
    }
  }

  /**
   * On a roster without repetitions, the removal list after n players' collision checks holds
   * player k exactly when its head left the board or it is one of the first n and has a hit.
   */
  lemma {:induction false} RemovalOrderHas(ps: seq<PlayerGrain>, adv: seq<PlayerState>, berries: seq<Point>, n: nat, k: int)
    requires AllJoined(adv) && |ps| == |adv| && n <= |adv| && Distinct(ps) && 0 <= k < |ps|
    ensures ps[k] in RemovalOrder(ps, adv, berries, n)
      <==> !OnBoard(Head(adv[k]), adv[k].boardSize) || (k < n && HitCount(adv, berries, k, |adv|) > 0)
  {
    if n == 0 {
      OffBoardHas(ps, adv, |adv|, k);
    } else {
      RemovalOrderHas(ps, adv, berries, n - 1, k);
      var c := HitCount(adv, berries, n - 1, |adv|);
      assert ps[k] in Repeat(ps[n - 1], c) <==> c > 0 && k == n - 1 by {
        if c > 0 {
          assert Repeat(ps[n - 1], c)[0] == ps[n - 1];
        }
      }
    }
  }

  /** Everything on a removal list is a roster entry. */
  lemma {:induction false} RemovalOrderWithin(ps: seq<PlayerGrain>, adv: seq<PlayerState>, berries: seq<Point>, n: nat)
    requires AllJoined(adv) && |ps| == |adv| && n <= |adv|
    ensures forall x :: x in RemovalOrder(ps, adv, berries, n) ==> x in ps
  {
    if n == 0 {
      OffBoardWithin(ps, adv, |adv|);
    } else {
      RemovalOrderWithin(ps, adv, berries, n - 1);
    }
  }

  lemma {:induction false} OffBoardWithin(ps: seq<PlayerGrain>, adv: seq<PlayerState>, n: nat)
    requires AllJoined(adv) && |ps| == |adv| && n <= |adv|
    ensures forall x :: x in OffBoard(ps, adv, n) ==> x in ps
  {
    if n > 0 {
      OffBoardWithin(ps, adv, n - 1);
    }
  }

  /**
   * The removal list of a round holds only roster entries, and on a roster without repetitions
   * it holds an entry exactly when the round removes it; as a set it is the set of removed players.
   */
  lemma RemovalOrderLeaving(ps: seq<PlayerGrain>, adv: seq<PlayerState>, berries: seq<Point>)
    requires AllJoined(adv) && |ps| == |adv| && Distinct(ps)
    ensures forall j :: 0 <= j < |RemovalOrder(ps, adv, berries, |adv|)| ==> RemovalOrder(ps, adv, berries, |adv|)[j] in ps
    ensures forall k :: 0 <= k < |ps| ==> (ps[k] in RemovalOrder(ps, adv, berries, |adv|) <==> Removed(adv, berries, k))
    ensures Members(RemovalOrder(ps, adv, berries, |adv|)) == Leaving(ps, adv, berries)
  {
    var r := RemovalOrder(ps, adv, berries, |adv|);
    RemovalOrderWithin(ps, adv, berries, |adv|);
    forall k | 0 <= k < |ps| ensures ps[k] in r <==> Removed(adv, berries, k) {
      RemovalOrderHas(ps, adv, berries, |adv|, k);
      HitCountCollides(adv, berries, k, |adv|);
    }
    forall x | x in Members(r) ensures x in Leaving(ps, adv, berries) {
      var j :| 0 <= j < |r| && r[j] == x;
      assert x in r;
      var k :| 0 <= k < |ps| && ps[k] == x;
    }
    forall x | x in Leaving(ps, adv, berries) ensures x in Members(r) {
      var k :| 0 <= k < |adv| && Removed(adv, berries, k) && ps[k] == x;
      var j :| 0 <= j < |r| && r[j] == x;
    }
  }

  /**
   * A player that stays in the roster is exactly its fed self: still alive if it was, with one
   * point per berry eaten and the body grown by the remembered tail cell as often.
   */
  lemma SurvivorIsFed(adv: seq<PlayerState>, berries: seq<Point>, k: int)
    requires AllJoined(adv) && 0 <= k < |adv| && !Removed(adv, berries, k)
    ensures Settled(adv, berries, k).alive == adv[k].alive
    ensures Settled(adv, berries, k).score == adv[k].score + Meals(adv, berries, k)
    ensures adv[k].last.Some? ==> |Settled(adv, berries, k).body| == |adv[k].body| + Meals(adv, berries, k)
  {
    FedBody(adv[k], Meals(adv, berries, k));
  }

  /**
   * A player that eats one berry on the step after it moved grows by keeping its tail: its new
   * body is the moved head in front of its whole old body.
   */
  lemma OneBerryGrowsByOldTail(s: PlayerState)
    requires Joined(s)
    ensures Fed(Stepped(s), 1).body == [Move(Head(s), s.direction)] + s.body
  {
    AdvanceThenGrow(s.body, s.direction);
    assert Fed(Stepped(s), 1) == Found(Stepped(s));
  }

  /** No berry is left under a head, and all the others are kept. */
  lemma UneatenBerries(berries: seq<Point>, adv: seq<PlayerState>)
    requires AllJoined(adv)
    ensures forall i, k :: 0 <= i < |Uneaten(berries, adv)| && 0 <= k < |adv| ==> Uneaten(berries, adv)[i] != Head(adv[k])
    ensures forall i :: 0 <= i < |berries| && berries[i] !in Heads(adv) ==> berries[i] in Uneaten(berries, adv)
  {
    KeepMembers(berries, Heads(adv));
    forall i, k | 0 <= i < |Uneaten(berries, adv)| && 0 <= k < |adv| ensures Uneaten(berries, adv)[i] != Head(adv[k]) {
      assert Head(adv[k]) in Heads(adv);
    }
  }

  /**
   * After replenishing from a shortfall d = players - berries >= 0 there are at most as many
   * berries as players, and the shortfall is at least halved.
   */
  lemma ReplenishBound(players: int, berries: int)
    requires berries <= players
    ensures berries + ReplenishCount(players, berries) <= players
    ensures 2 * (players - berries - ReplenishCount(players, berries)) <= players - berries
    ensures players > berries ==> ReplenishCount(players, berries) > 0
  {
  }

  /** The game can only go on with at least two players in the roster. */
  lemma KeepsGoingNeedsTwo(ss: seq<PlayerState>)
    requires KeepsGoing(ss)
    ensures |ss| >= 2
  {
  }
}
