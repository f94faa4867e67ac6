// The game loop of the earlier revision: only moves, grab/puts and attacks, a capture worth
// one point and a kill worth nothing, an end of game on an exact score, a score file that
// rewards ties and winners with multiples of a multiplier, and a reader that does not
// survive an unknown team.

module LegacyGame {
  import opened Wrappers
  import opened Data
  import opened Computations
  import opened Actions
  import opened LegacyActions
  import opened ScoreLog
  import opened Game

  // ---------------------------------------------------------------------------------------
  // One kind's loop

  /** What an earlier tick changes: the board, the random source and the scores. */
  datatype LegacyTally = LegacyTally(state: BoardState, rnd: Random, scores: map<TeamName, int>)

  /** The board action an order's loop calls, on the tally reached so far. */
  type LegacyResolver = (LegacyTally, Order) -> Result<LegacyOutcome>

  /** What the earlier loops do with a result: a move or grab/put that names a team adds
      one point to it (a KeyError if it has no score); an attack changes no score. */
  function LegacyCredit(o: Order, team: Option<TeamName>, scores: map<TeamName, int>): (r: Result<map<TeamName, int>>)
    ensures r.Ok? ==> r.value.Keys == scores.Keys
    ensures r.Err? ==> r.error == KeyError
  {
    if (o.MoveOrder? || o.GrabPutOrder?) && team.Some? then
      if team.value !in scores then Err(KeyError)
      else Ok(scores[team.value := scores[team.value] + 1])
    else Ok(scores)
  }

  /** Crediting pays exactly one point to exactly the team a move or grab/put names, and
      nothing for an attack. */
  lemma LegacyCreditMeaning(o: Order, team: Option<TeamName>, scores: map<TeamName, int>)
    ensures var r := LegacyCredit(o, team, scores);
      && (r.Err? <==> (o.MoveOrder? || o.GrabPutOrder?) && team.Some? && team.value !in scores)
      && (r.Ok? ==> forall t | t in scores ::
            r.value[t] == scores[t] + (if (o.MoveOrder? || o.GrabPutOrder?) && team == Some(t) then 1 else 0))
  {
  }

  /** The guard an earlier loop stores for the actor, as written: the move and grab/put
      loops store the success flag; the attack loop stores the pair `attack` returns, and
      a non-empty tuple is always true. */
  function LegacyGuard(o: Order, out: LegacyOutcome): (g: bool)
    ensures !o.AttackOrder? ==> g == out.done
  {
    if o.AttackOrder? then true else out.done
  }

  /** One pass of an earlier loop: an actor whose guard is set is skipped; otherwise the
      order is resolved, credited, and the guard stored. */
  function LegacyPass(resolve: LegacyResolver, L: Layout, t: LegacyTally, o: Order, acted: map<ActorId, bool>)
    : (r: Result<(LegacyTally, map<ActorId, bool>)>)
    ensures r.Ok? ==> r.value.0.scores.Keys == t.scores.Keys && r.value.1.Keys == acted.Keys
  {
    var a :- OrderActor(L, o);
    if a !in acted then Err(KeyError)
    else if acted[a] then Ok((t, acted))
    else
      var out :- resolve(t, o);
      var scores :- LegacyCredit(o, out.team, t.scores);
      Ok((LegacyTally(out.state, out.rnd, scores), acted[a := LegacyGuard(o, out)]))
  }

  /** `_execute_move_orders`, `_execute_grabput_orders` and `_execute_attack_orders`. */
  function LegacyRun(resolve: LegacyResolver, L: Layout, t: LegacyTally, orders: seq<Order>, acted: map<ActorId, bool>)
    : (r: Result<LegacyTally>)
    ensures r.Ok? ==> r.value.scores.Keys == t.scores.Keys
    decreases |orders|
  {
    if orders == [] then Ok(t)
    else
      match LegacyPass(resolve, L, t, orders[0], acted)
      case Err(e) => Err(e)
      case Ok((t1, acted1)) => LegacyRun(resolve, L, t1, orders[1..], acted1)
  }

  /** A move or grab/put that succeeds blocks the actor's next order of the kind. */
  lemma LegacySuccessBlocksRepeat(resolve: LegacyResolver, L: Layout, t: LegacyTally, o1: Order, o2: Order,
                                  rest: seq<Order>, acted: map<ActorId, bool>)
    requires !o1.AttackOrder? && OrderActor(L, o1).Ok? && OrderActor(L, o2) == OrderActor(L, o1)
    requires resolve(t, o1).Ok? && resolve(t, o1).value.done
    ensures LegacyRun(resolve, L, t, [o1, o2] + rest, acted) == LegacyRun(resolve, L, t, [o1] + rest, acted)
  {
    assert ([o1, o2] + rest)[1..] == [o2] + rest;
    assert ([o2] + rest)[1..] == rest;
    assert ([o1] + rest)[1..] == rest;
  }

  /** A move or grab/put that fails leaves the guard clear: the actor's next order of the
      kind is resolved. */
  lemma LegacyFailureAllowsRetry(resolve: LegacyResolver, L: Layout, t: LegacyTally, o1: Order, o2: Order,
                                 rest: seq<Order>, acted: map<ActorId, bool>, a: ActorId)
    requires !o1.AttackOrder? && OrderActor(L, o1) == Ok(a) && OrderActor(L, o2) == Ok(a)
    requires a in acted && !acted[a]
    requires resolve(t, o1).Ok? && !resolve(t, o1).value.done
    requires LegacyCredit(o1, resolve(t, o1).value.team, t.scores).Ok?
    ensures var out := resolve(t, o1).value;
      var t1 := LegacyTally(out.state, out.rnd, LegacyCredit(o1, out.team, t.scores).value);
      LegacyRun(resolve, L, t, [o1, o2] + rest, acted) == LegacyRun(resolve, L, t1, [o2] + rest, acted)
  {
    var out := resolve(t, o1).value;
    assert LegacyGuard(o1, out) == false;
    assert acted[a := false] == acted;
    assert ([o1, o2] + rest)[1..] == [o2] + rest;
  }

  /** As written, an attack order that does not count still sets the guard: a rejected
      attack (no attack capability, no one on the target cell) keeps the same actor's next
      attack of the tick from being tried. */
  lemma RejectedAttackBlocksActor(resolve: LegacyResolver, L: Layout, t: LegacyTally, o1: Order, o2: Order,
                                  rest: seq<Order>, acted: map<ActorId, bool>, a: ActorId)
    requires o1.AttackOrder? && OrderActor(L, o1) == Ok(a) && OrderActor(L, o2) == Ok(a)
    requires a in acted && !acted[a]
    requires resolve(t, o1).Ok? && !resolve(t, o1).value.done
    ensures var out := resolve(t, o1).value;
      var t1 := LegacyTally(out.state, out.rnd, t.scores);
      && LegacyPass(resolve, L, t, o1, acted) == Ok((t1, acted[a := true]))
      && LegacyRun(resolve, L, t, [o1, o2] + rest, acted) == LegacyRun(resolve, L, t, [o1] + rest, acted)
  {
    assert ([o1, o2] + rest)[1..] == [o2] + rest;
    assert ([o2] + rest)[1..] == rest;
    assert ([o1] + rest)[1..] == rest;
  }

  /** Attacks never change a score. */
  lemma {:induction false} LegacyAttacksNeverScore(resolve: LegacyResolver, L: Layout, t: LegacyTally,
                                                   orders: seq<Order>, acted: map<ActorId, bool>)
    requires forall o | o in orders :: o.AttackOrder?
    ensures var r := LegacyRun(resolve, L, t, orders, acted); r.Ok? ==> r.value.scores == t.scores
    decreases |orders|
  {
    if orders != [] {
      match LegacyPass(resolve, L, t, orders[0], acted)
      case Err(_) =>
      case Ok((t1, acted1)) =>
        LegacyAttacksNeverScore(resolve, L, t1, orders[1..], acted1);
    }
  }

  /** Each order adds at most one point, to one team. */
  lemma {:induction false} LegacyScoresGrowByCaptures(resolve: LegacyResolver, L: Layout, t: LegacyTally,
                                                      orders: seq<Order>, acted: map<ActorId, bool>)
    ensures var r := LegacyRun(resolve, L, t, orders, acted);
      r.Ok? ==> forall team | team in t.scores :: t.scores[team] <= r.value.scores[team] <= t.scores[team] + |orders|
    decreases |orders|
  {
    if orders != [] {
      var o := orders[0];
      match LegacyPass(resolve, L, t, o, acted)
      case Err(_) =>
      case Ok((t1, acted1)) =>
        if t1 != t {
          LegacyCreditMeaning(o, resolve(t, o).value.team, t.scores);
        }
        LegacyScoresGrowByCaptures(resolve, L, t1, orders[1..], acted1);
    }
  }

  /** An earlier loop keeps whatever property of the board every resolution keeps. */
  lemma {:induction false} LegacyRunPreserves(resolve: LegacyResolver, L: Layout, t: LegacyTally,
                                              orders: seq<Order>, acted: map<ActorId, bool>, P: BoardState -> bool)
    requires P(t.state)
    requires forall u: LegacyTally, o: Order | P(u.state) && resolve(u, o).Ok? :: P(resolve(u, o).value.state)
    ensures var r := LegacyRun(resolve, L, t, orders, acted); r.Ok? ==> P(r.value.state)
    decreases |orders|
  {
    if orders != [] {
      match LegacyPass(resolve, L, t, orders[0], acted)
      case Err(_) =>
      case Ok((t1, acted1)) =>
        LegacyRunPreserves(resolve, L, t1, orders[1..], acted1, P);
    }
  }

  // ---------------------------------------------------------------------------------------
  // The board actions as the earlier loops call them

  /** The earlier board action of an order's kind, for its actor. */
  function LegacyResolve(L: Layout, hfr: bool, s: BoardState, rnd: Random, o: Order, a: ActorId): (r: Result<LegacyOutcome>)
    requires WellFormed(L, s) && a in s.actors
    ensures r.Err? ==> o.AttackOrder?
    ensures !(o.MoveOrder? || o.AttackOrder? || o.GrabPutOrder?) ==> r == Ok(LegacyOutcome(s, rnd, false, None))
  {
    match o
    case MoveOrder(_, _, d) => Ok(LegacyMove(L, s, hfr, rnd, a, d))
    case AttackOrder(_, _, d) => LegacyAttack(L, s, rnd, a, d)
    case GrabPutOrder(_, _, d) => Ok(LegacyGrabPut(L, s, hfr, rnd, a, d))
    case _ => Ok(LegacyOutcome(s, rnd, false, None))
  }

  /** The resolver the earlier loops use; outside the board invariant the lookup of the
      actor would fail, which is reported as a KeyError. */
  ghost function LegacyBoardResolver(L: Layout, hfr: bool): LegacyResolver {
    (t: LegacyTally, o: Order) =>
      match OrderActor(L, o)
      case Err(e) => Err(e)
      case Ok(a) =>
        if WellFormed(L, t.state) && a in t.state.actors then LegacyResolve(L, hfr, t.state, t.rnd, o, a)
        else Err(KeyError)
  }

  /** On a valid board the resolver finds the actor and performs the order's action. */
  lemma LegacyBoardResolverIsResolve(L: Layout, hfr: bool, t: LegacyTally, o: Order, a: ActorId)
    requires BoardValid(L, t.state) && OrderActor(L, o) == Ok(a)
    ensures a in t.state.actors
    ensures LegacyBoardResolver(L, hfr)(t, o) == LegacyResolve(L, hfr, t.state, t.rnd, o, a)
  {
    AllActorsAreRoster(L, a);
    KeyedRoster(L, t.state);
  }

  lemma LegacyResolvePreservesValid(L: Layout, hfr: bool, s: BoardState, rnd: Random, o: Order, a: ActorId)
    requires BoardValid(L, s) && a in s.actors
    ensures var r := LegacyResolve(L, hfr, s, rnd, o, a); r.Ok? ==> BoardValid(L, r.value.state)
  {
    match o
    case MoveOrder(_, _, d) => LegacyMovePreservesValid(L, s, hfr, rnd, a, d);
    case AttackOrder(_, _, d) => LegacyAttackPreservesValid(L, s, rnd, a, d);
    case GrabPutOrder(_, _, d) => LegacyGrabPutPreservesValid(L, s, hfr, rnd, a, d);
    case _ =>
  }

  /** Every earlier loop keeps the board valid. */
  lemma LegacyRunKeepsValid(L: Layout, hfr: bool, t: LegacyTally, orders: seq<Order>, acted: map<ActorId, bool>)
    requires BoardValid(L, t.state)
    ensures var r := LegacyRun(LegacyBoardResolver(L, hfr), L, t, orders, acted); r.Ok? ==> BoardValid(L, r.value.state)
  {
    var R := LegacyBoardResolver(L, hfr);
    var P := (s: BoardState) => BoardValid(L, s);
    forall u: LegacyTally, o: Order | P(u.state) && R(u, o).Ok?
      ensures P(R(u, o).value.state)
    {
      var a := OrderActor(L, o).value;
      LegacyResolvePreservesValid(L, hfr, u.state, u.rnd, o, a);
    }
    LegacyRunPreserves(R, L, t, orders, acted, P);
  }

  /** `execute_game_step` of the earlier revision after the tick: moves, then grab/puts,
      then attacks; orders of any other kind are ignored. */
  ghost function LegacyGameStep(L: Layout, hfr: bool, t: LegacyTally, orders: seq<Order>): (r: Result<LegacyTally>)
    ensures r.Ok? ==> r.value.scores.Keys == t.scores.Keys
  {
    var R := LegacyBoardResolver(L, hfr);
    var t1 :- LegacyRun(R, L, t, Partition(orders, Moves), Fresh(L));
    var t2 :- LegacyRun(R, L, t1, Partition(orders, GrabPuts), Fresh(L));
    LegacyRun(R, L, t2, Partition(orders, Attacks), Fresh(L))
  }

  /** An earlier game step keeps the board valid. */
  lemma LegacyGameStepKeepsValid(L: Layout, hfr: bool, t: LegacyTally, orders: seq<Order>)
    requires BoardValid(L, t.state)
    ensures var r := LegacyGameStep(L, hfr, t, orders); r.Ok? ==> BoardValid(L, r.value.state)
  {
    var R := LegacyBoardResolver(L, hfr);
    LegacyRunKeepsValid(L, hfr, t, Partition(orders, Moves), Fresh(L));
    var r1 := LegacyRun(R, L, t, Partition(orders, Moves), Fresh(L));
    if r1.Ok? {
      LegacyRunKeepsValid(L, hfr, r1.value, Partition(orders, GrabPuts), Fresh(L));
      var r2 := LegacyRun(R, L, r1.value, Partition(orders, GrabPuts), Fresh(L));
      if r2.Ok? {
        LegacyRunKeepsValid(L, hfr, r2.value, Partition(orders, Attacks), Fresh(L));
      }
    }
  }

  /** Destroy and build orders, which the earlier revision does not know, change nothing. */
  lemma LegacyIgnoresBuildsAndDestroys(L: Layout, hfr: bool, t: LegacyTally, orders: seq<Order>, o: Order)
    requires o.DestroyOrder? || o.BuildOrder? || o.PlainOrder?
    ensures LegacyGameStep(L, hfr, t, orders + [o]) == LegacyGameStep(L, hfr, t, orders)
  {
    forall k: Kind | k == Moves || k == GrabPuts || k == Attacks
      ensures Partition(orders + [o], k) == Partition(orders, k)
    {
      assert (orders + [o])[..|orders|] == orders;
    }
  }

  // ---------------------------------------------------------------------------------------
  // The end of a game

  /** `check_game_end` of the earlier revision: the tick limit, else the highest score
      equal to the score limit; `max` over no scores is a ValueError. */
  function LegacyGameOver(maxTicks: int, maxScore: int, tick: int, scores: map<TeamName, int>): (r: Result<bool>)
    ensures tick == maxTicks ==> r == Ok(true)
    ensures r.Err? <==> tick != maxTicks && scores == map[]
    ensures r.Err? ==> r.error == ValueError
    ensures r == Ok(true) ==> tick == maxTicks || maxScore in scores.Values
  {
    if tick == maxTicks then Ok(true)
    else if scores == map[] then Err(ValueError)
    else Ok(exists team | team in scores :: scores[team] == maxScore && forall u | u in scores :: scores[u] <= maxScore)
  }

  /** As written, a score beyond the limit does not end the game: one tick can add several
      captures, and a team that jumps past the limit keeps the game going, where the
      current revision ends it. */
  lemma OvershootDoesNotEnd(maxTicks: int, maxScore: int, tick: int, scores: map<TeamName, int>, team: TeamName)
    requires tick != maxTicks && team in scores && scores[team] > maxScore
    ensures LegacyGameOver(maxTicks, maxScore, tick, scores) == Ok(false)
    ensures GameOver(Config(1, 0, 0, maxTicks, maxScore), tick, scores) == Ok(true)
  {
  }

  /** A concrete case: with a limit of 3, a team at 2 that captures twice in one tick. */
  lemma OvershootExample()
    ensures LegacyGameOver(100, 3, 7, map["red" := 2, "blue" := 0]) == Ok(false)
    ensures LegacyGameOver(100, 3, 8, map["red" := 4, "blue" := 0]) == Ok(false)
    ensures GameOver(Config(1, 0, 0, 100, 3), 8, map["red" := 4, "blue" := 0]) == Ok(true)
  {
    OvershootDoesNotEnd(100, 3, 8, map["red" := 4, "blue" := 0], "red");
    var s := map["red" := 2, "blue" := 0];
    forall team | team in s
      ensures s[team] != 3
    {
    }
  }

  // ---------------------------------------------------------------------------------------
  // The score file of the earlier revision

  /** Each tied team's line carries the same points. */
  function Rewarded(tied: seq<Entry>, points: int): (r: seq<Entry>)
    ensures |r| == |tied| && forall i | 0 <= i < |r| :: r[i] == (tied[i].0, points)
  {
    seq(|tied|, i requires 0 <= i < |tied| => (tied[i].0, points))
  }

  /** `_write_scores` of the earlier revision on the sorted standings: with the first two
      tied, one multiplier for every team with the top score; otherwise three for the
      leader alone.  Fewer than two teams is an IndexError. */
  function LegacyGameScores(multiplier: int, ranked: seq<Entry>): (r: Result<seq<Entry>>)
    ensures r.Err? <==> |ranked| < 2
    ensures r.Err? ==> r.error == IndexError
    ensures r.Ok? ==> forall i | 0 <= i < |r.value| ::
      r.value[i].1 == if ranked[0].1 == ranked[1].1 then multiplier else 3 * multiplier
  {
    if |ranked| < 2 then Err(IndexError)
    else if ranked[0].1 == ranked[1].1 then Ok(Rewarded(WithScore(ranked, ranked[0].1), 1 * multiplier))
    else Ok([(ranked[0].0, 3 * multiplier)])
  }

  /** Every entry of a sequence has score `k`: all of it has that score. */
  lemma {:induction false} WithScoreAll(s: seq<Entry>, k: int)
    requires forall i | 0 <= i < |s| :: s[i].1 == k
    ensures WithScore(s, k) == s
  {
    if s != [] {
      WithScoreAll(s[..|s| - 1], k);
    }
  }

  /** On a descending ranking the entries with the top score are a prefix. */
  lemma {:induction false} TiedPrefix(s: seq<Entry>)
    requires SortedDesc(s) && s != []
    ensures var w := WithScore(s, s[0].1);
      && 1 <= |w| <= |s| && w == s[..|w|]
      && forall i | 0 <= i < |s| :: i < |w| <==> s[i].1 == s[0].1
  {
    var n := |s|;
    if s[n - 1].1 == s[0].1 {
      forall i | 0 <= i < n ensures s[i].1 == s[0].1 {
        assert s[0].1 >= s[i].1 >= s[n - 1].1 || i == 0 || i == n - 1;
      }
      WithScoreAll(s, s[0].1);
      assert s[..n] == s;
    } else {
      var p := s[..n - 1];
      assert p[0] == s[0];
      TiedPrefix(p);
      var w := WithScore(p, s[0].1);
      assert WithScore(s, s[0].1) == w;
      assert w == s[..|w|] by {
        assert p[..|w|] == s[..|w|];
      }
      forall i | 0 <= i < n
        ensures i < |w| <==> s[i].1 == s[0].1
      {
        if i < n - 1 {
          assert p[i] == s[i];
        }
      }
    }
  }

  /** On a descending ranking: a sole leader gets three multipliers and is the only line;
      otherwise exactly the teams with the top score get one multiplier each, in ranking
      order, and nobody else is written. */
  lemma LegacyGameScoresMeaning(multiplier: int, ranked: seq<Entry>)
    requires SortedDesc(ranked)
    ensures var r := LegacyGameScores(multiplier, ranked);
      && (r.Ok? <==> |ranked| >= 2)
      && (r.Err? ==> r.error == IndexError)
      && (r.Ok? && (forall i | 0 < i < |ranked| :: ranked[0].1 > ranked[i].1) ==>
            r.value == [(ranked[0].0, 3 * multiplier)])
      && (r.Ok? && !(forall i | 0 < i < |ranked| :: ranked[0].1 > ranked[i].1) ==>
            && 2 <= |r.value| <= |ranked|
            && (forall i | 0 <= i < |ranked| :: i < |r.value| <==> ranked[i].1 == ranked[0].1)
            && (forall i | 0 <= i < |r.value| :: r.value[i] == (ranked[i].0, multiplier)))
  {
    if |ranked| >= 2 {
      if ranked[0].1 == ranked[1].1 {
        TiedPrefix(ranked);
      } else {
        forall i | 0 < i < |ranked| ensures ranked[0].1 > ranked[i].1 {
          assert ranked[1].1 >= ranked[i].1 || i == 1;
        }
      }
    }
  }

  /** `_read_scores` of the earlier revision over the lines of the file: a malformed line is
      a ValueError and a name outside the current teams a KeyError, and either escapes,
      leaving what earlier lines added. */
  function LegacyReadLines(known: seq<TeamName>, overall: map<TeamName, int>, lines: seq<string>)
    : (r: (map<TeamName, int>, Option<Error>))
    ensures r.0.Keys == overall.Keys
    ensures r.1.Some? ==> r.1.value == ValueError || r.1.value == KeyError
  {
    if lines == [] then (overall, None)
    else
      match ParseLine(lines[0])
      case Err(e) => (overall, Some(e))
      case Ok(e) =>
        if e.0 !in known || e.0 !in overall then (overall, Some(KeyError))
        else LegacyReadLines(known, AddScore(known, overall, e), lines[1..])
  }

  /** A missing file leaves the scores alone. */
  function LegacyReadScoreFile(known: seq<TeamName>, overall: map<TeamName, int>, file: Option<string>)
    : (r: (map<TeamName, int>, Option<Error>))
    ensures r.0.Keys == overall.Keys
    ensures file.None? ==> r == (overall, None)
  {
    match file
    case None => (overall, None)
    case Some(text) => LegacyReadLines(known, overall, Lines(TranslateNewlines(text)))
  }

  /** As written, a line for a team that is not playing stops the reading with a KeyError,
      where the current revision skips the line and reads on. */
  lemma UnknownTeamRaises(known: seq<TeamName>, overall: map<TeamName, int>, line: string, rest: seq<string>)
    requires ParseLine(line).Ok? && ParseLine(line).value.0 !in known
    ensures LegacyReadLines(known, overall, [line] + rest) == (overall, Some(KeyError))
  {
    assert ([line] + rest)[0] == line && ([line] + rest)[1..] == rest;
  }

  /** A concrete case: a file whose first line is for a team that left the game. */
  lemma UnknownTeamExample()
    ensures LegacyReadLines(["red"], map["red" := 0], [FormatLine(("blue", 3)), FormatLine(("red", 2))])
            == (map["red" := 0], Some(KeyError))
  {
    assert Writable("blue") by {
      assert "blue" == ['b', 'l', 'u', 'e'];
      assert !IsSpace('b') && !IsSpace('e');
    }
    ParseFormatLine(("blue", 3));
    assert "blue" !in ["red"];
    UnknownTeamRaises(["red"], map["red" := 0], FormatLine(("blue", 3)), [FormatLine(("red", 2))]);
  }

  /** A line of a current team adds its score and reading goes on with the rest. */
  lemma LegacyReadLinesStep(known: seq<TeamName>, overall: map<TeamName, int>, line: string, e: Entry, rest: seq<string>)
    requires ParseLine(line) == Ok(e) && e.0 in known && e.0 in overall
    ensures LegacyReadLines(known, overall, [line] + rest) == LegacyReadLines(known, AddScore(known, overall, e), rest)
  {
    assert ([line] + rest)[0] == line && ([line] + rest)[1..] == rest;
  }

  /** Reading what a game of the same teams wrote adds every written score to its team. */
  lemma {:induction false} LegacyReadBackWritten(known: seq<TeamName>, overall: map<TeamName, int>, entries: seq<Entry>)
    requires forall e | e in entries :: Writable(e.0) && e.0 in known && e.0 in overall
    ensures LegacyReadLines(known, overall, FormatLines(entries)) == (Accumulate(known, overall, entries), None)
  {
    if entries != [] {
      var e := entries[0];
      ParseFormatLine(e);
      LegacyReadLinesStep(known, overall, FormatLine(e), e, FormatLines(entries[1..]));
      LegacyReadBackWritten(known, AddScore(known, overall, e), entries[1..]);
    }
  }

  /** The score file round trip of the earlier revision, for the same teams. */
  lemma LegacyWriteThenRead(known: seq<TeamName>, overall: map<TeamName, int>, earlier: seq<Entry>, entries: seq<Entry>)
    requires forall e | e in earlier + entries :: Writable(e.0) && e.0 in known && e.0 in overall
    ensures LegacyReadScoreFile(known, overall, Some(ScoreText(earlier) + ScoreText(entries)))
            == (Accumulate(known, Accumulate(known, overall, earlier), entries), None)
  {
    ScoreTextAppend(earlier, entries);
    ScoreTextLacksReturn(earlier + entries);
    TranslateNewlinesWithoutReturns(ScoreText(earlier + entries));
    LinesOfScoreText(earlier + entries);
    LegacyReadBackWritten(known, overall, earlier + entries);
    AccumulateConcat(known, overall, earlier, entries);
  }

  /** The loop's view of one line of the earlier reader. */
  lemma LegacyReadLinesAt(known: seq<TeamName>, overall: map<TeamName, int>, lines: seq<string>, i: nat)
    requires i < |lines|
    ensures var p := ParseLine(lines[i]);
      && (p.Err? ==> LegacyReadLines(known, overall, lines[i..]) == (overall, Some(p.error)))
      && (p.Ok? && (p.value.0 !in known || p.value.0 !in overall) ==>
            LegacyReadLines(known, overall, lines[i..]) == (overall, Some(KeyError)))
      && (p.Ok? && p.value.0 in known && p.value.0 in overall ==>
            LegacyReadLines(known, overall, lines[i..]) == LegacyReadLines(known, AddScore(known, overall, p.value), lines[i + 1..]))
  {
    assert lines[i..] == [lines[i]] + lines[i + 1..];
    var p := ParseLine(lines[i]);
    if p.Ok? && p.value.0 in known && p.value.0 in overall {
      LegacyReadLinesStep(known, overall, lines[i], p.value, lines[i + 1..]);
    } else {
      assert ([lines[i]] + lines[i + 1..])[0] == lines[i];
    }
  }

  /** The top-tied teams one at a time. */
  lemma RewardedSnoc(tied: seq<Entry>, e: Entry, points: int)
    ensures Rewarded(tied + [e], points) == Rewarded(tied, points) + [(e.0, points)]
  {
  }

  // ---------------------------------------------------------------------------------------
  // The earlier game performed in place

  /** The earlier `Game`: one board, the actions on it, the scores of this game and of all
      games, and the score file. */
  class LegacyGame {
    const board: Board
    const actions: LegacyBoardActions
    const scoreMultiplier: int
    const maxTicks: int
    const maxScore: int
    var scores: map<TeamName, int>
    var overallScore: map<TeamName, int>
    var tick: nat
    var scoreFile: Option<string>

    ghost predicate Valid()
      reads this, board, actions
    {
      board.Valid() && actions.shared.board == board
    }

    /** What a tick has reached so far. */
    ghost function Now(): LegacyTally
      reads this, board, actions, actions.shared
    {
      LegacyTally(board.Current(), actions.shared.rnd, scores)
    }

    ghost function Resolver(): LegacyResolver
      reads this, actions, actions.shared
    {
      LegacyBoardResolver(board.Fixed(), actions.shared.homeFlagRequired)
    }

    constructor (board: Board, homeFlagRequired: bool, rnd: Random, scoreMultiplier: int, maxTicks: int,
                 maxScore: int, scoreFile: Option<string>)
      requires board.Valid()
      ensures Valid() && fresh(actions) && fresh(actions.shared)
      ensures this.board == board && this.scoreMultiplier == scoreMultiplier && this.scoreFile == scoreFile
      ensures this.maxTicks == maxTicks && this.maxScore == maxScore
      ensures actions.shared.homeFlagRequired == homeFlagRequired && actions.shared.rnd == rnd
      ensures scores == map[] && overallScore == map[] && tick == 0
    {
      this.board := board;
      this.actions := new LegacyBoardActions(board, homeFlagRequired, rnd);
      this.scoreMultiplier := scoreMultiplier;
      this.maxTicks := maxTicks;
      this.maxScore := maxScore;
      this.scoreFile := scoreFile;
      scores, overallScore, tick := map[], map[], 0;
    }

    /** `_set_scores` */
    method SetScores()
      modifies this
      ensures scores == ZeroScores(old(scores), board.teams)
      ensures overallScore == ZeroScores(old(overallScore), board.teams)
      ensures tick == old(tick) && scoreFile == old(scoreFile)
    {
      var teams := board.teams;
      for k := 0 to |teams|
        invariant ZeroScores(scores, teams[k..]) == ZeroScores(old(scores), teams)
        invariant ZeroScores(overallScore, teams[k..]) == ZeroScores(old(overallScore), teams)
        invariant tick == old(tick) && scoreFile == old(scoreFile)
      {
        var team := teams[k];
        assert teams[k..][1..] == teams[k + 1..];
        scores := scores[team := 0];
        overallScore := overallScore[team := 0];
      }
    }

    /** `_actor_dict(False)` */
    method ActorDict() returns (r: map<ActorId, bool>)
      ensures r == Fresh(board.Fixed())
    {
      var all := AllActors(board.Fixed());
      r := map[];
      for k := 0 to |all|
        invariant r.Keys == set a | a in all[..k]
        invariant forall a | a in r :: !r[a]
      {
        assert all[..k + 1] == all[..k] + [all[k]];
        r := r[all[k] := false];
      }
      assert all[..|all|] == all;
    }

    /** The board action of an order's kind, performed for actor `a`. */
    method Dispatch(o: Order, a: ActorId) returns (r: Result<(bool, Option<TeamName>)>)
      requires Valid() && OrderActor(board.Fixed(), o) == Ok(a)
      modifies board, actions.shared
      ensures Valid()
      ensures var spec := Resolver()(old(Now()), o);
        && (r.Ok? ==> spec == Ok(LegacyOutcome(board.Current(), actions.shared.rnd, r.value.0, r.value.1)))
        && (r.Err? ==> spec == Err(r.error))
    {
      LegacyBoardResolverIsResolve(board.Fixed(), actions.shared.homeFlagRequired, Now(), o, a);
      match o
      case MoveOrder(_, _, d) =>
        var moved, team := actions.Move(a, d);
        r := Ok((moved, team));
      case AttackOrder(_, _, d) =>
        r := actions.Attack(a, d);
      case GrabPutOrder(_, _, d) =>
        var grabbed, team := actions.GrabPutFlag(a, d);
        r := Ok((grabbed, team));
      case _ =>
        r := Ok((false, None));
    }

    /** What the earlier loops do with the team a resolver named. */
    method CreditResult(o: Order, team: Option<TeamName>) returns (r: Result<()>)
      modifies this
      ensures var spec := LegacyCredit(o, team, old(scores));
        && (r.Ok? ==> spec == Ok(scores))
        && (r.Err? ==> spec == Err(r.error))
      ensures tick == old(tick) && overallScore == old(overallScore) && scoreFile == old(scoreFile)
    {
      r := Ok(());
      if (o.MoveOrder? || o.GrabPutOrder?) && team.Some? {
        if team.value !in scores {
          return Err(KeyError);
        }
        scores := scores[team.value := scores[team.value] + 1];
      }
    }

    /** One pass of an earlier loop; the attack loop stores the pair `attack` returns, which
        is always true. */
    method Perform(o: Order, acted: map<ActorId, bool>) returns (r: Result<map<ActorId, bool>>)
      requires Valid()
      modifies this, board, actions.shared
      ensures Valid()
      ensures var spec := LegacyPass(Resolver(), board.Fixed(), old(Now()), o, acted);
        && (r.Ok? ==> spec == Ok((Now(), r.value)))
        && (r.Err? ==> spec == Err(r.error))
      ensures tick == old(tick) && overallScore == old(overallScore) && scoreFile == old(scoreFile)
    {
      var actor := OrderActor(board.Fixed(), o);
      if actor.Err? {
        return Err(actor.error);
      }
      var a := actor.value;
      if a !in acted {
        return Err(KeyError);
      }
      if acted[a] {
        return Ok(acted);
      }
      var res :- Dispatch(o, a);
      var credited :- CreditResult(o, res.1);
      r := Ok(acted[a := if o.AttackOrder? then true else res.0]);
    }

    /** `_execute_move_orders`, `_execute_grabput_orders` and `_execute_attack_orders`. */
    method ExecuteOrders(orders: seq<Order>) returns (r: Result<()>)
      requires Valid()
      modifies this, board, actions.shared
      ensures Valid()
      ensures var spec := LegacyRun(Resolver(), board.Fixed(), old(Now()), orders, Fresh(board.Fixed()));
        && (r.Ok? ==> spec == Ok(Now()))
        && (r.Err? ==> spec == Err(r.error))
      ensures tick == old(tick) && overallScore == old(overallScore) && scoreFile == old(scoreFile)
    {
      var acted := ActorDict();
      ghost var spec := LegacyRun(Resolver(), board.Fixed(), Now(), orders, acted);
      for i := 0 to |orders|
        invariant Valid()
        invariant LegacyRun(Resolver(), board.Fixed(), Now(), orders[i..], acted) == spec
        invariant tick == old(tick) && overallScore == old(overallScore) && scoreFile == old(scoreFile)
      {
        assert orders[i..][1..] == orders[i + 1..];
        var step := Perform(orders[i], acted);
        if step.Err? {
          return Err(step.error);
        }
        acted := step.value;
      }
      return Ok(());
    }

    /** The sorting loop of the earlier `execute_game_step`: orders of another kind are
        dropped. */
    static method SortOrders(orders: seq<Order>) returns (moves: seq<Order>, attacks: seq<Order>, grabputs: seq<Order>)
      ensures moves == Partition(orders, Moves) && grabputs == Partition(orders, GrabPuts)
      ensures attacks == Partition(orders, Attacks)
    {
      moves, attacks, grabputs := [], [], [];
      for i := 0 to |orders|
        invariant moves == Partition(orders[..i], Moves) && grabputs == Partition(orders[..i], GrabPuts)
        invariant attacks == Partition(orders[..i], Attacks)
      {
        var o := orders[i];
        assert orders[..i + 1][..i] == orders[..i] && orders[..i + 1][i] == o;
        if o.MoveOrder? {
          moves := moves + [o];
        } else if o.AttackOrder? {
          attacks := attacks + [o];
        } else if o.GrabPutOrder? {
          grabputs := grabputs + [o];
        }
      }
      assert orders[..|orders|] == orders;
    }

    /** The earlier `execute_game_step`: the tick advances, then moves, grab/puts and
        attacks run; the first error escapes. */
    method ExecuteGameStep(orders: seq<Order>) returns (r: Result<()>)
      requires Valid()
      modifies this, board, actions.shared
      ensures Valid() && tick == old(tick) + 1
      ensures var spec := LegacyGameStep(board.Fixed(), actions.shared.homeFlagRequired, old(Now()), orders);
        && (r.Ok? ==> spec == Ok(Now()))
        && (r.Err? ==> spec == Err(r.error))
      ensures overallScore == old(overallScore) && scoreFile == old(scoreFile)
    {
      tick := tick + 1;
      var moves, attacks, grabputs := SortOrders(orders);
      var done :- ExecuteOrders(moves);
      done :- ExecuteOrders(grabputs);
      done :- ExecuteOrders(attacks);
      r := Ok(());
    }

    /** The earlier `check_game_end`. */
    method CheckGameEnd() returns (r: Result<bool>)
      ensures r == LegacyGameOver(maxTicks, maxScore, tick, scores)
    {
      if tick == maxTicks {
        return Ok(true);
      }
      if scores == map[] {
        return Err(ValueError);
      }
      var rest := scores.Keys;
      var first :| first in rest;
      var best := scores[first];
      var holder := first;
      rest := rest - {first};
      while rest != {}
        invariant rest <= scores.Keys
        invariant holder in scores && scores[holder] == best
        invariant forall t | t in scores && t !in rest :: scores[t] <= best
        decreases |rest|
      {
        var t :| t in rest;
        if scores[t] > best {
          best, holder := scores[t], t;
        }
        rest := rest - {t};
      }
      r := Ok(best == maxScore);
      assert r.value ==> scores[holder] == maxScore && forall u | u in scores :: scores[u] <= maxScore;
    }

    /** The earlier `_write_scores`: the standings sorted by score, the payout, and one line
        per paid team appended to the score file (created if missing). */
    method WriteScores() returns (r: Result<()>)
      requires forall t | t in board.teams :: t in scores
      modifies this
      ensures tick == old(tick) && scores == old(scores) && overallScore == old(overallScore)
      ensures var spec := LegacyGameScores(scoreMultiplier, SortDesc(Standings(board.teams, scores)));
        && (r.Ok? <==> spec.Ok?)
        && (r.Err? ==> r.error == spec.error && scoreFile == old(scoreFile))
        && (r.Ok? ==> scoreFile == Some(Appended(old(scoreFile), ScoreText(spec.value))))
    {
      var ranked := SortDesc(Standings(board.teams, scores));
      var gameScores :- Payout(scoreMultiplier, ranked);
      var text := Game.WriteLines(scoreFile, gameScores);
      scoreFile := Some(text);
      r := Ok(());
    }

    /** The payout rule of the earlier `_write_scores` on the sorted standings. */
    static method Payout(multiplier: int, ranked: seq<Entry>) returns (r: Result<seq<Entry>>)
      ensures r == LegacyGameScores(multiplier, ranked)
    {
      if |ranked| < 2 {
        return Err(IndexError);
      }
      if ranked[0].1 != ranked[1].1 {
        return Ok([(ranked[0].0, 3 * multiplier)]);
      }
      var top := ranked[0].1;
      var paid := [];
      for i := 0 to |ranked|
        invariant paid == Rewarded(WithScore(ranked[..i], top), 1 * multiplier)
      {
        assert ranked[..i + 1][..i] == ranked[..i] && ranked[..i + 1][i] == ranked[i];
        if ranked[i].1 == top {
          RewardedSnoc(WithScore(ranked[..i], top), ranked[i], 1 * multiplier);
          paid := paid + [(ranked[i].0, 1 * multiplier)];
        }
      }
      assert ranked[..|ranked|] == ranked;
      r := Ok(paid);
    }

    /** The earlier `_read_scores`: every line of an existing score file adds its score to a
        current team's overall score; a malformed line is a ValueError and an unknown team a
        KeyError, and either escapes. */
    method ReadScores() returns (r: Result<()>)
      modifies this
      ensures tick == old(tick) && scores == old(scores) && scoreFile == old(scoreFile)
      ensures var spec := LegacyReadScoreFile(board.teams, old(overallScore), scoreFile);
        && overallScore == spec.0
        && (r.Err? <==> spec.1.Some?)
        && (r.Err? ==> r.error == spec.1.value)
    {
      if scoreFile.None? {
        return Ok(());
      }
      var teams := board.teams;
      var lines := Lines(TranslateNewlines(scoreFile.value));
      ghost var spec := LegacyReadLines(teams, overallScore, lines);
      for i := 0 to |lines|
        invariant LegacyReadLines(teams, overallScore, lines[i..]) == spec
        invariant tick == old(tick) && scores == old(scores) && scoreFile == old(scoreFile)
      {
        LegacyReadLinesAt(teams, overallScore, lines, i);
        var parsed := ParseLine(lines[i]);
        if parsed.Err? {
          return Err(parsed.error);
        }
        if parsed.value.0 !in teams || parsed.value.0 !in overallScore {
          return Err(KeyError);
        }
        overallScore := AddScore(teams, overallScore, parsed.value);
      }
      r := Ok(());
    }

    /** The earlier `initiate_game` after the board setup. */
    method InitiateGame() returns (r: Result<()>)
      modifies this
      ensures scores == ZeroScores(old(scores), board.teams)
      ensures var spec := LegacyReadScoreFile(board.teams, ZeroScores(old(overallScore), board.teams), scoreFile);
        && overallScore == spec.0
        && (r.Err? <==> spec.1.Some?)
      ensures tick == old(tick) && scoreFile == old(scoreFile)
    {
      SetScores();
      r := ReadScores();
    }

    /** The earlier `end_game` */
    method EndGame() returns (r: Result<()>)
      requires forall t | t in board.teams :: t in scores
      modifies this
      ensures tick == old(tick) && scores == old(scores) && overallScore == old(overallScore)
      ensures var spec := LegacyGameScores(scoreMultiplier, SortDesc(Standings(board.teams, scores)));
        && (r.Ok? <==> spec.Ok?)
        && (r.Ok? ==> scoreFile == Some(Appended(old(scoreFile), ScoreText(spec.value))))
    {
      r := WriteScores();
    }
  }
}
