// The game loop of the current revision: orders sorted by kind and resolved kind by kind,
// at most one successful order per actor and kind in a tick, the scores of captures and
// kills, the per-tick action log, the end-of-game test, and the score file written at the
// end of a game and read at the start of the next.

module Game {
  import opened Wrappers
  import opened Data
  import opened Computations
  import opened Actions
  import opened ScoreLog

  // ---------------------------------------------------------------------------------------
  // Orders

  /** An order as the router hands it over; a plain `Order` names only the team. */
  datatype Order =
    | PlainOrder(team: TeamName)
    | MoveOrder(team: TeamName, actor: nat, direction: Direction)
    | AttackOrder(team: TeamName, actor: nat, direction: Direction)
    | GrabPutOrder(team: TeamName, actor: nat, direction: Direction)
    | DestroyOrder(team: TeamName, actor: nat, direction: Direction)
    | BuildOrder(team: TeamName, actor: nat, direction: Direction)

  /** The five lists `execute_game_step` sorts orders into. */
  datatype Kind = Moves | GrabPuts | Attacks | Destroys | Builds

  function KindOf(o: Order): Option<Kind> {
    match o
    case PlainOrder(_) => None
    case MoveOrder(_, _, _) => Some(Moves)
    case AttackOrder(_, _, _) => Some(Attacks)
    case GrabPutOrder(_, _, _) => Some(GrabPuts)
    case DestroyOrder(_, _, _) => Some(Destroys)
    case BuildOrder(_, _, _) => Some(Builds)
  }

  /** What the router lets through: an authenticated team, and an actor index within the
      configured actors (the order model bounds it). */
  predicate Admitted(L: Layout, o: Order) {
    o.team in L.teams && (!o.PlainOrder? ==> o.actor < |L.actorKinds|)
  }

  /** `teams_actors[(names_teams[order.team], order.actor)]`: a KeyError for an unknown team
      or index. */
  function OrderActor(L: Layout, o: Order): (r: Result<ActorId>)
    ensures r.Ok? <==> !o.PlainOrder? && o.team in L.teams && o.actor < |L.actorKinds|
    ensures r.Ok? ==> IsRosterActor(L, r.value) && r.value.team == o.team && r.value.ident == o.actor
    ensures r.Err? ==> r.error == KeyError
  {
    if o.PlainOrder? || o.team !in L.teams || o.actor >= |L.actorKinds| then Err(KeyError)
    else Ok(TeamsActors(L, o.team, o.actor))
  }

  /** The orders of one kind, in their original order. */
  function Partition(orders: seq<Order>, k: Kind): (r: seq<Order>)
    ensures |r| <= |orders|
  {
    if orders == [] then []
    else
      var o := orders[|orders| - 1];
      Partition(orders[..|orders| - 1], k) + (if KindOf(o) == Some(k) then [o] else [])
  }

  /** An order lands in the list of its kind, and the lists hold nothing else. */
  lemma {:induction false} PartitionMeaning(orders: seq<Order>, k: Kind)
    ensures forall o :: o in Partition(orders, k) <==> o in orders && KindOf(o) == Some(k)
  {
    if orders != [] {
      PartitionMeaning(orders[..|orders| - 1], k);
      assert orders == orders[..|orders| - 1] + [orders[|orders| - 1]];
    }
  }

  /** Sorting keeps the relative order: the list of a joined sequence is the joined lists. */
  lemma {:induction false} PartitionConcat(a: seq<Order>, b: seq<Order>, k: Kind)
    ensures Partition(a + b, k) == Partition(a, k) + Partition(b, k)
  {
    if b == [] {
      assert a + b == a;
    } else {
      PartitionConcat(a, b[..|b| - 1], k);
      assert (a + b)[..|a + b| - 1] == a + b[..|b| - 1];
    }
  }

  // ---------------------------------------------------------------------------------------
  // One kind's loop

  /** The game's configuration: points per capture and per kill, the winning bonus, and
      the two limits that end a game. */
  datatype Config = Config(captureScore: int, killScore: int, winningBonus: int, maxTicks: int, maxScore: int)

  /** What a tick changes: the board, the random source, the scores and this tick's log. */
  datatype Tally = Tally(state: BoardState, rnd: Random, scores: map<TeamName, int>, entries: seq<Action>)

  /** The board action an order's loop calls, on the tally reached so far. */
  type Resolver = (Tally, Order) -> Result<Outcome>

  /** What the loop of an order's kind does with the result: moves and grab/puts log their
      record and pay the capture score to the team they name; an attack logs and pays the
      kill score only when it names both a record and a team; builds and destroys only log.
      Paying a team without a score entry is a KeyError. */
  function Credit(cfg: Config, o: Order, res: Resolution, scores: map<TeamName, int>, entries: seq<Action>)
    : (r: Result<(map<TeamName, int>, seq<Action>)>)
    ensures r.Ok? ==> r.value.0.Keys == scores.Keys
    ensures r.Err? ==> r.error == KeyError && res.team.Some? && res.team.value !in scores
  {
    if o.AttackOrder? then
      if res.action.Some? && res.team.Some? then
        if res.team.value !in scores then Err(KeyError)
        else Ok((scores[res.team.value := scores[res.team.value] + cfg.killScore], entries + [res.action.value]))
      else Ok((scores, entries))
    else
      var logged := if res.action.Some? then entries + [res.action.value] else entries;
      if (o.MoveOrder? || o.GrabPutOrder?) && res.team.Some? then
        if res.team.value !in scores then Err(KeyError)
        else Ok((scores[res.team.value := scores[res.team.value] + cfg.captureScore], logged))
      else Ok((scores, logged))
  }

  /** Crediting appends at most one record, changes at most one team's score and by the
      kind's points, pays nothing for builds and destroys, and pays an attack exactly when it
      logs it. */
  lemma CreditMeaning(cfg: Config, o: Order, res: Resolution, scores: map<TeamName, int>, entries: seq<Action>)
    ensures var c := Credit(cfg, o, res, scores, entries);
      c.Ok? ==> var (sc, es) := c.value;
      && |entries| <= |es| <= |entries| + 1 && es[..|entries|] == entries
      && (|es| > |entries| <==> res.action.Some? && (o.AttackOrder? ==> res.team.Some?))
      && (forall t, u | t in scores && u in scores && t != u && sc[t] != scores[t] :: sc[u] == scores[u])
      && (forall t | t in scores && sc[t] != scores[t] ::
            sc[t] == scores[t] + (if o.AttackOrder? then cfg.killScore else cfg.captureScore))
      && (o.DestroyOrder? || o.BuildOrder? ==> sc == scores)
      && (o.AttackOrder? && sc != scores ==> |es| > |entries|)
  {
    var c := Credit(cfg, o, res, scores, entries);
    if c.Ok? {
      var (sc, es) := c.value;
      assert es[..|entries|] == entries;
    }
  }

  /** One pass of a kind's loop: an actor whose guard is set is skipped; otherwise the
      order is resolved, credited, and the guard set to whether it succeeded. */
  function Pass(resolve: Resolver, L: Layout, cfg: Config, t: Tally, o: Order, acted: map<ActorId, bool>)
    : (r: Result<(Tally, map<ActorId, bool>)>)
    ensures r.Ok? ==> r.value.0.scores.Keys == t.scores.Keys && r.value.1.Keys == acted.Keys
  {
    var a :- OrderActor(L, o);
    if a !in acted then Err(KeyError)
    else if acted[a] then Ok((t, acted))
    else
      var out :- resolve(t, o);
      var credited :- Credit(cfg, o, out.res, t.scores, t.entries);
      Ok((Tally(out.state, out.rnd, credited.0, credited.1), acted[a := out.res.done]))
  }

  /** `_execute_move_orders` and its four siblings: one loop over the orders of a kind. */
  function Run(resolve: Resolver, L: Layout, cfg: Config, t: Tally, orders: seq<Order>, acted: map<ActorId, bool>)
    : (r: Result<Tally>)
    ensures r.Ok? ==> r.value.scores.Keys == t.scores.Keys
    decreases |orders|
  {
    if orders == [] then Ok(t)
    else
      match Pass(resolve, L, cfg, t, orders[0], acted)
      case Err(e) => Err(e)
      case Ok((t1, acted1)) => Run(resolve, L, cfg, t1, orders[1..], acted1)
  }

  /** The orders of a list that are not for actor `a`. */
  function OrdersNotOf(L: Layout, orders: seq<Order>, a: ActorId): (r: seq<Order>)
    ensures forall o | o in r :: o in orders && OrderActor(L, o) != Ok(a)
  {
    if orders == [] then []
    else (if OrderActor(L, orders[0]) == Ok(a) then [] else [orders[0]]) + OrdersNotOf(L, orders[1..], a)
  }

  /** Once the guard is set for an actor, every later order of that actor is ignored: the
      loop runs as if they had not been given. */
  lemma {:induction false} DoneActorIgnored(resolve: Resolver, L: Layout, cfg: Config, t: Tally,
                                            orders: seq<Order>, acted: map<ActorId, bool>, a: ActorId)
    requires a in acted && acted[a]
    ensures Run(resolve, L, cfg, t, orders, acted) == Run(resolve, L, cfg, t, OrdersNotOf(L, orders, a), acted)
    decreases |orders|
  {
    if orders != [] {
      var o := orders[0];
      var rest := OrdersNotOf(L, orders[1..], a);
      if OrderActor(L, o) == Ok(a) {
        assert Pass(resolve, L, cfg, t, o, acted) == Ok((t, acted));
        assert OrdersNotOf(L, orders, a) == rest;
        DoneActorIgnored(resolve, L, cfg, t, orders[1..], acted, a);
      } else {
        assert OrdersNotOf(L, orders, a) == [o] + rest;
        assert ([o] + rest)[1..] == rest;
        match Pass(resolve, L, cfg, t, o, acted)
        case Err(_) =>
        case Ok((t1, acted1)) =>
          DoneActorIgnored(resolve, L, cfg, t1, orders[1..], acted1, a);
      }
    }
  }

  /** A successful order sets the guard: a second order for the same actor right after it
      is skipped. */
  lemma SuccessBlocksRepeat(resolve: Resolver, L: Layout, cfg: Config, t: Tally, o1: Order, o2: Order,
                            rest: seq<Order>, acted: map<ActorId, bool>)
    requires OrderActor(L, o1).Ok? && OrderActor(L, o2) == OrderActor(L, o1)
    requires resolve(t, o1).Ok? && resolve(t, o1).value.res.done
    ensures Run(resolve, L, cfg, t, [o1, o2] + rest, acted) == Run(resolve, L, cfg, t, [o1] + rest, acted)
  {
    assert ([o1, o2] + rest)[1..] == [o2] + rest;
    assert ([o2] + rest)[1..] == rest;
    assert ([o1] + rest)[1..] == rest;
  }

  /** An order that does not succeed leaves the guard clear, whatever its kind: the same
      actor's next order of the kind is resolved. */
  lemma FailureAllowsRetry(resolve: Resolver, L: Layout, cfg: Config, t: Tally, o1: Order, o2: Order,
                           rest: seq<Order>, acted: map<ActorId, bool>, a: ActorId)
    requires OrderActor(L, o1) == Ok(a) && OrderActor(L, o2) == Ok(a) && a in acted && !acted[a]
    requires resolve(t, o1).Ok? && !resolve(t, o1).value.res.done
    requires Credit(cfg, o1, resolve(t, o1).value.res, t.scores, t.entries).Ok?
    ensures var out := resolve(t, o1).value;
      var c := Credit(cfg, o1, out.res, t.scores, t.entries).value;
      Run(resolve, L, cfg, t, [o1, o2] + rest, acted) == Run(resolve, L, cfg, Tally(out.state, out.rnd, c.0, c.1), [o2] + rest, acted)
  {
    assert acted[a := false] == acted;
    assert ([o1, o2] + rest)[1..] == [o2] + rest;
  }

  /** Log entries are only ever appended, at most one per order. */
  lemma {:induction false} EntriesOnlyGrow(resolve: Resolver, L: Layout, cfg: Config, t: Tally,
                                           orders: seq<Order>, acted: map<ActorId, bool>)
    ensures var r := Run(resolve, L, cfg, t, orders, acted);
      r.Ok? ==> |t.entries| <= |r.value.entries| <= |t.entries| + |orders|
                && r.value.entries[..|t.entries|] == t.entries
    decreases |orders|
  {
    if orders != [] {
      var o := orders[0];
      match Pass(resolve, L, cfg, t, o, acted)
      case Err(_) =>
      case Ok((t1, acted1)) =>
        if t1 != t {
          CreditMeaning(cfg, o, resolve(t, o).value.res, t.scores, t.entries);
        }
        EntriesOnlyGrow(resolve, L, cfg, t1, orders[1..], acted1);
        var r := Run(resolve, L, cfg, t1, orders[1..], acted1);
        if r.Ok? {
          assert r.value.entries[..|t.entries|] == r.value.entries[..|t1.entries|][..|t.entries|];
        }
    }
  }

  /** Builds and destroys never change a score. */
  lemma {:induction false} BuildsAndDestroysNeverScore(resolve: Resolver, L: Layout, cfg: Config, t: Tally,
                                                       orders: seq<Order>, acted: map<ActorId, bool>)
    requires forall o | o in orders :: o.BuildOrder? || o.DestroyOrder?
    ensures var r := Run(resolve, L, cfg, t, orders, acted); r.Ok? ==> r.value.scores == t.scores
    decreases |orders|
  {
    if orders != [] {
      var o := orders[0];
      match Pass(resolve, L, cfg, t, o, acted)
      case Err(_) =>
      case Ok((t1, acted1)) =>
        if t1 != t {
          CreditMeaning(cfg, o, resolve(t, o).value.res, t.scores, t.entries);
        }
        BuildsAndDestroysNeverScore(resolve, L, cfg, t1, orders[1..], acted1);
    }
  }

  /** With non-negative capture and kill points no team ever loses points. */
  lemma {:induction false} ScoresNeverDecrease(resolve: Resolver, L: Layout, cfg: Config, t: Tally,
                                               orders: seq<Order>, acted: map<ActorId, bool>)
    requires cfg.captureScore >= 0 && cfg.killScore >= 0
    ensures var r := Run(resolve, L, cfg, t, orders, acted);
      r.Ok? ==> forall team | team in t.scores :: r.value.scores[team] >= t.scores[team]
    decreases |orders|
  {
    if orders != [] {
      var o := orders[0];
      match Pass(resolve, L, cfg, t, o, acted)
      case Err(_) =>
      case Ok((t1, acted1)) =>
        if t1 != t {
          CreditMeaning(cfg, o, resolve(t, o).value.res, t.scores, t.entries);
        }
        ScoresNeverDecrease(resolve, L, cfg, t1, orders[1..], acted1);
    }
  }

  /** A loop keeps whatever property of the board every single resolution keeps. */
  lemma {:induction false} RunPreserves(resolve: Resolver, L: Layout, cfg: Config, t: Tally,
                                        orders: seq<Order>, acted: map<ActorId, bool>, P: BoardState -> bool)
    requires P(t.state)
    requires forall u: Tally, o: Order | P(u.state) && resolve(u, o).Ok? :: P(resolve(u, o).value.state)
    ensures var r := Run(resolve, L, cfg, t, orders, acted); r.Ok? ==> P(r.value.state)
    decreases |orders|
  {
    if orders != [] {
      match Pass(resolve, L, cfg, t, orders[0], acted)
      case Err(_) =>
      case Ok((t1, acted1)) =>
        RunPreserves(resolve, L, cfg, t1, orders[1..], acted1, P);
    }
  }

  // ---------------------------------------------------------------------------------------
  // The board actions as the loops call them

  /** The board action of an order's kind, for its actor. */
  function Resolve(L: Layout, hfr: bool, s: BoardState, rnd: Random, o: Order, a: ActorId): (r: Result<Outcome>)
    requires WellFormed(L, s) && a in s.actors
    ensures r.Ok? ==> Keyed(L, r.value.state)
  {
    match o
    case PlainOrder(_) => Ok(Outcome(s, rnd, Rejected))
    case MoveOrder(_, _, d) =>
      var (s1, res) := MoveResult(L, s, hfr, a, d);
      Ok(Outcome(s1, rnd, res))
    case AttackOrder(_, _, d) => AttackResult(L, s, rnd, a, d)
    case GrabPutOrder(_, _, d) => Ok(GrabPutResult(L, s, hfr, rnd, a, d))
    case DestroyOrder(_, _, d) => Ok(DestroyResult(L, s, rnd, a, d))
    case BuildOrder(_, _, d) => Ok(BuildResult(L, s, rnd, a, d))
  }

  /** The resolver the game's loops use.  The board invariant holds throughout a game
      (`GameStepKeepsValid`); outside it the dictionaries would not hold the actor, which is
      reported as the KeyError its lookup raises. */
  ghost function BoardResolver(L: Layout, hfr: bool): Resolver {
    (t: Tally, o: Order) =>
      match OrderActor(L, o)
      case Err(e) => Err(e)
      case Ok(a) =>
        if WellFormed(L, t.state) && a in t.state.actors then Resolve(L, hfr, t.state, t.rnd, o, a)
        else Err(KeyError)
  }

  lemma ResolvePreservesValid(L: Layout, hfr: bool, s: BoardState, rnd: Random, o: Order, a: ActorId)
    requires BoardValid(L, s) && a in s.actors
    ensures var r := Resolve(L, hfr, s, rnd, o, a); r.Ok? ==> BoardValid(L, r.value.state)
  {
    match o
    case PlainOrder(_) =>
    case MoveOrder(_, _, d) => MovePreservesValid(L, s, hfr, a, d);
    case AttackOrder(_, _, d) => AttackPreservesValid(L, s, rnd, a, d);
    case GrabPutOrder(_, _, d) => GrabPutPreservesValid(L, s, hfr, rnd, a, d);
    case DestroyOrder(_, _, d) => DestroyPreservesValid(L, s, rnd, a, d);
    case BuildOrder(_, _, d) => BuildPreservesValid(L, s, rnd, a, d);
  }

  /** Every kind's loop keeps the board valid. */
  lemma RunKeepsValid(L: Layout, hfr: bool, cfg: Config, t: Tally, orders: seq<Order>, acted: map<ActorId, bool>)
    requires BoardValid(L, t.state)
    ensures var r := Run(BoardResolver(L, hfr), L, cfg, t, orders, acted); r.Ok? ==> BoardValid(L, r.value.state)
  {
    var R := BoardResolver(L, hfr);
    var P := (s: BoardState) => BoardValid(L, s);
    forall u: Tally, o: Order | P(u.state) && R(u, o).Ok?
      ensures P(R(u, o).value.state)
    {
      var a := OrderActor(L, o).value;
      ResolvePreservesValid(L, hfr, u.state, u.rnd, o, a);
    }
    RunPreserves(R, L, cfg, t, orders, acted, P);
  }

  /** A grab/put that does not succeed leaves the board as it was. */
  lemma GrabPutRejectionKeepsBoard(L: Layout, hfr: bool, s: BoardState, rnd: Random, a: ActorId, d: Direction)
    requires WellFormed(L, s) && a in s.actors
    ensures var r := GrabPutResult(L, s, hfr, rnd, a, d); !r.res.done ==> r.state == s && r.res == Rejected
  {
    var tgt := Target(L, s, a, d);
    if s.carried[a].Some? {
      var r := PutResult(L, s, hfr, a, tgt);
      assert !r.1.done ==> r == (s, Rejected);
    } else {
      var r := GrabResult(L, s, hfr, a, tgt, Succeeds(rnd.draws(rnd.drawn), Capabilities(a.kind).grab));
      assert !r.1.done ==> r == (s, Rejected);
    }
  }

  /** An attack that does not count leaves the board as it was. */
  lemma AttackRejectionKeepsBoard(L: Layout, s: BoardState, rnd: Random, a: ActorId, d: Direction)
    requires WellFormed(L, s) && a in s.actors
    ensures var r := AttackResult(L, s, rnd, a, d);
      r.Ok? && !r.value.res.done ==> r.value.state == s && r.value.res == Rejected
  {
  }

  /** A move that does not succeed leaves the board as it was. */
  lemma MoveRejectionKeepsBoard(L: Layout, hfr: bool, s: BoardState, a: ActorId, d: Direction)
    requires BoardValid(L, s) && a in s.actors
    ensures var r := MoveResult(L, s, hfr, a, d); !r.1.done ==> r == (s, Rejected)
  {
    MoveMeaning(L, s, hfr, a, d);
  }

  /** An order that does not succeed leaves the board as it was and names no team and no
      record; only the random source may have moved on. */
  lemma RejectionKeepsBoard(L: Layout, hfr: bool, s: BoardState, rnd: Random, o: Order, a: ActorId)
    requires BoardValid(L, s) && a in s.actors
    ensures var r := Resolve(L, hfr, s, rnd, o, a);
      r.Ok? && !r.value.res.done ==> r.value.state == s && r.value.res == Rejected
  {
    match o
    case PlainOrder(_) =>
    case MoveOrder(_, _, d) => MoveRejectionKeepsBoard(L, hfr, s, a, d);
    case AttackOrder(_, _, d) => AttackRejectionKeepsBoard(L, s, rnd, a, d);
    case GrabPutOrder(_, _, d) => GrabPutRejectionKeepsBoard(L, hfr, s, rnd, a, d);
    case DestroyOrder(_, _, d) => DestroyRemovesWall(L, s, rnd, a, d);
    case BuildOrder(_, _, d) => BuildMeaning(L, s, rnd, a, d);
  }

  /** `_actor_dict(False)`: no actor has acted yet. */
  function Fresh(L: Layout): (m: map<ActorId, bool>)
    ensures m.Keys == RosterSet(L)
  {
    map a | a in RosterSet(L) :: false
  }

  /** `execute_game_step` after the tick: moves, then grab/puts, attacks, destroys and
      builds, each kind with a fresh guard map; the first escaping error ends the step. */
  ghost function GameStep(L: Layout, hfr: bool, cfg: Config, t: Tally, orders: seq<Order>): (r: Result<Tally>)
    ensures r.Ok? ==> r.value.scores.Keys == t.scores.Keys
  {
    var R := BoardResolver(L, hfr);
    var t1 :- Run(R, L, cfg, t, Partition(orders, Moves), Fresh(L));
    var t2 :- Run(R, L, cfg, t1, Partition(orders, GrabPuts), Fresh(L));
    var t3 :- Run(R, L, cfg, t2, Partition(orders, Attacks), Fresh(L));
    var t4 :- Run(R, L, cfg, t3, Partition(orders, Destroys), Fresh(L));
    Run(R, L, cfg, t4, Partition(orders, Builds), Fresh(L))
  }

  /** A game step keeps the board valid. */
  lemma GameStepKeepsValid(L: Layout, hfr: bool, cfg: Config, t: Tally, orders: seq<Order>)
    requires BoardValid(L, t.state)
    ensures var r := GameStep(L, hfr, cfg, t, orders); r.Ok? ==> BoardValid(L, r.value.state)
  {
    var R := BoardResolver(L, hfr);
    RunKeepsValid(L, hfr, cfg, t, Partition(orders, Moves), Fresh(L));
    var r1 := Run(R, L, cfg, t, Partition(orders, Moves), Fresh(L));
    if r1.Ok? {
      RunKeepsValid(L, hfr, cfg, r1.value, Partition(orders, GrabPuts), Fresh(L));
      var r2 := Run(R, L, cfg, r1.value, Partition(orders, GrabPuts), Fresh(L));
      if r2.Ok? {
        RunKeepsValid(L, hfr, cfg, r2.value, Partition(orders, Attacks), Fresh(L));
        var r3 := Run(R, L, cfg, r2.value, Partition(orders, Attacks), Fresh(L));
        if r3.Ok? {
          RunKeepsValid(L, hfr, cfg, r3.value, Partition(orders, Destroys), Fresh(L));
          var r4 := Run(R, L, cfg, r3.value, Partition(orders, Destroys), Fresh(L));
          if r4.Ok? {
            RunKeepsValid(L, hfr, cfg, r4.value, Partition(orders, Builds), Fresh(L));
          }
        }
      }
    }
  }

  /** Plain orders, which name no action, change nothing. */
  lemma PlainOrdersIgnored(L: Layout, hfr: bool, cfg: Config, t: Tally, orders: seq<Order>, team: TeamName)
    ensures GameStep(L, hfr, cfg, t, orders + [PlainOrder(team)]) == GameStep(L, hfr, cfg, t, orders)
  {
    forall k: Kind
      ensures Partition(orders + [PlainOrder(team)], k) == Partition(orders, k)
    {
      assert (orders + [PlainOrder(team)])[..|orders|] == orders;
    }
  }

  // ---------------------------------------------------------------------------------------
  // The end of a game and the score file

  /** `check_game_end`: the tick limit, else the highest current score against the limit;
      `max` of no scores is a ValueError. */
  function GameOver(cfg: Config, tick: int, scores: map<TeamName, int>): (r: Result<bool>)
    ensures tick == cfg.maxTicks ==> r == Ok(true)
    ensures r.Err? <==> tick != cfg.maxTicks && scores == map[]
    ensures r.Err? ==> r.error == ValueError
    ensures r == Ok(false) <==>
      tick != cfg.maxTicks && scores != map[] && forall t | t in scores :: scores[t] < cfg.maxScore
  {
    if tick == cfg.maxTicks then Ok(true)
    else if scores == map[] then Err(ValueError)
    else Ok(exists team | team in scores :: scores[team] >= cfg.maxScore)
  }

  /** Once a team has reached the score limit the game is over, and it stays over as the
      scores grow, however far past the limit they go. */
  lemma ScoreLimitIsSticky(cfg: Config, tick: int, scores: map<TeamName, int>, later: int, grown: map<TeamName, int>)
    requires GameOver(cfg, tick, scores) == Ok(true) && tick != cfg.maxTicks
    requires scores.Keys == grown.Keys && forall t | t in scores :: grown[t] >= scores[t]
    ensures GameOver(cfg, later, grown) == Ok(true)
  {
    var team :| team in scores && scores[team] >= cfg.maxScore;
    assert team in grown;
  }

  /** `scores.items()`: the teams in the order setup registered them. */
  function Standings(teams: seq<TeamName>, scores: map<TeamName, int>): (r: seq<Entry>)
    requires forall t | t in teams :: t in scores
    ensures |r| == |teams| && forall i | 0 <= i < |r| :: r[i] == (teams[i], scores[teams[i]])
  {
    if teams == [] then [] else [(teams[0], scores[teams[0]])] + Standings(teams[1..], scores)
  }

  /** The entries `_write_scores` writes for a ranking: with the first two tied, all as
      they are; otherwise the leader with the winning bonus added.  Fewer than two teams
      is an IndexError. */
  function GameScores(bonus: int, ranked: seq<Entry>): (r: Result<seq<Entry>>)
    ensures r.Err? <==> |ranked| < 2
    ensures r.Err? ==> r.error == IndexError
    ensures r.Ok? ==> |r.value| == |ranked| && r.value[1..] == ranked[1..] && r.value[0].0 == ranked[0].0
    ensures r.Ok? ==> r.value[0].1 in {ranked[0].1, ranked[0].1 + bonus}
  {
    if |ranked| < 2 then Err(IndexError)
    else if ranked[0].1 == ranked[1].1 then Ok(ranked)
    else Ok([(ranked[0].0, ranked[0].1 + bonus)] + ranked[1..])
  }

  /** On a descending ranking the bonus goes to the first team exactly when it alone has
      the highest score; every other entry is written as it is. */
  lemma GameScoresMeaning(bonus: int, ranked: seq<Entry>)
    requires SortedDesc(ranked)
    ensures var r := GameScores(bonus, ranked);
      && (r.Ok? <==> |ranked| >= 2)
      && (r.Err? ==> r.error == IndexError)
      && (r.Ok? ==>
            && |r.value| == |ranked| && r.value[1..] == ranked[1..] && r.value[0].0 == ranked[0].0
            && r.value[0].1 == ranked[0].1 + (if forall i | 0 < i < |ranked| :: ranked[0].1 > ranked[i].1 then bonus else 0))
  {
    var r := GameScores(bonus, ranked);
    if r.Ok? {
      assert ranked[0].1 > ranked[1].1 <==> forall i | 0 < i < |ranked| :: ranked[0].1 > ranked[i].1 by {
        if ranked[0].1 > ranked[1].1 {
          forall i | 0 < i < |ranked| ensures ranked[0].1 > ranked[i].1 {
            assert ranked[1].1 >= ranked[i].1 || i == 1;
          }
        }
      }
    }
  }

  /** The ranking `_write_scores` starts from holds every team's score once, in descending
      order, ties in registration order. */
  lemma RankingMeaning(teams: seq<TeamName>, scores: map<TeamName, int>)
    requires forall t | t in teams :: t in scores
    ensures var ranked := SortDesc(Standings(teams, scores));
      && SortedDesc(ranked) && |ranked| == |teams|
      && multiset(ranked) == multiset(Standings(teams, scores))
      && forall k :: WithScore(ranked, k) == WithScore(Standings(teams, scores), k)
  {
    var standings := Standings(teams, scores);
    SortDescMeaning(standings);
    assert |SortDesc(standings)| == |standings| by {
      assert |multiset(SortDesc(standings))| == |multiset(standings)|;
    }
  }

  /** Adding one entry's score to the overall score of its team.  `_read_scores` looks the
      name up among the current teams and then in the overall scores; a miss in either is a
      KeyError that it catches, so the line is ignored. */
  function AddScore(known: seq<TeamName>, overall: map<TeamName, int>, e: Entry): (r: map<TeamName, int>)
    ensures r.Keys == overall.Keys
  {
    if e.0 in known && e.0 in overall then overall[e.0 := overall[e.0] + e.1] else overall
  }

  /** Adding a list of entries, one after the other. */
  function Accumulate(known: seq<TeamName>, overall: map<TeamName, int>, entries: seq<Entry>): (r: map<TeamName, int>)
    ensures r.Keys == overall.Keys
  {
    if entries == [] then overall
    else Accumulate(known, AddScore(known, overall, entries[0]), entries[1..])
  }

  /** The total an accumulation adds to one team is the sum of that team's entries. */
  function SumFor(team: TeamName, entries: seq<Entry>): int {
    if entries == [] then 0
    else (if entries[0].0 == team then entries[0].1 else 0) + SumFor(team, entries[1..])
  }

  lemma {:induction false} AccumulateMeaning(known: seq<TeamName>, overall: map<TeamName, int>, entries: seq<Entry>)
    ensures forall t | t in overall ::
      Accumulate(known, overall, entries)[t] == overall[t] + (if t in known then SumFor(t, entries) else 0)
  {
    if entries != [] {
      AccumulateMeaning(known, AddScore(known, overall, entries[0]), entries[1..]);
    }
  }

  /** Two files' worth of entries accumulate one after the other. */
  lemma {:induction false} AccumulateConcat(known: seq<TeamName>, overall: map<TeamName, int>, a: seq<Entry>, b: seq<Entry>)
    ensures Accumulate(known, overall, a + b) == Accumulate(known, Accumulate(known, overall, a), b)
  {
    if a == [] {
      assert a + b == b;
    } else {
      assert (a + b)[0] == a[0] && (a + b)[1..] == a[1..] + b;
      AccumulateConcat(known, AddScore(known, overall, a[0]), a[1..], b);
    }
  }

  /** `_read_scores` over the lines of the file: each line is split and converted (a
      ValueError escapes, leaving what earlier lines added). */
  function ReadLines(known: seq<TeamName>, overall: map<TeamName, int>, lines: seq<string>)
    : (r: (map<TeamName, int>, Option<Error>))
    ensures r.0.Keys == overall.Keys
    ensures r.1.Some? ==> r.1.value == ValueError
  {
    if lines == [] then (overall, None)
    else
      match ParseLine(lines[0])
      case Err(e) => (overall, Some(e))
      case Ok(e) => ReadLines(known, AddScore(known, overall, e), lines[1..])
  }

  /** A missing file leaves the scores alone. */
  function ReadScoreFile(known: seq<TeamName>, overall: map<TeamName, int>, file: Option<string>)
    : (r: (map<TeamName, int>, Option<Error>))
    ensures r.0.Keys == overall.Keys
    ensures file.None? ==> r == (overall, None)
  {
    match file
    case None => (overall, None)
    case Some(text) => ReadLines(known, overall, Lines(TranslateNewlines(text)))
  }

  /** A line that parses adds its entry and reading goes on with the rest. */
  lemma ReadLinesStep(known: seq<TeamName>, overall: map<TeamName, int>, line: string, e: Entry, rest: seq<string>)
    requires ParseLine(line) == Ok(e)
    ensures ReadLines(known, overall, [line] + rest) == ReadLines(known, AddScore(known, overall, e), rest)
  {
    assert ([line] + rest)[0] == line && ([line] + rest)[1..] == rest;
  }

  /** A line for a team that is not playing is skipped and reading goes on. */
  lemma UnknownTeamSkipped(known: seq<TeamName>, overall: map<TeamName, int>, line: string, rest: seq<string>)
    requires ParseLine(line).Ok? && ParseLine(line).value.0 !in known
    ensures ReadLines(known, overall, [line] + rest) == ReadLines(known, overall, rest)
  {
    ReadLinesStep(known, overall, line, ParseLine(line).value, rest);
  }

  /** The loop's view of the same step: line `i` either ends the reading with its error or
      adds its entry. */
  lemma ReadLinesAt(known: seq<TeamName>, overall: map<TeamName, int>, lines: seq<string>, i: nat)
    requires i < |lines|
    ensures var p := ParseLine(lines[i]);
      && (p.Err? ==> ReadLines(known, overall, lines[i..]) == (overall, Some(p.error)))
      && (p.Ok? ==> ReadLines(known, overall, lines[i..]) == ReadLines(known, AddScore(known, overall, p.value), lines[i + 1..]))
  {
    assert lines[i..][0] == lines[i] && lines[i..][1..] == lines[i + 1..];
  }

  /** Reading what a game wrote adds every written score to its team's overall score. */
  lemma {:induction false} ReadBackWritten(known: seq<TeamName>, overall: map<TeamName, int>, entries: seq<Entry>)
    requires forall e | e in entries :: Writable(e.0)
    ensures ReadLines(known, overall, FormatLines(entries)) == (Accumulate(known, overall, entries), None)
  {
    if entries != [] {
      var e := entries[0];
      ParseFormatLine(e);
      ReadLinesStep(known, overall, FormatLine(e), e, FormatLines(entries[1..]));
      ReadBackWritten(known, AddScore(known, overall, e), entries[1..]);
    }
  }

  /** The score file round trip: the next game's overall scores are the written scores
      of every game so far added on, in the order the games were played. */
  lemma WriteThenRead(known: seq<TeamName>, overall: map<TeamName, int>, earlier: seq<Entry>, entries: seq<Entry>)
    requires forall e | e in earlier + entries :: Writable(e.0)
    ensures ReadScoreFile(known, overall, Some(ScoreText(earlier) + ScoreText(entries)))
            == (Accumulate(known, Accumulate(known, overall, earlier), entries), None)
  {
    ScoreTextAppend(earlier, entries);
    ScoreTextLacksReturn(earlier + entries);
    TranslateNewlinesWithoutReturns(ScoreText(earlier + entries));
    LinesOfScoreText(earlier + entries);
    ReadBackWritten(known, overall, earlier + entries);
    AccumulateConcat(known, overall, earlier, entries);
  }

  // ---------------------------------------------------------------------------------------
  // The game performed in place

  /** The tick's entries of the log, which is a `defaultdict(list)`. */
  function LogAt(log: map<nat, seq<Action>>, tick: nat): seq<Action> {
    if tick in log then log[tick] else []
  }

  /** The contents of the score file: `None` while it does not exist. */
  function Existing(file: Option<string>): string {
    match file
    case None => []
    case Some(text) => text
  }

  /** The file after appending: an append to a missing file creates it. */
  function Appended(file: Option<string>, text: string): string {
    Existing(file) + text
  }

  /** The scores after each listed team has been set to zero, in order. */
  function ZeroScores(scores: map<TeamName, int>, teams: seq<TeamName>): map<TeamName, int>
    decreases |teams|
  {
    if teams == [] then scores else ZeroScores(scores[teams[0] := 0], teams[1..])
  }

  /** Setting the scores adds every listed team at zero and leaves every other entry. */
  lemma {:induction false} ZeroScoresMeaning(scores: map<TeamName, int>, teams: seq<TeamName>)
    ensures ZeroScores(scores, teams).Keys == scores.Keys + TeamSet(teams)
    ensures forall t | t in ZeroScores(scores, teams) ::
      ZeroScores(scores, teams)[t] == if t in teams then 0 else scores[t]
    decreases |teams|
  {
    if teams != [] {
      ZeroScoresMeaning(scores[teams[0] := 0], teams[1..]);
      assert TeamSet(teams) == {teams[0]} + TeamSet(teams[1..]);
      forall t ensures t in teams <==> t == teams[0] || t in teams[1..] {
        assert teams == [teams[0]] + teams[1..];
      }
    }
  }

  /** With the board invariant the resolver the loops use is the board action itself. */
  lemma BoardResolverIsResolve(L: Layout, hfr: bool, t: Tally, o: Order, a: ActorId)
    requires BoardValid(L, t.state) && OrderActor(L, o) == Ok(a)
    ensures a in t.state.actors
    ensures BoardResolver(L, hfr)(t, o) == Resolve(L, hfr, t.state, t.rnd, o, a)
  {
    AllActorsAreRoster(L, a);
    KeyedRoster(L, t.state);
  }

  /** `Game`: one board, the actions on it, the scores of this game and of all games, the
      per-tick log and the score file the game appends to. */
  class Game {
    const board: Board
    const actions: BoardActions
    const cfg: Config
    var log: map<nat, seq<Action>>
    var scores: map<TeamName, int>
    var overallScores: map<TeamName, int>
    var tick: nat
    var scoreFile: Option<string>

    ghost predicate Valid()
      reads this, board
    {
      board.Valid() && actions.board == board
    }

    /** What a tick has reached so far. */
    ghost function Now(): Tally
      reads this, board, actions
    {
      Tally(board.Current(), actions.rnd, scores, LogAt(log, tick))
    }

    ghost function Resolver(): Resolver
      reads this, actions
    {
      BoardResolver(board.Fixed(), actions.homeFlagRequired)
    }

    constructor (board: Board, homeFlagRequired: bool, rnd: Random, cfg: Config, scoreFile: Option<string>)
      requires board.Valid()
      ensures Valid() && fresh(actions)
      ensures this.board == board && this.cfg == cfg && this.scoreFile == scoreFile
      ensures actions.homeFlagRequired == homeFlagRequired && actions.rnd == rnd
      ensures log == map[] && scores == map[] && overallScores == map[] && tick == 0
    {
      this.board := board;
      this.actions := new BoardActions(board, homeFlagRequired, rnd);
      this.cfg := cfg;
      this.scoreFile := scoreFile;
      log, scores, overallScores, tick := map[], map[], map[], 0;
    }

    /** `_set_scores`: every team starts this game and the overall tally at zero. */
    method SetScores()
      modifies this
      ensures scores == ZeroScores(old(scores), board.teams)
      ensures overallScores == ZeroScores(old(overallScores), board.teams)
      ensures log == old(log) && tick == old(tick) && scoreFile == old(scoreFile)
    {
      var teams := board.teams;
      for k := 0 to |teams|
        invariant ZeroScores(scores, teams[k..]) == ZeroScores(old(scores), teams)
        invariant ZeroScores(overallScores, teams[k..]) == ZeroScores(old(overallScores), teams)
        invariant log == old(log) && tick == old(tick) && scoreFile == old(scoreFile)
      {
        var team := teams[k];
        assert teams[k..][1..] == teams[k + 1..];
        scores := scores[team := 0];
        overallScores := overallScores[team := 0];
      }
    }

    /** `_actor_dict(False)` */
    method ActorDict() returns (r: map<ActorId, bool>)
      ensures r == Fresh(board.Fixed())
    {
      var all := AllActors(board.Fixed());
      r := map[];
      for k := 0 to |all|
        invariant r.Keys == set a | a in all[..k]
        invariant forall a | a in r :: !r[a]
      {
        assert all[..k + 1] == all[..k] + [all[k]];
        r := r[all[k] := false];
      }
      assert all[..|all|] == all;
    }

    /** The board action of an order's kind, performed for actor `a`. */
    method Dispatch(o: Order, a: ActorId) returns (r: Result<Resolution>)
      requires Valid() && OrderActor(board.Fixed(), o) == Ok(a)
      modifies board, actions
      ensures Valid()
      ensures var spec := Resolver()(old(Now()), o);
        && (r.Ok? ==> spec == Ok(Outcome(board.Current(), actions.rnd, r.value)))
        && (r.Err? ==> spec == Err(r.error))
    {
      BoardResolverIsResolve(board.Fixed(), actions.homeFlagRequired, Now(), o, a);
      match o
      case MoveOrder(_, _, d) =>
        var moved, team, action := actions.Move(a, d);
        r := Ok(Resolution(moved, team, action));
      case AttackOrder(_, _, d) =>
        r := actions.Attack(a, d);
      case GrabPutOrder(_, _, d) =>
        var grabbed, team, action := actions.GrabPutFlag(a, d);
        r := Ok(Resolution(grabbed, team, action));
      case DestroyOrder(_, _, d) =>
        var destroyed, action := actions.Destroy(a, d);
        r := Ok(Resolution(destroyed, None, action));
      case BuildOrder(_, _, d) =>
        var built, action := actions.Build(a, d);
        r := Ok(Resolution(built, None, action));
    }

    /** What the loop of an order's kind does with the result it got back. */
    method CreditResult(o: Order, res: Resolution) returns (r: Result<()>)
      modifies this
      ensures var spec := Credit(cfg, o, res, old(scores), LogAt(old(log), tick));
        && (r.Ok? ==> spec == Ok((scores, LogAt(log, tick))))
        && (r.Err? ==> spec == Err(r.error))
      ensures log - {tick} == old(log) - {tick} && tick == old(tick)
      ensures overallScores == old(overallScores) && scoreFile == old(scoreFile)
    {
      r := Ok(());
      if o.AttackOrder? {
        if res.action.Some? && res.team.Some? {
          if res.team.value !in scores {
            return Err(KeyError);
          }
          scores := scores[res.team.value := scores[res.team.value] + cfg.killScore];
          log := log[tick := LogAt(log, tick) + [res.action.value]];
        }
      } else {
        if res.action.Some? {
          log := log[tick := LogAt(log, tick) + [res.action.value]];
        }
        if (o.MoveOrder? || o.GrabPutOrder?) && res.team.Some? {
          if res.team.value !in scores {
            return Err(KeyError);
          }
          scores := scores[res.team.value := scores[res.team.value] + cfg.captureScore];
        }
      }
    }

    /** One pass of a kind's loop. */
    method Perform(o: Order, acted: map<ActorId, bool>) returns (r: Result<map<ActorId, bool>>)
      requires Valid()
      modifies this, board, actions
      ensures Valid()
      ensures var spec := Pass(Resolver(), board.Fixed(), cfg, old(Now()), o, acted);
        && (r.Ok? ==> spec == Ok((Now(), r.value)))
        && (r.Err? ==> spec == Err(r.error))
      ensures log - {tick} == old(log) - {tick} && tick == old(tick)
      ensures overallScores == old(overallScores) && scoreFile == old(scoreFile)
    {
      var actor := OrderActor(board.Fixed(), o);
      if actor.Err? {
        return Err(actor.error);
      }
      var a := actor.value;
      if a !in acted {
        return Err(KeyError);
      }
      if acted[a] {
        return Ok(acted);
      }
      var res :- Dispatch(o, a);
      var credited :- CreditResult(o, res);
      r := Ok(acted[a := res.done]);
    }

    /** `_execute_move_orders` and its four siblings. */
    method ExecuteOrders(orders: seq<Order>) returns (r: Result<()>)
      requires Valid()
      modifies this, board, actions
      ensures Valid()
      ensures var spec := Run(Resolver(), board.Fixed(), cfg, old(Now()), orders, Fresh(board.Fixed()));
        && (r.Ok? ==> spec == Ok(Now()))
        && (r.Err? ==> spec == Err(r.error))
      ensures log - {tick} == old(log) - {tick} && tick == old(tick)
      ensures overallScores == old(overallScores) && scoreFile == old(scoreFile)
    {
      var acted := ActorDict();
      ghost var spec := Run(Resolver(), board.Fixed(), cfg, Now(), orders, acted);
      for i := 0 to |orders|
        invariant Valid()
        invariant Run(Resolver(), board.Fixed(), cfg, Now(), orders[i..], acted) == spec
        invariant log - {tick} == old(log) - {tick} && tick == old(tick)
        invariant overallScores == old(overallScores) && scoreFile == old(scoreFile)
      {
        assert orders[i..][1..] == orders[i + 1..];
        var step := Perform(orders[i], acted);
        if step.Err? {
          return Err(step.error);
        }
        acted := step.value;
      }
      return Ok(());
    }
  
    /** The sorting loop of `execute_game_step`. */
    static method SortOrders(orders: seq<Order>)
      returns (moves: seq<Order>, grabputs: seq<Order>, attacks: seq<Order>, destroys: seq<Order>, builds: seq<Order>)
      ensures moves == Partition(orders, Moves) && grabputs == Partition(orders, GrabPuts)
      ensures attacks == Partition(orders, Attacks) && destroys == Partition(orders, Destroys)
      ensures builds == Partition(orders, Builds)
    {
      moves, grabputs, attacks, destroys, builds := [], [], [], [], [];
      for i := 0 to |orders|
        invariant moves == Partition(orders[..i], Moves) && grabputs == Partition(orders[..i], GrabPuts)
        invariant attacks == Partition(orders[..i], Attacks) && destroys == Partition(orders[..i], Destroys)
        invariant builds == Partition(orders[..i], Builds)
      {
        var o := orders[i];
        assert orders[..i + 1][..i] == orders[..i] && orders[..i + 1][i] == o;
        match o
        case PlainOrder(_) =>
        case MoveOrder(_, _, _) => moves := moves + [o];
        case AttackOrder(_, _, _) => attacks := attacks + [o];
        case GrabPutOrder(_, _, _) => grabputs := grabputs + [o];
        case DestroyOrder(_, _, _) => destroys := destroys + [o];
        case BuildOrder(_, _, _) => builds := builds + [o];
      }
      assert orders[..|orders|] == orders;
    }

    /** `execute_game_step`: the tick advances, then the five kinds run in their order; the
        first error escapes and ends the step. */
    method ExecuteGameStep(orders: seq<Order>) returns (r: Result<()>)
      requires Valid()
      modifies this, board, actions
      ensures Valid() && tick == old(tick) + 1
      ensures var start := Tally(old(board.Current()), old(actions.rnd), old(scores), LogAt(old(log), tick));
        var spec := GameStep(board.Fixed(), actions.homeFlagRequired, cfg, start, orders);
        && (r.Ok? ==> spec == Ok(Now()))
        && (r.Err? ==> spec == Err(r.error))
      ensures log - {tick} == old(log) - {tick}
      ensures overallScores == old(overallScores) && scoreFile == old(scoreFile)
    {
      tick := tick + 1;
      var moves, grabputs, attacks, destroys, builds := SortOrders(orders);
      var done :- ExecuteOrders(moves);
      done :- ExecuteOrders(grabputs);
      done :- ExecuteOrders(attacks);
      done :- ExecuteOrders(destroys);
      done :- ExecuteOrders(builds);
      r := Ok(());
    }

    /** `check_game_end`: the tick limit, else the highest score against the score limit;
        `max` over no scores is a ValueError. */
    method CheckGameEnd() returns (r: Result<bool>)
      ensures r == GameOver(cfg, tick, scores)
    {
      if tick == cfg.maxTicks {
        return Ok(true);
      }
      if scores == map[] {
        return Err(ValueError);
      }
      var rest := scores.Keys;
      var first :| first in rest;
      var best := scores[first];
      rest := rest - {first};
      while rest != {}
        invariant rest <= scores.Keys
        invariant first in scores && first !in rest && scores[first] <= best
        invariant exists t | t in scores :: scores[t] == best
        invariant forall t | t in scores && t !in rest :: scores[t] <= best
        decreases |rest|
      {
        var t :| t in rest;
        if scores[t] > best {
          best := scores[t];
        }
        rest := rest - {t};
      }
      r := Ok(best >= cfg.maxScore);
    }

    /** `_write_scores`: the standings sorted by score, the bonus for a sole leader, and one
        line per team appended to the score file (created if missing).  Fewer than two
        teams is an IndexError before the file is opened. */
    method WriteScores() returns (r: Result<()>)
      requires forall t | t in board.teams :: t in scores
      modifies this
      ensures log == old(log) && tick == old(tick) && scores == old(scores) && overallScores == old(overallScores)
      ensures var spec := GameScores(cfg.winningBonus, SortDesc(Standings(board.teams, scores)));
        && (r.Ok? <==> spec.Ok?)
        && (r.Err? ==> r.error == spec.error && scoreFile == old(scoreFile))
        && (r.Ok? ==> scoreFile == Some(Appended(old(scoreFile), ScoreText(spec.value))))
    {
      var ranked := SortDesc(Standings(board.teams, scores));
      var gameScores :- PayBonus(cfg.winningBonus, ranked);
      var text := WriteLines(scoreFile, gameScores);
      scoreFile := Some(text);
      r := Ok(());
    }

    /** The bonus rule of `_write_scores` on the sorted standings. */
    static method PayBonus(bonus: int, ranked: seq<Entry>) returns (r: Result<seq<Entry>>)
      ensures r == GameScores(bonus, ranked)
    {
      if |ranked| < 2 {
        return Err(IndexError);
      }
      if ranked[0].1 == ranked[1].1 {
        r := Ok(ranked);
      } else {
        r := Ok([(ranked[0].0, ranked[0].1 + bonus)] + ranked[1..]);
      }
    }

    /** The `with open(..., "a")` block of `_write_scores`: the file is created if missing and
        one line is appended per entry. */
    static method WriteLines(file: Option<string>, entries: seq<Entry>) returns (text: string)
      ensures text == Appended(file, ScoreText(entries))
    {
      text := Existing(file);
      ghost var prior := text;
      assert ScoreText(entries[..0]) == [] by {
        assert entries[..0] == [];
      }
      for i := 0 to |entries|
        invariant text == prior + ScoreText(entries[..i])
      {
        var line := FormatLine(entries[i]);
        ScoreTextSnoc(entries, i);
        Associates(prior, ScoreText(entries[..i]), line);
        text := text + line;
      }
      assert entries[..|entries|] == entries;
    }

    /** `_read_scores`: every line of an existing score file adds its score to a current
        team's overall score; a malformed line is a ValueError that escapes. */
    method ReadScores() returns (r: Result<()>)
      modifies this
      ensures log == old(log) && tick == old(tick) && scores == old(scores) && scoreFile == old(scoreFile)
      ensures var spec := ReadScoreFile(board.teams, old(overallScores), scoreFile);
        && overallScores == spec.0
        && (r.Err? <==> spec.1.Some?)
        && (r.Err? ==> r.error == spec.1.value)
    {
      if scoreFile.None? {
        return Ok(());
      }
      var teams := board.teams;
      var lines := Lines(TranslateNewlines(scoreFile.value));
      ghost var spec := ReadLines(teams, overallScores, lines);
      for i := 0 to |lines|
        invariant ReadLines(teams, overallScores, lines[i..]) == spec
        invariant log == old(log) && tick == old(tick) && scores == old(scores) && scoreFile == old(scoreFile)
      {
        ReadLinesAt(teams, overallScores, lines, i);
        var parsed := ParseLine(lines[i]);
        if parsed.Err? {
          return Err(parsed.error);
        }
        overallScores := AddScore(teams, overallScores, parsed.value);
      }
      r := Ok(());
    }

    /** `initiate_game` after the board setup: scores at zero, then the score file read. */
    method InitiateGame() returns (r: Result<()>)
      modifies this
      ensures scores == ZeroScores(old(scores), board.teams)
      ensures var spec := ReadScoreFile(board.teams, ZeroScores(old(overallScores), board.teams), scoreFile);
        && overallScores == spec.0
        && (r.Err? <==> spec.1.Some?)
      ensures log == old(log) && tick == old(tick) && scoreFile == old(scoreFile)
    {
      SetScores();
      r := ReadScores();
    }

    /** `end_game` */
    method EndGame() returns (r: Result<()>)
      requires forall t | t in board.teams :: t in scores
      modifies this
      ensures log == old(log) && tick == old(tick) && scores == old(scores) && overallScores == old(overallScores)
      ensures var spec := GameScores(cfg.winningBonus, SortDesc(Standings(board.teams, scores)));
        && (r.Ok? <==> spec.Ok?)
        && (r.Ok? ==> scoreFile == Some(Appended(old(scoreFile), ScoreText(spec.value))))
    {
      r := WriteScores();
    }
  }
}
