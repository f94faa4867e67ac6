// Order resolution of the earlier revision.  Its resolvers follow the same branches as the
// current ones over the same helpers (`_try_put_actor`, `_check_flag_return_conditions`,
// `_check_capture_conditions`, `_respawn`), but report only a success flag and a team, and
// its destroy adds the wall it should remove.

module LegacyActions {
  import opened Wrappers
  import opened Data
  import opened Computations
  import opened Actions

  // ---------------------------------------------------------------------------------------
  // The catalogue as the earlier revision reports it

  /** The earlier `ActorProperty`: the class name, grab and attack. */
  datatype LegacyActorProperty = LegacyActorProperty(typeName: string, grab: real, attack: real)

  /** `Actor.get_properties` of the earlier revision. */
  function LegacyGetProperties(k: ActorKind): (p: LegacyActorProperty)
    ensures p.typeName == KindName(k)
    ensures p.grab > 0.0 <==> k == Generalist || k == Runner
    ensures p.attack > 0.0 <==> k == Generalist || k == Attacker
  {
    var c := Capabilities(k);
    LegacyActorProperty(KindName(k), c.grab, c.attack)
  }

  /** The earlier report is the current one without the build and destroy values: builders,
      destroyers and guardians all report no grab and no attack. */
  lemma LegacyPropertiesOmitBuildAndDestroy(k: ActorKind)
    ensures var p := GetProperties(k); LegacyGetProperties(k) == LegacyActorProperty(p.typeName, p.grab, p.attack)
    ensures k == Builder || k == Destroyer || k == Guardian ==>
      LegacyGetProperties(k).grab == 0.0 && LegacyGetProperties(k).attack == 0.0
  {
  }

  // ---------------------------------------------------------------------------------------
  // Directions between board objects

  /** An end of `calc_target_direction`: a cell given as such, or a board object. */
  datatype Place = Cell(c: Coord) | Thing(o: Occupant)

  function PlaceCoordinates(L: Layout, s: BoardState, p: Place): Result<Coord>
    requires LayoutValid(L) && Keyed(L, s)
  {
    match p
    case Cell(c) => Ok(c)
    case Thing(o) => BoardObjectsCoordinates(L, s, o)
  }

  /** `calc_target_direction`: the directions from one place toward another.  Looking up a
      wall's coordinates fails (the local is never bound) before any direction is computed. */
  function CalcTargetDirection(L: Layout, s: BoardState, origin: Place, target: Place): (r: Result<seq<Direction>>)
    requires LayoutValid(L) && Keyed(L, s)
    ensures r.Ok? <==> PlaceCoordinates(L, s, origin).Ok? && PlaceCoordinates(L, s, target).Ok?
    ensures origin == Thing(WallHere) ==> r == Err(UnboundLocalError)
    ensures target == Thing(WallHere) && PlaceCoordinates(L, s, origin).Ok? ==> r == Err(UnboundLocalError)
    ensures r.Ok? ==> 1 <= |r.value| <= 2
  {
    match PlaceCoordinates(L, s, origin)
    case Err(e) => Err(e)
    case Ok(from) =>
      match PlaceCoordinates(L, s, target)
      case Err(e) => Err(e)
      case Ok(to) => Ok(CalcTargetCoordinateDirection(from, to))
  }

  /** An actor heading for a flag elsewhere: every direction offered brings it one step
      closer. */
  lemma CalcTargetDirectionApproaches(L: Layout, s: BoardState, a: ActorId, f: TeamName)
    requires LayoutValid(L) && Keyed(L, s) && a in s.actors && f in s.flags
    requires s.actors[a] != s.flags[f]
    ensures var r := CalcTargetDirection(L, s, Thing(ActorHere(a)), Thing(FlagHere(f)));
      && r.Ok?
      && forall d | d in r.value :: Distance(Step(s.actors[a], d), s.flags[f]) == Distance(s.actors[a], s.flags[f]) - 1
  {
    CalcTargetCoordinateDirectionApproaches(s.actors[a], s.flags[f]);
  }

  // ---------------------------------------------------------------------------------------
  // The resolvers

  /** What an earlier resolver leaves: the board, the random source, its success flag and
      the team it credits. */
  datatype LegacyOutcome = LegacyOutcome(state: BoardState, rnd: Random, done: bool, team: Option<TeamName>)

  /** The current outcome without its record. */
  function WithoutRecord(o: Outcome): LegacyOutcome {
    LegacyOutcome(o.state, o.rnd, o.res.done, o.res.team)
  }

  /** `move`: `(moved, team_that_captured)`. */
  function LegacyMove(L: Layout, s: BoardState, hfr: bool, rnd: Random, a: ActorId, d: Direction): (r: LegacyOutcome)
    requires WellFormed(L, s) && a in s.actors
    ensures r.rnd == rnd && (r.team.Some? ==> r.done)
  {
    var (s1, moved) := TryPut(L, s, a, Target(L, s, a, d));
    if moved then
      var (s2, team) := FlagReturn(L, s1, hfr, a);
      LegacyOutcome(s2, rnd, true, team)
    else LegacyOutcome(s1, rnd, false, None)
  }

  /** `attack`: `(attacked, team_that_killed)`; the IndexError of a respawn without room
      escapes. */
  function LegacyAttack(L: Layout, s: BoardState, rnd: Random, a: ActorId, d: Direction): (r: Result<LegacyOutcome>)
    requires WellFormed(L, s) && a in s.actors
    ensures r.Ok? && r.value.team.Some? ==> r.value.done && r.value.team.value == a.team
  {
    if Capabilities(a.kind).attack == 0.0 then Ok(LegacyOutcome(s, rnd, false, None))
    else
      var tgt := Target(L, s, a, d);
      var victim := ActorAt(L, s, tgt);
      if victim.None? then Ok(LegacyOutcome(s, rnd, false, None))
      else
        var (draw, rnd1) := NextDraw(rnd);
        if !Succeeds(draw, Capabilities(a.kind).attack) then Ok(LegacyOutcome(s, rnd1, true, None))
        else
          match Respawn(L, s, rnd1, victim.value)
          case Err(e) => Err(e)
          case Ok((s2, rnd2)) => Ok(LegacyOutcome(s2, rnd2, true, Some(a.team)))
  }

  /** `build`: `built`. */
  function LegacyBuild(L: Layout, s: BoardState, rnd: Random, a: ActorId, d: Direction): (r: LegacyOutcome)
    requires WellFormed(L, s) && a in s.actors
    ensures r.team.None?
  {
    if Capabilities(a.kind).build == 0.0 then LegacyOutcome(s, rnd, false, None)
    else
      var tgt := Target(L, s, a, d);
      var illegal := ActorAt(L, s, tgt).Some? || BaseAt(L, tgt).Some? || FlagAt(L, s, tgt).Some? || tgt in s.walls;
      if illegal then LegacyOutcome(s, rnd, false, None)
      else
        var (draw, rnd1) := NextDraw(rnd);
        if !Succeeds(draw, Capabilities(a.kind).build) then LegacyOutcome(s, rnd1, true, None)
        else LegacyOutcome(s.(walls := s.walls + {tgt}), rnd1, true, None)
  }

  /** `destroy` as written: a successful trial adds the target to the walls. */
  function LegacyDestroy(L: Layout, s: BoardState, rnd: Random, a: ActorId, d: Direction): (r: LegacyOutcome)
    requires WellFormed(L, s) && a in s.actors
    ensures r.team.None?
  {
    if Capabilities(a.kind).destroy == 0.0 then LegacyOutcome(s, rnd, false, None)
    else
      var tgt := Target(L, s, a, d);
      if tgt !in s.walls then LegacyOutcome(s, rnd, false, None)
      else
        var (draw, rnd1) := NextDraw(rnd);
        if !Succeeds(draw, Capabilities(a.kind).destroy) then LegacyOutcome(s, rnd1, true, None)
        else LegacyOutcome(s.(walls := s.walls + {tgt}), rnd1, true, None)
  }

  /** The carrier's branch of `grabput_flag`: hand the flag to the actor on the target cell
      if it can carry and carries nothing, else put it down there unless a wall stands
      there. */
  function LegacyPut(L: Layout, s: BoardState, hfr: bool, a: ActorId, tgt: Coord): (r: (BoardState, bool, Option<TeamName>))
    requires WellFormed(L, s) && a in s.actors && s.carried[a].Some?
    ensures !r.1 ==> r.0 == s && r.2.None?
  {
    var f := s.carried[a].value;
    var targetActor := ActorAt(L, s, tgt);
    if targetActor.Some? then
      var b := targetActor.value;
      if Capabilities(b.kind).grab == 0.0 || s.carried[b].Some? then (s, false, None)
      else
        var (s1, team) := FlagReturn(L, HandOver(L, s, a, b, f, tgt), hfr, b);
        (s1, true, team)
    else if tgt in s.walls then (s, false, None)
    else
      var (s1, team) := CheckCapture(L, Drop(L, s, a, f, tgt), hfr, Some(f));
      (s1, true, team)
  }

  /** The other branch of `grabput_flag`: grab the flag reported on the target cell if the
      trial succeeded. */
  function LegacyGrab(L: Layout, s: BoardState, hfr: bool, a: ActorId, tgt: Coord, success: bool)
    : (r: (BoardState, bool, Option<TeamName>))
    requires WellFormed(L, s) && a in s.actors
    ensures !r.1 ==> r.0 == s && r.2.None?
  {
    var flag := FlagAt(L, s, tgt);
    if flag.None? || !success then (s, false, None)
    else
      var (s1, team) := FlagReturn(L, Grab(L, s, a, flag.value, ActorAt(L, s, tgt)), hfr, a);
      (s1, true, team)
  }

  /** `grabput_flag`: `(already_grabbed, team_that_captured)`.  One value is drawn in every
      case. */
  function LegacyGrabPut(L: Layout, s: BoardState, hfr: bool, rnd: Random, a: ActorId, d: Direction): (r: LegacyOutcome)
    requires WellFormed(L, s) && a in s.actors
    ensures r.rnd == rnd.(drawn := rnd.drawn + 1)
  {
    var tgt := Target(L, s, a, d);
    var (draw, rnd1) := NextDraw(rnd);
    var (s1, done, team) :=
      if s.carried[a].Some? then LegacyPut(L, s, hfr, a, tgt)
      else LegacyGrab(L, s, hfr, a, tgt, Succeeds(draw, Capabilities(a.kind).grab));
    LegacyOutcome(s1, rnd1, done, team)
  }

  // ---------------------------------------------------------------------------------------
  // The earlier resolvers against the current ones

  /** The earlier move is the current one without its record. */
  lemma LegacyMoveIsCurrent(L: Layout, s: BoardState, hfr: bool, rnd: Random, a: ActorId, d: Direction)
    requires WellFormed(L, s) && a in s.actors
    ensures var (s1, res) := MoveResult(L, s, hfr, a, d);
      LegacyMove(L, s, hfr, rnd, a, d) == LegacyOutcome(s1, rnd, res.done, res.team)
  {
  }

  /** The earlier attack is the current one without its record. */
  lemma LegacyAttackIsCurrent(L: Layout, s: BoardState, rnd: Random, a: ActorId, d: Direction)
    requires WellFormed(L, s) && a in s.actors
    ensures var r := AttackResult(L, s, rnd, a, d);
      && (LegacyAttack(L, s, rnd, a, d).Ok? <==> r.Ok?)
      && (r.Err? ==> LegacyAttack(L, s, rnd, a, d) == Err(r.error))
      && (r.Ok? ==> LegacyAttack(L, s, rnd, a, d) == Ok(WithoutRecord(r.value)))
  {
  }

  /** The earlier build is the current one without its record. */
  lemma LegacyBuildIsCurrent(L: Layout, s: BoardState, rnd: Random, a: ActorId, d: Direction)
    requires WellFormed(L, s) && a in s.actors
    ensures LegacyBuild(L, s, rnd, a, d) == WithoutRecord(BuildResult(L, s, rnd, a, d))
  {
  }

  /** The earlier put and grab are the current ones without their records. */
  lemma LegacyPutIsCurrent(L: Layout, s: BoardState, hfr: bool, a: ActorId, tgt: Coord)
    requires WellFormed(L, s) && a in s.actors && s.carried[a].Some?
    ensures var (s1, res) := PutResult(L, s, hfr, a, tgt); LegacyPut(L, s, hfr, a, tgt) == (s1, res.done, res.team)
  {
    var f := s.carried[a].value;
    var targetActor := ActorAt(L, s, tgt);
    if targetActor.Some? {
      var b := targetActor.value;
      if Capabilities(b.kind).grab != 0.0 && s.carried[b].None? {
        var (s1, team) := FlagReturn(L, HandOver(L, s, a, b, f, tgt), hfr, b);
        assert PutResult(L, s, hfr, a, tgt) == (s1, Resolution(true, team, Some(PutAction(a, tgt, f, Some(b)))));
      }
    } else if tgt !in s.walls {
      var (s1, team) := CheckCapture(L, Drop(L, s, a, f, tgt), hfr, Some(f));
      assert PutResult(L, s, hfr, a, tgt) == (s1, Resolution(true, team, Some(PutAction(a, tgt, f, None))));
    }
  }

  lemma LegacyGrabIsCurrent(L: Layout, s: BoardState, hfr: bool, a: ActorId, tgt: Coord, success: bool)
    requires WellFormed(L, s) && a in s.actors
    ensures var (s1, res) := GrabResult(L, s, hfr, a, tgt, success);
      LegacyGrab(L, s, hfr, a, tgt, success) == (s1, res.done, res.team)
  {
  }

  /** The earlier grab/put is the current one without its record. */
  lemma LegacyGrabPutIsCurrent(L: Layout, s: BoardState, hfr: bool, rnd: Random, a: ActorId, d: Direction)
    requires WellFormed(L, s) && a in s.actors
    ensures LegacyGrabPut(L, s, hfr, rnd, a, d) == WithoutRecord(GrabPutResult(L, s, hfr, rnd, a, d))
  {
    var tgt := Target(L, s, a, d);
    if s.carried[a].Some? {
      LegacyPutIsCurrent(L, s, hfr, a, tgt);
    } else {
      LegacyGrabIsCurrent(L, s, hfr, a, tgt, Succeeds(rnd.draws(rnd.drawn), Capabilities(a.kind).grab));
    }
  }

  /** As written, destroy never changes the board: it reports a trial on a wall as done, and
      a successful one leaves the wall standing where the current revision removes it. */
  lemma LegacyDestroyKeepsWalls(L: Layout, s: BoardState, rnd: Random, a: ActorId, d: Direction)
    requires WellFormed(L, s) && a in s.actors
    ensures var r := LegacyDestroy(L, s, rnd, a, d);
      var tgt := Target(L, s, a, d);
      && r.state == s
      && (r.done <==> Capabilities(a.kind).destroy > 0.0 && tgt in s.walls)
      && (DestroyResult(L, s, rnd, a, d).res.action.Some? ==>
            tgt in r.state.walls && tgt !in DestroyResult(L, s, rnd, a, d).state.walls)
  {
    var tgt := Target(L, s, a, d);
    DestroyRemovesWall(L, s, rnd, a, d);
    if Capabilities(a.kind).destroy != 0.0 && tgt in s.walls {
      assert s.walls + {tgt} == s.walls;
    }
  }

  /** Every earlier resolver keeps the board invariant. */
  lemma LegacyMovePreservesValid(L: Layout, s: BoardState, hfr: bool, rnd: Random, a: ActorId, d: Direction)
    requires BoardValid(L, s) && a in s.actors
    ensures BoardValid(L, LegacyMove(L, s, hfr, rnd, a, d).state)
  {
    LegacyMoveIsCurrent(L, s, hfr, rnd, a, d);
    MovePreservesValid(L, s, hfr, a, d);
  }

  lemma LegacyAttackPreservesValid(L: Layout, s: BoardState, rnd: Random, a: ActorId, d: Direction)
    requires BoardValid(L, s) && a in s.actors
    ensures var r := LegacyAttack(L, s, rnd, a, d); r.Ok? ==> BoardValid(L, r.value.state)
  {
    LegacyAttackIsCurrent(L, s, rnd, a, d);
    AttackPreservesValid(L, s, rnd, a, d);
  }

  lemma LegacyGrabPutPreservesValid(L: Layout, s: BoardState, hfr: bool, rnd: Random, a: ActorId, d: Direction)
    requires BoardValid(L, s) && a in s.actors
    ensures BoardValid(L, LegacyGrabPut(L, s, hfr, rnd, a, d).state)
  {
    LegacyGrabPutIsCurrent(L, s, hfr, rnd, a, d);
    GrabPutPreservesValid(L, s, hfr, rnd, a, d);
  }

  lemma LegacyBuildPreservesValid(L: Layout, s: BoardState, rnd: Random, a: ActorId, d: Direction)
    requires BoardValid(L, s) && a in s.actors
    ensures BoardValid(L, LegacyBuild(L, s, rnd, a, d).state)
  {
    LegacyBuildIsCurrent(L, s, rnd, a, d);
    BuildPreservesValid(L, s, rnd, a, d);
  }

  // ---------------------------------------------------------------------------------------
  // The resolvers performed in place

  /** The earlier `BoardActions`.  Its move, attack, grab/put and build run the same
      in-place procedures as the current class, which it holds as `shared`, and drop the
      record; its destroy is its own. */
  class LegacyBoardActions {
    const shared: BoardActions

    constructor (board: Board, homeFlagRequired: bool, rnd: Random)
      ensures fresh(shared)
      ensures shared.board == board && shared.homeFlagRequired == homeFlagRequired && shared.rnd == rnd
    {
      shared := new BoardActions(board, homeFlagRequired, rnd);
    }

    /** `move` */
    method Move(a: ActorId, d: Direction) returns (moved: bool, team: Option<TeamName>)
      requires shared.board.Valid() && a in shared.board.actors
      modifies shared.board
      ensures shared.board.Valid()
      ensures var r := LegacyMove(shared.board.Fixed(), old(shared.board.Current()), shared.homeFlagRequired, shared.rnd, a, d);
        shared.board.Current() == r.state && moved == r.done && team == r.team
    {
      LegacyMoveIsCurrent(shared.board.Fixed(), shared.board.Current(), shared.homeFlagRequired, shared.rnd, a, d);
      var action;
      moved, team, action := shared.Move(a, d);
    }

    /** `attack`; the IndexError of a respawn without room escapes. */
    method Attack(a: ActorId, d: Direction) returns (r: Result<(bool, Option<TeamName>)>)
      requires shared.board.Valid() && a in shared.board.actors
      modifies shared, shared.board
      ensures var spec := LegacyAttack(shared.board.Fixed(), old(shared.board.Current()), old(shared.rnd), a, d);
        && (r.Err? <==> spec.Err?)
        && (spec.Err? ==> r.error == spec.error && shared.board.Current() == old(shared.board.Current()))
        && (spec.Ok? ==> shared.board.Valid() && shared.board.Current() == spec.value.state
                         && shared.rnd == spec.value.rnd && r.value == (spec.value.done, spec.value.team))
    {
      LegacyAttackIsCurrent(shared.board.Fixed(), shared.board.Current(), shared.rnd, a, d);
      var res := shared.Attack(a, d);
      if res.Err? {
        return Err(res.error);
      }
      r := Ok((res.value.done, res.value.team));
    }

    /** `grabput_flag` */
    method GrabPutFlag(a: ActorId, d: Direction) returns (grabbed: bool, team: Option<TeamName>)
      requires shared.board.Valid() && a in shared.board.actors
      modifies shared, shared.board
      ensures shared.board.Valid()
      ensures var r := LegacyGrabPut(shared.board.Fixed(), old(shared.board.Current()), shared.homeFlagRequired, old(shared.rnd), a, d);
        shared.board.Current() == r.state && shared.rnd == r.rnd && grabbed == r.done && team == r.team
    {
      LegacyGrabPutIsCurrent(shared.board.Fixed(), shared.board.Current(), shared.homeFlagRequired, shared.rnd, a, d);
      var action;
      grabbed, team, action := shared.GrabPutFlag(a, d);
    }

    /** `build` */
    method Build(a: ActorId, d: Direction) returns (built: bool)
      requires shared.board.Valid() && a in shared.board.actors
      modifies shared, shared.board
      ensures shared.board.Valid()
      ensures var r := LegacyBuild(shared.board.Fixed(), old(shared.board.Current()), old(shared.rnd), a, d);
        shared.board.Current() == r.state && shared.rnd == r.rnd && built == r.done
    {
      LegacyBuildIsCurrent(shared.board.Fixed(), shared.board.Current(), shared.rnd, a, d);
      var action;
      built, action := shared.Build(a, d);
    }

    /** `destroy` as written: a successful trial adds the target cell to the walls, which
        already hold it. */
    method Destroy(a: ActorId, d: Direction) returns (destroyed: bool)
      requires shared.board.Valid() && a in shared.board.actors
      modifies shared, shared.board
      ensures shared.board.Valid()
      ensures var r := LegacyDestroy(shared.board.Fixed(), old(shared.board.Current()), old(shared.rnd), a, d);
        shared.board.Current() == r.state && shared.rnd == r.rnd && destroyed == r.done
    {
      LegacyDestroyKeepsWalls(shared.board.Fixed(), shared.board.Current(), shared.rnd, a, d);
      destroyed := false;
      if Capabilities(a.kind).destroy == 0.0 {
        return;
      }
      var target := Target(shared.board.Fixed(), shared.board.Current(), a, d);
      if target !in shared.board.walls {
        return;
      }
      var draw := shared.RandomRandom();
      destroyed := true;
      if Succeeds(draw, Capabilities(a.kind).destroy) {
        shared.board.walls := shared.board.walls + {target};
      }
    }
  }
}
