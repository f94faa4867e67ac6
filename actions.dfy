// Order resolution of the current revision: move, attack, grab/put, build and destroy, with
// the respawn, flag-return and capture rules.  Each resolver is specified by a function on
// the board value (layout plus state); class BoardActions performs it in place on a Board.

module Actions {
  import opened Wrappers
  import opened Data
  import opened Computations

  /** The action records kept in the game log. */
  datatype Action =
    | MoveAction(actor: ActorId, destination: Coord, origin: Coord)
    | AttackAction(actor: ActorId, destination: Coord, target: ActorId)
    | GrabAction(actor: ActorId, destination: Coord, flag: TeamName, partner: Option<ActorId>)
    | PutAction(actor: ActorId, destination: Coord, flag: TeamName, partner: Option<ActorId>)
    | DestroyAction(actor: ActorId, destination: Coord)
    | BuildAction(actor: ActorId, destination: Coord)

  // ---------------------------------------------------------------------------------------
  // Randomness, supplied from outside

  /** A value of `random.random()`. */
  type Draw = r: real | 0.0 <= r < 1.0 witness 0.0

  /** The successive values `random.random()` returns and the successive indices
      `random.choice` picks (reduced modulo the length of the list), with how many of
      each have been used. */
  datatype Random = Random(draws: nat -> Draw, picks: nat -> nat, drawn: nat, picked: nat)

  function NextDraw(rnd: Random): (r: (Draw, Random))
    ensures r.1 == rnd.(drawn := rnd.drawn + 1)
  {
    (rnd.draws(rnd.drawn), rnd.(drawn := rnd.drawn + 1))
  }

  function Choice(rnd: Random, n: nat): (r: (nat, Random))
    requires n > 0
    ensures r.0 < n && r.1 == rnd.(picked := rnd.picked + 1)
  {
    (rnd.picks(rnd.picked) % n, rnd.(picked := rnd.picked + 1))
  }

  /** `random.random() < p` */
  predicate Succeeds(draw: Draw, p: real) {
    draw < p
  }

  /** A capability of 0 never succeeds and one of 1 always does. */
  lemma SucceedsAtTheExtremes(draw: Draw)
    ensures !Succeeds(draw, 0.0) && Succeeds(draw, 1.0)
  {
  }

  // ---------------------------------------------------------------------------------------
  // Outcomes

  /** What a resolver returns: whether it counts as done, the team it credits, the record. */
  datatype Resolution = Resolution(done: bool, team: Option<TeamName>, action: Option<Action>)

  datatype Outcome = Outcome(state: BoardState, rnd: Random, res: Resolution)

  const Rejected := Resolution(false, None, None)

  function Target(L: Layout, s: BoardState, a: ActorId, d: Direction): Coord
    requires a in s.actors
  {
    CalcTargetCoordinates(s.actors[a], d, L.mapSize)
  }

  // ---------------------------------------------------------------------------------------
  // The changes the resolvers make to the board, and why each keeps it valid

  /** `_return_flag_to_base` */
  function FlagToBase(L: Layout, s: BoardState, f: TeamName): (r: BoardState)
    requires WellFormed(L, s) && f in s.flags
    ensures Keyed(L, r) && r.flags[f] == L.bases[f]
  {
    KeyedAfterFlagUpdate(L, s, f, L.bases[f]);
    s.(flags := s.flags[f := L.bases[f]])
  }

  /** Actor `a` hands flag `f` to actor `b`, which stands on `c`. */
  function HandOver(L: Layout, s: BoardState, a: ActorId, b: ActorId, f: TeamName, c: Coord): (r: BoardState)
    requires Keyed(L, s) && a in s.actors && b in s.actors && f in s.flags
    ensures Keyed(L, r)
  {
    KeyedAfterFlagUpdate(L, s, f, c);
    var s1 := s.(flags := s.flags[f := c]);
    KeyedAfterCarryUpdate(L, s1, a, None);
    var s2 := s1.(carried := s1.carried[a := None]);
    KeyedAfterCarryUpdate(L, s2, b, Some(f));
    s2.(carried := s2.carried[b := Some(f)])
  }

  /** Actor `a` drops flag `f` on `c`. */
  function Drop(L: Layout, s: BoardState, a: ActorId, f: TeamName, c: Coord): (r: BoardState)
    requires Keyed(L, s) && a in s.actors && f in s.flags
    ensures Keyed(L, r)
  {
    KeyedAfterFlagUpdate(L, s, f, c);
    var s1 := s.(flags := s.flags[f := c]);
    KeyedAfterCarryUpdate(L, s1, a, None);
    s1.(carried := s1.carried[a := None])
  }

  /** Actor `a` takes flag `f` to its own cell; the actor that held it, if any, loses it. */
  function Grab(L: Layout, s: BoardState, a: ActorId, f: TeamName, holder: Option<ActorId>): (r: BoardState)
    requires Keyed(L, s) && a in s.actors && f in s.flags && (holder.Some? ==> holder.value in s.actors)
    ensures Keyed(L, r)
  {
    KeyedAfterFlagUpdate(L, s, f, s.actors[a]);
    var s1 := s.(flags := s.flags[f := s.actors[a]]);
    KeyedAfterCarryUpdate(L, s1, a, Some(f));
    var s2 := s1.(carried := s1.carried[a := Some(f)]);
    if holder.Some? then
      KeyedAfterCarryUpdate(L, s2, holder.value, None);
      s2.(carried := s2.carried[holder.value := None])
    else s2
  }

  /** Actor `a` stops carrying. */
  function ClearCarry(L: Layout, s: BoardState, a: ActorId): (r: BoardState)
    requires Keyed(L, s) && a in s.actors
    ensures Keyed(L, r)
  {
    KeyedAfterCarryUpdate(L, s, a, None);
    s.(carried := s.carried[a := None])
  }

  /** Actor `v` is placed on `c` without its flag. */
  function Relocate(L: Layout, s: BoardState, v: ActorId, c: Coord): (r: BoardState)
    requires Keyed(L, s) && v in s.actors
    ensures Keyed(L, r)
  {
    KeyedAfterActorUpdate(L, s, v, c);
    var s1 := s.(actors := s.actors[v := c]);
    KeyedAfterCarryUpdate(L, s1, v, None);
    s1.(carried := s1.carried[v := None])
  }

  /** Handing over moves the link from the giver to the receiver and the flag to the
      receiver's cell. */
  lemma HandOverCarriers(L: Layout, s: BoardState, a: ActorId, b: ActorId, f: TeamName)
    requires BoardValid(L, s) && a in s.actors && b in s.actors && a != b
    requires s.carried[a] == Some(f) && s.carried[b] == None
    ensures FlagsWithCarriers(HandOver(L, s, a, b, f, s.actors[b]))
  {
    var r := HandOver(L, s, a, b, f, s.actors[b]);
    forall o | o in r.carried && o in r.actors && r.carried[o].Some? && r.carried[o].value in r.flags
      ensures r.flags[r.carried[o].value] == r.actors[o]
    {
      if o != a && o != b {
        assert s.carried[o] == r.carried[o];
        assert s.carried[o] != s.carried[a];
      }
    }
  }

  lemma ValidAfterHandOver(L: Layout, s: BoardState, a: ActorId, b: ActorId, f: TeamName)
    requires BoardValid(L, s) && a in s.actors && b in s.actors && a != b
    requires s.carried[a] == Some(f) && s.carried[b] == None
    ensures BoardValid(L, HandOver(L, s, a, b, f, s.actors[b]))
  {
    var r := HandOver(L, s, a, b, f, s.actors[b]);
    HandOverCarriers(L, s, a, b, f);
    assert r.actors == s.actors && r.walls == s.walls && r.flags == s.flags[f := s.actors[b]];
    ValidAfterFlagsMoved(L, s, r);
  }

  /** A dropped flag has no carrier left. */
  lemma DropCarriers(L: Layout, s: BoardState, a: ActorId, f: TeamName, c: Coord)
    requires BoardValid(L, s) && a in s.actors && s.carried[a] == Some(f)
    ensures FlagsWithCarriers(Drop(L, s, a, f, c))
  {
    var r := Drop(L, s, a, f, c);
    forall o | o in r.carried && o in r.actors && r.carried[o].Some? && r.carried[o].value in r.flags
      ensures r.flags[r.carried[o].value] == r.actors[o]
    {
      assert s.carried[o] == r.carried[o];
      assert s.carried[o] != s.carried[a];
    }
  }

  lemma ValidAfterDrop(L: Layout, s: BoardState, a: ActorId, f: TeamName, c: Coord)
    requires BoardValid(L, s) && a in s.actors && s.carried[a] == Some(f) && InBounds(c, L.mapSize)
    ensures BoardValid(L, Drop(L, s, a, f, c))
  {
    var r := Drop(L, s, a, f, c);
    DropCarriers(L, s, a, f, c);
    assert r.actors == s.actors && r.walls == s.walls && r.flags == s.flags[f := c];
    ValidAfterFlagsMoved(L, s, r);
  }

  /** After a grab the grabber is the only possible carrier of the flag. */
  lemma GrabCarriers(L: Layout, s: BoardState, a: ActorId, f: TeamName, holder: Option<ActorId>)
    requires Keyed(L, s) && FlagsWithCarriers(s) && a in s.actors && s.carried[a] == None && f in s.flags
    requires holder.Some? ==> holder.value in s.actors
    requires forall b | b in s.carried && s.carried[b] == Some(f) :: holder == Some(b)
    ensures FlagsWithCarriers(Grab(L, s, a, f, holder))
  {
    var r := Grab(L, s, a, f, holder);
    assert r.actors == s.actors && r.flags == s.flags[f := s.actors[a]];
    forall o | o in r.carried && o in r.actors && r.carried[o].Some? && r.carried[o].value in r.flags
      ensures r.flags[r.carried[o].value] == r.actors[o]
    {
      if o != a && holder != Some(o) {
        assert s.carried[o] == r.carried[o];
      }
    }
  }

  lemma ValidAfterGrab(L: Layout, s: BoardState, a: ActorId, f: TeamName, holder: Option<ActorId>)
    requires BoardValid(L, s) && a in s.actors && s.carried[a] == None && f in s.flags
    requires holder.Some? ==> holder.value in s.actors
    requires forall b | b in s.carried && s.carried[b] == Some(f) :: holder == Some(b)
    ensures BoardValid(L, Grab(L, s, a, f, holder))
  {
    var r := Grab(L, s, a, f, holder);
    GrabCarriers(L, s, a, f, holder);
    assert r.actors == s.actors && r.walls == s.walls && r.flags == s.flags[f := s.actors[a]];
    forall t | t in r.flags
      ensures InBounds(r.flags[t], L.mapSize)
    {
      if t != f {
        assert r.flags[t] == s.flags[t];
      }
    }
    ValidAfterFlagsMoved(L, s, r);
  }

  lemma ValidAfterClearCarry(L: Layout, s: BoardState, a: ActorId)
    requires BoardValid(L, s) && a in s.actors
    ensures BoardValid(L, ClearCarry(L, s, a))
  {
    var r := ClearCarry(L, s, a);
    assert r.actors == s.actors && r.walls == s.walls && r.flags == s.flags;
  }

  /** A relocated actor carries nothing. */
  lemma RelocateCarriers(L: Layout, s: BoardState, v: ActorId, c: Coord)
    requires BoardValid(L, s) && v in s.actors
    ensures FlagsWithCarriers(Relocate(L, s, v, c))
  {
    var r := Relocate(L, s, v, c);
    forall o | o in r.carried && o in r.actors && r.carried[o].Some? && r.carried[o].value in r.flags
      ensures r.flags[r.carried[o].value] == r.actors[o]
    {
      assert o != v;
    }
  }

  lemma ValidAfterRelocate(L: Layout, s: BoardState, v: ActorId, c: Coord)
    requires BoardValid(L, s) && v in s.actors && InBounds(c, L.mapSize)
    requires c !in s.walls && c !in L.bases.Values
    requires forall b | b in s.actors :: s.actors[b] != c
    ensures BoardValid(L, Relocate(L, s, v, c))
  {
    var r := Relocate(L, s, v, c);
    RelocateCarriers(L, s, v, c);
    assert r.walls == s.walls && r.flags == s.flags;
  }

  // ---------------------------------------------------------------------------------------
  // Putting an actor on a cell

  /** `_try_put_actor` */
  function TryPut(L: Layout, s: BoardState, a: ActorId, tgt: Coord): (r: (BoardState, bool))
    requires WellFormed(L, s) && a in s.actors
    ensures Keyed(L, r.0)
  {
    if s.actors[a] == tgt then (s, false)
    else if ActorAt(L, s, tgt).Some? then (s, false)
    else if BaseAt(L, tgt).Some? then (s, false)
    else if tgt in s.walls then (s, false)
    else
      KeyedAfterActorUpdate(L, s, a, tgt);
      var s1 := s.(actors := s.actors[a := tgt]);
      if s.carried[a].Some? then
        KeyedAfterFlagUpdate(L, s1, s.carried[a].value, tgt);
        (s1.(flags := s1.flags[s.carried[a].value := tgt]), true)
      else (s1, true)
  }

  /** An actor is put on a cell exactly when it is another cell holding no actor, base or
      wall; otherwise nothing changes. */
  lemma TryPutSucceeds(L: Layout, s: BoardState, a: ActorId, tgt: Coord)
    requires WellFormed(L, s) && a in s.actors
    ensures var r := TryPut(L, s, a, tgt);
      && (r.1 <==> tgt != s.actors[a] && (forall b | b in s.actors :: s.actors[b] != tgt)
                   && tgt !in L.bases.Values && tgt !in s.walls)
      && (!r.1 ==> r.0 == s)
  {
  }

  /** A successful put moves the actor and the flag it carries, and nothing else. */
  lemma TryPutEffect(L: Layout, s: BoardState, a: ActorId, tgt: Coord)
    requires WellFormed(L, s) && a in s.actors
    ensures var r := TryPut(L, s, a, tgt);
      && (r.1 ==> r.0.actors == s.actors[a := tgt] && r.0.carried == s.carried && r.0.walls == s.walls)
      && (r.1 && s.carried[a].Some? ==> r.0.flags == s.flags[s.carried[a].value := tgt])
      && (r.1 && s.carried[a].None? ==> r.0.flags == s.flags)
  {
  }

  lemma TryPutPreservesValid(L: Layout, s: BoardState, a: ActorId, tgt: Coord)
    requires BoardValid(L, s) && a in s.actors && InBounds(tgt, L.mapSize)
    ensures BoardValid(L, TryPut(L, s, a, tgt).0)
  {
    var (r, moved) := TryPut(L, s, a, tgt);
    TryPutSucceeds(L, s, a, tgt);
    if moved {
      TryPutEffect(L, s, a, tgt);
      ValidAfterStep(L, s, r, a, tgt);
    }
  }

  // ---------------------------------------------------------------------------------------
  // Capture

  /** The frame of a capture sweep: only flags that lie on a base move, each to its own
      team's base; nothing else changes. */
  ghost predicate SweptFrom(L: Layout, s: BoardState, r: BoardState) {
    && r.actors == s.actors && r.carried == s.carried && r.walls == s.walls
    && r.flags.Keys == s.flags.Keys
    && forall t | t in s.flags ::
         r.flags[t] == s.flags[t] || (t in L.bases && r.flags[t] == L.bases[t] && s.flags[t] in L.bases.Values)
  }

  lemma SweptFromTransitive(L: Layout, s: BoardState, m: BoardState, r: BoardState)
    requires SweptFrom(L, s, m) && SweptFrom(L, m, r)
    ensures SweptFrom(L, s, r)
  {
  }

  /** One round of the loop in `_check_capture_conditions`: a flag lying on another team's
      base is captured when home flags are not required or the scoring team's flag is home. */
  function CaptureFlag(L: Layout, s: BoardState, hfr: bool, f: TeamName): (r: (BoardState, Option<TeamName>))
    requires WellFormed(L, s) && f in s.flags
    ensures Keyed(L, r.0) && SweptFrom(L, s, r.0)
    ensures r.1.Some? ==> r.1.value in L.bases
  {
    var base := BaseAt(L, s.flags[f]);
    if base.Some? && f != base.value then
      var scoring := base.value;
      if !hfr || FlagIsAtHome(L, s, scoring) then (FlagToBase(L, s, f), Some(scoring))
      else (s, None)
    else (s, None)
  }

  /** The capture condition without the reverse view: the flag lies on the base of another
      team, whose own flag is home unless that is not required.  A capture sends the flag
      home and credits the team of the base it lay on. */
  lemma CaptureFlagMeaning(L: Layout, s: BoardState, hfr: bool, f: TeamName)
    requires WellFormed(L, s) && f in s.flags
    ensures var r := CaptureFlag(L, s, hfr, f);
      && (r.1.Some? <==> exists u | u in L.bases ::
            u != f && L.bases[u] == s.flags[f] && (!hfr || s.flags[u] == L.bases[u]))
      && (r.1.Some? ==> r.1.value != f && L.bases[r.1.value] == s.flags[f]
                        && r.0 == s.(flags := s.flags[f := L.bases[f]]))
      && (r.1.None? ==> r.0 == s)
  {
    BaseAtExact(L, s.flags[f]);
  }

  /** The loop of `_check_capture_conditions` over `todo`; the team reported is the one of
      the last capture, each capture overwriting the one before. */
  function CaptureSweep(L: Layout, s: BoardState, hfr: bool, todo: seq<TeamName>, captured: Option<TeamName>)
    : (r: (BoardState, Option<TeamName>))
    requires WellFormed(L, s) && forall t | t in todo :: t in s.flags
    ensures Keyed(L, r.0) && SweptFrom(L, s, r.0)
    ensures r.1.Some? ==> r.1 == captured || r.1.value in L.bases
    decreases |todo|
  {
    if todo == [] then (s, captured)
    else
      var (s1, team) := CaptureFlag(L, s, hfr, todo[0]);
      var r := CaptureSweep(L, s1, hfr, todo[1..], if team.Some? then team else captured);
      SweptFromTransitive(L, s, s1, r.0);
      r
  }

  /** `_check_capture_conditions(flag)`: the given flag only, or every flag in team order. */
  function CheckCapture(L: Layout, s: BoardState, hfr: bool, only: Option<TeamName>): (r: (BoardState, Option<TeamName>))
    requires WellFormed(L, s) && (only.Some? ==> only.value in s.flags)
    ensures Keyed(L, r.0) && SweptFrom(L, s, r.0)
    ensures r.1.Some? ==> r.1.value in L.bases
  {
    CaptureSweep(L, s, hfr, if only.Some? then [only.value] else L.teams, None)
  }

  /** A sweep moves only flags that lie on a base, where no actor stands: so no carried flag
      moves and the board stays valid. */
  lemma ValidAfterSweep(L: Layout, s: BoardState, r: BoardState)
    requires BoardValid(L, s) && Keyed(L, r) && SweptFrom(L, s, r)
    ensures BoardValid(L, r)
  {
    forall o | o in r.carried && o in r.actors && r.carried[o].Some? && r.carried[o].value in r.flags
      ensures r.flags[r.carried[o].value] == r.actors[o]
    {
      assert s.flags[s.carried[o].value] == s.actors[o];
    }
    ValidAfterFlagsMoved(L, s, r);
  }

  /** A sweep never moves a flag that rests on its own base. */
  lemma SweepKeepsHomeFlags(L: Layout, s: BoardState, r: BoardState, t: TeamName)
    requires LayoutValid(L) && SweptFrom(L, s, r) && t in s.flags && t in L.bases && s.flags[t] == L.bases[t]
    ensures r.flags[t] == L.bases[t]
  {
  }

  // ---------------------------------------------------------------------------------------
  // Flag return

  /** `_check_flag_return_conditions(actor)` */
  function FlagReturn(L: Layout, s: BoardState, hfr: bool, a: ActorId): (r: (BoardState, Option<TeamName>))
    requires WellFormed(L, s) && a in s.actors
    ensures Keyed(L, r.0)
    ensures r.0.actors == s.actors && r.0.walls == s.walls
    ensures r.1.Some? ==> r.1.value in L.bases
  {
    var flag := FlagAt(L, s, s.actors[a]);
    if flag.Some? && flag.value == a.team then
      var (s1, team) := CaptureSweep(L, FlagToBase(L, s, flag.value), hfr, L.teams, None);
      if s1.carried[a].Some? then (ClearCarry(L, s1, a), team) else (s1, team)
    else (s, None)
  }

  /** Anywhere but on its own team's reported flag, an actor returns nothing. */
  lemma FlagReturnElsewhere(L: Layout, s: BoardState, hfr: bool, a: ActorId)
    requires WellFormed(L, s) && a in s.actors && FlagAt(L, s, s.actors[a]) != Some(a.team)
    ensures FlagReturn(L, s, hfr, a) == (s, None)
  {
  }

  /** On its own team's reported flag, an actor sends that flag home and stops carrying,
      and the whole board is swept for captures (the team reported is the sweep's). */
  lemma FlagReturnHome(L: Layout, s: BoardState, hfr: bool, a: ActorId)
    requires WellFormed(L, s) && a in s.actors && FlagAt(L, s, s.actors[a]) == Some(a.team)
    ensures var r := FlagReturn(L, s, hfr, a);
      var sweep := CaptureSweep(L, FlagToBase(L, s, a.team), hfr, L.teams, None);
      && r.1 == sweep.1
      && r.0.flags == sweep.0.flags
      && r.0.flags[a.team] == L.bases[a.team]
      && r.0.carried == s.carried[a := None]
  {
    var s0 := FlagToBase(L, s, a.team);
    var sweep := CaptureSweep(L, s0, hfr, L.teams, None);
    SweepKeepsHomeFlags(L, s0, sweep.0, a.team);
    assert sweep.0.carried == s.carried;
    if s.carried[a].None? {
      assert s.carried[a := None] == s.carried;
    }
  }

  /** The returning actor may carry the home flag, and nobody else can: so after the sweep
      and the end of its carry every carried flag is again with its carrier. */
  lemma ReturnKeepsCarriers(L: Layout, s: BoardState, swept: BoardState, r: BoardState, a: ActorId)
    requires BoardValid(L, s) && a in s.actors && a.team in s.flags && s.flags[a.team] == s.actors[a]
    requires SweptFrom(L, s.(flags := s.flags[a.team := L.bases[a.team]]), swept)
    requires r.flags == swept.flags && r.actors == s.actors && r.carried == s.carried[a := None]
    ensures FlagsWithCarriers(r) && forall t | t in r.flags :: InBounds(r.flags[t], L.mapSize)
  {
    var s0 := s.(flags := s.flags[a.team := L.bases[a.team]]);
    forall o | o in r.carried && o in r.actors && r.carried[o].Some? && r.carried[o].value in r.flags
      ensures r.flags[r.carried[o].value] == r.actors[o]
    {
      var g := r.carried[o].value;
      assert o != a && s.carried[o] == Some(g);
      assert s.flags[g] == s.actors[o];
      assert g != a.team;
      assert s0.flags[g] == s.actors[o];
    }
  }

  lemma FlagReturnPreservesValid(L: Layout, s: BoardState, hfr: bool, a: ActorId)
    requires BoardValid(L, s) && a in s.actors
    ensures BoardValid(L, FlagReturn(L, s, hfr, a).0)
  {
    if FlagAt(L, s, s.actors[a]) == Some(a.team) {
      var s0 := FlagToBase(L, s, a.team);
      var sweep := CaptureSweep(L, s0, hfr, L.teams, None);
      var r := FlagReturn(L, s, hfr, a).0;
      FlagReturnHome(L, s, hfr, a);
      ReturnKeepsCarriers(L, s, sweep.0, r, a);
      ValidAfterFlagsMoved(L, s, r);
    }
  }

  // ---------------------------------------------------------------------------------------
  // Respawn

  /** Cell number (`dx`, `dy`) of the 5x5 square centred on `center`. */
  function SquareCell(center: Coord, dx: int, dy: int): Coord {
    Coord(center.x - 2 + dx, center.y - 2 + dy)
  }

  function IfInBounds(c: Coord, mapSize: int): seq<Coord> {
    if InBounds(c, mapSize) then [c] else []
  }

  /** The inner loop of `_respawn`: the first `count` cells of column `dx` that exist. */
  function Column(center: Coord, mapSize: int, dx: int, count: nat): seq<Coord> {
    if count == 0 then []
    else Column(center, mapSize, dx, count - 1) + IfInBounds(SquareCell(center, dx, count - 1), mapSize)
  }

  /** The outer loop of `_respawn`: the first `count` columns. */
  function Columns(center: Coord, mapSize: int, count: nat): seq<Coord> {
    if count == 0 then []
    else Columns(center, mapSize, count - 1) + Column(center, mapSize, count - 1, 5)
  }

  /** `possible_spawn_points`: the cells of the 5x5 square that exist, column by column. */
  function SpawnPoints(center: Coord, mapSize: int): seq<Coord> {
    Columns(center, mapSize, 5)
  }

  lemma {:induction false} ColumnMembership(center: Coord, mapSize: int, dx: int, count: nat, c: Coord)
    ensures c in Column(center, mapSize, dx, count) <==>
      InBounds(c, mapSize) && c.x == center.x - 2 + dx && center.y - 2 <= c.y < center.y - 2 + count
  {
    if count > 0 {
      ColumnMembership(center, mapSize, dx, count - 1, c);
    }
  }

  lemma {:induction false} ColumnsMembership(center: Coord, mapSize: int, count: nat, c: Coord)
    ensures c in Columns(center, mapSize, count) <==>
      InBounds(c, mapSize) && center.x - 2 <= c.x < center.x - 2 + count && center.y - 2 <= c.y < center.y + 3
  {
    if count > 0 {
      ColumnsMembership(center, mapSize, count - 1, c);
      ColumnMembership(center, mapSize, count - 1, 5, c);
    }
  }

  /** The spawn area: the cells of the map at most two columns and two rows from the centre. */
  lemma SpawnPointsMeaning(center: Coord, mapSize: int, c: Coord)
    ensures c in SpawnPoints(center, mapSize) <==>
      InBounds(c, mapSize) && Abs(c.x - center.x) <= 2 && Abs(c.y - center.y) <= 2
  {
    ColumnsMembership(center, mapSize, 5, c);
  }

  /** `set(possible_spawn_points) - set(forbidden_positions)`, listed in scan order. */
  function FreeCells(points: seq<Coord>, forbidden: set<Coord>): (r: seq<Coord>)
    ensures forall c :: c in r <==> c in points && c !in forbidden
  {
    if points == [] then []
    else (if points[0] in forbidden then [] else [points[0]]) + FreeCells(points[1..], forbidden)
  }

  /** Every position taken by a flag, an actor, a base or a wall. */
  function Forbidden(L: Layout, s: BoardState): set<Coord> {
    s.flags.Values + s.actors.Values + L.bases.Values + s.walls
  }

  /** `_place_actor_in_area`: `random.choice` over the free cells (an empty list raises
      before anything changes); the actor drops the flag it carries, which stays put. */
  function PlaceInArea(L: Layout, s: BoardState, rnd: Random, v: ActorId, points: seq<Coord>, forbidden: set<Coord>)
    : (r: Result<(BoardState, Random)>)
    requires WellFormed(L, s) && v in s.actors
    ensures r.Ok? ==> Keyed(L, r.value.0)
  {
    var allowed := FreeCells(points, forbidden);
    if |allowed| == 0 then Err(IndexError)
    else
      var (k, rnd1) := Choice(rnd, |allowed|);
      Ok((Relocate(L, s, v, allowed[k]), rnd1))
  }

  /** Placing fails with IndexError exactly when every candidate is forbidden; otherwise
      the actor lands on a candidate that is not, and one pick is used. */
  lemma PlaceInAreaMeaning(L: Layout, s: BoardState, rnd: Random, v: ActorId, points: seq<Coord>, forbidden: set<Coord>)
    requires WellFormed(L, s) && v in s.actors
    ensures var r := PlaceInArea(L, s, rnd, v, points, forbidden);
      && (r.Err? <==> forall c | c in points :: c in forbidden)
      && (r.Err? ==> r.error == IndexError)
      && (r.Ok? ==> r.value.1 == rnd.(picked := rnd.picked + 1)
                    && exists c | c in points && c !in forbidden :: r.value.0 == Relocate(L, s, v, c))
  {
    var allowed := FreeCells(points, forbidden);
    if |allowed| == 0 {
      assert forall c | c in points :: c in forbidden;
    } else {
      var k := Choice(rnd, |allowed|).0;
      assert allowed[k] in allowed;
    }
  }

  /** `_respawn` */
  function Respawn(L: Layout, s: BoardState, rnd: Random, v: ActorId): (r: Result<(BoardState, Random)>)
    requires WellFormed(L, s) && v in s.actors
    ensures r.Ok? ==> Keyed(L, r.value.0)
  {
    ActorTeamIsKeyed(L, s, v);
    PlaceInArea(L, s, rnd, v, SpawnPoints(L.bases[v.team], L.mapSize), Forbidden(L, s))
  }

  /** The cells of the map at most two columns and two rows from a centre. */
  ghost predicate NearBase(L: Layout, center: Coord, c: Coord) {
    InBounds(c, L.mapSize) && Abs(c.x - center.x) <= 2 && Abs(c.y - center.y) <= 2
  }

  /** The respawned actor lands, without its flag, on a free cell of the map within two
      columns and two rows of its base; nothing else moves.  With no such cell, IndexError. */
  lemma RespawnMeaning(L: Layout, s: BoardState, rnd: Random, v: ActorId)
    requires WellFormed(L, s) && v in s.actors
    ensures v.team in L.bases
    ensures var r := Respawn(L, s, rnd, v);
      var home := L.bases[v.team];
      && (r.Err? <==> forall c | NearBase(L, home, c) :: c in Forbidden(L, s))
      && (r.Err? ==> r.error == IndexError)
      && (r.Ok? ==> exists c | NearBase(L, home, c) && c !in Forbidden(L, s) :: r.value.0 == Relocate(L, s, v, c))
  {
    ActorTeamIsKeyed(L, s, v);
    var home := L.bases[v.team];
    var points := SpawnPoints(home, L.mapSize);
    PlaceInAreaMeaning(L, s, rnd, v, points, Forbidden(L, s));
    forall c ensures c in points <==> NearBase(L, home, c) {
      SpawnPointsMeaning(home, L.mapSize, c);
    }
  }

  lemma RespawnPreservesValid(L: Layout, s: BoardState, rnd: Random, v: ActorId)
    requires BoardValid(L, s) && v in s.actors
    ensures var r := Respawn(L, s, rnd, v); r.Ok? ==> BoardValid(L, r.value.0)
  {
    var r := Respawn(L, s, rnd, v);
    if r.Ok? {
      RespawnMeaning(L, s, rnd, v);
      var home := L.bases[v.team];
      var c :| NearBase(L, home, c) && c !in Forbidden(L, s) && r.value.0 == Relocate(L, s, v, c);
      assert forall b | b in s.actors :: s.actors[b] != c;
      ValidAfterRelocate(L, s, v, c);
    }
  }

  // ---------------------------------------------------------------------------------------
  // The five resolvers

  /** `move` */
  function MoveResult(L: Layout, s: BoardState, hfr: bool, a: ActorId, d: Direction): (r: (BoardState, Resolution))
    requires WellFormed(L, s) && a in s.actors
    ensures Keyed(L, r.0)
    ensures r.1.team.Some? ==> r.1.team.value in L.bases
  {
    var tgt := Target(L, s, a, d);
    var (s1, moved) := TryPut(L, s, a, tgt);
    if moved then
      var (s2, team) := FlagReturn(L, s1, hfr, a);
      (s2, Resolution(true, team, Some(MoveAction(a, tgt, s.actors[a]))))
    else (s1, Rejected)
  }

  /** A move succeeds exactly when the neighbouring cell exists and holds no actor, base or
      wall; then the mover stands there and the record names both cells; otherwise nothing
      changes. */
  lemma MoveMeaning(L: Layout, s: BoardState, hfr: bool, a: ActorId, d: Direction)
    requires BoardValid(L, s) && a in s.actors
    ensures var r := MoveResult(L, s, hfr, a, d);
      var origin := s.actors[a];
      var free := !AtEdge(origin, d, L.mapSize) && Step(origin, d) !in L.bases.Values
                  && Step(origin, d) !in s.walls && (forall b | b in s.actors :: s.actors[b] != Step(origin, d));
      && (r.1.done <==> free)
      && (!free ==> r == (s, Rejected))
      && (free ==> r.0.actors == s.actors[a := Step(origin, d)] && r.0.walls == s.walls
                   && r.1.action == Some(MoveAction(a, Step(origin, d), origin)))
  {
    TryPutSucceeds(L, s, a, Target(L, s, a, d));
    TryPutEffect(L, s, a, Target(L, s, a, d));
  }

  lemma MovePreservesValid(L: Layout, s: BoardState, hfr: bool, a: ActorId, d: Direction)
    requires BoardValid(L, s) && a in s.actors
    ensures BoardValid(L, MoveResult(L, s, hfr, a, d).0)
  {
    var tgt := Target(L, s, a, d);
    TryPutPreservesValid(L, s, a, tgt);
    var (s1, moved) := TryPut(L, s, a, tgt);
    if moved {
      FlagReturnPreservesValid(L, s1, hfr, a);
    }
  }

  /** `attack` */
  function AttackResult(L: Layout, s: BoardState, rnd: Random, a: ActorId, d: Direction): (r: Result<Outcome>)
    requires WellFormed(L, s) && a in s.actors
    ensures r.Ok? ==> Keyed(L, r.value.state)
    ensures r.Ok? && r.value.res.team.Some? ==> r.value.res.team.value in L.bases
  {
    ActorTeamIsKeyed(L, s, a);
    if Capabilities(a.kind).attack == 0.0 then Ok(Outcome(s, rnd, Rejected))
    else
      var tgt := Target(L, s, a, d);
      var victim := ActorAt(L, s, tgt);
      if victim.None? then Ok(Outcome(s, rnd, Rejected))
      else
        var (draw, rnd1) := NextDraw(rnd);
        if !Succeeds(draw, Capabilities(a.kind).attack) then Ok(Outcome(s, rnd1, Resolution(true, None, None)))
        else
          match Respawn(L, s, rnd1, victim.value)
          case Err(e) => Err(e)
          case Ok((s2, rnd2)) =>
            Ok(Outcome(s2, rnd2, Resolution(true, Some(a.team), Some(AttackAction(a, tgt, victim.value)))))
  }

  /** An actor without attack capability, or facing an empty cell, is rejected without a
      draw; otherwise one value is drawn and a miss changes nothing but still counts. */
  lemma AttackWithoutHit(L: Layout, s: BoardState, rnd: Random, a: ActorId, d: Direction)
    requires BoardValid(L, s) && a in s.actors
    ensures var r := AttackResult(L, s, rnd, a, d);
      var tgt := Target(L, s, a, d);
      var occupied := exists b | b in s.actors :: s.actors[b] == tgt;
      && (Capabilities(a.kind).attack == 0.0 || !occupied ==> r == Ok(Outcome(s, rnd, Rejected)))
      && ((Capabilities(a.kind).attack > 0.0 && occupied && !Succeeds(rnd.draws(rnd.drawn), Capabilities(a.kind).attack))
          ==> r == Ok(Outcome(s, rnd.(drawn := rnd.drawn + 1), Resolution(true, None, None))))
  {
  }

  /** A hit respawns the actor on the target cell (IndexError if its base area is full),
      credits the attacker's team and records the attack. */
  lemma AttackHit(L: Layout, s: BoardState, rnd: Random, a: ActorId, d: Direction, b: ActorId)
    requires BoardValid(L, s) && a in s.actors && b in s.actors && s.actors[b] == Target(L, s, a, d)
    requires Capabilities(a.kind).attack > 0.0 && Succeeds(rnd.draws(rnd.drawn), Capabilities(a.kind).attack)
    ensures var r := AttackResult(L, s, rnd, a, d);
      var respawn := Respawn(L, s, rnd.(drawn := rnd.drawn + 1), b);
      && (r.Err? <==> respawn.Err?)
      && (r.Err? ==> r.error == IndexError)
      && (r.Ok? ==> r.value.state == respawn.value.0 && r.value.rnd == respawn.value.1
                    && r.value.res == Resolution(true, Some(a.team), Some(AttackAction(a, s.actors[b], b))))
  {
    ActorAtExact(L, s, s.actors[b]);
    AttackOnVictim(L, s, rnd, a, d, b);
  }

  lemma AttackOnVictim(L: Layout, s: BoardState, rnd: Random, a: ActorId, d: Direction, b: ActorId)
    requires WellFormed(L, s) && a in s.actors && b in s.actors && ActorAt(L, s, Target(L, s, a, d)) == Some(b)
    requires Capabilities(a.kind).attack > 0.0 && Succeeds(rnd.draws(rnd.drawn), Capabilities(a.kind).attack)
    ensures var r := AttackResult(L, s, rnd, a, d);
      var respawn := Respawn(L, s, rnd.(drawn := rnd.drawn + 1), b);
      && (r.Err? <==> respawn.Err?)
      && (r.Err? ==> r.error == IndexError)
      && (r.Ok? ==> r.value.state == respawn.value.0 && r.value.rnd == respawn.value.1
                    && r.value.res == Resolution(true, Some(a.team), Some(AttackAction(a, Target(L, s, a, d), b))))
  {
    assert NextDraw(rnd) == (rnd.draws(rnd.drawn), rnd.(drawn := rnd.drawn + 1));
  }

  /** At the map edge the target is the attacker's own cell: a hit respawns the attacker
      and still credits its team. */
  lemma AttackAcrossTheEdgeHitsTheAttacker(L: Layout, s: BoardState, rnd: Random, a: ActorId, d: Direction)
    requires BoardValid(L, s) && a in s.actors
    requires AtEdge(s.actors[a], d, L.mapSize) && Capabilities(a.kind).attack > 0.0
    ensures var r := AttackResult(L, s, rnd, a, d);
      r.Ok? && r.value.res.team.Some? ==> r.value.res.action == Some(AttackAction(a, s.actors[a], a))
  {
    var tgt := Target(L, s, a, d);
    assert tgt == s.actors[a];
    ActorAtExact(L, s, tgt);
    if Succeeds(rnd.draws(rnd.drawn), Capabilities(a.kind).attack) {
      AttackOnVictim(L, s, rnd, a, d, a);
    }
  }

  lemma AttackPreservesValid(L: Layout, s: BoardState, rnd: Random, a: ActorId, d: Direction)
    requires BoardValid(L, s) && a in s.actors
    ensures var r := AttackResult(L, s, rnd, a, d); r.Ok? ==> BoardValid(L, r.value.state)
  {
    var victim := ActorAt(L, s, Target(L, s, a, d));
    if Capabilities(a.kind).attack != 0.0 && victim.Some? {
      RespawnPreservesValid(L, s, NextDraw(rnd).1, victim.value);
    }
  }

  /** `build` */
  function BuildResult(L: Layout, s: BoardState, rnd: Random, a: ActorId, d: Direction): (r: Outcome)
    requires WellFormed(L, s) && a in s.actors
    ensures Keyed(L, r.state)
  {
    if Capabilities(a.kind).build == 0.0 then Outcome(s, rnd, Rejected)
    else
      var tgt := Target(L, s, a, d);
      var illegal := ActorAt(L, s, tgt).Some? || BaseAt(L, tgt).Some? || FlagAt(L, s, tgt).Some? || tgt in s.walls;
      if illegal then Outcome(s, rnd, Rejected)
      else
        var (draw, rnd1) := NextDraw(rnd);
        if !Succeeds(draw, Capabilities(a.kind).build) then Outcome(s, rnd1, Resolution(true, None, None))
        else Outcome(s.(walls := s.walls + {tgt}), rnd1, Resolution(true, None, Some(BuildAction(a, tgt))))
  }

  /** Only a builder acts, and only on a cell holding nothing; a trial then counts, and a
      successful one adds exactly that cell to the walls. */
  lemma BuildMeaning(L: Layout, s: BoardState, rnd: Random, a: ActorId, d: Direction)
    requires WellFormed(L, s) && a in s.actors
    ensures var r := BuildResult(L, s, rnd, a, d);
      var tgt := Target(L, s, a, d);
      && (r.res.done <==> Capabilities(a.kind).build > 0.0 && tgt !in Forbidden(L, s))
      && (!r.res.done ==> r == Outcome(s, rnd, Rejected))
      && (r.res.done ==> r.rnd.drawn == rnd.drawn + 1 && r.res.team.None?)
      && (r.res.action.Some? ==> r.state == s.(walls := s.walls + {tgt}) && r.res.action == Some(BuildAction(a, tgt)))
      && (r.res.action.None? ==> r.state == s)
  {
  }

  lemma BuildPreservesValid(L: Layout, s: BoardState, rnd: Random, a: ActorId, d: Direction)
    requires BoardValid(L, s) && a in s.actors
    ensures BoardValid(L, BuildResult(L, s, rnd, a, d).state)
  {
    var r := BuildResult(L, s, rnd, a, d);
    BuildMeaning(L, s, rnd, a, d);
    if r.res.action.Some? {
      var tgt := Target(L, s, a, d);
      assert forall b | b in s.actors :: s.actors[b] != tgt;
    }
  }

  /** `destroy` */
  function DestroyResult(L: Layout, s: BoardState, rnd: Random, a: ActorId, d: Direction): (r: Outcome)
    requires WellFormed(L, s) && a in s.actors
    ensures Keyed(L, r.state)
  {
    if Capabilities(a.kind).destroy == 0.0 then Outcome(s, rnd, Rejected)
    else
      var tgt := Target(L, s, a, d);
      if tgt !in s.walls then Outcome(s, rnd, Rejected)
      else
        var (draw, rnd1) := NextDraw(rnd);
        if !Succeeds(draw, Capabilities(a.kind).destroy) then Outcome(s, rnd1, Resolution(true, None, None))
        else Outcome(s.(walls := s.walls - {tgt}), rnd1, Resolution(true, None, Some(DestroyAction(a, tgt))))
  }

  /** Only a destroyer acts, and only on a wall; a trial then counts, and a successful one
      removes exactly that wall. */
  lemma DestroyRemovesWall(L: Layout, s: BoardState, rnd: Random, a: ActorId, d: Direction)
    requires WellFormed(L, s) && a in s.actors
    ensures var r := DestroyResult(L, s, rnd, a, d);
      var tgt := Target(L, s, a, d);
      && (r.res.done <==> Capabilities(a.kind).destroy > 0.0 && tgt in s.walls)
      && (!r.res.done ==> r == Outcome(s, rnd, Rejected))
      && (r.res.done ==> r.rnd.drawn == rnd.drawn + 1 && r.res.team.None?)
      && (r.res.action.Some? ==> r.state == s.(walls := s.walls - {tgt}) && tgt !in r.state.walls
                                 && r.res.action == Some(DestroyAction(a, tgt)))
      && (r.res.action.None? ==> r.state == s)
  {
    if Capabilities(a.kind).destroy != 0.0 && Target(L, s, a, d) in s.walls {
      assert NextDraw(rnd).0 == rnd.draws(rnd.drawn);
    }
  }

  lemma DestroyPreservesValid(L: Layout, s: BoardState, rnd: Random, a: ActorId, d: Direction)
    requires BoardValid(L, s) && a in s.actors
    ensures BoardValid(L, DestroyResult(L, s, rnd, a, d).state)
  {
    DestroyRemovesWall(L, s, rnd, a, d);
  }

  /** The branch of `grabput_flag` for an actor carrying a flag: hand it to the actor on
      the target cell, or put it down there. */
  function PutResult(L: Layout, s: BoardState, hfr: bool, a: ActorId, tgt: Coord): (r: (BoardState, Resolution))
    requires WellFormed(L, s) && a in s.actors && s.carried[a].Some?
    ensures Keyed(L, r.0)
    ensures r.1.team.Some? ==> r.1.team.value in L.bases
  {
    var f := s.carried[a].value;
    var targetActor := ActorAt(L, s, tgt);
    if targetActor.Some? then
      var receiver := targetActor.value;
      if Capabilities(receiver.kind).grab == 0.0 then (s, Rejected)
      else if s.carried[receiver].Some? then (s, Rejected)
      else
        var (s1, team) := FlagReturn(L, HandOver(L, s, a, receiver, f, tgt), hfr, receiver);
        (s1, Resolution(true, team, Some(PutAction(a, tgt, f, Some(receiver)))))
    else if tgt in s.walls then (s, Rejected)
    else
      var (s1, team) := CheckCapture(L, Drop(L, s, a, f, tgt), hfr, Some(f));
      (s1, Resolution(true, team, Some(PutAction(a, tgt, f, None))))
  }

  /** The branch of `grabput_flag` for an actor carrying nothing: grab the flag reported on
      the target cell if the trial succeeded. */
  function GrabResult(L: Layout, s: BoardState, hfr: bool, a: ActorId, tgt: Coord, success: bool)
    : (r: (BoardState, Resolution))
    requires WellFormed(L, s) && a in s.actors
    ensures Keyed(L, r.0)
    ensures r.1.team.Some? ==> r.1.team.value in L.bases
  {
    var flag := FlagAt(L, s, tgt);
    if flag.None? || !success then (s, Rejected)
    else
      var f := flag.value;
      var targetActor := ActorAt(L, s, tgt);
      var (s1, team) := FlagReturn(L, Grab(L, s, a, f, targetActor), hfr, a);
      (s1, Resolution(true, team, Some(GrabAction(a, tgt, f, targetActor))))
  }

  /** `grabput_flag`: a carrier puts (hands over or drops) its flag, any other actor tries to
      grab the flag on the target cell.  One value is drawn in every case. */
  function GrabPutResult(L: Layout, s: BoardState, hfr: bool, rnd: Random, a: ActorId, d: Direction): (r: Outcome)
    requires WellFormed(L, s) && a in s.actors
    ensures Keyed(L, r.state)
    ensures r.rnd == rnd.(drawn := rnd.drawn + 1)
    ensures r.res.team.Some? ==> r.res.team.value in L.bases
  {
    var tgt := Target(L, s, a, d);
    var (draw, rnd1) := NextDraw(rnd);
    var (s1, res) :=
      if s.carried[a].Some? then PutResult(L, s, hfr, a, tgt)
      else GrabResult(L, s, hfr, a, tgt, Succeeds(draw, Capabilities(a.kind).grab));
    Outcome(s1, rnd1, res)
  }

  /** Handing over needs a receiver on the target cell that can carry and carries nothing;
      then the flag and the link pass to it, followed by its flag-return check. */
  lemma HandOverMeaning(L: Layout, s: BoardState, hfr: bool, a: ActorId, tgt: Coord, b: ActorId)
    requires BoardValid(L, s) && a in s.actors && s.carried[a].Some?
    requires b in s.actors && s.actors[b] == tgt
    ensures var r := PutResult(L, s, hfr, a, tgt);
      var f := s.carried[a].value;
      && (r.1.done <==> Capabilities(b.kind).grab > 0.0 && s.carried[b].None?)
      && (!r.1.done ==> r == (s, Rejected))
      && (r.1.done ==>
            && b != a && r.1.action == Some(PutAction(a, tgt, f, Some(b)))
            && (r.0, r.1.team) == FlagReturn(L, HandOver(L, s, a, b, f, tgt), hfr, b))
  {
    ActorAtExact(L, s, tgt);
  }

  /** Dropping needs a target cell without an actor or a wall; then the flag lies there,
      uncarried, and only that flag is checked for capture. */
  lemma DropMeaning(L: Layout, s: BoardState, hfr: bool, a: ActorId, tgt: Coord)
    requires WellFormed(L, s) && a in s.actors && s.carried[a].Some?
    requires forall b | b in s.actors :: s.actors[b] != tgt
    ensures var r := PutResult(L, s, hfr, a, tgt);
      var f := s.carried[a].value;
      && (r.1.done <==> tgt !in s.walls)
      && (!r.1.done ==> r == (s, Rejected))
      && (r.1.done ==>
            && r.1.action == Some(PutAction(a, tgt, f, None))
            && (r.0, r.1.team) == CheckCapture(L, Drop(L, s, a, f, tgt), hfr, Some(f)))
  {
  }

  /** Grabbing needs a flag on the target cell and a successful trial; otherwise nothing
      changes. */
  lemma GrabSucceeds(L: Layout, s: BoardState, hfr: bool, a: ActorId, tgt: Coord, success: bool)
    requires WellFormed(L, s) && a in s.actors
    ensures var r := GrabResult(L, s, hfr, a, tgt, success);
      && (r.1.done <==> tgt in s.flags.Values && success)
      && (!r.1.done ==> r == (s, Rejected))
  {
    if FlagAt(L, s, tgt).None? {
      assert tgt !in s.flags.Values;
    }
  }

  /** A grab carries the flag reported on the target cell to the grabber's cell, taking it
      from whoever stood there, followed by the grabber's flag-return check. */
  lemma GrabMeaning(L: Layout, s: BoardState, hfr: bool, a: ActorId, tgt: Coord, success: bool)
    requires WellFormed(L, s) && a in s.actors
    ensures var r := GrabResult(L, s, hfr, a, tgt, success);
      r.1.done ==> exists f | f in s.flags && s.flags[f] == tgt ::
        && r.1.action == Some(GrabAction(a, tgt, f, ActorAt(L, s, tgt)))
        && (r.0, r.1.team) == FlagReturn(L, Grab(L, s, a, f, ActorAt(L, s, tgt)), hfr, a)
  {
    var flag := FlagAt(L, s, tgt);
    if flag.Some? {
      var f := flag.value;
      assert f in s.flags && s.flags[f] == tgt;
    }
  }

  lemma PutPreservesValid(L: Layout, s: BoardState, hfr: bool, a: ActorId, tgt: Coord)
    requires BoardValid(L, s) && a in s.actors && s.carried[a].Some? && InBounds(tgt, L.mapSize)
    ensures BoardValid(L, PutResult(L, s, hfr, a, tgt).0)
  {
    var f := s.carried[a].value;
    var targetActor := ActorAt(L, s, tgt);
    var r := PutResult(L, s, hfr, a, tgt);
    if targetActor.Some? {
      var b := targetActor.value;
      HandOverMeaning(L, s, hfr, a, tgt, b);
      if r.1.done {
        ValidAfterHandOver(L, s, a, b, f);
        FlagReturnPreservesValid(L, HandOver(L, s, a, b, f, tgt), hfr, b);
      }
    } else if tgt !in s.walls {
      ValidAfterDrop(L, s, a, f, tgt);
      var s1 := Drop(L, s, a, f, tgt);
      ValidAfterSweep(L, s1, CheckCapture(L, s1, hfr, Some(f)).0);
    }
  }

  lemma GrabPreservesValid(L: Layout, s: BoardState, hfr: bool, a: ActorId, tgt: Coord, success: bool)
    requires BoardValid(L, s) && a in s.actors && s.carried[a].None?
    ensures BoardValid(L, GrabResult(L, s, hfr, a, tgt, success).0)
  {
    var flag := FlagAt(L, s, tgt);
    if flag.Some? && success {
      var f := flag.value;
      var targetActor := ActorAt(L, s, tgt);
      ActorAtExact(L, s, tgt);
      forall o | o in s.carried && s.carried[o] == Some(f)
        ensures targetActor == Some(o)
      {
      }
      ValidAfterGrab(L, s, a, f, targetActor);
      FlagReturnPreservesValid(L, Grab(L, s, a, f, targetActor), hfr, a);
    }
  }

  lemma GrabPutPreservesValid(L: Layout, s: BoardState, hfr: bool, rnd: Random, a: ActorId, d: Direction)
    requires BoardValid(L, s) && a in s.actors
    ensures BoardValid(L, GrabPutResult(L, s, hfr, rnd, a, d).state)
  {
    var tgt := Target(L, s, a, d);
    if s.carried[a].Some? {
      PutPreservesValid(L, s, hfr, a, tgt);
    } else {
      GrabPreservesValid(L, s, hfr, a, tgt, Succeeds(rnd.draws(rnd.drawn), Capabilities(a.kind).grab));
    }
  }
  // ---------------------------------------------------------------------------------------
  // The resolvers performed in place

  /** `BoardActions`: the resolvers working on one board in place; `rnd` is the state of
      the random generator they draw from. */
  class BoardActions {
    const board: Board
    const homeFlagRequired: bool
    var rnd: Random

    constructor (board: Board, homeFlagRequired: bool, rnd: Random)
      ensures this.board == board && this.homeFlagRequired == homeFlagRequired && this.rnd == rnd
    {
      this.board := board;
      this.homeFlagRequired := homeFlagRequired;
      this.rnd := rnd;
    }

    /** `random.random()` */
    method RandomRandom() returns (draw: Draw)
      modifies this
      ensures (draw, rnd) == NextDraw(old(rnd))
    {
      draw := rnd.draws(rnd.drawn);
      rnd := rnd.(drawn := rnd.drawn + 1);
    }

    /** The index `random.choice` takes from a list of `n` elements. */
    method RandomChoice(n: nat) returns (k: nat)
      requires n > 0
      modifies this
      ensures (k, rnd) == Choice(old(rnd), n)
    {
      k := rnd.picks(rnd.picked) % n;
      rnd := rnd.(picked := rnd.picked + 1);
    }

    /** `_try_put_actor` */
    method TryPutActor(a: ActorId, tgt: Coord) returns (moved: bool)
      requires WellFormed(board.Fixed(), board.Current()) && a in board.actors
      modifies board
      ensures (board.Current(), moved) == TryPut(board.Fixed(), old(board.Current()), a, tgt)
    {
      moved := false;
      if board.actors[a] == tgt {
      } else if ActorAt(board.Fixed(), board.Current(), tgt).Some? {
      } else if BaseAt(board.Fixed(), tgt).Some? {
      } else if tgt in board.walls {
      } else {
        board.actors := board.actors[a := tgt];
        moved := true;
        if board.carried[a].Some? {
          var flag := board.carried[a].value;
          board.flags := board.flags[flag := tgt];
        }
      }
    }

    /** `_return_flag_to_base` */
    method ReturnFlagToBase(f: TeamName)
      requires WellFormed(board.Fixed(), board.Current()) && f in board.flags
      modifies board
      ensures board.Current() == FlagToBase(board.Fixed(), old(board.Current()), f)
    {
      board.flags := board.flags[f := board.bases[f]];
    }

    /** `_check_capture_conditions` */
    method CheckCaptureConditions(only: Option<TeamName>) returns (captured: Option<TeamName>)
      requires WellFormed(board.Fixed(), board.Current()) && (only.Some? ==> only.value in board.flags)
      modifies board
      ensures (board.Current(), captured) == CheckCapture(board.Fixed(), old(board.Current()), homeFlagRequired, only)
    {
      ghost var L := board.Fixed();
      ghost var s := board.Current();
      var todo := if only.Some? then [only.value] else board.teams;
      captured := None;
      for i := 0 to |todo|
        invariant WellFormed(L, board.Current()) && board.flags.Keys == s.flags.Keys
        invariant CaptureSweep(L, board.Current(), homeFlagRequired, todo[i..], captured)
                  == CaptureSweep(L, s, homeFlagRequired, todo, None)
      {
        ghost var before := board.Current();
        ghost var capturedBefore := captured;
        var team := CaptureOne(todo[i]);
        if team.Some? {
          captured := team;
        }
        assert todo[i..][1..] == todo[i + 1..];
        assert CaptureSweep(L, before, homeFlagRequired, todo[i..], capturedBefore)
               == CaptureSweep(L, board.Current(), homeFlagRequired, todo[i + 1..], captured);
      }
    }

    /** One round of the loop in `_check_capture_conditions`. */
    method CaptureOne(flag: TeamName) returns (captured: Option<TeamName>)
      requires WellFormed(board.Fixed(), board.Current()) && flag in board.flags
      modifies board
      ensures (board.Current(), captured) == CaptureFlag(board.Fixed(), old(board.Current()), homeFlagRequired, flag)
    {
      captured := None;
      var base := BaseAt(board.Fixed(), board.flags[flag]);
      if base.Some? && flag != base.value {
        var scoring := base.value;
        if !homeFlagRequired || FlagIsAtHome(board.Fixed(), board.Current(), scoring) {
          captured := Some(scoring);
          ReturnFlagToBase(flag);
        }
      }
    }

    /** `_check_flag_return_conditions` */
    method CheckFlagReturnConditions(a: ActorId) returns (captured: Option<TeamName>)
      requires WellFormed(board.Fixed(), board.Current()) && a in board.actors
      modifies board
      ensures (board.Current(), captured) == FlagReturn(board.Fixed(), old(board.Current()), homeFlagRequired, a)
    {
      ghost var L, s0 := board.Fixed(), board.Current();
      captured := None;
      var coordinates := board.actors[a];
      if coordinates in board.flags.Values {
        var flag := FlagAt(board.Fixed(), board.Current(), coordinates).value;
        if flag == a.team {
          ReturnFlagToBase(flag);
          captured := CheckCaptureConditions(None);
          ghost var s1 := board.Current();
          assert (s1, captured) == CaptureSweep(L, FlagToBase(L, s0, flag), homeFlagRequired, L.teams, None);
          if board.carried[a].Some? {
            board.carried := board.carried[a := None];
            assert board.Current() == ClearCarry(L, s1, a);
          }
          return;
        }
      }
      FlagReturnElsewhere(L, s0, homeFlagRequired, a);
    }

    /** `_place_actor_in_area` */
    method PlaceActorInArea(v: ActorId, points: seq<Coord>, forbidden: set<Coord>) returns (r: Result<()>)
      requires WellFormed(board.Fixed(), board.Current()) && v in board.actors
      modifies this, board
      ensures var spec := PlaceInArea(board.Fixed(), old(board.Current()), old(rnd), v, points, forbidden);
        && (r.Err? <==> spec.Err?)
        && (spec.Err? ==> r.error == spec.error && board.Current() == old(board.Current()) && rnd == old(rnd))
        && (spec.Ok? ==> (board.Current(), rnd) == spec.value)
    {
      var allowed := FreeCells(points, forbidden);
      if |allowed| == 0 {
        return Err(IndexError);
      }
      var k := RandomChoice(|allowed|);
      var target := allowed[k];
      if board.carried[v].Some? {
        board.carried := board.carried[v := None];
      } else {
        assert board.carried[v := None] == board.carried;
      }
      board.actors := board.actors[v := target];
      r := Ok(());
    }

    /** The loops of `_respawn`: the cells of the 5x5 square around `home` that exist,
        column by column. */
    static method PossibleSpawnPoints(home: Coord, mapSize: int) returns (points: seq<Coord>)
      ensures points == SpawnPoints(home, mapSize)
    {
      points := [];
      for x := home.x - 2 to home.x + 3
        invariant points == Columns(home, mapSize, x - (home.x - 2))
      {
        for y := home.y - 2 to home.y + 3
          invariant points == Columns(home, mapSize, x - (home.x - 2)) + Column(home, mapSize, x - (home.x - 2), y - (home.y - 2))
        {
          var c := NewCoordinates(x, y, mapSize);
          if c.Ok? {
            points := points + [c.value];
          }
        }
      }
    }

    /** `_respawn` */
    method RespawnActor(v: ActorId) returns (r: Result<()>)
      requires WellFormed(board.Fixed(), board.Current()) && v in board.actors
      modifies this, board
      ensures var spec := Respawn(board.Fixed(), old(board.Current()), old(rnd), v);
        && (r.Err? <==> spec.Err?)
        && (spec.Err? ==> r.error == spec.error && board.Current() == old(board.Current()) && rnd == old(rnd))
        && (spec.Ok? ==> (board.Current(), rnd) == spec.value)
    {
      ActorTeamIsKeyed(board.Fixed(), board.Current(), v);
      var points := PossibleSpawnPoints(board.bases[v.team], board.mapSize);
      var forbidden := board.flags.Values + board.actors.Values + board.bases.Values + board.walls;
      r := PlaceActorInArea(v, points, forbidden);
    }

    /** `move` */
    method Move(a: ActorId, d: Direction) returns (moved: bool, team: Option<TeamName>, action: Option<Action>)
      requires board.Valid() && a in board.actors
      modifies board
      ensures board.Valid()
      ensures (board.Current(), Resolution(moved, team, action))
              == MoveResult(board.Fixed(), old(board.Current()), homeFlagRequired, a, d)
    {
      MovePreservesValid(board.Fixed(), board.Current(), homeFlagRequired, a, d);
      var target := Target(board.Fixed(), board.Current(), a, d);
      var origin := board.actors[a];
      moved := TryPutActor(a, target);
      team, action := None, None;
      if moved {
        team := CheckFlagReturnConditions(a);
        action := Some(MoveAction(a, target, origin));
      }
    }

    /** `attack`; the IndexError of a respawn without room escapes. */
    method Attack(a: ActorId, d: Direction) returns (r: Result<Resolution>)
      requires board.Valid() && a in board.actors
      modifies this, board
      ensures var spec := AttackResult(board.Fixed(), old(board.Current()), old(rnd), a, d);
        && (r.Err? <==> spec.Err?)
        && (spec.Err? ==> r.error == spec.error && board.Current() == old(board.Current()))
        && (spec.Ok? ==> board.Current() == spec.value.state && rnd == spec.value.rnd
                         && r.value == spec.value.res && board.Valid())
    {
      AttackPreservesValid(board.Fixed(), board.Current(), rnd, a, d);
      if Capabilities(a.kind).attack == 0.0 {
        return Ok(Rejected);
      }
      var target := Target(board.Fixed(), board.Current(), a, d);
      var victim := ActorAt(board.Fixed(), board.Current(), target);
      if victim.None? {
        return Ok(Rejected);
      }
      var draw := RandomRandom();
      if !Succeeds(draw, Capabilities(a.kind).attack) {
        return Ok(Resolution(true, None, None));
      }
      var respawned := RespawnActor(victim.value);
      if respawned.Err? {
        return Err(respawned.error);
      }
      r := Ok(Resolution(true, Some(a.team), Some(AttackAction(a, target, victim.value))));
    }

    /** `build` */
    method Build(a: ActorId, d: Direction) returns (built: bool, action: Option<Action>)
      requires board.Valid() && a in board.actors
      modifies this, board
      ensures board.Valid()
      ensures var spec := BuildResult(board.Fixed(), old(board.Current()), old(rnd), a, d);
        board.Current() == spec.state && rnd == spec.rnd && Resolution(built, None, action) == spec.res
    {
      BuildPreservesValid(board.Fixed(), board.Current(), rnd, a, d);
      built, action := false, None;
      if Capabilities(a.kind).build == 0.0 {
        return;
      }
      var target := Target(board.Fixed(), board.Current(), a, d);
      var illegal := ActorAt(board.Fixed(), board.Current(), target).Some?
                     || BaseAt(board.Fixed(), target).Some?
                     || FlagAt(board.Fixed(), board.Current(), target).Some?
                     || target in board.walls;
      if illegal {
        return;
      }
      var draw := RandomRandom();
      built := true;
      if Succeeds(draw, Capabilities(a.kind).build) {
        action := Some(BuildAction(a, target));
        board.walls := board.walls + {target};
      }
    }

    /** `destroy` */
    method Destroy(a: ActorId, d: Direction) returns (destroyed: bool, action: Option<Action>)
      requires board.Valid() && a in board.actors
      modifies this, board
      ensures board.Valid()
      ensures var spec := DestroyResult(board.Fixed(), old(board.Current()), old(rnd), a, d);
        board.Current() == spec.state && rnd == spec.rnd && Resolution(destroyed, None, action) == spec.res
    {
      DestroyPreservesValid(board.Fixed(), board.Current(), rnd, a, d);
      destroyed, action := false, None;
      if Capabilities(a.kind).destroy == 0.0 {
        return;
      }
      var target := Target(board.Fixed(), board.Current(), a, d);
      if target !in board.walls {
        return;
      }
      var draw := RandomRandom();
      destroyed := true;
      if Succeeds(draw, Capabilities(a.kind).destroy) {
        action := Some(DestroyAction(a, target));
        board.walls := board.walls - {target};
      }
    }

    /** The hand-over branch of `grabput_flag`: the flag moves to the receiver's cell and
        the receiver carries it. */
    method HandFlagOver(a: ActorId, receiver: ActorId, flag: TeamName, target: Coord)
      requires Keyed(board.Fixed(), board.Current()) && a in board.actors && receiver in board.actors
      requires flag in board.flags
      modifies board
      ensures board.Current() == HandOver(board.Fixed(), old(board.Current()), a, receiver, flag, target)
    {
      board.flags := board.flags[flag := target];
      board.carried := board.carried[a := None];
      board.carried := board.carried[receiver := Some(flag)];
    }

    /** The put-down branch of `grabput_flag`. */
    method DropFlag(a: ActorId, flag: TeamName, target: Coord)
      requires Keyed(board.Fixed(), board.Current()) && a in board.actors && flag in board.flags
      modifies board
      ensures board.Current() == Drop(board.Fixed(), old(board.Current()), a, flag, target)
    {
      board.flags := board.flags[flag := target];
      board.carried := board.carried[a := None];
    }

    /** The grab branch of `grabput_flag`: the flag comes to the grabber, whoever stood on
        it loses it. */
    method TakeFlag(a: ActorId, flag: TeamName, holder: Option<ActorId>)
      requires Keyed(board.Fixed(), board.Current()) && a in board.actors && flag in board.flags
      requires holder.Some? ==> holder.value in board.actors
      modifies board
      ensures board.Current() == Grab(board.Fixed(), old(board.Current()), a, flag, holder)
    {
      board.flags := board.flags[flag := board.actors[a]];
      board.carried := board.carried[a := Some(flag)];
      if holder.Some? {
        board.carried := board.carried[holder.value := None];
      }
    }

    /** The carrier's branch of `grabput_flag`. */
    method PutFlag(a: ActorId, target: Coord) returns (put: bool, team: Option<TeamName>, action: Option<Action>)
      requires WellFormed(board.Fixed(), board.Current()) && a in board.actors && board.carried[a].Some?
      modifies board
      ensures (board.Current(), Resolution(put, team, action))
              == PutResult(board.Fixed(), old(board.Current()), homeFlagRequired, a, target)
    {
      put, team, action := false, None, None;
      var targetActor := ActorAt(board.Fixed(), board.Current(), target);
      var flag := board.carried[a].value;
      if targetActor.Some? {
        var receiver := targetActor.value;
        if Capabilities(receiver.kind).grab == 0.0 {
        } else if board.carried[receiver].Some? {
        } else {
          HandFlagOver(a, receiver, flag, target);
          put := true;
          team := CheckFlagReturnConditions(receiver);
          action := Some(PutAction(a, target, flag, Some(receiver)));
        }
      } else if target in board.walls {
      } else {
        DropFlag(a, flag, target);
        put := true;
        team := CheckCaptureConditions(Some(flag));
        action := Some(PutAction(a, target, flag, None));
      }
    }

    /** The grabber's branch of `grabput_flag`, given the outcome of the trial. */
    method GrabFlag(a: ActorId, target: Coord, grabSuccessful: bool)
      returns (grabbed: bool, team: Option<TeamName>, action: Option<Action>)
      requires WellFormed(board.Fixed(), board.Current()) && a in board.actors
      modifies board
      ensures (board.Current(), Resolution(grabbed, team, action))
              == GrabResult(board.Fixed(), old(board.Current()), homeFlagRequired, a, target, grabSuccessful)
    {
      grabbed, team, action := false, None, None;
      var targetActor := ActorAt(board.Fixed(), board.Current(), target);
      var flag := FlagAt(board.Fixed(), board.Current(), target);
      if flag.Some? && grabSuccessful {
        TakeFlag(a, flag.value, targetActor);
        grabbed := true;
        action := Some(GrabAction(a, target, flag.value, targetActor));
        team := CheckFlagReturnConditions(a);
      }
    }

    /** `grabput_flag` */
    method GrabPutFlag(a: ActorId, d: Direction) returns (grabbed: bool, team: Option<TeamName>, action: Option<Action>)
      requires board.Valid() && a in board.actors
      modifies this, board
      ensures board.Valid()
      ensures var spec := GrabPutResult(board.Fixed(), old(board.Current()), homeFlagRequired, old(rnd), a, d);
        board.Current() == spec.state && rnd == spec.rnd && Resolution(grabbed, team, action) == spec.res
    {
      GrabPutPreservesValid(board.Fixed(), board.Current(), homeFlagRequired, rnd, a, d);
      var target := Target(board.Fixed(), board.Current(), a, d);
      var draw := RandomRandom();
      var grabSuccessful := Succeeds(draw, Capabilities(a.kind).grab);
      if board.carried[a].Some? {
        grabbed, team, action := PutFlag(a, target);
      } else {
        grabbed, team, action := GrabFlag(a, target, grabSuccessful);
      }
    }
  }
}
