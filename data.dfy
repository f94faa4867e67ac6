// The board data of the current revision: teams, coordinates, the board objects with their
// equality, the actor catalogue, and the board itself (where every object stands).

module Data {
  import opened Wrappers

  type TeamName = string

  /** A configured team.  Its password and number play no part in equality. */
  datatype Team = Team(name: TeamName, password: string, number: int)

  /** `Team.__eq__`: two teams are equal when their names are. */
  predicate TeamEq(a: Team, b: Team) {
    a.name == b.name
  }

  lemma TeamEqIgnoresCredentials(a: Team, password: string, number: int)
    ensures TeamEq(a, Team(a.name, password, number))
    ensures TeamEq(Team(a.name, password, number), a)
  {
  }

  // ---------------------------------------------------------------------------------------
  // Coordinates

  datatype Coord = Coord(x: int, y: int)

  /** The field constraints of `Coordinates`: both axes in 0 .. map_size - 1. */
  predicate InBounds(c: Coord, mapSize: int) {
    0 <= c.x <= mapSize - 1 && 0 <= c.y <= mapSize - 1
  }

  /** Constructing `Coordinates(x=.., y=..)`: a validation error outside the map. */
  function NewCoordinates(x: int, y: int, mapSize: int): (r: Result<Coord>)
    ensures r.Ok? <==> 0 <= x < mapSize && 0 <= y < mapSize
    ensures r.Ok? ==> r.value == Coord(x, y) && InBounds(r.value, mapSize)
    ensures r.Err? ==> r.error == ValueError
  {
    if 0 <= x <= mapSize - 1 && 0 <= y <= mapSize - 1 then Ok(Coord(x, y)) else Err(ValueError)
  }

  /** The `x` and `y` attributes, if any, of the object on the other side of a comparison. */
  datatype Attrs = Attrs(x: Option<int>, y: Option<int>)

  function AttrsOf(c: Coord): Attrs {
    Attrs(Some(c.x), Some(c.y))
  }

  /** `Coordinates.__eq__` */
  predicate CoordEq(c: Coord, other: Attrs) {
    other.x.Some? && c.x == other.x.value && other.y.Some? && c.y == other.y.value
  }

  /** `Coordinates.__ne__`: false, not true, against an object lacking `x` or `y`. */
  predicate CoordNe(c: Coord, other: Attrs) {
    other.x.Some? && other.y.Some? && (c.x != other.x.value || c.y != other.y.value)
  }

  function SquaredNorm(x: int, y: int): int {
    x * x + y * y
  }

  /** `Coordinates.__lt__`: "less" means farther from the origin. */
  predicate CoordLt(c: Coord, other: Attrs) {
    other.x.Some? && other.y.Some?
    && SquaredNorm(c.x, c.y) > SquaredNorm(other.x.value, other.y.value)
  }

  lemma CoordEqIsValueEquality(c: Coord, d: Coord)
    ensures CoordEq(c, AttrsOf(d)) <==> c == d
  {
  }

  lemma CoordNeNegatesEqOnlyWithAttributes(c: Coord, other: Attrs)
    ensures other.x.Some? && other.y.Some? ==> (CoordNe(c, other) <==> !CoordEq(c, other))
    ensures other.x.None? || other.y.None? ==> !CoordNe(c, other) && !CoordEq(c, other)
  {
  }

  /** `__lt__` is a strict order on coordinates ... */
  lemma CoordLtStrictOrder(a: Coord, b: Coord, c: Coord)
    ensures !CoordLt(a, AttrsOf(a))
    ensures CoordLt(a, AttrsOf(b)) ==> !CoordLt(b, AttrsOf(a))
    ensures CoordLt(a, AttrsOf(b)) && CoordLt(b, AttrsOf(c)) ==> CoordLt(a, AttrsOf(c))
  {
  }

  /** ... but distinct coordinates at the same distance are unordered, so `total_ordering`
      derives `<=` that is not antisymmetric. */
  lemma CoordLtNotTotal()
    ensures var a, b := Coord(1, 0), Coord(0, 1);
      a != b && !CoordLt(a, AttrsOf(b)) && !CoordLt(b, AttrsOf(a))
  {
  }

  // ---------------------------------------------------------------------------------------
  // Actor classes and their capabilities

  datatype ActorKind = Generalist | Runner | Attacker | Guardian | Builder | Destroyer

  function KindName(k: ActorKind): string {
    match k
    case Generalist => "Generalist"
    case Runner => "Runner"
    case Attacker => "Attacker"
    case Guardian => "Guardian"
    case Builder => "Builder"
    case Destroyer => "Destroyer"
  }

  /** The class variables `grab`, `attack`, `build` and `destroy` of an actor class. */
  datatype Profile = Profile(grab: real, attack: real, build: real, destroy: real)

  function Capabilities(k: ActorKind): (p: Profile)
    ensures 0.0 <= p.grab <= 1.0 && 0.0 <= p.attack <= 1.0
    ensures 0.0 <= p.build <= 1.0 && 0.0 <= p.destroy <= 1.0
    ensures p.grab > 0.0 <==> k == Generalist || k == Runner
    ensures p.attack > 0.0 <==> k == Generalist || k == Attacker
    ensures p.build > 0.0 <==> k == Builder
    ensures p.destroy > 0.0 <==> k == Destroyer
    ensures k == Guardian ==> p == Profile(0.0, 0.0, 0.0, 0.0)
  {
    match k
    case Generalist => Profile(1.0, 1.0, 0.0, 0.0)
    case Runner => Profile(1.0, 0.0, 0.0, 0.0)
    case Attacker => Profile(0.0, 1.0, 0.0, 0.0)
    case Guardian => Profile(0.0, 0.0, 0.0, 0.0)
    case Builder => Profile(0.0, 0.0, 0.2, 0.0)
    case Destroyer => Profile(0.0, 0.0, 0.0, 0.25)
  }

  /** `ActorProperty`: the class name and the four probabilities. */
  datatype ActorProperty = ActorProperty(typeName: string, grab: real, attack: real, build: real, destroy: real)

  /** `Actor.get_properties` */
  function GetProperties(k: ActorKind): (p: ActorProperty)
    ensures p.typeName == KindName(k)
    ensures Profile(p.grab, p.attack, p.build, p.destroy) == Capabilities(k)
  {
    var c := Capabilities(k);
    ActorProperty(KindName(k), c.grab, c.attack, c.build, c.destroy)
  }

  /** `BoardData.get_actor_properties`: one entry per configured actor class, in order. */
  function GetActorProperties(kinds: seq<ActorKind>): (r: seq<ActorProperty>)
    ensures |r| == |kinds|
    ensures forall i | 0 <= i < |r| :: r[i].typeName == KindName(kinds[i])
    ensures forall i | 0 <= i < |r| ::
      Profile(r[i].grab, r[i].attack, r[i].build, r[i].destroy) == Capabilities(kinds[i])
  {
    seq(|kinds|, i requires 0 <= i < |kinds| => GetProperties(kinds[i]))
  }

  // ---------------------------------------------------------------------------------------
  // Board objects and their equality

  /** A board object, with its full team record. */
  datatype BoardObject =
    | FlagObject(team: Team)
    | BaseObject(team: Team)
    | ActorObject(kind: ActorKind, ident: nat, team: Team)
    | WallObject

  function ClassName(o: BoardObject): string {
    match o
    case FlagObject(_) => "Flag"
    case BaseObject(_) => "Base"
    case ActorObject(k, _, _) => KindName(k)
    case WallObject => "Wall"
  }

  /** `__eq__` of `Flag`, `Base`, `Actor` and (pydantic's, field-wise) `Wall`. */
  predicate ObjectEq(a: BoardObject, b: BoardObject) {
    match a
    case FlagObject(t) => ClassName(a) == ClassName(b) && !b.WallObject? && t.name == b.team.name
    case BaseObject(t) => ClassName(a) == ClassName(b) && !b.WallObject? && t.name == b.team.name
    case ActorObject(_, i, t) =>
      ClassName(a) == ClassName(b) && b.ActorObject? && i == b.ident && TeamEq(t, b.team)
    case WallObject => b.WallObject?
  }

  /** An actor as the board knows it: class, ident and team name. */
  datatype ActorId = ActorId(kind: ActorKind, ident: nat, team: TeamName)

  /** What stands on a cell, identified by exactly what its `__eq__` and `__hash__` use. */
  datatype Occupant =
    | FlagHere(team: TeamName)
    | BaseHere(team: TeamName)
    | ActorHere(actor: ActorId)
    | WallHere

  function KeyOf(o: BoardObject): Occupant {
    match o
    case FlagObject(t) => FlagHere(t.name)
    case BaseObject(t) => BaseHere(t.name)
    case ActorObject(k, i, t) => ActorHere(ActorId(k, i, t.name))
    case WallObject => WallHere
  }

  /** Two board objects are equal exactly when their identity keys are: this is why the
      board can key flags and bases by team name and actors by (class, ident, team name). */
  lemma ObjectEqIsKeyEquality(a: BoardObject, b: BoardObject)
    ensures ObjectEq(a, b) <==> KeyOf(a) == KeyOf(b)
  {
    if ClassName(a) == ClassName(b) {
      ClassNameDeterminesClass(a, b);
    }
  }

  /** No two of the classes share a name. */
  lemma ClassNameDeterminesClass(a: BoardObject, b: BoardObject)
    requires ClassName(a) == ClassName(b)
    ensures a.FlagObject? <==> b.FlagObject?
    ensures a.BaseObject? <==> b.BaseObject?
    ensures a.WallObject? <==> b.WallObject?
    ensures a.ActorObject? <==> b.ActorObject?
    ensures a.ActorObject? ==> a.kind == b.kind
  {
    assert ClassName(a)[0] == ClassName(b)[0] && ClassName(a)[1] == ClassName(b)[1];
  }

  // ---------------------------------------------------------------------------------------
  // Reverse views: a dict comprehension {v: k for k, v in d.items()} keeps, for each value,
  // the key inserted LAST.

  /** The last index whose key maps to `c`, or -1. */
  function LastIndexAt<K>(keys: seq<K>, m: map<K, Coord>, c: Coord): (i: int)
    requires forall k | k in keys :: k in m
    ensures -1 <= i < |keys|
    ensures 0 <= i ==> m[keys[i]] == c
    ensures forall j | i < j < |keys| :: m[keys[j]] != c
  {
    if keys == [] then -1
    else if m[keys[|keys| - 1]] == c then |keys| - 1
    else LastIndexAt(keys[..|keys| - 1], m, c)
  }

  function LastAt<K>(keys: seq<K>, m: map<K, Coord>, c: Coord): Option<K>
    requires forall k | k in keys :: k in m
  {
    var i := LastIndexAt(keys, m, c);
    if i < 0 then None else Some(keys[i])
  }

  /** Where keys map to distinct coordinates, the reverse view is the inverse of the map. */
  lemma {:induction false} LastAtInverse<K>(keys: seq<K>, m: map<K, Coord>, c: Coord)
    requires forall k | k in keys :: k in m
    requires forall k, l | k in m && l in m && k != l :: m[k] != m[l]
    ensures forall k | k in keys :: LastAt(keys, m, c) == Some(k) <==> m[k] == c
    ensures LastAt(keys, m, c) == None <==> forall k | k in keys :: m[k] != c
  {
    var i := LastIndexAt(keys, m, c);
    forall k | k in keys
      ensures LastAt(keys, m, c) == Some(k) <==> m[k] == c
    {
      if m[k] == c {
        var j :| 0 <= j < |keys| && keys[j] == k;
        assert i >= j;
      }
    }
    if LastAt(keys, m, c) == None {
      forall k | k in keys
        ensures m[k] != c
      {
        var j :| 0 <= j < |keys| && keys[j] == k;
      }
    }
  }

  // ---------------------------------------------------------------------------------------
  // The board

  /** What setup fixes: map size, teams in configuration order, actor classes, bases. */
  datatype Layout = Layout(mapSize: int, teams: seq<TeamName>, actorKinds: seq<ActorKind>,
                           bases: map<TeamName, Coord>)

  /** What the game changes: actor positions, who carries which flag, flag positions, walls. */
  datatype BoardState = BoardState(actors: map<ActorId, Coord>, carried: map<ActorId, Option<TeamName>>,
                                   flags: map<TeamName, Coord>, walls: set<Coord>)

  function TeamSet(teams: seq<TeamName>): set<TeamName> {
    set t | t in teams
  }

  /** `teams_actors[(team, i)]`: setup creates actor `i` of each team from the `i`-th class. */
  function TeamsActors(L: Layout, team: TeamName, i: nat): ActorId
    requires i < |L.actorKinds|
  {
    ActorId(L.actorKinds[i], i, team)
  }

  predicate IsRosterActor(L: Layout, a: ActorId) {
    a.team in L.teams && a.ident < |L.actorKinds| && a.kind == L.actorKinds[a.ident]
  }

  /** The actors of one team, by ident. */
  function TeamRoster(L: Layout, team: TeamName): (r: seq<ActorId>)
    ensures |r| == |L.actorKinds|
    ensures forall i | 0 <= i < |r| :: r[i] == TeamsActors(L, team, i)
  {
    seq(|L.actorKinds|, i requires 0 <= i < |L.actorKinds| => TeamsActors(L, team, i))
  }

  /** `teams_actors.values()` (and the order setup places actors in): team by team. */
  function Roster(L: Layout, teams: seq<TeamName>): seq<ActorId> {
    if teams == [] then [] else TeamRoster(L, teams[0]) + Roster(L, teams[1..])
  }

  function AllActors(L: Layout): seq<ActorId> {
    Roster(L, L.teams)
  }

  lemma {:induction false} RosterMembership(L: Layout, teams: seq<TeamName>, a: ActorId)
    ensures a in Roster(L, teams) <==>
      a.team in teams && a.ident < |L.actorKinds| && a.kind == L.actorKinds[a.ident]
  {
    if teams != [] {
      RosterMembership(L, teams[1..], a);
      if a.team == teams[0] && a.ident < |L.actorKinds| && a.kind == L.actorKinds[a.ident] {
        assert TeamRoster(L, teams[0])[a.ident] == a;
      }
      assert teams == [teams[0]] + teams[1..];
    }
  }

  lemma AllActorsAreRoster(L: Layout, a: ActorId)
    ensures a in AllActors(L) <==> IsRosterActor(L, a)
  {
    RosterMembership(L, L.teams, a);
  }

  ghost predicate LayoutValid(L: Layout) {
    && (forall i, j | 0 <= i < j < |L.teams| :: L.teams[i] != L.teams[j])
    && L.bases.Keys == TeamSet(L.teams)
    && (forall t | t in L.bases :: InBounds(L.bases[t], L.mapSize))
    && (forall t, u | t in L.bases && u in L.bases && t != u :: L.bases[t] != L.bases[u])
  }

  /** The actors setup creates. */
  function RosterSet(L: Layout): set<ActorId> {
    set a | a in AllActors(L)
  }

  /** The key sets of the board's dictionaries: what every lookup of the game relies on. */
  ghost predicate Keyed(L: Layout, s: BoardState) {
    && s.flags.Keys == TeamSet(L.teams)
    && s.actors.Keys == RosterSet(L)
    && s.carried.Keys == s.actors.Keys
    && (forall a | a in s.carried && s.carried[a].Some? :: s.carried[a].value in s.flags)
  }

  /** Every actor, flag and wall lies on the map. */
  ghost predicate OnMap(L: Layout, s: BoardState) {
    && (forall a | a in s.actors :: InBounds(s.actors[a], L.mapSize))
    && (forall t | t in s.flags :: InBounds(s.flags[t], L.mapSize))
    && (forall c | c in s.walls :: InBounds(c, L.mapSize))
  }

  /** No two actors share a cell. */
  ghost predicate OneActorPerCell(s: BoardState) {
    forall a, b | a in s.actors && b in s.actors && a != b :: s.actors[a] != s.actors[b]
  }

  /** No actor stands on a wall or a base. */
  ghost predicate ActorsOnFloor(L: Layout, s: BoardState) {
    forall a | a in s.actors :: s.actors[a] !in s.walls && s.actors[a] !in L.bases.Values
  }

  /** A carried flag lies where its carrier stands. */
  ghost predicate FlagsWithCarriers(s: BoardState) {
    forall a | a in s.carried && a in s.actors && s.carried[a].Some? && s.carried[a].value in s.flags ::
      s.flags[s.carried[a].value] == s.actors[a]
  }

  /** The board invariant. */
  ghost predicate StateValid(L: Layout, s: BoardState) {
    Keyed(L, s) && OnMap(L, s) && OneActorPerCell(s) && ActorsOnFloor(L, s) && FlagsWithCarriers(s)
  }

  ghost predicate BoardValid(L: Layout, s: BoardState) {
    LayoutValid(L) && StateValid(L, s)
  }

  ghost predicate WellFormed(L: Layout, s: BoardState) {
    LayoutValid(L) && Keyed(L, s)
  }

  /** No flag has two carriers. */
  lemma CarrierIsUnique(L: Layout, s: BoardState, a: ActorId, b: ActorId)
    requires BoardValid(L, s)
    requires a in s.carried && b in s.carried && s.carried[a].Some? && s.carried[a] == s.carried[b]
    ensures a == b
  {
  }

  /** Moving an actor or a flag, or changing what an actor carries, keeps the keys. */
  lemma KeyedAfterActorUpdate(L: Layout, s: BoardState, a: ActorId, c: Coord)
    requires Keyed(L, s) && a in s.actors
    ensures Keyed(L, s.(actors := s.actors[a := c]))
  {
    assert s.actors[a := c].Keys == s.actors.Keys;
  }

  lemma KeyedAfterFlagUpdate(L: Layout, s: BoardState, f: TeamName, c: Coord)
    requires Keyed(L, s) && f in s.flags
    ensures Keyed(L, s.(flags := s.flags[f := c]))
  {
    assert s.flags[f := c].Keys == s.flags.Keys;
  }

  lemma KeyedAfterCarryUpdate(L: Layout, s: BoardState, a: ActorId, v: Option<TeamName>)
    requires Keyed(L, s) && a in s.actors && (v.Some? ==> v.value in s.flags)
    ensures Keyed(L, s.(carried := s.carried[a := v]))
  {
    assert s.carried[a := v].Keys == s.carried.Keys;
  }

  /** An actor moving, with the flag it carries, to a free cell of the map keeps the board
      valid. */
  lemma ValidAfterStep(L: Layout, s: BoardState, r: BoardState, a: ActorId, c: Coord)
    requires BoardValid(L, s) && a in s.actors && InBounds(c, L.mapSize)
    requires c !in s.walls && c !in L.bases.Values && forall b | b in s.actors :: s.actors[b] != c
    requires r.actors == s.actors[a := c] && r.carried == s.carried && r.walls == s.walls
    requires r.flags == if s.carried[a].Some? then s.flags[s.carried[a].value := c] else s.flags
    ensures BoardValid(L, r)
  {
    KeyedAfterActorUpdate(L, s, a, c);
    if s.carried[a].Some? {
      KeyedAfterFlagUpdate(L, s.(actors := r.actors), s.carried[a].value, c);
      forall b | b in r.carried && r.carried[b].Some?
        ensures r.flags[r.carried[b].value] == r.actors[b]
      {
        if b != a {
          assert r.carried[b].value != s.carried[a].value;
        }
      }
    }
  }

  /** Moving flags within the map and changing who carries them keeps the board valid as
      long as every carried flag is with its carrier. */
  lemma ValidAfterFlagsMoved(L: Layout, s: BoardState, r: BoardState)
    requires BoardValid(L, s) && Keyed(L, r)
    requires r.actors == s.actors && r.walls == s.walls
    requires forall t | t in r.flags :: InBounds(r.flags[t], L.mapSize)
    requires FlagsWithCarriers(r)
    ensures BoardValid(L, r)
  {
  }

  lemma KeyedRoster(L: Layout, s: BoardState)
    requires Keyed(L, s)
    ensures forall a | a in AllActors(L) :: a in s.actors
    ensures forall a | a in s.actors :: a in AllActors(L) && IsRosterActor(L, a)
  {
    forall a | a in s.actors
      ensures IsRosterActor(L, a)
    {
      AllActorsAreRoster(L, a);
    }
  }

  /** Every actor's team has a base and a flag. */
  lemma ActorTeamIsKeyed(L: Layout, s: BoardState, a: ActorId)
    requires WellFormed(L, s) && a in s.actors
    ensures a.team in L.bases && a.team in s.flags
  {
    KeyedRoster(L, s);
  }

  /** `coordinates_actors.get(c)` */
  function ActorAt(L: Layout, s: BoardState, c: Coord): (r: Option<ActorId>)
    requires Keyed(L, s)
    ensures r.Some? ==> r.value in s.actors && s.actors[r.value] == c
    ensures r.None? <==> forall a | a in s.actors :: s.actors[a] != c
  {
    KeyedRoster(L, s);
    var i := LastIndexAt(AllActors(L), s.actors, c);
    if i < 0 then None else Some(AllActors(L)[i])
  }

  /** `coordinates_flags.get(c)`: with several flags on one cell, the last team's. */
  function FlagAt(L: Layout, s: BoardState, c: Coord): (r: Option<TeamName>)
    requires Keyed(L, s)
    ensures r.Some? ==> r.value in s.flags && s.flags[r.value] == c
    ensures r.None? <==> forall t | t in s.flags :: s.flags[t] != c
  {
    var i := LastIndexAt(L.teams, s.flags, c);
    if i < 0 then None else Some(L.teams[i])
  }

  /** `coordinates_bases.get(c)` */
  function BaseAt(L: Layout, c: Coord): (r: Option<TeamName>)
    requires LayoutValid(L)
    ensures r.Some? ==> r.value in L.bases && L.bases[r.value] == c
    ensures r.None? <==> c !in L.bases.Values
  {
    var i := LastIndexAt(L.teams, L.bases, c);
    if i < 0 then None else Some(L.teams[i])
  }

  /** Bases stand on distinct cells, so the base view is exact. */
  lemma BaseAtExact(L: Layout, c: Coord)
    requires LayoutValid(L)
    ensures forall t | t in L.bases :: BaseAt(L, c) == Some(t) <==> L.bases[t] == c
  {
  }

  /** On a valid board the actor view is exact: the actor it reports is the one there. */
  lemma ActorAtExact(L: Layout, s: BoardState, c: Coord)
    requires BoardValid(L, s)
    ensures forall a | a in s.actors :: ActorAt(L, s, c) == Some(a) <==> s.actors[a] == c
  {
    KeyedRoster(L, s);
    LastAtInverse(AllActors(L), s.actors, c);
  }

  /** Of several flags on one cell, the view reports the one of the latest team in
      configuration order and hides the others. */
  lemma FlagAtReportsLastTeam(L: Layout, s: BoardState, c: Coord, i: nat, j: nat)
    requires Keyed(L, s)
    requires i < j < |L.teams|
    requires s.flags[L.teams[i]] == s.flags[L.teams[j]] == c
    ensures FlagAt(L, s, c).Some?
    ensures LastIndexAt(L.teams, s.flags, c) >= j
  {
  }

  /** `flag_is_at_home(team)`: the team's flag lies on the team's base. */
  function FlagIsAtHome(L: Layout, s: BoardState, t: TeamName): (r: bool)
    requires LayoutValid(L) && Keyed(L, s) && t in L.bases
    ensures r <==> BaseAt(L, s.flags[t]) == Some(t)
  {
    s.flags[t] == L.bases[t]
  }

  /** `board_objects_coordinates`: a wall (or any other object) leaves the local unbound. */
  function BoardObjectsCoordinates(L: Layout, s: BoardState, o: Occupant): (r: Result<Coord>)
    requires LayoutValid(L) && Keyed(L, s)
    ensures o.WallHere? <==> r == Err(UnboundLocalError)
    ensures r.Ok? <==> (o.FlagHere? && o.team in s.flags) || (o.BaseHere? && o.team in L.bases)
                       || (o.ActorHere? && o.actor in s.actors)
    ensures r.Err? && !o.WallHere? ==> r.error == KeyError
    ensures r.Ok? && o.FlagHere? ==> s.flags[o.team] == r.value && FlagAt(L, s, r.value).Some?
    ensures r.Ok? && o.BaseHere? ==> L.bases[o.team] == r.value && BaseAt(L, r.value) == Some(o.team)
    ensures r.Ok? && o.ActorHere? ==> s.actors[o.actor] == r.value && ActorAt(L, s, r.value).Some?
  {
    match o
    case FlagHere(t) => if t in s.flags then Ok(s.flags[t]) else Err(KeyError)
    case BaseHere(t) => if t in L.bases then Ok(L.bases[t]) else Err(KeyError)
    case ActorHere(a) => if a in s.actors then Ok(s.actors[a]) else Err(KeyError)
    case WallHere => Err(UnboundLocalError)
  }

  /** On a valid board the reverse views undo `board_objects_coordinates` for actors and bases:
      looking up the cell returned finds the object again. */
  lemma BoardObjectsCoordinatesInvertsViews(L: Layout, s: BoardState, o: Occupant)
    requires BoardValid(L, s)
    ensures var r := BoardObjectsCoordinates(L, s, o);
      && (o.ActorHere? && r.Ok? ==> ActorAt(L, s, r.value) == Some(o.actor))
      && (o.BaseHere? && r.Ok? ==> BaseAt(L, r.value) == Some(o.team))
  {
    var r := BoardObjectsCoordinates(L, s, o);
    if o.ActorHere? && r.Ok? {
      ActorAtExact(L, s, r.value);
    }
  }

  function Rank(o: Occupant): nat {
    match o
    case BaseHere(_) => 0
    case ActorHere(_) => 1
    case FlagHere(_) => 2
    case WallHere => 3
  }

  /** `[i for i in objects if i is not None]` */
  function Present(xs: seq<Option<Occupant>>): (r: seq<Occupant>)
    ensures |r| <= |xs|
    ensures forall o :: o in r <==> Some(o) in xs
  {
    if xs == [] then []
    else (if xs[0].Some? then [xs[0].value] else []) + Present(xs[1..])
  }

  /** The filter keeps the order of what it keeps. */
  lemma {:induction false} PresentKeepsOrder(xs: seq<Option<Occupant>>)
    requires forall i, j | 0 <= i < j < |xs| && xs[i].Some? && xs[j].Some? ::
      Rank(xs[i].value) < Rank(xs[j].value)
    ensures forall i, j | 0 <= i < j < |Present(xs)| :: Rank(Present(xs)[i]) < Rank(Present(xs)[j])
  {
    if xs != [] {
      var r := Present(xs);
      var rest := Present(xs[1..]);
      PresentKeepsOrder(xs[1..]);
      if xs[0].Some? {
        assert r == [xs[0].value] + rest;
        forall j | 0 <= j < |rest|
          ensures Rank(xs[0].value) < Rank(rest[j])
        {
          assert Some(rest[j]) in xs[1..];
          var k :| 0 <= k < |xs[1..]| && xs[1..][k] == Some(rest[j]);
          assert xs[k + 1] == Some(rest[j]);
          assert 0 < k + 1 < |xs| && xs[0].Some? && xs[k + 1].Some?;
          assert Rank(xs[0].value) < Rank(xs[k + 1].value);
        }
        forall i, j | 0 <= i < j < |r|
          ensures Rank(r[i]) < Rank(r[j])
        {
          assert r[j] == rest[j - 1];
          if i > 0 {
            assert r[i] == rest[i - 1];
            assert Rank(rest[i - 1]) < Rank(rest[j - 1]);
          } else {
            assert r[0] == xs[0].value;
          }
        }
      } else {
        assert r == rest;
      }
    }
  }

  /** The four lookups `get_all_objects` makes, in its order. */
  function ObjectsAt(L: Layout, s: BoardState, c: Coord): seq<Option<Occupant>>
    requires LayoutValid(L) && Keyed(L, s)
  {
    var base := BaseAt(L, c);
    var actor := ActorAt(L, s, c);
    var flag := FlagAt(L, s, c);
    [if base.Some? then Some(BaseHere(base.value)) else None,
     if actor.Some? then Some(ActorHere(actor.value)) else None,
     if flag.Some? then Some(FlagHere(flag.value)) else None,
     if c in s.walls then Some(WallHere) else None]
  }

  lemma ObjectsAtRanked(L: Layout, s: BoardState, c: Coord)
    requires LayoutValid(L) && Keyed(L, s)
    ensures var xs := ObjectsAt(L, s, c);
      forall i, j | 0 <= i < j < |xs| && xs[i].Some? && xs[j].Some? :: Rank(xs[i].value) < Rank(xs[j].value)
  {
    var xs := ObjectsAt(L, s, c);
    assert forall i | 0 <= i < |xs| && xs[i].Some? :: Rank(xs[i].value) == i;
  }

  /** `get_all_objects(c)`: base, actor, flag and wall at `c`, in that order, each if present. */
  function GetAllObjects(L: Layout, s: BoardState, c: Coord): (r: seq<Occupant>)
    requires LayoutValid(L) && Keyed(L, s)
    ensures |r| <= 4
    ensures forall i, j | 0 <= i < j < |r| :: Rank(r[i]) < Rank(r[j])
  {
    ObjectsAtRanked(L, s, c);
    PresentKeepsOrder(ObjectsAt(L, s, c));
    Present(ObjectsAt(L, s, c))
  }

  lemma ObjectsAtIs(L: Layout, s: BoardState, c: Coord, base: Option<TeamName>, actor: Option<ActorId>,
                    flag: Option<TeamName>)
    requires LayoutValid(L) && Keyed(L, s)
    requires base == BaseAt(L, c) && actor == ActorAt(L, s, c) && flag == FlagAt(L, s, c)
    ensures ObjectsAt(L, s, c) ==
      [if base.Some? then Some(BaseHere(base.value)) else None,
       if actor.Some? then Some(ActorHere(actor.value)) else None,
       if flag.Some? then Some(FlagHere(flag.value)) else None,
       if c in s.walls then Some(WallHere) else None]
  {
  }

  /** `get_all_objects` lists exactly what the four lookups return. */
  lemma GetAllObjectsListsLookups(L: Layout, s: BoardState, c: Coord)
    requires LayoutValid(L) && Keyed(L, s)
    ensures var xs := ObjectsAt(L, s, c);
      forall o :: o in GetAllObjects(L, s, c) <==> Some(o) in xs
  {
  }

  /** What `get_all_objects` reports is what the four reverse views report: the base and
      the wall on the cell ... */
  lemma GetAllObjectsContents(L: Layout, s: BoardState, c: Coord)
    requires LayoutValid(L) && Keyed(L, s)
    ensures var r := GetAllObjects(L, s, c);
      && (forall t :: BaseHere(t) in r <==> t in L.bases && L.bases[t] == c)
      && (WallHere in r <==> c in s.walls)
  {
    GetAllObjectsListsLookups(L, s, c);
    ObjectsAtIs(L, s, c, BaseAt(L, c), ActorAt(L, s, c), FlagAt(L, s, c));
    BaseAtExact(L, c);
  }

  /** ... and the actor and the flag the reverse views report for it. */
  lemma GetAllObjectsReportsViews(L: Layout, s: BoardState, c: Coord)
    requires LayoutValid(L) && Keyed(L, s)
    ensures var r := GetAllObjects(L, s, c);
      && (forall a :: ActorHere(a) in r <==> ActorAt(L, s, c) == Some(a))
      && (forall t :: FlagHere(t) in r <==> FlagAt(L, s, c) == Some(t))
  {
    GetAllObjectsListsLookups(L, s, c);
    ObjectsAtIs(L, s, c, BaseAt(L, c), ActorAt(L, s, c), FlagAt(L, s, c));
  }

  /** On a valid board every actor on the cell is listed; of several flags only one is. */
  lemma GetAllObjectsOnValidBoard(L: Layout, s: BoardState, c: Coord)
    requires BoardValid(L, s)
    ensures forall a | a in s.actors :: ActorHere(a) in GetAllObjects(L, s, c) <==> s.actors[a] == c
    ensures (exists t :: FlagHere(t) in GetAllObjects(L, s, c)) <==> c in s.flags.Values
  {
    GetAllObjectsReportsViews(L, s, c);
    ActorAtExact(L, s, c);
    if c in s.flags.Values {
      assert FlagHere(FlagAt(L, s, c).value) in GetAllObjects(L, s, c);
    }
  }

  /** `BoardData`: the fixed layout as constants, what the game changes as fields. */
  class Board {
    const mapSize: int
    const teams: seq<TeamName>
    const actorKinds: seq<ActorKind>
    const bases: map<TeamName, Coord>
    var actors: map<ActorId, Coord>
    var carried: map<ActorId, Option<TeamName>>
    var flags: map<TeamName, Coord>
    var walls: set<Coord>

    function Fixed(): Layout {
      Layout(mapSize, teams, actorKinds, bases)
    }

    function Current(): BoardState
      reads this
    {
      BoardState(actors, carried, flags, walls)
    }

    ghost predicate Valid()
      reads this
    {
      BoardValid(Fixed(), Current())
    }

    /** The board as setup leaves it. */
    constructor (layout: Layout, initial: BoardState)
      requires BoardValid(layout, initial)
      ensures Fixed() == layout && Current() == initial
      ensures Valid()
    {
      mapSize, teams, actorKinds, bases := layout.mapSize, layout.teams, layout.actorKinds, layout.bases;
      actors, carried, flags, walls := initial.actors, initial.carried, initial.flags, initial.walls;
    }

    /** `actors_of_team`: for every team, its actors by ident. */
    method ActorsOfTeam() returns (r: map<TeamName, seq<ActorId>>)
      ensures r.Keys == TeamSet(teams)
      ensures forall t | t in r :: |r[t]| == |actorKinds|
      ensures forall t | t in r :: forall i | 0 <= i < |r[t]| ::
        r[t][i].ident == i && r[t][i].team == t && r[t][i].kind == actorKinds[i]
    {
      r := map[];
      for k := 0 to |teams|
        invariant r.Keys == TeamSet(teams[..k])
        invariant forall t | t in r :: |r[t]| == |actorKinds|
        invariant forall t | t in r :: forall i | 0 <= i < |r[t]| ::
          r[t][i].ident == i && r[t][i].team == t && r[t][i].kind == actorKinds[i]
      {
        var team := teams[k];
        var members: seq<ActorId> := [];
        for i := 0 to |actorKinds|
          invariant |members| == i
          invariant forall j | 0 <= j < i ::
            members[j].ident == j && members[j].team == team && members[j].kind == actorKinds[j]
        {
          members := members + [TeamsActors(Fixed(), team, i)];
        }
        r := r[team := members];
        assert teams[..k + 1] == teams[..k] + [team];
      }
      assert teams[..|teams|] == teams;
    }
  }
}
