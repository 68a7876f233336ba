/** The stretches of a region, the three ways of travelling them, and what a mode pays for one
    (internal/route/modes.go, internal/city/city.go, internal/route/load.go). Figures are exact
    reals; a class of way is a constructor instead of the map's string. */
module Roads {

  datatype Option<+T> = None | Some(value: T)

  datatype Mode = Car | Bike | Hike

  datatype Class =
    | Motorway | Trunk | Primary | Secondary | Tertiary | Residential | Service
    | Cycleway | Pedestrian | Track | Path | StepsWay | LiftLine | OtherWay

  datatype LiftKind = CableCar | Gondola | ChairLift | MixedLift | OtherLift

  datatype Point = Point(x: real, y: real)

  /** A stretch of road or path between the junctions a and b. */
  datatype Stretch = Stretch(
    len: real, a: nat, b: nat, cls: Class, one: bool,
    up: real, down: real,
    sac: int, ferrata: bool, steps: bool, mtb: int, bikeAccess: int, footAccess: int,
    marked: bool,   // an OSM hiking ref or a SAT number
    bikeRef: bool,  // carries the number of a bike route
    satGrade: int,  // the SAT grade, 0 when the map declares none
    // what an aerialway carries: its published ride (0 for none), its kind, whether it only runs
    // uphill, and whether b stands at least as high as a
    liftDur: real, liftKind: LiftKind, uphillOnly: bool, rises: bool,
    name: string
  )

  const SWITCH_COST: real := 120.0
  const RAMP_COST: real := 20.0
  const LIFT_BOARD: real := 300.0
  const LIFT_FASTEST: real := 10.0

  function Max(a: real, b: real): real { if a >= b then a else b }
  function Min(a: real, b: real): real { if a <= b then a else b }

  function Limit(c: Class): real {
    match c
    case Motorway => 27.7
    case Trunk => 27.7
    case Primary => 16.6
    case Secondary => 16.6
    case Service => 8.3
    case _ => 13.9
  }

  predicate IsMotorway(c: Class) { c.Motorway? || c.Trunk? }

  /** Whether a mode may travel a stretch at all; grades are refused later, by the search. */
  predicate Usable(m: Mode, st: Stretch) {
    match m
    case Car =>
      st.cls in {Motorway, Trunk, Primary, Secondary, Tertiary, Residential, Service}
    case Bike =>
      if st.bikeAccess < 0 || st.steps || st.ferrata || st.cls.LiftLine? then false
      else if st.cls in {Primary, Secondary, Tertiary, Residential, Service, Cycleway, Pedestrian} then true
      else if st.cls.Track? then st.mtb <= 2
      else if st.cls.Path? then st.bikeAccess > 0 || 0 <= st.mtb <= 1
      else false
    case Hike =>
      if st.footAccess < 0 || st.cls.LiftLine? then false
      else if st.cls in {Path, Track, Pedestrian, Cycleway, Residential, Service, Tertiary, Secondary, Primary}
          then true
      else st.ferrata || st.steps
  }

  /** The fastest one mode can move, in metres per second. */
  function TopSpeed(m: Mode): real {
    match m
    case Car => Limit(Motorway)
    case Bike => 40.0 / 3.6
    case Hike => 6.0 / 3.6
  }

  function BikeBase(c: Class): real {
    match c
    case Cycleway => 16.0
    case Track => 12.0
    case Path => 8.0
    case Pedestrian => 8.0
    case _ => 15.0
  }

  function BikeFactor(st: Stretch): real {
    (match st.cls case Primary => 1.6 case Secondary => 1.25 case _ => 1.0) * (if st.bikeRef then 1.0 else 1.05)
  }

  function BikeSpeed(base: real, slope: real): real
    requires base > 0.0 && -0.3 <= slope <= 0.3
    ensures 0.0 < BikeSpeed(base, slope)
  {
    if slope > 0.0 then base / (1.0 + 12.0 * slope)
    else if slope < 0.0 then Min(base * (1.0 - 3.0 * slope), 40.0)
    else base
  }

  function BikeSlope(climb: real, len: real): (r: real)
    ensures -0.3 <= r <= 0.3
  {
    if len > 0.0 then Max(-0.3, Min(0.3, climb / len)) else 0.0
  }

  function HikeBase(len: real, up: real, down: real): real {
    var h := len / (4000.0 / 3600.0);
    var v := up / (400.0 / 3600.0) + down / (800.0 / 3600.0);
    Max(h, v) + Min(h, v) / 2.0
  }

  function HikeFactor(st: Stretch, marked: bool): real {
    (if marked then 0.9 else if st.cls.Primary? then 1.5 else 1.2)
    * (if st.sac == 5 then 1.6 else if st.sac == 6 then 2.0 else 1.0)
  }

  /** The seconds a mode needs along a stretch; rev travels it from b to a, swapping climb and descent. */
  function Weight(m: Mode, st: Stretch, rev: bool, marked: bool): real {
    var up := if rev then st.down else st.up;
    var down := if rev then st.up else st.down;
    match m
    case Car => st.len / Limit(st.cls)
    case Bike =>
      var v := BikeSpeed(BikeBase(st.cls), BikeSlope(up - down, st.len));
      BikeFactor(st) * st.len / (v / 3.6)
    case Hike => HikeBase(st.len, up, down) * HikeFactor(st, marked)
  }

  function LiftSpeed(k: LiftKind): real {
    match k
    case CableCar => 10.0
    case Gondola => 5.0
    case ChairLift => 2.5
    case MixedLift => 4.0
    case OtherLift => 4.0
  }

  /** The published duration, else the length at the speed of its kind, plus the boarding. */
  function LiftCost(st: Stretch): real {
    (if st.liftDur <= 0.0 then st.len / LiftSpeed(st.liftKind) else st.liftDur) + LIFT_BOARD
  }

  /** The hardest effective grade a requested grade admits. */
  function GradeCeiling(grade: int): int { if grade >= 5 then 6 else grade }

  /** The grade a stretch is walked at: the SAT one when the map carries it, else its sac scale. */
  function EffGrade(st: Stretch): int { if st.satGrade > 0 then st.satGrade else st.sac }

  /** A directed edge: where it arrives, along which stretch, in how many seconds, and whether b to a. */
  datatype Edge = Edge(to: nat, st: nat, w: real, rev: bool)

  /** A region ready to be searched: one adjacency per mode and the lift layer. */
  datatype Graph = Graph(
    n: nat,
    pos: seq<Point>,
    stretches: seq<Stretch>,
    car: seq<seq<Edge>>, bike: seq<seq<Edge>>, hike: seq<seq<Edge>>,
    lift: seq<seq<Edge>>
  ) {
    function Adj(m: Mode): seq<seq<Edge>> {
      match m case Car => car case Bike => bike case Hike => hike
    }

    ghost predicate GoodLayer(l: seq<seq<Edge>>) {
      |l| == n &&
      forall v, k :: 0 <= v < n && 0 <= k < |l[v]| ==>
        l[v][k].to < n && l[v][k].st < |stretches| && l[v][k].w >= 0.0
    }

    ghost predicate Valid() {
      && |pos| == n
      && GoodLayer(car) && GoodLayer(bike) && GoodLayer(hike) && GoodLayer(lift)
    }
  }
}
