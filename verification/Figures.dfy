/** What the tables of the modes come to: who may use what, and the seconds a metre takes
    (internal/route/modes.go:105-243, internal/city/city.go; the walking figures are those of
    internal/route/route_test.go:1803-1836). */
module Figures {
  import opened Roads

  /** Said of what a mode may not use: a car nothing that is not a carriageway; a bicycle no motorway, lift, steps
      or ferrata and no rough trail; a walker no motorway and nothing forbidden, but any ferrata and any steps. */
  lemma WhoMayUseWhat(st: Stretch)
    ensures Usable(Car, st) <==> st.cls !in {Cycleway, Pedestrian, Track, Path, StepsWay, LiftLine, OtherWay}
    ensures Usable(Bike, st) <==>
              && st.bikeAccess >= 0 && !st.steps && !st.ferrata
              && st.cls !in {Motorway, Trunk, StepsWay, LiftLine, OtherWay}
              && (st.cls == Track ==> st.mtb <= 2)
              && (st.cls == Path ==> st.bikeAccess > 0 || st.mtb in {0, 1})
    ensures Usable(Hike, st) <==>
              && st.footAccess >= 0 && st.cls != LiftLine
              && (st.cls in {Motorway, Trunk, StepsWay, OtherWay} ==> st.ferrata || st.steps)
  {
    match st.cls
    case Motorway => case Trunk => case Primary => case Secondary => case Tertiary => case Residential =>
    case Service => case Cycleway => case Pedestrian => case Track => case Path => case StepsWay =>
    case LiftLine => case OtherWay =>
  }

  /** Turning around is swapping what a stretch rises and what it falls. */
  lemma TurnedAround(m: Mode, st: Stretch, marked: bool)
    ensures Weight(m, st, true, marked) == Weight(m, st.(up := st.down, down := st.up), false, marked)
  {
    assert st.up - st.down == -(st.down - st.up);
  }

  /** Driving goes at the limit: 27.7 m/s on motorways and trunk roads, 16.6 on main roads, 8.3 on service roads,
      13.9 on any other. */
  lemma DrivingGoesAtTheLimit(st: Stretch, rev: bool, marked: bool)
    ensures var w := Weight(Car, st, rev, marked);
      && (st.cls in {Motorway, Trunk} ==> 27.7 * w == st.len)
      && (st.cls in {Primary, Secondary} ==> 16.6 * w == st.len)
      && (st.cls == Service ==> 8.3 * w == st.len)
      && (st.cls in {Tertiary, Residential} ==> 13.9 * w == st.len)
  {
  }

  /** The seconds a metre of the flat takes a walker. */
  function FlatPace(st: Stretch, marked: bool): real {
    (if marked then 0.81 else if st.cls == Primary then 1.35 else 1.08)
    * (if st.sac == 5 then 1.6 else if st.sac == 6 then 2.0 else 1.0)
  }

  /** A metre climbed counts ten metres and one descended five; of these and the way along, the more counts whole and
      the less by half. */
  lemma WalkingClock(st: Stretch, marked: bool)
    ensures var w := Weight(Hike, st, false, marked); var steep := 10.0 * st.up + 5.0 * st.down;
      w == FlatPace(st, marked) * (if steep <= st.len then st.len + steep / 2.0 else steep + st.len / 2.0)
  {
    var h := st.len / (4000.0 / 3600.0);
    var v := st.up / (400.0 / 3600.0) + st.down / (800.0 / 3600.0);
    assert h == 0.9 * st.len && v == 0.9 * (10.0 * st.up + 5.0 * st.down);
    assert HikeFactor(st, marked) * 0.9 == FlatPace(st, marked);
    var steep := 10.0 * st.up + 5.0 * st.down;
    var most := if steep <= st.len then st.len + steep / 2.0 else steep + st.len / 2.0;
    assert HikeBase(st.len, st.up, st.down) == 0.9 * most;
  }

  /** The seconds a metre of flat road takes a cyclist: off the numbered bike routes a twentieth more. */
  function RidePace(st: Stretch): real {
    (match st.cls
     case Cycleway => 0.225
     case Track => 0.3
     case Path => 0.45
     case Pedestrian => 0.45
     case Primary => 0.384
     case Secondary => 0.3
     case _ => 0.24) * (if st.bikeRef then 1.0 else 1.05)
  }

  function Rise(st: Stretch, rev: bool): real
    requires st.len > 0.0
  {
    (if rev then st.down - st.up else st.up - st.down) / st.len
  }

  /** The slope that counts: three tenths at most either way. */
  function Steepness(rise: real): real { if rise > 0.0 then Min(rise, 0.3) else Min(-rise, 0.3) }

  /** Every hundredth of slope adds twelve hundredths of the time, up to three tenths of slope; downhill the speed
      grows by three times the slope, up to the same bound. The cap of 40 km/h is never reached. */
  lemma CyclingClock(st: Stretch, rev: bool, marked: bool)
    requires st.len > 0.0
    ensures var w, flat, rise := Weight(Bike, st, rev, marked), RidePace(st) * st.len, Rise(st, rev);
      if rise > 0.0 then w == flat * (1.0 + 12.0 * Steepness(rise)) else w * (1.0 + 3.0 * Steepness(rise)) == flat
  {
    hide Weight, BikeFactor, BikeBase, BikeSpeed, RidePace, Rise;
    var base, rise := BikeBase(st.cls), Rise(st, rev);
    BaseAndPace(st);
    var slope := if rise > 0.0 then Steepness(rise) else -Steepness(rise);
    SpeedOf(base, rise, slope);
    RideTakes(st, rev, marked, slope);
    var v, w := BikeSpeed(base, slope), Weight(Bike, st, rev, marked);
    hide Steepness;
    if rise > 0.0 {
      Uphill(BikeFactor(st), st.len, base, 1.0 + 12.0 * Steepness(rise), v, w, RidePace(st));
    } else {
      Downhill(BikeFactor(st), st.len, base, 1.0 + 3.0 * Steepness(rise), v, w, RidePace(st));
    }
  }

  lemma RideTakes(st: Stretch, rev: bool, marked: bool, slope: real)
    requires st.len > 0.0
    requires slope == if Rise(st, rev) > 0.0 then Steepness(Rise(st, rev)) else -Steepness(Rise(st, rev))
    requires 0.0 < BikeBase(st.cls) && -0.3 <= slope <= 0.3
    ensures BikeSpeed(BikeBase(st.cls), slope) > 0.0
    ensures Weight(Bike, st, rev, marked) == BikeFactor(st) * st.len / (BikeSpeed(BikeBase(st.cls), slope) / 3.6)
  {
    hide BikeFactor, BikeBase, BikeSpeed, BikeSlope, Steepness;
    SlopeOf(if rev then st.down - st.up else st.up - st.down, st.len);
    assert BikeSlope(if rev then st.down - st.up else st.up - st.down, st.len) == slope;
  }

  lemma SlopeOf(climb: real, len: real)
    requires len > 0.0
    ensures BikeSlope(climb, len) == if climb / len > 0.0 then Steepness(climb / len) else -Steepness(climb / len)
  {
  }

  lemma SpeedOf(base: real, rise: real, slope: real)
    requires 0.0 < base <= 16.0 && slope == if rise > 0.0 then Steepness(rise) else -Steepness(rise)
    ensures -0.3 <= slope <= 0.3 && BikeSpeed(base, slope) > 0.0
    ensures BikeSpeed(base, slope)
         == if rise > 0.0 then base / (1.0 + 12.0 * Steepness(rise)) else base * (1.0 + 3.0 * Steepness(rise))
  {
    if rise <= 0.0 { FasterDownhill(base, 1.0 + 3.0 * Steepness(rise)); }
  }

  lemma BaseAndPace(st: Stretch)
    ensures 0.0 < BikeBase(st.cls) <= 16.0
    ensures 3.6 * BikeFactor(st) / BikeBase(st.cls) == RidePace(st)
  {
  }

  lemma FasterDownhill(base: real, k: real)
    requires 0.0 < base <= 16.0 && 1.0 <= k <= 1.9
    ensures base * k <= 40.0
  {
    assert base * k <= 16.0 * k;
  }

  lemma Uphill(f: real, len: real, base: real, k: real, v: real, w: real, pace: real)
    requires base > 0.0 && k > 0.0 && v == base / k && v > 0.0 && w == f * len / (v / 3.6) && 3.6 * f / base == pace
    ensures w == pace * len * k
  {
    assert w * (v / 3.6) == f * len;
    assert v * k == base;
    assert w * base == w * v * k == 3.6 * f * len * k;
    SameQuotient(w, base, 3.6 * f, len * k);
  }

  lemma Downhill(f: real, len: real, base: real, k: real, v: real, w: real, pace: real)
    requires base > 0.0 && k > 0.0 && v == base * k && v > 0.0 && w == f * len / (v / 3.6) && 3.6 * f / base == pace
    ensures w * k == pace * len
  {
    assert w * (v / 3.6) == f * len;
    assert w * k * base == 3.6 * f * len;
    SameQuotient(w * k, base, 3.6 * f, len);
  }

  lemma SameQuotient(x: real, base: real, f: real, y: real)
    requires base > 0.0 && x * base == f * y
    ensures x == f / base * y
  {
    assert f / base * base == f;
    assert (x - f / base * y) * base == 0.0;
  }
}
