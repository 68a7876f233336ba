/** The Hilbert index of PMTiles: zxyToTileID numbers the tiles of every zoom along one curve, zoom
    after zoom (cmd/router/tiles.go:249-277). */
module Hilbert {

  function Pow2(k: nat): (r: nat)
    ensures r >= 1
  {
    if k == 0 then 1 else 2 * Pow2(k - 1)
  }

  function Pow4(k: nat): (r: nat)
    ensures r >= 1
  {
    if k == 0 then 1 else 4 * Pow4(k - 1)
  }

  lemma {:induction false} SquareOfPow2(k: nat)
    ensures Pow2(k) * Pow2(k) == Pow4(k)
  {
    if k > 0 {
      SquareOfPow2(k - 1);
      assert (2 * Pow2(k - 1)) * (2 * Pow2(k - 1)) == 4 * (Pow2(k - 1) * Pow2(k - 1));
    }
  }

  /** Where a zoom's numbers begin: one for every tile of the zooms above it. */
  function Base(z: nat): nat { if z == 0 then 0 else Base(z - 1) + Pow4(z - 1) }

  lemma {:induction false} BaseIsGeometric(z: nat)
    ensures 3 * Base(z) + 1 == Pow4(z)
  {
    if z > 0 { BaseIsGeometric(z - 1); }
  }

  // ------------------------------------------------------------------ the curve, and its inverse

  datatype Tile = Tile(x: nat, y: nat)

  predicate Within(k: nat, t: Tile) { t.x < Pow2(k) && t.y < Pow2(k) }

  /** The quarter the curve visits a quadrant in: (3 * rx) ^ ry. */
  function Quarter(rx: nat, ry: nat): (q: nat)
    requires rx < 2 && ry < 2
    ensures q < 4
  {
    if rx == 0 then ry else 3 - ry
  }

  /** The turn of a quadrant: the lower ones are transposed, the right-hand one also turned round. */
  function Turn(s: nat, rx: nat, ry: nat, t: Tile): (r: Tile)
    requires t.x < s && t.y < s
    ensures r.x < s && r.y < s
  {
    if ry == 0 then (if rx == 1 then Tile(s - 1 - t.y, s - 1 - t.x) else Tile(t.y, t.x)) else t
  }

  /** Whether a coordinate lies in the far half, and where it lies in its half. */
  function Half(s: nat, c: nat): nat { if c >= s then 1 else 0 }

  function Rest(s: nat, c: nat): nat { if c >= s then c - s else c }

  /** The quarter of a tile of the square of side 2s, and its tile in the curve of that quarter. */
  function QuarterAt(s: nat, t: Tile): (q: nat)
    ensures q < 4
  {
    Quarter(Half(s, t.x), Half(s, t.y))
  }

  function InnerAt(s: nat, t: Tile): (r: Tile)
    requires t.x < 2 * s && t.y < 2 * s
    ensures r.x < s && r.y < s
  {
    Turn(s, Half(s, t.x), Half(s, t.y), Tile(Rest(s, t.x), Rest(s, t.y)))
  }

  /** And back: the tile a quarter's tile is in the whole square. */
  function Place(s: nat, q: nat, inner: Tile): (t: Tile)
    requires q < 4 && inner.x < s && inner.y < s
    ensures t.x < 2 * s && t.y < 2 * s
  {
    var rx, ry := if q >= 2 then 1 else 0, if q == 1 || q == 2 then 1 else 0;
    var t := Turn(s, rx, ry, inner);
    Tile(if rx == 1 then s + t.x else t.x, if ry == 1 then s + t.y else t.y)
  }

  lemma PlaceInverts(s: nat, t: Tile)
    requires t.x < 2 * s && t.y < 2 * s
    ensures Place(s, QuarterAt(s, t), InnerAt(s, t)) == t
  {
  }

  lemma InverseOfPlace(s: nat, q: nat, inner: Tile)
    requires q < 4 && inner.x < s && inner.y < s
    ensures QuarterAt(s, Place(s, q, inner)) == q && InnerAt(s, Place(s, q, inner)) == inner
  {
  }

  /** Where a quarter's places begin. */
  function QuarterBase(p: nat, q: nat): nat
    requires q < 4
  {
    if q == 0 then 0 else if q == 1 then p else if q == 2 then 2 * p else 3 * p
  }

  /** The quarter a place lies in. */
  function QuarterOf(p: nat, d: nat): (q: nat)
    requires d < 4 * p
    ensures q < 4 && QuarterBase(p, q) <= d < QuarterBase(p, q) + p
  {
    if d < p then 0 else if d < 2 * p then 1 else if d < 3 * p then 2 else 3
  }

  /** The place of a tile on the curve of order k. */
  function Index(k: nat, t: Tile): (d: nat)
    requires Within(k, t)
    ensures d < Pow4(k)
  {
    if k == 0 then 0
    else
      var s := Pow2(k - 1);
      QuarterBase(Pow4(k - 1), QuarterAt(s, t)) + Index(k - 1, InnerAt(s, t))
  }

  /** The tile at a place of the curve. */
  function TileAt(k: nat, d: nat): (t: Tile)
    requires d < Pow4(k)
    ensures Within(k, t)
  {
    if k == 0 then Tile(0, 0)
    else
      var q := QuarterOf(Pow4(k - 1), d);
      Place(Pow2(k - 1), q, TileAt(k - 1, d - QuarterBase(Pow4(k - 1), q)))
  }

  lemma QuarterIsKnown(p: nat, q: nat, r: nat)
    requires q < 4 && r < p
    ensures QuarterOf(p, QuarterBase(p, q) + r) == q
  {
  }

  lemma TileAtUnfolds(k: nat, d: nat)
    requires k > 0 && d < Pow4(k)
    ensures d < 4 * Pow4(k - 1)
    ensures var q := QuarterOf(Pow4(k - 1), d); var t := TileAt(k - 1, d - QuarterBase(Pow4(k - 1), q));
      t.x < Pow2(k - 1) && t.y < Pow2(k - 1) && TileAt(k, d) == Place(Pow2(k - 1), q, t)
  {
  }

  lemma IndexUnfolds(k: nat, t: Tile)
    requires k > 0 && Within(k, t)
    ensures var s, p := Pow2(k - 1), Pow4(k - 1);
      && t.x < 2 * s && t.y < 2 * s && Within(k - 1, InnerAt(s, t))
      && Index(k, t) == QuarterBase(p, QuarterAt(s, t)) + Index(k - 1, InnerAt(s, t)) && Index(k - 1, InnerAt(s, t)) < p
  {
  }

  /** The square of order 0 is one tile. */
  lemma OneTile(d: nat)
    requires d < Pow4(0)
    ensures TileAt(0, d) == Tile(0, 0) && Within(0, Tile(0, 0)) && Index(0, Tile(0, 0)) == 0 && d == 0
  {
  }

  lemma NoOrder()
    ensures Pow2(0) == 1 && Pow4(0) == 1
  {
  }

  /** The two are inverse: the curve passes every tile of its square exactly once. */
  lemma {:induction false} TileAtIndex(k: nat, t: Tile)
    requires Within(k, t)
    ensures TileAt(k, Index(k, t)) == t
  {
    hide Place, QuarterAt, InnerAt, QuarterOf, QuarterBase, Index, TileAt, Pow2, Pow4;
    if k == 0 {
      NoOrder();
      OneTile(0);
    } else {
      var s, p := Pow2(k - 1), Pow4(k - 1);
      IndexUnfolds(k, t);
      TileAtIndex(k - 1, InnerAt(s, t));
      QuarterIsKnown(p, QuarterAt(s, t), Index(k - 1, InnerAt(s, t)));
      TileAtUnfolds(k, Index(k, t));
      PlaceInverts(s, t);
    }
  }

  lemma IndexOfPlace(k: nat, q: nat, t: Tile)
    requires k > 0 && q < 4 && t.x < Pow2(k - 1) && t.y < Pow2(k - 1)
    ensures Within(k, Place(Pow2(k - 1), q, t)) && Within(k - 1, t)
    ensures Index(k, Place(Pow2(k - 1), q, t)) == QuarterBase(Pow4(k - 1), q) + Index(k - 1, t)
  {
    var s := Pow2(k - 1);
    assert Pow2(k) == 2 * s;
    hide Place, QuarterAt, InnerAt, QuarterBase, Index, Pow2, Pow4;
    InverseOfPlace(s, q, t);
    IndexUnfolds(k, Place(s, q, t));
  }

  lemma {:induction false} IndexOfTileAt(k: nat, d: nat)
    requires d < Pow4(k)
    ensures Index(k, TileAt(k, d)) == d
  {
    hide Place, QuarterOf, QuarterBase, Index, TileAt, Pow2, Pow4, Within;
    if k == 0 {
      OneTile(d);
    } else {
      TileAtUnfolds(k, d);
      var q := QuarterOf(Pow4(k - 1), d);
      var r := d - QuarterBase(Pow4(k - 1), q);
      IndexOfTileAt(k - 1, r);
      IndexOfPlace(k, q, TileAt(k - 1, r));
    }
  }

  function Gap(a: nat, b: nat): nat { if a < b then b - a else a - b }

  /** Two tiles share an edge. */
  predicate Adjacent(a: Tile, b: Tile) { Gap(a.x, b.x) + Gap(a.y, b.y) == 1 }

  lemma EndQuarters(p: nat)
    requires p >= 1
    ensures QuarterOf(p, 0) == 0 && QuarterBase(p, 0) == 0
    ensures QuarterOf(p, 4 * p - 1) == 3 && 4 * p - 1 - QuarterBase(p, 3) == p - 1
  {
  }

  lemma EndPlaces(s: nat)
    requires s >= 1
    ensures Place(s, 0, Tile(0, 0)) == Tile(0, 0) && Place(s, 3, Tile(s - 1, 0)) == Tile(2 * s - 1, 0)
  {
  }

  lemma PowersUnfold(k: nat)
    requires k > 0
    ensures Pow4(k) == 4 * Pow4(k - 1) && Pow2(k) == 2 * Pow2(k - 1)
  {
  }

  lemma {:induction false} Begins(k: nat)
    ensures TileAt(k, 0) == Tile(0, 0)
  {
    hide Place, QuarterOf, QuarterBase, TileAt, Pow2, Pow4;
    if k == 0 {
      OneTile(0);
    } else {
      Begins(k - 1);
      TileAtUnfolds(k, 0);
      EndQuarters(Pow4(k - 1));
      EndPlaces(Pow2(k - 1));
    }
  }

  lemma {:induction false} Finishes(k: nat)
    ensures TileAt(k, Pow4(k) - 1) == Tile(Pow2(k) - 1, 0)
  {
    hide Place, QuarterOf, QuarterBase, TileAt, Pow2, Pow4;
    if k == 0 {
      NoOrder();
      OneTile(0);
    } else {
      Finishes(k - 1);
      PowersUnfold(k);
      TileAtUnfolds(k, Pow4(k) - 1);
      EndQuarters(Pow4(k - 1));
      EndPlaces(Pow2(k - 1));
    }
  }

  /** The curve enters at the near corner and leaves at the far end of the first row. */
  lemma Ends(k: nat)
    ensures TileAt(k, 0) == Tile(0, 0) && TileAt(k, Pow4(k) - 1) == Tile(Pow2(k) - 1, 0)
  {
    hide TileAt, Pow2, Pow4;
    Begins(k);
    Finishes(k);
  }

  /** Neighbours stay neighbours in every quarter, and each quarter ends beside the next one's start. */
  lemma QuartersAreJoined(s: nat, q: nat, a: Tile, b: Tile)
    requires q < 4 && s >= 1 && a.x < s && a.y < s && b.x < s && b.y < s
    ensures Adjacent(a, b) ==> Adjacent(Place(s, q, a), Place(s, q, b))
    ensures q < 3 ==> Adjacent(Place(s, q, Tile(s - 1, 0)), Place(s, q + 1, Tile(0, 0)))
  {
  }

  /** The place after d is the next one of its quarter, or the first of the quarter after. */
  lemma NextPlace(p: nat, d: nat)
    requires d + 1 < 4 * p
    ensures var q := QuarterOf(p, d); var r := d - QuarterBase(p, q);
      if r + 1 < p then QuarterOf(p, d + 1) == q && d + 1 - QuarterBase(p, q) == r + 1
      else r == p - 1 && q < 3 && QuarterOf(p, d + 1) == q + 1 && d + 1 == QuarterBase(p, q + 1)
  {
  }

  lemma OrderIsPositive(k: nat, d: nat)
    requires d + 1 < Pow4(k)
    ensures k > 0
  {
  }

  /** Consecutive places of the curve are tiles that share an edge. */
  lemma {:induction false} StepsAreAdjacent(k: nat, d: nat)
    requires d + 1 < Pow4(k)
    ensures Adjacent(TileAt(k, d), TileAt(k, d + 1))
  {
    hide Place, Adjacent, QuarterOf, QuarterBase, TileAt, Pow2, Pow4, Within;
    OrderIsPositive(k, d);
    TileAtUnfolds(k, d);
    TileAtUnfolds(k, d + 1);
    var s, p := Pow2(k - 1), Pow4(k - 1);
    var q := QuarterOf(p, d);
    var r := d - QuarterBase(p, q);
    NextPlace(p, d);
    if r + 1 < p {
      StepsAreAdjacent(k - 1, r);
      QuartersAreJoined(s, q, TileAt(k - 1, r), TileAt(k - 1, r + 1));
    } else {
      Ends(k - 1);
      QuartersAreJoined(s, q, Tile(0, 0), Tile(0, 0));
    }
  }

  // ------------------------------------------------------------------ the numbering

  function TileId(z: nat, t: Tile): nat
    requires Within(z, t)
  {
    Base(z) + Index(z, t)
  }

  lemma {:induction false} BaseMonotone(y: nat, z: nat)
    requires y <= z
    ensures Base(y) <= Base(z)
    decreases z
  {
    if y < z { BaseMonotone(y, z - 1); }
  }

  lemma InItsBlock(z: nat, t: Tile)
    requires Within(z, t)
    ensures Base(z) <= TileId(z, t) < Base(z + 1)
  {
  }

  lemma BaseIsAThird(z: nat)
    ensures Base(z) == (Pow4(z) - 1) / 3
  {
    hide Base, Pow4;
    BaseIsGeometric(z);
  }

  /** One numbering for all zooms: every zoom fills its own block, from a third of 4^z - 1 up to a
      third of 4^(z+1) - 1, and no number is given twice. */
  lemma BlocksAreFilled(z: nat, t: Tile, y: nat, u: Tile)
    requires Within(z, t) && Within(y, u)
    ensures (Pow4(z) - 1) / 3 <= TileId(z, t) < (Pow4(z + 1) - 1) / 3
    ensures TileId(z, t) == TileId(y, u) ==> z == y && t == u
  {
    hide Index, Base, Within, Pow4, Pow2, TileAt;
    BaseIsAThird(z);
    BaseIsAThird(z + 1);
    InItsBlock(z, t);
    InItsBlock(y, u);
    if z < y {
      BaseMonotone(z + 1, y);
    } else if y < z {
      BaseMonotone(y + 1, z);
    } else {
      TileAtIndex(z, t);
      TileAtIndex(z, u);
    }
  }

  /** A number of a block is the block's start and a place of the curve. */
  lemma PlaceInBlock(z: nat, d: nat)
    requires d < Pow4(z)
    ensures Within(z, TileAt(z, d)) && TileId(z, TileAt(z, d)) == Base(z) + d
  {
    hide Pow4, Pow2, Base;
    IndexOfTileAt(z, d);
  }

  /** The tile of a number, and that of the next. */
  ghost predicate Numbers(z: nat, id: nat, t: Tile) { Within(z, t) && TileId(z, t) == id }

  lemma PlacesInBlock(z: nat, d: nat)
    requires d + 1 < Pow4(z)
    ensures Numbers(z, Base(z) + d, TileAt(z, d)) && Numbers(z, Base(z) + d + 1, TileAt(z, d + 1))
    ensures Adjacent(TileAt(z, d), TileAt(z, d + 1))
  {
    hide Base, Pow4, Pow2, Within, TileId, TileAt, Adjacent;
    PlaceInBlock(z, d);
    PlaceInBlock(z, d + 1);
    StepsAreAdjacent(z, d);
  }

  lemma BlockSize(z: nat)
    ensures (Pow4(z + 1) - 1) / 3 == (Pow4(z) - 1) / 3 + Pow4(z) && Base(z) == (Pow4(z) - 1) / 3
  {
    BaseIsAThird(z);
    BaseIsAThird(z + 1);
  }

  /** Every number of a zoom's block is some tile's, and the next number is a tile beside it. */
  lemma EveryIdIsATile(z: nat, id: nat)
    requires (Pow4(z) - 1) / 3 <= id < (Pow4(z + 1) - 1) / 3
    ensures exists t :: Numbers(z, id, t)
    ensures id + 1 < (Pow4(z + 1) - 1) / 3 ==>
              exists t, u :: Numbers(z, id, t) && Numbers(z, id + 1, u) && Adjacent(t, u)
  {
    hide Base, Pow4, Pow2, TileAt, Adjacent, Within, TileId;
    BlockSize(z);
    var d := id - Base(z);
    PlaceInBlock(z, d);
    assert Numbers(z, id, TileAt(z, d));
    hide Numbers;
    if id + 1 < (Pow4(z + 1) - 1) / 3 {
      PlacesInBlock(z, d);
      assert Numbers(z, id + 1, TileAt(z, d + 1));
    }
  }

  // ------------------------------------------------------------------ the loop

  /** x & s > 0 for a power of two s: the bit, of a negative x in two's complement too. */
  predicate HasBit(x: int, s: nat)
    requires s > 0
  {
    x % (2 * s) >= s
  }

  lemma NoMultipleWithin(m: int, s: nat)
    requires -(s as int) < m * s < s
    ensures m == 0
  {
    assert m >= 1 ==> (m - 1) * s >= 0;
    assert m <= -1 ==> (-m - 1) * s >= 0;
  }

  /** A remainder is known by what is left of any multiple. */
  lemma ModUnique(x: int, s: nat, q: int, r: int)
    requires s > 0 && 0 <= r < s && x == q * s + r
    ensures x % s == r
  {
    var a, b := x / s, x % s;
    assert x == a * s + b;
    assert (a - q) * s == a * s - q * s;
    NoMultipleWithin(a - q, s);
  }

  lemma ModOfHalf(x: int, s: nat)
    requires s > 0
    ensures HasBit(x, s) == (Half(s, x % (2 * s)) == 1) && Rest(s, x % (2 * s)) == x % s
  {
    var q, r := x / (2 * s), x % (2 * s);
    assert x == q * (2 * s) + r;
    assert q * (2 * s) == (2 * q) * s;
    if r >= s {
      assert (2 * q + 1) * s == (2 * q) * s + s;
      ModUnique(x, s, 2 * q + 1, r - s);
    } else {
      ModUnique(x, s, 2 * q, r);
    }
  }

  lemma ModOfMirror(x: int, s: nat)
    requires s > 0
    ensures (s - 1 - x) % s == s - 1 - x % s
  {
    var a, b := x / s, x % s;
    assert x == a * s + b && (-a) * s == -(a * s);
    ModUnique(s - 1 - x, s, -a, s - 1 - b);
  }

  /** What the low k bits of the loop's coordinates are. */
  function Low(k: nat, xx: int, yy: int): (t: Tile)
    ensures Within(k, t)
  {
    Tile(xx % Pow2(k), yy % Pow2(k))
  }

  /** The coordinates after one turn of the loop. */
  function Rotated(s: nat, rx: nat, ry: nat, xx: int, yy: int): (int, int) {
    if ry == 0 then (if rx == 1 then (s - 1 - yy, s - 1 - xx) else (yy, xx)) else (xx, yy)
  }

  /** One turn of the loop: the quadrant is counted, and what is left is the turned rest, whatever the
      unmasked high bits hold. */
  lemma OneLevel(k: nat, xx: int, yy: int)
    requires k > 0
    ensures var s := Pow2(k - 1);
      var rx, ry := if HasBit(xx, s) then 1 else 0, if HasBit(yy, s) then 1 else 0;
      var r := Rotated(s, rx, ry, xx, yy);
      Index(k, Low(k, xx, yy)) == QuarterBase(Pow4(k - 1), Quarter(rx, ry)) + Index(k - 1, Low(k - 1, r.0, r.1))
  {
    var s := Pow2(k - 1);
    hide HasBit, QuarterBase;
    ModOfHalf(xx, s);
    ModOfHalf(yy, s);
    ModOfMirror(xx, s);
    ModOfMirror(yy, s);
    assert InnerAt(s, Low(k, xx, yy)) == Turn(s, Half(s, xx % (2 * s)), Half(s, yy % (2 * s)), Tile(xx % s, yy % s));
  }

  /** s * s * ((3 * rx) ^ ry). */
  function Term(s: nat, q: nat): nat { s * s * q }

  /** It is where the quarter begins. */
  lemma QuarterTerm(k: nat, q: nat)
    requires k > 0 && q < 4
    ensures Term(Pow2(k - 1), q) == QuarterBase(Pow4(k - 1), q)
  {
    SquareOfPow2(k - 1);
  }

  /** The coordinates a turn at side s leaves behind. */
  function AfterTurn(s: nat, xx: int, yy: int): (int, int)
    requires s > 0
  {
    Rotated(s, if HasBit(xx, s) then 1 else 0, if HasBit(yy, s) then 1 else 0, xx, yy)
  }

  /** The unmasked coordinates of tile (x, y) of zoom z when k turns are left. */
  function Unmasked(z: nat, x: nat, y: nat, k: nat): (int, int)
    decreases z - k
  {
    if k >= z then (x, y) else AfterTurn(Pow2(k), Unmasked(z, x, y, k + 1).0, Unmasked(z, x, y, k + 1).1)
  }

  predicate Between(lo: int, c: int, hi: int) { lo <= c <= hi }

  lemma TurnStaysBetween(s: nat, b: int, xx: int, yy: int)
    requires s > 0 && Between(-b, xx, b) && Between(-b, yy, b)
    ensures Between(-b - s, AfterTurn(s, xx, yy).0, b + s) && Between(-b - s, AfterTurn(s, xx, yy).1, b + s)
  {
    hide HasBit;
  }

  /** Unmasked as they are, the coordinates never leave twice the square. */
  lemma {:induction false} UnmaskedStaysBetween(z: nat, x: nat, y: nat, k: nat)
    requires Within(z, Tile(x, y)) && k <= z
    ensures var u, b := Unmasked(z, x, y, k), 2 * Pow2(z) - Pow2(k); Between(-b, u.0, b) && Between(-b, u.1, b)
    decreases z - k
  {
    hide AfterTurn;
    if k < z {
      var u := Unmasked(z, x, y, k + 1);
      UnmaskedStaysBetween(z, x, y, k + 1);
      TurnStaysBetween(Pow2(k), 2 * Pow2(z) - Pow2(k + 1), u.0, u.1);
    }
  }

  /** One turn of the loop. */
  method OneTurn(k: nat, xx0: int, yy0: int) returns (dd: nat, xx: int, yy: int)
    requires k > 0
    ensures Index(k, Low(k, xx0, yy0)) == dd + Index(k - 1, Low(k - 1, xx, yy))
    ensures (xx, yy) == AfterTurn(Pow2(k - 1), xx0, yy0)
  {
    hide Index, Low, HasBit, Quarter, Term, QuarterBase, Pow2, Pow4;
    var s := Pow2(k - 1);
    OneLevel(k, xx0, yy0);
    xx, yy := xx0, yy0;
    var rx, ry := if HasBit(xx, s) then 1 else 0, if HasBit(yy, s) then 1 else 0;
    QuarterTerm(k, Quarter(rx, ry));
    dd := Term(s, Quarter(rx, ry));
    if ry == 0 {
      if rx == 1 {
        xx := s - 1 - xx;
        yy := s - 1 - yy;
      }
      xx, yy := yy, xx;
    }
  }

  /** Where the zoom's numbers begin, summed up as the loop does. */
  method SumOfZooms(z: nat) returns (acc: nat)
    ensures acc == Base(z)
  {
    acc := 0;
    for t := 0 to z
      invariant acc == Base(t)
    {
      acc := acc + Pow4(t);
    }
  }

  /** zxyToTileID as it runs: bits from the top, the coordinates turned in place and left unmasked. */
  method ZxyToTileID(z: nat, x: nat, y: nat) returns (id: nat)
    requires Within(z, Tile(x, y))
    ensures id == TileId(z, Tile(x, y))
  {
    var acc := SumOfZooms(z);
    var d, xx: int, yy: int := 0, x, y;
    var k: nat := z;
    LowOfTile(z, x, y);
    while k > 0
      invariant k <= z && d + Index(k, Low(k, xx, yy)) == Index(z, Tile(x, y))
      invariant (xx, yy) == Unmasked(z, x, y, k)
    {
      hide Index, Low, AfterTurn, Within, Pow2, Pow4;
      var dd;
      dd, xx, yy := OneTurn(k, xx, yy);
      d := d + dd;
      k := k - 1;
    }
    NothingLeft(xx, yy);
    id := acc + d;
  }

  lemma LowOfTile(z: nat, x: nat, y: nat)
    requires Within(z, Tile(x, y))
    ensures Low(z, x, y) == Tile(x, y)
  {
    ModUnique(x, Pow2(z), 0, x);
    ModUnique(y, Pow2(z), 0, y);
  }

  lemma NothingLeft(xx: int, yy: int)
    ensures Index(0, Low(0, xx, yy)) == 0
  {
  }

  /** For every zoom a request may ask for (22 at most) the number stays far below 2^63, and so do the loop's
      coordinates at every turn: the machine's arithmetic does not wrap. */
  lemma NoWrap(z: nat, t: Tile, k: nat)
    requires z <= 22 && Within(z, t) && k <= z
    ensures TileId(z, t) < 0x4000_0000_0000
    ensures var u := Unmasked(z, t.x, t.y, k); -0x80_0000 < u.0 < 0x80_0000 && -0x80_0000 < u.1 < 0x80_0000
  {
    hide Index, Within, Unmasked;
    InItsBlock(z, t);
    BaseIsGeometric(z + 1);
    Pow4Monotone(z + 1, 23);
    Pow4Of23();
    UnmaskedStaysBetween(z, t.x, t.y, k);
    Pow2Monotone(z, 22);
    Pow2Of22();
  }

  lemma {:induction false} Pow2Monotone(a: nat, b: nat)
    requires a <= b
    ensures Pow2(a) <= Pow2(b)
    decreases b
  {
    if a < b { Pow2Monotone(a, b - 1); }
  }

  lemma Pow2Of22()
    ensures Pow2(22) == 0x40_0000
  {
    assert Pow2(11) == 2048;
  }

  lemma {:induction false} Pow4Monotone(a: nat, b: nat)
    requires a <= b
    ensures Pow4(a) <= Pow4(b)
    decreases b
  {
    if a < b { Pow4Monotone(a, b - 1); }
  }

  lemma Pow4Of23()
    ensures Pow4(23) == 0x4000_0000_0000
  {
    assert Pow4(8) == 65536;
    assert Pow4(16) == 0x1_0000_0000;
  }
}
