/**
 * Grid arithmetic of the chunk container: floor division, the chunk a grid
 * point belongs to, the bounds of a chunk, and the partition of a set of grid
 * points by chunk.
 */
module GridMath {
  import opened ChunkTypes

  /** The smallest chunk size the container accepts. */
  const DefaultChunkSize: int := 1

  /**
   * Floor division as written: the source divides non-negative operands only,
   * where truncating and Euclidean division agree.
   */
  function DivFloor(v: int, d: int): int
    requires d > 0
  {
    if v >= 0 then v / d else -((-v + d - 1) / d)
  }

  /** DivFloor is the mathematical floor of v / d. */
  lemma DivFloorIsFloor(v: int, d: int)
    requires d > 0
    ensures DivFloor(v, d) * d <= v < (DivFloor(v, d) + 1) * d
  {
    if v >= 0 {
      var q, r := v / d, v % d;
      assert v == q * d + r && 0 <= r < d;
      assert (q + 1) * d == q * d + d;
    } else {
      var w := -v + d - 1;
      var q, r := w / d, w % d;
      assert w == q * d + r && 0 <= r < d;
      assert DivFloor(v, d) == -q;
      assert -q * d == -(q * d);
      assert (-q + 1) * d == -(q * d) + d;
    }
  }

  /** The floor is the only integer q with q*d <= v < (q+1)*d. */
  lemma FloorUnique(v: int, d: int, q: int)
    requires d > 0
    requires q * d <= v < (q + 1) * d
    ensures DivFloor(v, d) == q
  {
    var f := DivFloor(v, d);
    DivFloorIsFloor(v, d);
    if f < q {
      assert f + 1 <= q;
      MulMonotone(f + 1, q, d);
      assert false;
    } else if f > q {
      assert q + 1 <= f;
      MulMonotone(q + 1, f, d);
      assert false;
    }
  }

  lemma MulMonotone(a: int, b: int, d: int)
    requires a <= b && d > 0
    ensures a * d <= b * d
  {
    assert b * d - a * d == (b - a) * d;
  }

  /** The values the unit tests expect of DivFloor. */
  lemma DivFloorExamples()
    ensures DivFloor(0, 7) == 0 && DivFloor(1, 7) == 0 && DivFloor(6, 7) == 0
    ensures DivFloor(7, 7) == 1 && DivFloor(-1, 7) == -1 && DivFloor(-7, 7) == -1
    ensures DivFloor(-8, 7) == -2
  {
  }

  /** ConvertGlobalToChunkGrid: floor division of each axis by the chunk size. */
  function ChunkOf(p: Point, s: int): Point
    requires s >= 1
  {
    Point(DivFloor(p.x, s), DivFloor(p.y, s))
  }

  /** GetChunkBounds: the first and last grid point of chunk c, both inclusive. */
  function ChunkBounds(c: Point, s: int): (b: (Point, Point))
    requires s >= 1
    ensures b.0.x <= b.1.x && b.0.y <= b.1.y
    ensures b.1.x - b.0.x == s - 1 && b.1.y - b.0.y == s - 1
  {
    (Point(c.x * s, c.y * s), Point((c.x + 1) * s - 1, (c.y + 1) * s - 1))
  }

  predicate InRect(p: Point, topLeft: Point, bottomRight: Point)
  {
    topLeft.x <= p.x <= bottomRight.x && topLeft.y <= p.y <= bottomRight.y
  }

  /** A point belongs to chunk c exactly when it lies inside c's bounds. */
  lemma ChunkOfIffInBounds(p: Point, c: Point, s: int)
    requires s >= 1
    ensures ChunkOf(p, s) == c <==> InRect(p, ChunkBounds(c, s).0, ChunkBounds(c, s).1)
  {
    assert (c.x + 1) * s == c.x * s + s;
    assert (c.y + 1) * s == c.y * s + s;
    DivFloorIsFloor(p.x, s);
    DivFloorIsFloor(p.y, s);
    if InRect(p, ChunkBounds(c, s).0, ChunkBounds(c, s).1) {
      FloorUnique(p.x, s, c.x);
      FloorUnique(p.y, s, c.y);
    }
  }

  /** Every grid point lies inside the bounds of its own chunk. */
  lemma PointInOwnChunk(p: Point, s: int)
    requires s >= 1
    ensures InRect(p, ChunkBounds(ChunkOf(p, s), s).0, ChunkBounds(ChunkOf(p, s), s).1)
  {
    ChunkOfIffInBounds(p, ChunkOf(p, s), s);
  }

  /** The chunks the points of a set fall into. */
  function ChunksOf(locs: set<Point>, s: int): set<Point>
    requires s >= 1
  {
    set p | p in locs :: ChunkOf(p, s)
  }

  /** The points of a set that fall into chunk c. */
  function PointsIn(locs: set<Point>, c: Point, s: int): set<Point>
    requires s >= 1
  {
    set p | p in locs && ChunkOf(p, s) == c
  }

  /** The grouping SplitGridLocationsToChunks computes. */
  function Split(locs: set<Point>, s: int): map<Point, set<Point>>
    requires s >= 1
  {
    map c | c in ChunksOf(locs, s) :: PointsIn(locs, c, s)
  }

  /** The grouping is a partition of the input by chunk, with no empty group. */
  lemma SplitIsPartition(locs: set<Point>, s: int)
    requires s >= 1
    ensures forall c | c in Split(locs, s) :: Split(locs, s)[c] != {}
    ensures forall c, p | c in Split(locs, s) && p in Split(locs, s)[c] :: p in locs && ChunkOf(p, s) == c
    ensures forall p | p in locs :: ChunkOf(p, s) in Split(locs, s) && p in Split(locs, s)[ChunkOf(p, s)]
  {
    var g := Split(locs, s);
    forall c | c in g ensures g[c] != {} {
      var p :| p in locs && ChunkOf(p, s) == c;
      assert p in g[c];
    }
    forall p | p in locs ensures ChunkOf(p, s) in g && p in g[ChunkOf(p, s)] {
      assert ChunkOf(p, s) in ChunksOf(locs, s);
    }
  }

  /**
   * SplitGridLocationsToChunks: visits the points one at a time and adds each
   * to the group of its chunk, creating the group on first use.
   */
  method SplitGridLocationsToChunks(locs: set<Point>, s: int) returns (groups: map<Point, set<Point>>)
    requires s >= 1
    ensures groups == Split(locs, s)
  {
    groups := map[];
    var remaining := locs;
    while remaining != {}
      invariant remaining <= locs
      invariant groups == Split(locs - remaining, s)
      decreases |remaining|
    {
      var p :| p in remaining;
      var c := ChunkOf(p, s);
      ghost var done := locs - remaining;
      var group := if c in groups then groups[c] else {};
      groups := groups[c := group + {p}];
      remaining := remaining - {p};
      SplitAddOne(done, p, s);
      assert locs - remaining == done + {p};
    }
    assert locs - remaining == locs;
  }

  lemma SplitAddOne(done: set<Point>, p: Point, s: int)
    requires s >= 1 && p !in done
    ensures var c := ChunkOf(p, s);
      Split(done + {p}, s) == Split(done, s)[c := (if c in Split(done, s) then Split(done, s)[c] else {}) + {p}]
  {
    var c := ChunkOf(p, s);
    var a, b := Split(done + {p}, s), Split(done, s);
    var e := b[c := (if c in b then b[c] else {}) + {p}];
    assert ChunksOf(done + {p}, s) == ChunksOf(done, s) + {c};
    forall c' | c' in a ensures c' in e && a[c'] == e[c'] {
      if c' == c {
        assert PointsIn(done + {p}, c, s) == PointsIn(done, c, s) + {p};
      } else {
        assert PointsIn(done + {p}, c', s) == PointsIn(done, c', s);
      }
    }
    assert a.Keys == e.Keys;
  }
}
