/**
 * The base of every chunk: two corners, normalised on construction so that
 * the top-left corner holds the minimum and the bottom-right corner the
 * maximum of each axis, and written to the archive as two points.
 */
module ChunkBase {
  import opened ChunkTypes
  import opened ArchiveIO
  import opened GridMath

  function Min(a: int, b: int): int { if a <= b then a else b }
  function Max(a: int, b: int): int { if a <= b then b else a }

  /** The corners the chunk stores when constructed from two given corners. */
  function NormalizeCorners(topLeft: Point, bottomRight: Point): (r: (Point, Point))
    ensures r.0.x <= r.1.x && r.0.y <= r.1.y
    ensures multiset{r.0.x, r.1.x} == multiset{topLeft.x, bottomRight.x}
    ensures multiset{r.0.y, r.1.y} == multiset{topLeft.y, bottomRight.y}
  {
    (Point(Min(topLeft.x, bottomRight.x), Min(topLeft.y, bottomRight.y)),
     Point(Max(topLeft.x, bottomRight.x), Max(topLeft.y, bottomRight.y)))
  }

  /** Constructing again from the stored corners gives the same corners. */
  lemma NormalizeIdempotent(topLeft: Point, bottomRight: Point)
    ensures var r := NormalizeCorners(topLeft, bottomRight);
      NormalizeCorners(r.0, r.1) == r
  {
  }

  /**
   * The stored corners depend only on the two values given for each axis, not
   * on which corner argument carried them.
   */
  lemma NormalizeOrderIndependent(a: Point, b: Point, c: Point, d: Point)
    requires multiset{a.x, b.x} == multiset{c.x, d.x}
    requires multiset{a.y, b.y} == multiset{c.y, d.y}
    ensures NormalizeCorners(a, b) == NormalizeCorners(c, d)
  {
    MultisetPair(a.x, b.x, c.x, d.x);
    MultisetPair(a.y, b.y, c.y, d.y);
  }

  lemma MultisetPair(a: int, b: int, c: int, d: int)
    requires multiset{a, b} == multiset{c, d}
    ensures (a == c && b == d) || (a == d && b == c)
  {
    assert c in multiset{a, b};
    if a == c {
      assert multiset{a, b} - multiset{a} == multiset{c, d} - multiset{c};
    } else {
      assert b == c;
      assert multiset{a, b} - multiset{b} == multiset{c, d} - multiset{c};
    }
  }

  /** The rectangle the normalised corners span contains exactly the points between the given corners. */
  lemma NormalizeSpansGivenCorners(topLeft: Point, bottomRight: Point, p: Point)
    ensures var r := NormalizeCorners(topLeft, bottomRight);
      InRect(p, r.0, r.1) <==>
        Min(topLeft.x, bottomRight.x) <= p.x <= Max(topLeft.x, bottomRight.x) &&
        Min(topLeft.y, bottomRight.y) <= p.y <= Max(topLeft.y, bottomRight.y)
  {
  }

  /** The tokens FChunkBase::Serialize writes: TopLeft, then BottomRight. */
  function EncodeCorners(topLeft: Point, bottomRight: Point): seq<Token>
  {
    EncodePoint(topLeft) + EncodePoint(bottomRight)
  }

  /** Reading the two corners back, in the order they were written; no normalisation is applied on load. */
  function DecodeCorners(t: seq<Token>, p: nat): (r: Option<(Point, Point, nat)>)
    ensures r.Some? ==> r.value.2 == p + 4
  {
    match DecodePoint(t, p)
    case None => None
    case Some((tl, q)) =>
      match DecodePoint(t, q)
      case None => None
      case Some((br, q2)) => Some((tl, br, q2))
  }

  /** Reading what was written gives back both corners, in order, and stops right after them. */
  lemma CornersRoundTrip(pre: seq<Token>, topLeft: Point, bottomRight: Point, rest: seq<Token>)
    ensures |EncodeCorners(topLeft, bottomRight)| == 4
    ensures DecodeCorners(pre + EncodeCorners(topLeft, bottomRight) + rest, |pre|) ==
      Some((topLeft, bottomRight, |pre| + 4))
  {
    var t := pre + EncodeCorners(topLeft, bottomRight) + rest;
    assert t == pre + EncodePoint(topLeft) + (EncodePoint(bottomRight) + rest);
    PointRoundTrip(pre, topLeft, EncodePoint(bottomRight) + rest);
    assert t == (pre + EncodePoint(topLeft)) + EncodePoint(bottomRight) + rest;
    PointRoundTrip(pre + EncodePoint(topLeft), bottomRight, rest);
  }

  /** FChunkBase::Serialize: both corners through the archive, TopLeft first. */
  method SerializeCorners(ar: Archive, topLeft: Point, bottomRight: Point) returns (tl: Point, br: Point)
    modifies ar
    ensures !ar.loading ==>
      ar.data == old(ar.data) + EncodeCorners(topLeft, bottomRight) &&
      ar.error == old(ar.error) && tl == topLeft && br == bottomRight
    ensures ar.loading ==> ar.data == old(ar.data)
    ensures ar.loading && !old(ar.error) ==>
      match DecodeCorners(ar.data, old(ar.pos))
      case Some((a, b, next)) => tl == a && br == b && ar.pos == next && !ar.error
      case None => ar.error
    ensures ar.loading && old(ar.error) ==> ar.error
  {
    tl := ar.SerializePoint(topLeft);
    br := ar.SerializePoint(bottomRight);
  }
}
