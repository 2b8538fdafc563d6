/**
 * The archive a store is saved to and loaded from, as a stream of tokens.
 * One archive either writes (appends tokens) or reads (consumes tokens from a
 * position). Each `Serialize…` method is the `Ar << x` operator: when writing
 * it appends `x` and gives `x` back; when reading it gives the next token's
 * value. A read that finds no token of the expected kind sets the sticky error
 * flag and leaves the value and the position as they were, and once the flag
 * is set nothing more is read.
 */
module ArchiveIO {
  import opened ChunkTypes

  function ReadInt(t: seq<Token>, p: nat): (r: Option<int>)
    ensures r.Some? <==> p < |t| && t[p].IntTok?
  {
    if p < |t| && t[p].IntTok? then Some(t[p].i) else None
  }

  function ReadName(t: seq<Token>, p: nat): (r: Option<Name>)
    ensures r.Some? <==> p < |t| && t[p].NameTok?
  {
    if p < |t| && t[p].NameTok? then Some(t[p].n) else None
  }

  function ReadBool(t: seq<Token>, p: nat): (r: Option<bool>)
    ensures r.Some? <==> p < |t| && t[p].BoolTok?
  {
    if p < |t| && t[p].BoolTok? then Some(t[p].b) else None
  }

  function ReadStr(t: seq<Token>, p: nat): (r: Option<string>)
    ensures r.Some? <==> p < |t| && t[p].StrTok?
  {
    if p < |t| && t[p].StrTok? then Some(t[p].s) else None
  }

  /** A point is written as its X then its Y. */
  function EncodePoint(q: Point): seq<Token>
  {
    [IntTok(q.x), IntTok(q.y)]
  }

  function DecodePoint(t: seq<Token>, p: nat): (r: Option<(Point, nat)>)
    ensures r.Some? ==> r.value.1 == p + 2
  {
    if ReadInt(t, p).Some? && ReadInt(t, p + 1).Some?
    then Some((Point(ReadInt(t, p).value, ReadInt(t, p + 1).value), p + 2))
    else None
  }

  lemma PointRoundTrip(pre: seq<Token>, q: Point, rest: seq<Token>)
    ensures DecodePoint(pre + EncodePoint(q) + rest, |pre|) == Some((q, |pre| + 2))
  {
    var t := pre + EncodePoint(q) + rest;
    assert t[|pre|] == IntTok(q.x) && t[|pre| + 1] == IntTok(q.y);
  }

  class Archive {
    const loading: bool
    var data: seq<Token>
    var pos: nat
    var error: bool

    constructor Writer()
      ensures !loading && data == [] && pos == 0 && !error
    {
      loading := false;
      data := [];
      pos := 0;
      error := false;
    }

    constructor Reader(tokens: seq<Token>)
      ensures loading && data == tokens && pos == 0 && !error
    {
      loading := true;
      data := tokens;
      pos := 0;
      error := false;
    }

    method SerializeInt(x: int) returns (y: int)
      modifies this
      ensures !loading ==> data == old(data) + [IntTok(x)] && pos == old(pos) && error == old(error) && y == x
      ensures loading ==> data == old(data)
      ensures loading && !old(error) && ReadInt(data, old(pos)).Some? ==>
        y == ReadInt(data, old(pos)).value && pos == old(pos) + 1 && !error
      ensures loading && (old(error) || ReadInt(data, old(pos)).None?) ==>
        y == x && pos == old(pos) && error
    {
      if !loading {
        data := data + [IntTok(x)];
        y := x;
      } else if !error && pos < |data| && data[pos].IntTok? {
        y := data[pos].i;
        pos := pos + 1;
      } else {
        y := x;
        error := true;
      }
    }

    method SerializeName(x: Name) returns (y: Name)
      modifies this
      ensures !loading ==> data == old(data) + [NameTok(x)] && pos == old(pos) && error == old(error) && y == x
      ensures loading ==> data == old(data)
      ensures loading && !old(error) && ReadName(data, old(pos)).Some? ==>
        y == ReadName(data, old(pos)).value && pos == old(pos) + 1 && !error
      ensures loading && (old(error) || ReadName(data, old(pos)).None?) ==>
        y == x && pos == old(pos) && error
    {
      if !loading {
        data := data + [NameTok(x)];
        y := x;
      } else if !error && pos < |data| && data[pos].NameTok? {
        y := data[pos].n;
        pos := pos + 1;
      } else {
        y := x;
        error := true;
      }
    }

    method SerializeBool(x: bool) returns (y: bool)
      modifies this
      ensures !loading ==> data == old(data) + [BoolTok(x)] && pos == old(pos) && error == old(error) && y == x
      ensures loading ==> data == old(data)
      ensures loading && !old(error) && ReadBool(data, old(pos)).Some? ==>
        y == ReadBool(data, old(pos)).value && pos == old(pos) + 1 && !error
      ensures loading && (old(error) || ReadBool(data, old(pos)).None?) ==>
        y == x && pos == old(pos) && error
    {
      if !loading {
        data := data + [BoolTok(x)];
        y := x;
      } else if !error && pos < |data| && data[pos].BoolTok? {
        y := data[pos].b;
        pos := pos + 1;
      } else {
        y := x;
        error := true;
      }
    }

    method SerializeString(x: string) returns (y: string)
      modifies this
      ensures !loading ==> data == old(data) + [StrTok(x)] && pos == old(pos) && error == old(error) && y == x
      ensures loading ==> data == old(data)
      ensures loading && !old(error) && ReadStr(data, old(pos)).Some? ==>
        y == ReadStr(data, old(pos)).value && pos == old(pos) + 1 && !error
      ensures loading && (old(error) || ReadStr(data, old(pos)).None?) ==>
        y == x && pos == old(pos) && error
    {
      if !loading {
        data := data + [StrTok(x)];
        y := x;
      } else if !error && pos < |data| && data[pos].StrTok? {
        y := data[pos].s;
        pos := pos + 1;
      } else {
        y := x;
        error := true;
      }
    }

    /** `Ar << Point`: X then Y. */
    method SerializePoint(q: Point) returns (r: Point)
      modifies this
      ensures !loading ==> data == old(data) + EncodePoint(q) && pos == old(pos) && error == old(error) && r == q
      ensures loading ==> data == old(data)
      ensures loading && !old(error) ==>
        match DecodePoint(data, old(pos))
        case Some((v, next)) => r == v && pos == next && !error
        case None => error
      ensures loading && old(error) ==> error && pos == old(pos)
    {
      var x := SerializeInt(q.x);
      var y := SerializeInt(q.y);
      r := Point(x, y);
    }
  }
}
