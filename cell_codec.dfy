/**
 * Saving and loading of channel keys and cell records.
 *
 * A key is written as its name, then its type's package name and asset name
 * (two None names for a null type). A cell is written as its entry count and,
 * when that is positive, one entry per channel: the key, a flag telling
 * whether the value is set, and for a set value the value type's package
 * name and asset name followed by the record's own fields.
 *
 * The pure `Encode…`/`Decode…` functions state the format; the `Serialize…`
 * methods run one archive in either direction and are proved against them.
 * Map iteration order is not observable, so the saving methods report the
 * order they used as a ghost out-parameter.
 */
module CellCodec {
  import opened ChunkTypes
  import opened ArchiveIO
  import opened CellInfo

  // ---------------------------------------------------------------- records

  /** The fields a record's Serialize writes, in declaration order. */
  function EncodeData(d: CellData): seq<Token>
  {
    match d
    case BaseData => []
    case Data(v) => [IntTok(v)]
    case Data2(v, w) => [IntTok(v), IntTok(w)]
    case Data3(n, n2) => [StrTok(n), NameTok(n2)]
  }

  /** Reading the fields of a record of type st into a default record of that type. */
  function DecodeData(t: seq<Token>, p: nat, st: StructType): (r: Option<(CellData, nat)>)
    ensures r.Some? ==> TypeOf(r.value.0) == st && r.value.1 >= p
  {
    match st
    case CellBaseInfo => Some((BaseData, p))
    case DataUnitTest =>
      (match ReadInt(t, p)
       case None => None
       case Some(v) => Some((Data(v), p + 1)))
    case Data2UnitTest =>
      (match (ReadInt(t, p), ReadInt(t, p + 1))
       case (Some(v), Some(w)) => Some((Data2(v, w), p + 2))
       case _ => None)
    case Data3UnitTest =>
      (match (ReadStr(t, p), ReadName(t, p + 1))
       case (Some(n), Some(n2)) => Some((Data3(n, n2), p + 2))
       case _ => None)
  }

  lemma {:induction false} DataRoundTrip(pre: seq<Token>, d: CellData, rest: seq<Token>)
    ensures DecodeData(pre + EncodeData(d) + rest, |pre|, TypeOf(d)) == Some((d, |pre| + |EncodeData(d)|))
  {
    var t := pre + EncodeData(d) + rest;
    match d
    case BaseData =>
    case Data(v) =>
      assert t[|pre|] == IntTok(v);
    case Data2(v, w) =>
      assert t[|pre|] == IntTok(v) && t[|pre| + 1] == IntTok(w);
    case Data3(n, n2) =>
      assert t[|pre|] == StrTok(n) && t[|pre| + 1] == NameTok(n2);
  }

  /** A record's Serialize: its fields through the archive. */
  method SerializeData(ar: Archive, d: CellData) returns (d': CellData)
    modifies ar
    ensures !ar.loading ==> ar.data == old(ar.data) + EncodeData(d) && ar.error == old(ar.error) && d' == d
    ensures ar.loading ==> ar.data == old(ar.data)
    ensures ar.loading && !old(ar.error) ==>
      match DecodeData(ar.data, old(ar.pos), TypeOf(d))
      case Some((e, next)) => d' == e && ar.pos == next && !ar.error
      case None => ar.error
    ensures ar.loading && old(ar.error) ==> ar.error
  {
    match d
    case BaseData =>
      d' := BaseData;
    case Data(v) =>
      var v' := ar.SerializeInt(v);
      d' := Data(v');
    case Data2(v, w) =>
      var v' := ar.SerializeInt(v);
      var w' := ar.SerializeInt(w);
      d' := Data2(v', w');
    case Data3(n, n2) =>
      var n' := ar.SerializeString(n);
      var n2' := ar.SerializeName(n2);
      d' := Data3(n', n2');
  }

  // ------------------------------------------------------------------- keys

  /** Package name and asset name written for a type; a null type writes two None names. */
  function TypeNames(t: Option<StructType>): (Name, Name)
  {
    match t
    case None => (NoName, NoName)
    case Some(st) => (PathOf(st).package, PathOf(st).asset)
  }

  function EncodeKey(k: ChannelKey): seq<Token>
  {
    [NameTok(k.name), NameTok(TypeNames(k.typ).0), NameTok(TypeNames(k.typ).1)]
  }

  /** Reading a key: its name, then its type resolved from the two path names. */
  function DecodeKey(t: seq<Token>, p: nat, r: Resolver): (res: Option<(ChannelKey, nat)>)
    ensures res.Some? ==> res.value.1 == p + 3
  {
    match (ReadName(t, p), ReadName(t, p + 1), ReadName(t, p + 2))
    case (Some(n), Some(package), Some(asset)) => Some((ChannelKey(n, Resolve(r, package, asset)), p + 3))
    case _ => None
  }

  /** The key's type, if any, is found again under its own path. */
  predicate KeyResolves(r: Resolver, k: ChannelKey)
  {
    k.typ.Some? ==> ResolvesTo(r, k.typ.value)
  }

  /** A key comes back as it was written: a null type as null, any other type when it resolves. */
  lemma KeyRoundTrip(pre: seq<Token>, k: ChannelKey, rest: seq<Token>, r: Resolver)
    requires KeyResolves(r, k)
    ensures DecodeKey(pre + EncodeKey(k) + rest, |pre|, r) == Some((k, |pre| + 3))
  {
    var t := pre + EncodeKey(k) + rest;
    assert t[|pre|] == NameTok(k.name);
    assert t[|pre| + 1] == NameTok(TypeNames(k.typ).0);
    assert t[|pre| + 2] == NameTok(TypeNames(k.typ).1);
  }

  /** A key whose type cannot be found comes back with a null type. */
  lemma KeyUnresolvedLoadsNull(pre: seq<Token>, k: ChannelKey, rest: seq<Token>, r: Resolver)
    requires k.typ.Some? && PathOf(k.typ.value) !in r
    ensures DecodeKey(pre + EncodeKey(k) + rest, |pre|, r) == Some((ChannelKey(k.name, None), |pre| + 3))
  {
    var t := pre + EncodeKey(k) + rest;
    assert t[|pre|] == NameTok(k.name);
    assert t[|pre| + 1] == NameTok(TypeNames(k.typ).0);
    assert t[|pre| + 2] == NameTok(TypeNames(k.typ).1);
  }

  /** FCellChannelKey::Serialize. */
  method SerializeKey(ar: Archive, k: ChannelKey, r: Resolver) returns (k': ChannelKey)
    modifies ar
    ensures !ar.loading ==> ar.data == old(ar.data) + EncodeKey(k) && ar.error == old(ar.error) && k' == k
    ensures ar.loading ==> ar.data == old(ar.data)
    ensures ar.loading && !old(ar.error) ==>
      match DecodeKey(ar.data, old(ar.pos), r)
      case Some((e, next)) => k' == e && ar.pos == next && !ar.error
      case None => ar.error
    ensures ar.loading && old(ar.error) ==> ar.error
  {
    var name := ar.SerializeName(k.name);
    var package, asset := NoName, NoName;
    if !ar.loading && k.typ.Some? {
      package, asset := PathOf(k.typ.value).package, PathOf(k.typ.value).asset;
    }
    package := ar.SerializeName(package);
    asset := ar.SerializeName(asset);
    if ar.loading {
      k' := ChannelKey(name, Resolve(r, package, asset));
    } else {
      k' := ChannelKey(name, k.typ);
    }
  }

  // ---------------------------------------------------------------- entries

  /** What loading one entry does to the map being filled. */
  datatype EntryLoad = Placeholder | Dropped | Loaded(v: InstancedStruct)

  /** The source dereferences the value's type when saving, so a set value must hold a record. */
  predicate Saveable(v: Option<InstancedStruct>)
  {
    v.None? || v.value.Holding?
  }

  function EncodeEntry(k: ChannelKey, v: Option<InstancedStruct>): seq<Token>
    requires Saveable(v)
  {
    EncodeKey(k) + [BoolTok(v.Some?)] +
    (if v.None? then []
     else
       var d := v.value.data;
       [NameTok(PathOf(TypeOf(d)).package), NameTok(PathOf(TypeOf(d)).asset)] + EncodeData(d))
  }

  function DecodeEntry(t: seq<Token>, p: nat, r: Resolver): (res: Option<(ChannelKey, EntryLoad, nat)>)
    ensures res.Some? ==> res.value.2 > p
  {
    match DecodeKey(t, p, r)
    case None => None
    case Some((k, q)) =>
      match ReadBool(t, q)
      case None => None
      case Some(has) =>
        if !has then Some((k, Placeholder, q + 1))
        else
          match (ReadName(t, q + 1), ReadName(t, q + 2))
          case (Some(package), Some(asset)) =>
            (match Resolve(r, package, asset)
             case None => Some((k, Dropped, q + 3))
             case Some(st) =>
               match DecodeData(t, q + 3, st)
               case None => None
               case Some((d, q')) => Some((k, Loaded(Holding(d)), q')))
          case _ => None
  }

  /** TMap::Add replaces an existing entry; a dropped entry leaves the map alone. */
  function Insert(acc: Channels, k: ChannelKey, e: EntryLoad): Channels
  {
    match e
    case Placeholder => acc[k := None]
    case Dropped => acc
    case Loaded(v) => acc[k := Some(v)]
  }

  /** The entry a saved value loads back as, when its type resolves. */
  function LoadOf(v: Option<InstancedStruct>): EntryLoad
  {
    if v.None? then Placeholder else Loaded(v.value)
  }

  /** The entry's value, if set, has a type the resolver finds again. */
  predicate ValueResolves(r: Resolver, v: Option<InstancedStruct>)
  {
    v.Some? && v.value.Holding? ==> ResolvesTo(r, TypeOf(v.value.data))
  }

  lemma EntryRoundTrip(pre: seq<Token>, k: ChannelKey, v: Option<InstancedStruct>, rest: seq<Token>, r: Resolver)
    requires Saveable(v) && KeyResolves(r, k) && ValueResolves(r, v)
    ensures DecodeEntry(pre + EncodeEntry(k, v) + rest, |pre|, r) == Some((k, LoadOf(v), |pre| + |EncodeEntry(k, v)|))
  {
    if v.None? {
      var t := pre + EncodeEntry(k, v) + rest;
      var tail := EncodeEntry(k, v)[3..] + rest;
      assert t == pre + EncodeKey(k) + tail;
      KeyRoundTrip(pre, k, tail, r);
      assert t[|pre| + 3] == BoolTok(false);
    } else {
      SetEntryRoundTrip(pre, k, v.value.data, rest, r);
    }
  }

  lemma SetEntryRoundTrip(pre: seq<Token>, k: ChannelKey, d: CellData, rest: seq<Token>, r: Resolver)
    requires KeyResolves(r, k) && ResolvesTo(r, TypeOf(d))
    ensures DecodeEntry(pre + EncodeEntry(k, Some(Holding(d))) + rest, |pre|, r) ==
      Some((k, Loaded(Holding(d)), |pre| + |EncodeEntry(k, Some(Holding(d)))|))
  {
    var t := pre + EncodeEntry(k, Some(Holding(d))) + rest;
    SetEntryHead(pre, k, d, rest, r);
    var head := pre + EncodeKey(k) + [BoolTok(true)] +
      [NameTok(PathOf(TypeOf(d)).package), NameTok(PathOf(TypeOf(d)).asset)];
    assert t == head + EncodeData(d) + rest;
    DataRoundTrip(head, d, rest);
  }

  /** The key, the flag and the two type names of an entry with a set value read back at their places. */
  lemma SetEntryHead(pre: seq<Token>, k: ChannelKey, d: CellData, rest: seq<Token>, r: Resolver)
    requires KeyResolves(r, k)
    ensures var t := pre + EncodeEntry(k, Some(Holding(d))) + rest;
      DecodeKey(t, |pre|, r) == Some((k, |pre| + 3)) && ReadBool(t, |pre| + 3) == Some(true) &&
      ReadName(t, |pre| + 4) == Some(PathOf(TypeOf(d)).package) && ReadName(t, |pre| + 5) == Some(PathOf(TypeOf(d)).asset)
  {
    var t := pre + EncodeEntry(k, Some(Holding(d))) + rest;
    var tail := EncodeEntry(k, Some(Holding(d)))[3..] + rest;
    assert t == pre + EncodeKey(k) + tail;
    KeyRoundTrip(pre, k, tail, r);
    var q := |pre| + 3;
    assert t[q] == BoolTok(true);
    assert t[q + 1] == NameTok(PathOf(TypeOf(d)).package);
    assert t[q + 2] == NameTok(PathOf(TypeOf(d)).asset);
  }

  /**
   * An entry whose value type does not resolve is dropped, and loading goes on
   * right after the two type names: the record's fields are not skipped.
   */
  lemma UnresolvedEntryKeepsPayload(pre: seq<Token>, k: ChannelKey, d: CellData, rest: seq<Token>, r: Resolver)
    requires KeyResolves(r, k) && PathOf(TypeOf(d)) !in r
    ensures DecodeEntry(pre + EncodeEntry(k, Some(Holding(d))) + rest, |pre|, r) == Some((k, Dropped, |pre| + 6))
    ensures (pre + EncodeEntry(k, Some(Holding(d))) + rest)[|pre| + 6..] == EncodeData(d) + rest
  {
    SetEntryHead(pre, k, d, rest, r);
    PayloadFollowsNames(pre, k, d, rest);
  }

  lemma PayloadFollowsNames(pre: seq<Token>, k: ChannelKey, d: CellData, rest: seq<Token>)
    ensures (pre + EncodeEntry(k, Some(Holding(d))) + rest)[|pre| + 6..] == EncodeData(d) + rest
  {
    var head := EncodeKey(k) + [BoolTok(true)] + [NameTok(PathOf(TypeOf(d)).package), NameTok(PathOf(TypeOf(d)).asset)];
    assert EncodeEntry(k, Some(Holding(d))) == head + EncodeData(d);
    assert pre + EncodeEntry(k, Some(Holding(d))) + rest == (pre + head) + (EncodeData(d) + rest);
  }

  /** Reading n entries into acc, one after the other. */
  function DecodeEntries(t: seq<Token>, p: nat, n: nat, r: Resolver, acc: Channels): Option<(Channels, nat)>
    decreases n
  {
    if n == 0 then Some((acc, p))
    else
      match DecodeEntry(t, p, r)
      case None => None
      case Some((k, e, q)) => DecodeEntries(t, q, n - 1, r, Insert(acc, k, e))
  }

  /** Every entry of the order is in the map and can be saved. */
  predicate SaveableOrder(ch: Channels, order: seq<ChannelKey>)
  {
    order == [] || (order[0] in ch && Saveable(ch[order[0]]) && SaveableOrder(ch, order[1..]))
  }

  /** The resolver finds every record type under its own path. */
  ghost predicate ResolvesAll(r: Resolver)
  {
    forall st: StructType :: ResolvesTo(r, st)
  }

  function EncodeEntries(ch: Channels, order: seq<ChannelKey>): seq<Token>
    requires SaveableOrder(ch, order)
  {
    if order == [] then []
    else EncodeEntry(order[0], ch[order[0]]) + EncodeEntries(ch, order[1..])
  }

  lemma {:induction false} EncodeEntriesSnoc(ch: Channels, order: seq<ChannelKey>, k: ChannelKey)
    requires SaveableOrder(ch, order) && k in ch && Saveable(ch[k])
    ensures SaveableOrder(ch, order + [k])
    ensures EncodeEntries(ch, order + [k]) == EncodeEntries(ch, order) + EncodeEntry(k, ch[k])
    decreases |order|
  {
    if order == [] {
      assert order + [k] == [k];
      assert [k][1..] == [];
    } else {
      assert (order + [k])[1..] == order[1..] + [k];
      EncodeEntriesSnoc(ch, order[1..], k);
    }
  }

  /**
   * The map being filled after the listed entries of ch are loaded into it
   * one after the other, each as it was saved.
   */
  function LoadAll(acc: Channels, ch: Channels, order: seq<ChannelKey>): Channels
    requires SaveableOrder(ch, order)
    decreases |order|
  {
    if order == [] then acc else LoadAll(Insert(acc, order[0], LoadOf(ch[order[0]])), ch, order[1..])
  }

  /** A key ends up in the filled map when it was there or is listed; a listed key carries its value from ch. */
  lemma {:induction false} LoadAllAt(acc: Channels, ch: Channels, order: seq<ChannelKey>, k: ChannelKey)
    requires SaveableOrder(ch, order)
    ensures k in LoadAll(acc, ch, order) <==> k in acc || k in order
    ensures k in order ==> k in ch && LoadAll(acc, ch, order)[k] == ch[k]
    ensures k !in order && k in acc ==> LoadAll(acc, ch, order)[k] == acc[k]
    decreases |order|
  {
    if order != [] {
      var acc' := Insert(acc, order[0], LoadOf(ch[order[0]]));
      assert acc' == acc[order[0] := ch[order[0]]];
      LoadAllAt(acc', ch, order[1..], k);
      assert k in order <==> k == order[0] || k in order[1..];
      if k in order && k !in order[1..] {
        assert k == order[0];
      }
    }
  }

  /** Loading every key of ch into an empty map rebuilds ch. */
  lemma LoadAllRebuilds(ch: Channels, order: seq<ChannelKey>)
    requires SaveableOrder(ch, order) && forall k | k in ch :: k in order
    ensures LoadAll(map[], ch, order) == ch
  {
    var m := LoadAll(map[], ch, order);
    forall k ensures (k in m <==> k in ch) && (k in m ==> m[k] == ch[k]) {
      LoadAllAt(map[], ch, order, k);
    }
    assert m.Keys == ch.Keys;
  }

  /** The tokens of t from position p on begin with s. */
  predicate StartsWith(t: seq<Token>, p: nat, s: seq<Token>)
    decreases |s|
  {
    if s == [] then p <= |t| else p < |t| && t[p] == s[0] && StartsWith(t, p + 1, s[1..])
  }

  lemma {:induction false} StartsWithIffSlice(t: seq<Token>, p: nat, s: seq<Token>)
    ensures StartsWith(t, p, s) <==> p + |s| <= |t| && t[p..p + |s|] == s
    decreases |s|
  {
    if s != [] {
      StartsWithIffSlice(t, p + 1, s[1..]);
      if p + |s| <= |t| {
        assert t[p..p + |s|] == [t[p]] + t[p + 1..p + |s|];
        assert s == [s[0]] + s[1..];
      }
    }
  }

  lemma StartsWithInside(pre: seq<Token>, s: seq<Token>, rest: seq<Token>)
    ensures StartsWith(pre + s + rest, |pre|, s)
  {
    var t := pre + s + rest;
    assert t[|pre|..|pre| + |s|] == s;
    StartsWithIffSlice(t, |pre|, s);
  }

  lemma StartsWithWhole(s: seq<Token>)
    ensures StartsWith(s, 0, s)
  {
    assert s[0..|s|] == s;
    StartsWithIffSlice(s, 0, s);
  }

  lemma {:induction false} StartsWithSplit(t: seq<Token>, p: nat, a: seq<Token>, b: seq<Token>)
    requires StartsWith(t, p, a + b)
    ensures StartsWith(t, p, a) && StartsWith(t, p + |a|, b)
    decreases |a|
  {
    if a == [] {
      assert a + b == b;
      StartsWithIffSlice(t, p, b);
    } else {
      assert (a + b)[0] == a[0] && (a + b)[1..] == a[1..] + b;
      StartsWithSplit(t, p + 1, a[1..], b);
    }
  }

  lemma EntryAt(t: seq<Token>, p: nat, k: ChannelKey, v: Option<InstancedStruct>, r: Resolver)
    requires Saveable(v) && KeyResolves(r, k) && ValueResolves(r, v)
    requires StartsWith(t, p, EncodeEntry(k, v))
    ensures DecodeEntry(t, p, r) == Some((k, LoadOf(v), p + |EncodeEntry(k, v)|))
  {
    var e := EncodeEntry(k, v);
    SplitAround(t, p, e);
    EntryRoundTrip(t[..p], k, v, t[p + |e|..], r);
  }

  /** A sequence that t holds at p splits t into what comes before, it, and what follows. */
  lemma SplitAround(t: seq<Token>, p: nat, s: seq<Token>)
    requires StartsWith(t, p, s)
    ensures p + |s| <= |t| && |t[..p]| == p && t == t[..p] + s + t[p + |s|..]
  {
    StartsWithIffSlice(t, p, s);
    assert t == t[..p] + t[p..p + |s|] + t[p + |s|..];
  }

  /** The saved entries start at p. */
  ghost predicate EntriesSavedAt(t: seq<Token>, p: nat, ch: Channels, order: seq<ChannelKey>)
    requires SaveableOrder(ch, order)
  {
    StartsWith(t, p, EncodeEntries(ch, order))
  }

  /** The position right after the saved entries, when they start at p. */
  ghost function SavedEntriesEnd(p: nat, ch: Channels, order: seq<ChannelKey>): nat
    requires SaveableOrder(ch, order)
  {
    p + |EncodeEntries(ch, order)|
  }

  /** Reading |order| entries at p adds the listed entries to acc and stops at next. */
  ghost predicate EntriesReadBack(t: seq<Token>, p: nat, ch: Channels, order: seq<ChannelKey>, r: Resolver, acc: Channels, next: nat)
    requires SaveableOrder(ch, order)
  {
    DecodeEntries(t, p, |order|, r, acc) == Some((LoadAll(acc, ch, order), next))
  }

  /** Loading saved entries adds each of them, as it was, to the map being filled. */
  lemma {:induction false} EntriesAt(t: seq<Token>, p: nat, ch: Channels, order: seq<ChannelKey>,
                                     r: Resolver, acc: Channels)
    requires SaveableOrder(ch, order) && ResolvesAll(r)
    requires EntriesSavedAt(t, p, ch, order)
    ensures EntriesReadBack(t, p, ch, order, r, acc, SavedEntriesEnd(p, ch, order))
    decreases |order|
  {
    if order != [] {
      var q := EntryStep(t, p, ch, order, r);
      EntriesAt(t, q, ch, order[1..], r, Insert(acc, order[0], LoadOf(ch[order[0]])));
      EntriesCons(t, p, ch, order, r, acc, q, SavedEntriesEnd(q, ch, order[1..]));
    }
  }

  /** The first saved entry decodes as it was, and the others follow it. */
  lemma EntryStep(t: seq<Token>, p: nat, ch: Channels, order: seq<ChannelKey>, r: Resolver) returns (q: nat)
    requires order != [] && SaveableOrder(ch, order) && ResolvesAll(r)
    requires EntriesSavedAt(t, p, ch, order)
    ensures DecodeEntry(t, p, r) == Some((order[0], LoadOf(ch[order[0]]), q))
    ensures EntriesSavedAt(t, q, ch, order[1..])
    ensures SavedEntriesEnd(p, ch, order) == SavedEntriesEnd(q, ch, order[1..])
  {
    var k := order[0];
    var e := EncodeEntry(k, ch[k]);
    var tail := EncodeEntries(ch, order[1..]);
    StartsWithSplit(t, p, e, tail);
    EntryAt(t, p, k, ch[k], r);
    q := p + |e|;
  }

  /** An entry read at p followed by the other entries read at q is all the entries read at p. */
  lemma EntriesCons(t: seq<Token>, p: nat, ch: Channels, order: seq<ChannelKey>, r: Resolver, acc: Channels, q: nat, next: nat)
    requires order != [] && SaveableOrder(ch, order)
    requires DecodeEntry(t, p, r) == Some((order[0], LoadOf(ch[order[0]]), q))
    requires EntriesReadBack(t, q, ch, order[1..], r, Insert(acc, order[0], LoadOf(ch[order[0]])), next)
    ensures EntriesReadBack(t, p, ch, order, r, acc, next)
  {
  }

  lemma DecodeEntriesChain(t: seq<Token>, p: nat, n: nat, m: nat, r: Resolver, acc: Channels,
                           k: ChannelKey, e: EntryLoad, q: nat, acc': Channels, out: Channels, next: nat)
    requires n == m + 1 && DecodeEntry(t, p, r) == Some((k, e, q)) && acc' == Insert(acc, k, e)
    requires DecodeEntries(t, q, m, r, acc') == Some((out, next))
    ensures DecodeEntries(t, p, n, r, acc) == Some((out, next))
  {
  }

  // ------------------------------------------------------------------ cells

  /** The order lists every key of the set exactly once. */
  ghost predicate IsEnumeration<K>(order: seq<K>, keys: set<K>)
  {
    (forall i, j | 0 <= i < j < |order| :: order[i] != order[j]) &&
    (forall i | 0 <= i < |order| :: order[i] in keys) &&
    (forall x | x in keys :: x in order)
  }

  /** Every set value of the cell holds a record. */
  predicate CellSaveable(c: Cell)
  {
    forall k | k in c.channels :: Saveable(c.channels[k])
  }

  function EncodeCell(c: Cell, order: seq<ChannelKey>): seq<Token>
    requires SaveableOrder(c.channels, order)
  {
    [IntTok(|c.channels|)] + EncodeEntries(c.channels, order)
  }

  /**
   * Loading a cell into `prior`: a negative or zero count returns at once and
   * leaves `prior` as it was; a positive count empties the map and fills it
   * with that many entries.
   */
  function DecodeCell(t: seq<Token>, p: nat, r: Resolver, prior: Cell): Option<(Cell, nat)>
  {
    match ReadInt(t, p)
    case None => None
    case Some(n) =>
      if n <= 0 then Some((prior, p + 1))
      else
        match DecodeEntries(t, p + 1, n as nat, r, map[])
        case None => None
        case Some((m, q)) => Some((Cell(m), q))
  }

  /** Enumerations of two disjoint sets, one after the other, enumerate their union. */
  lemma EnumerationAppend<K>(a: seq<K>, keysA: set<K>, b: seq<K>, keysB: set<K>)
    requires IsEnumeration(a, keysA) && IsEnumeration(b, keysB) && keysA * keysB == {}
    ensures IsEnumeration(a + b, keysA + keysB)
  {
    var ab := a + b;
    assert forall i | 0 <= i < |a| :: ab[i] == a[i];
    assert forall i | |a| <= i < |ab| :: ab[i] == b[i - |a|];
    forall i, j | 0 <= i < j < |ab| ensures ab[i] != ab[j] {
      if j < |a| {
        assert ab[i] == a[i] && ab[j] == a[j];
      } else if i >= |a| {
        assert ab[i] == b[i - |a|] && ab[j] == b[j - |a|];
      } else {
        assert ab[i] == a[i] && ab[j] == b[j - |a|];
        assert ab[i] in keysA && ab[j] in keysB;
        assert ab[i] !in keysA * keysB;
        assert ab[i] !in keysB;
      }
    }
    forall x | x in keysA + keysB ensures x in ab {
      if x in keysA {
        var i :| 0 <= i < |a| && a[i] == x;
        assert ab[i] == x;
      } else {
        var i :| 0 <= i < |b| && b[i] == x;
        assert ab[|a| + i] == x;
      }
    }
  }

  /** Appending a new element to an enumeration enumerates one more element. */
  lemma EnumerationSnoc<K>(order: seq<K>, keys: set<K>, x: K)
    requires IsEnumeration(order, keys) && x !in keys
    ensures IsEnumeration(order + [x], keys + {x})
  {
    var order' := order + [x];
    assert forall i | 0 <= i < |order| :: order'[i] == order[i];
    assert order'[|order|] == x;
  }

  lemma EnumerationLength<K>(order: seq<K>, keys: set<K>)
    requires IsEnumeration(order, keys)
    ensures |order| == |keys|
    decreases |order|
  {
    if order != [] {
      var x := order[0];
      assert forall y :: y in order[1..] <==> y in keys - {x} by {
        forall y ensures y in order[1..] <==> y in keys - {x} {
          if y in order[1..] {
            var i :| 1 <= i < |order| && order[i] == y;
            assert order[0] != order[i];
          }
          if y in keys - {x} {
            assert y in order;
            var i :| 0 <= i < |order| && order[i] == y;
            assert i != 0;
            assert order[1..][i - 1] == y;
          }
        }
      }
      assert forall i, j | 0 <= i < j < |order[1..]| :: order[1..][i] != order[1..][j] by {
        forall i, j | 0 <= i < j < |order[1..]| ensures order[1..][i] != order[1..][j] {
          assert order[1..][i] == order[i + 1] && order[1..][j] == order[j + 1];
        }
      }
      EnumerationLength(order[1..], keys - {x});
    } else {
      assert forall y :: y !in keys;
      assert keys == {};
    }
  }

  /**
   * Round trip: loading what was saved gives back the same map, provided every
   * record type resolves. A cell with no entries leaves the cell loaded into as
   * it was, because a zero count returns before anything is emptied.
   */
  lemma CellRoundTrip(c: Cell, order: seq<ChannelKey>, r: Resolver, prior: Cell)
    requires IsEnumeration(order, c.channels.Keys) && SaveableOrder(c.channels, order) && ResolvesAll(r)
    ensures DecodeCell(EncodeCell(c, order), 0, r, prior) ==
      Some((if |c.channels| == 0 then prior else c, |EncodeCell(c, order)|))
  {
    StartsWithWhole(EncodeCell(c, order));
    EnumerationLoads(c, order);
    CellAt(EncodeCell(c, order), 0, c, order, r, prior);
  }

  lemma EnumerationLoads(c: Cell, order: seq<ChannelKey>)
    requires IsEnumeration(order, c.channels.Keys) && SaveableOrder(c.channels, order)
    ensures |order| == |c.channels| && LoadAll(map[], c.channels, order) == c.channels
  {
    EnumerationLength(order, c.channels.Keys);
    LoadAllRebuilds(c.channels, order);
  }

  lemma CellAt(t: seq<Token>, p: nat, c: Cell, order: seq<ChannelKey>, r: Resolver, prior: Cell)
    requires SaveableOrder(c.channels, order) && ResolvesAll(r)
    requires |order| == |c.channels| && LoadAll(map[], c.channels, order) == c.channels
    requires StartsWith(t, p, EncodeCell(c, order))
    ensures DecodeCell(t, p, r, prior) ==
      Some((if |c.channels| == 0 then prior else c, p + |EncodeCell(c, order)|))
  {
    StartsWithSplit(t, p, [IntTok(|c.channels|)], EncodeEntries(c.channels, order));
    IntAt(t, p, |c.channels|);
    CountAt(t, p, c, order, r, prior);
  }

  lemma CountAt(t: seq<Token>, p: nat, c: Cell, order: seq<ChannelKey>, r: Resolver, prior: Cell)
    requires SaveableOrder(c.channels, order) && ResolvesAll(r)
    requires |order| == |c.channels| && LoadAll(map[], c.channels, order) == c.channels
    requires ReadInt(t, p) == Some(|c.channels|) && StartsWith(t, p + 1, EncodeEntries(c.channels, order))
    ensures DecodeCell(t, p, r, prior) ==
      Some((if |c.channels| == 0 then prior else c, p + |EncodeCell(c, order)|))
  {
    if order == [] {
      EmptyCountAt(t, p, c, order, r, prior);
    } else {
      FilledCountAt(t, p, c, order, r, prior);
    }
  }

  lemma EmptyCountAt(t: seq<Token>, p: nat, c: Cell, order: seq<ChannelKey>, r: Resolver, prior: Cell)
    requires SaveableOrder(c.channels, order) && order == [] && |c.channels| == 0
    requires ReadInt(t, p) == Some(|c.channels|)
    ensures DecodeCell(t, p, r, prior) == Some((prior, p + |EncodeCell(c, order)|))
  {
    assert EncodeCell(c, order) == [IntTok(0)];
    ZeroCountAt(t, p, r, prior);
  }

  lemma FilledCountAt(t: seq<Token>, p: nat, c: Cell, order: seq<ChannelKey>, r: Resolver, prior: Cell)
    requires SaveableOrder(c.channels, order) && ResolvesAll(r) && order != []
    requires |order| == |c.channels| && LoadAll(map[], c.channels, order) == c.channels
    requires ReadInt(t, p) == Some(|c.channels|) && EntriesSavedAt(t, p + 1, c.channels, order)
    ensures DecodeCell(t, p, r, prior) == Some((c, p + |EncodeCell(c, order)|))
  {
    EntriesAt(t, p + 1, c.channels, order, r, map[]);
    ReadBackCell(t, p, c, order, r, prior);
    CellLength(c, order);
  }

  lemma ReadBackCell(t: seq<Token>, p: nat, c: Cell, order: seq<ChannelKey>, r: Resolver, prior: Cell)
    requires SaveableOrder(c.channels, order) && |order| > 0 && ReadInt(t, p) == Some(|order|)
    requires EntriesReadBack(t, p + 1, c.channels, order, r, map[], SavedEntriesEnd(p + 1, c.channels, order))
    requires LoadAll(map[], c.channels, order) == c.channels
    ensures DecodeCell(t, p, r, prior) == Some((c, SavedEntriesEnd(p + 1, c.channels, order)))
  {
    CountedCellAt(t, p, |order|, c.channels, SavedEntriesEnd(p + 1, c.channels, order), r, prior);
  }

  lemma CellLength(c: Cell, order: seq<ChannelKey>)
    requires SaveableOrder(c.channels, order)
    ensures |EncodeCell(c, order)| == 1 + |EncodeEntries(c.channels, order)|
  {
  }

  lemma IntAt(t: seq<Token>, p: nat, n: int)
    requires StartsWith(t, p, [IntTok(n)])
    ensures ReadInt(t, p) == Some(n)
  {
  }

  lemma CountedCellAt(t: seq<Token>, p: nat, n: nat, m: Channels, q: nat, r: Resolver, prior: Cell)
    requires n > 0 && ReadInt(t, p) == Some(n)
    requires DecodeEntries(t, p + 1, n, r, map[]) == Some((m, q))
    ensures DecodeCell(t, p, r, prior) == Some((Cell(m), q))
  {
  }

  lemma ZeroCountAt(t: seq<Token>, p: nat, r: Resolver, prior: Cell)
    requires ReadInt(t, p) == Some(0)
    ensures DecodeCell(t, p, r, prior) == Some((prior, p + 1))
  {
  }

  /** A negative count is refused: nothing else is read and the cell is left as it was. */
  lemma NegativeCountLeavesCell(t: seq<Token>, p: nat, r: Resolver, prior: Cell)
    requires p < |t| && t[p].IntTok? && t[p].i < 0
    ensures DecodeCell(t, p, r, prior) == Some((prior, p + 1))
  {
  }

  /** An entry saved with no value comes back as an unset placeholder, while its siblings load as usual. */
  lemma PlaceholderSurvivesLoad(c: Cell, order: seq<ChannelKey>, r: Resolver, k: ChannelKey)
    requires IsEnumeration(order, c.channels.Keys) && SaveableOrder(c.channels, order) && ResolvesAll(r)
    requires k in c.channels && c.channels[k].None?
    ensures var loaded := DecodeCell(EncodeCell(c, order), 0, r, EmptyCell);
      loaded.Some? && HasChannel(loaded.value.0, k) && !HoldsValue(loaded.value.0, k)
  {
    CellRoundTrip(c, order, r, EmptyCell);
  }

  /**
   * An unresolved record type with no fields costs only its own entry: the
   * next entry loads as usual.
   */
  lemma UnresolvedEmptyRecordSkipsCleanly(k1: ChannelKey, k2: ChannelKey, v2: Option<InstancedStruct>, r: Resolver)
    requires KeyResolves(r, k1) && PathOf(CellBaseInfo) !in r
    requires Saveable(v2) && KeyResolves(r, k2) && ValueResolves(r, v2)
    ensures var t := EncodeEntry(k1, Some(Holding(BaseData))) + EncodeEntry(k2, v2);
      DecodeEntries(t, 0, 2, r, map[]) == Some((map[k2 := v2], |t|))
  {
    var e1 := EncodeEntry(k1, Some(Holding(BaseData)));
    var e2 := EncodeEntry(k2, v2);
    var t := e1 + e2;
    DroppedAt(t, k1, e2, r);
    LastEntryAt(t, e1, k2, v2, r);
    DecodeEntriesChain(t, 6, 1, 0, r, map[], k2, LoadOf(v2), |t|, Insert(map[], k2, LoadOf(v2)), map[k2 := v2], |t|);
    DecodeEntriesChain(t, 0, 2, 1, r, map[], k1, Dropped, 6, map[], map[k2 := v2], |t|);
  }

  lemma LastEntryAt(t: seq<Token>, a: seq<Token>, k: ChannelKey, v: Option<InstancedStruct>, r: Resolver)
    requires Saveable(v) && KeyResolves(r, k) && ValueResolves(r, v)
    requires t == a + EncodeEntry(k, v)
    ensures DecodeEntry(t, |a|, r) == Some((k, LoadOf(v), |t|))
  {
    assert t == a + EncodeEntry(k, v) + [];
    EntryRoundTrip(a, k, v, [], r);
  }

  lemma DroppedAt(t: seq<Token>, k1: ChannelKey, e2: seq<Token>, r: Resolver)
    requires KeyResolves(r, k1) && PathOf(CellBaseInfo) !in r
    requires t == EncodeEntry(k1, Some(Holding(BaseData))) + e2
    ensures DecodeEntry(t, 0, r) == Some((k1, Dropped, 6))
  {
    assert t == [] + EncodeEntry(k1, Some(Holding(BaseData))) + e2;
    UnresolvedEntryKeepsPayload([], k1, BaseData, e2, r);
  }

  /**
   * An unresolved record type with fields derails loading: the next read
   * starts inside the unread fields, so the following entry's name is not
   * found and the load fails.
   */
  lemma UnresolvedRecordDerailsNextEntry(k1: ChannelKey, v: int, k2: ChannelKey, v2: Option<InstancedStruct>, r: Resolver)
    requires KeyResolves(r, k1) && PathOf(DataUnitTest) !in r
    requires Saveable(v2)
    ensures var t := EncodeEntry(k1, Some(Holding(Data(v)))) + EncodeEntry(k2, v2);
      DecodeEntries(t, 0, 2, r, map[]).None?
  {
    var e1 := EncodeEntry(k1, Some(Holding(Data(v))));
    var e2 := EncodeEntry(k2, v2);
    var t := e1 + e2;
    assert t == [] + e1 + e2;
    UnresolvedEntryKeepsPayload([], k1, Data(v), e2, r);
    assert t[6] == IntTok(v);
    assert DecodeEntry(t, 6, r).None?;
  }

  /**
   * FCellDynamicInfo::Serialize. When saving, the cell is unchanged and the
   * tokens appended are its encoding in the order reported; when loading, the
   * cell becomes what DecodeCell reads from the archive.
   */
  method SerializeCell(ar: Archive, c: Cell, r: Resolver) returns (c': Cell, ghost order: seq<ChannelKey>)
    requires !ar.loading ==> CellSaveable(c)
    modifies ar
    ensures !ar.loading ==>
      c' == c && IsEnumeration(order, c.channels.Keys) && SaveableOrder(c.channels, order) &&
      ar.data == old(ar.data) + EncodeCell(c, order) && ar.error == old(ar.error)
    ensures ar.loading ==> ar.data == old(ar.data)
    ensures ar.loading && !old(ar.error) ==>
      match DecodeCell(ar.data, old(ar.pos), r, c)
      case Some((d, next)) => c' == d && ar.pos == next && !ar.error
      case None => ar.error
    ensures ar.loading && old(ar.error) ==> ar.error
  {
    if !ar.loading {
      c' := c;
      order := SaveCell(ar, c);
    } else {
      c' := LoadCell(ar, c, r);
      order := [];
    }
  }

  /** The saving direction: the count, then every entry unless the count is zero. */
  method SaveCell(ar: Archive, c: Cell) returns (ghost order: seq<ChannelKey>)
    requires !ar.loading && CellSaveable(c)
    modifies ar
    ensures IsEnumeration(order, c.channels.Keys) && SaveableOrder(c.channels, order)
    ensures ar.data == old(ar.data) + EncodeCell(c, order) && ar.error == old(ar.error)
  {
    ghost var pre := ar.data;
    // The count written is a map size, so the guard against a negative count never fires here.
    var count := ar.SerializeInt(|c.channels|);
    order := [];
    if count == 0 {
      EmptyCellSaved(pre, c);
      return;
    }
    order := SaveEntries(ar, c.channels);
    CountThenEntries(pre, c, order);
  }

  lemma EmptyCellSaved(pre: seq<Token>, c: Cell)
    requires |c.channels| == 0
    ensures IsEnumeration([], c.channels.Keys) && SaveableOrder(c.channels, [])
    ensures pre + [IntTok(|c.channels|)] == pre + EncodeCell(c, [])
  {
    assert c.channels.Keys == {};
  }

  lemma CountThenEntries(pre: seq<Token>, c: Cell, order: seq<ChannelKey>)
    requires SaveableOrder(c.channels, order)
    ensures pre + [IntTok(|c.channels|)] + EncodeEntries(c.channels, order) == pre + EncodeCell(c, order)
  {
  }

  /** The loading direction: the count, then, unless it is zero, the entries into an emptied map. */
  method LoadCell(ar: Archive, c: Cell, r: Resolver) returns (c': Cell)
    requires ar.loading
    modifies ar
    ensures ar.data == old(ar.data)
    ensures !old(ar.error) ==>
      match DecodeCell(ar.data, old(ar.pos), r, c)
      case Some((d, next)) => c' == d && ar.pos == next && !ar.error
      case None => ar.error
    ensures old(ar.error) ==> ar.error
  {
    c' := c;
    var count := ar.SerializeInt(|c.channels|);
    if count < 0 {
      return;
    }
    if count == 0 {
      return;
    }
    var m := LoadEntries(ar, count, r);
    c' := Cell(m);
  }

  /** The saving loop of FCellDynamicInfo::Serialize. */
  method SaveEntries(ar: Archive, ch: Channels) returns (ghost order: seq<ChannelKey>)
    requires !ar.loading && forall k | k in ch :: Saveable(ch[k])
    modifies ar
    ensures IsEnumeration(order, ch.Keys) && SaveableOrder(ch, order)
    ensures ar.data == old(ar.data) + EncodeEntries(ch, order) && ar.error == old(ar.error)
  {
    order := [];
    var remaining := ch.Keys;
    while remaining != {}
      invariant remaining <= ch.Keys
      invariant forall i, j | 0 <= i < j < |order| :: order[i] != order[j]
      invariant forall x :: x in order <==> x in ch.Keys - remaining
      invariant forall i | 0 <= i < |order| :: order[i] in ch
      invariant SaveableOrder(ch, order)
      invariant ar.data == old(ar.data) + EncodeEntries(ch, order) && ar.error == old(ar.error)
      decreases |remaining|
    {
      var k :| k in remaining;
      SaveEntry(ar, k, ch[k]);
      SaveStep(old(ar.data), ch, order, k);
      assert k !in order;
      order := order + [k];
      remaining := remaining - {k};
    }
  }

  lemma SaveStep(pre: seq<Token>, ch: Channels, order: seq<ChannelKey>, k: ChannelKey)
    requires SaveableOrder(ch, order) && k in ch && Saveable(ch[k])
    ensures SaveableOrder(ch, order + [k])
    ensures pre + EncodeEntries(ch, order) + EncodeEntry(k, ch[k]) == pre + EncodeEntries(ch, order + [k])
  {
    EncodeEntriesSnoc(ch, order, k);
  }

  /** One entry of the saving loop. */
  method SaveEntry(ar: Archive, k: ChannelKey, v: Option<InstancedStruct>)
    requires !ar.loading && Saveable(v)
    modifies ar
    ensures ar.data == old(ar.data) + EncodeEntry(k, v) && ar.error == old(ar.error)
  {
    var k' := SerializeKey(ar, k, map[]);
    var hasValue := ar.SerializeBool(v.Some?);
    if !hasValue {
      return;
    }
    var d := v.value.data;
    var package := ar.SerializeName(PathOf(TypeOf(d)).package);
    var asset := ar.SerializeName(PathOf(TypeOf(d)).asset);
    var d' := SerializeData(ar, d);
  }

  /** The loading loop of FCellDynamicInfo::Serialize: count entries into an emptied map. */
  method LoadEntries(ar: Archive, count: int, r: Resolver) returns (m: Channels)
    requires ar.loading && count > 0
    modifies ar
    ensures ar.data == old(ar.data)
    ensures !old(ar.error) ==>
      match DecodeEntries(ar.data, old(ar.pos), count as nat, r, map[])
      case Some((d, next)) => m == d && ar.pos == next && !ar.error
      case None => ar.error
    ensures old(ar.error) ==> ar.error
  {
    ghost var n: nat := count;
    m := map[];
    var i := 0;
    while i < count
      invariant 0 <= i <= n
      decreases count - i
      invariant ar.data == old(ar.data)
      invariant old(ar.error) ==> ar.error
      invariant !old(ar.error) && !ar.error ==>
        DecodeEntries(ar.data, ar.pos, n - i, r, m) == DecodeEntries(ar.data, old(ar.pos), n, r, map[])
      invariant !old(ar.error) && ar.error ==> DecodeEntries(ar.data, old(ar.pos), n, r, map[]).None?
    {
      var k, e := LoadEntry(ar, r);
      match e {
        case Placeholder =>
          m := m[k := None];
        case Dropped =>
        case Loaded(v) =>
          m := m[k := Some(v)];
      }
      i := i + 1;
    }
  }

  /** One entry of the loading loop: the key, the value flag, and if set the type and the record. */
  method LoadEntry(ar: Archive, r: Resolver) returns (k: ChannelKey, e: EntryLoad)
    requires ar.loading
    modifies ar
    ensures ar.data == old(ar.data)
    ensures !old(ar.error) ==>
      match DecodeEntry(ar.data, old(ar.pos), r)
      case Some((k0, e0, next)) => k == k0 && e == e0 && ar.pos == next && !ar.error
      case None => ar.error
    ensures old(ar.error) ==> ar.error
  {
    k := SerializeKey(ar, ChannelKey(NoName, None), r);
    var hasValue := ar.SerializeBool(false);
    if !hasValue {
      e := Placeholder;
      return;
    }
    var package := ar.SerializeName(NoName);
    var asset := ar.SerializeName(NoName);
    var typ := Resolve(r, package, asset);
    if typ.None? {
      e := Dropped;
      return;
    }
    var d := SerializeData(ar, DefaultData(typ.value));
    e := Loaded(Holding(d));
  }
}
