/**
 * Shared data model of the chunk store: grid points, names, the closed set of
 * cell record types and their payloads, channel keys, the type resolver and
 * the archive token.
 */
module ChunkTypes {

  datatype Option<T> = None | Some(value: T)

  /** A grid point or a chunk coordinate (FIntPoint). */
  datatype Point = Point(x: int, y: int)

  /** An interned name (FName); the empty text is NAME_None. */
  type Name = string

  const NoName: Name := ""

  /** The record types a channel can hold: the base record and the three record types of the unit tests. */
  datatype StructType = CellBaseInfo | DataUnitTest | Data2UnitTest | Data3UnitTest

  /** The path under which the reflection system finds a script struct. */
  datatype TypePath = TypePath(package: Name, asset: Name)

  const ModulePackage: Name := "/Script/SimpleChunkSystem"

  function PathOf(t: StructType): (p: TypePath)
    ensures p.package != NoName && p.asset != NoName
  {
    match t
    case CellBaseInfo => TypePath(ModulePackage, "CellBaseInfo")
    case DataUnitTest => TypePath(ModulePackage, "Data_UnitTest")
    case Data2UnitTest => TypePath(ModulePackage, "Data2_UnitTest")
    case Data3UnitTest => TypePath(ModulePackage, "Data3_UnitTest")
  }

  /** The fields of a record, one variant per record type. */
  datatype CellData =
    | BaseData
    | Data(value: int)
    | Data2(value: int, value2: int)
    | Data3(name: string, name2: Name)

  function TypeOf(d: CellData): StructType
  {
    match d
    case BaseData => CellBaseInfo
    case Data(_) => DataUnitTest
    case Data2(_, _) => Data2UnitTest
    case Data3(_, _) => Data3UnitTest
  }

  /** A default-constructed record of the given type. */
  function DefaultData(t: StructType): (d: CellData)
    ensures TypeOf(d) == t
  {
    match t
    case CellBaseInfo => BaseData
    case DataUnitTest => Data(0)
    case Data2UnitTest => Data2(0, 0)
    case Data3UnitTest => Data3("DefaultName", "DefaultName2")
  }

  /** An instanced struct: empty, or holding one record. */
  datatype InstancedStruct = EmptyStruct | Holding(data: CellData)

  /** InitializeAs: a null type gives an empty struct, any other type its default record. */
  function InitializeAs(t: Option<StructType>): (v: InstancedStruct)
    ensures t.None? <==> v.EmptyStruct?
    ensures t.Some? ==> TypeOf(v.data) == t.value
  {
    match t
    case None => EmptyStruct
    case Some(st) => Holding(DefaultData(st))
  }

  /** A channel is named by its name and its record type; the type may be null. */
  datatype ChannelKey = ChannelKey(name: Name, typ: Option<StructType>)

  /** Type resolution by path (finding a loaded struct, else loading it); partial. */
  type Resolver = map<TypePath, StructType>

  /** Resolution of a serialised (package, asset) pair: a None part gives a null type. */
  function Resolve(r: Resolver, package: Name, asset: Name): (t: Option<StructType>)
    ensures package == NoName || asset == NoName ==> t.None?
    ensures t.Some? <==> package != NoName && asset != NoName && TypePath(package, asset) in r
  {
    if package == NoName || asset == NoName then None
    else if TypePath(package, asset) in r then Some(r[TypePath(package, asset)])
    else None
  }

  /** The resolver finds t under its own path. */
  predicate ResolvesTo(r: Resolver, t: StructType)
  {
    PathOf(t) in r && r[PathOf(t)] == t
  }

  /** One item of a serialised stream. */
  datatype Token = IntTok(i: int) | NameTok(n: Name) | BoolTok(b: bool) | StrTok(s: string)
}
