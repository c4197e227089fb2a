/**
 The byte stream that identifies a compilation. The hash over it is left abstract; what
 matters is that the stream determines the inputs, and that nothing else influences it.
 */
module Fingerprints {
  import opened Wrappers
  import opened Bytes
  import opened Orderings

  datatype Source = Source(path: Text, modulePath: seq<Text>, source: Text, isRoot: bool)

  /** `dependencies` lists the entries of the ordered map from alias to package. */
  datatype Package = Package(
    id: nat, identity: Text, name: Text, version: Text, isPrimary: bool,
    dependencies: seq<(Text, nat)>, sources: seq<Source>)

  datatype Target = Binary | Library | Test(filter: Option<Text>)

  datatype Environment = Environment(
    inputSchema: nat, compiler: Text, hostOs: Text, hostArch: Text, edition: Text,
    core: seq<(Text, Text)>, alloc: seq<(Text, Text)>, standard: seq<(Text, Text)>)

  datatype GraphError = NoSinglePrimary | DuplicateIds | DuplicateIdentities | MissingDependency

  /* ----- what the stream says of a graph ----- */

  datatype Unit = Unit(modulePath: seq<Text>, isRoot: bool, source: Text)

  datatype Entry = Entry(
    identity: Text, name: Text, version: Text, isPrimary: bool, dependencies: seq<(Text, Text)>, units: seq<Unit>)

  function UnitOf(s: Source): Unit { Unit(s.modulePath, s.isRoot, s.source) }

  function CompareUnits(a: Unit, b: Unit): Ordering {
    CompareTexts(a.modulePath, b.modulePath).Then(CompareBool(a.isRoot, b.isRoot)).Then(CompareText(a.source, b.source))
  }

  predicate UnitOrder(a: Unit, b: Unit) { !CompareUnits(a, b).Greater? }

  predicate EntryOrder(a: Entry, b: Entry) { !CompareText(a.identity, b.identity).Greater? }

  /** The identity of the package with this graph-local number. */
  function IdentityOf(packages: seq<Package>, id: nat): Text {
    if packages == [] then []
    else if packages[0].id == id then packages[0].identity
    else IdentityOf(packages[1..], id)
  }

  function Named(packages: seq<Package>, dependencies: seq<(Text, nat)>): seq<(Text, Text)> {
    seq(|dependencies|, i requires 0 <= i < |dependencies| => (dependencies[i].0,
        IdentityOf(packages, dependencies[i].1)))
  }

  function Units(sources: seq<Source>): seq<Unit> {
    seq(|sources|, i requires 0 <= i < |sources| => UnitOf(sources[i]))
  }

  function EntryOf(packages: seq<Package>, p: Package): Entry {
    Entry(p.identity, p.name, p.version, p.isPrimary, Named(packages, p.dependencies),
          Sort(Units(p.sources), UnitOrder))
  }

  function Entries(packages: seq<Package>): seq<Entry> {
    seq(|packages|, i requires 0 <= i < |packages| => EntryOf(packages, packages[i]))
  }

  /** Packages by identity, each with its sources in order. */
  function Canonical(packages: seq<Package>): seq<Entry> { Sort(Entries(packages), EntryOrder) }

  /* ----- encoding ----- */

  function Field(bytes: Text): seq<Byte> { U64(|bytes|) + bytes }

  function Boolean(b: bool): seq<Byte> { if b then [1] else [0] }

  function EncodeAll<T>(encode: T -> seq<Byte>, items: seq<T>): seq<Byte> {
    if items == [] then [] else EncodeAll(encode, items[..|items| - 1]) + encode(items[|items| - 1])
  }

  function Counted<T>(encode: T -> seq<Byte>, items: seq<T>): seq<Byte> { U64(|items|) + EncodeAll(encode, items) }

  function EncodePair(p: (Text, Text)): seq<Byte> { Field(p.0) + Field(p.1) }

  function EncodeUnit(u: Unit): seq<Byte> {
    Boolean(u.isRoot) + (Counted(Field, u.modulePath) + Field(u.source))
  }

  function EncodeEntry(e: Entry): seq<Byte> {
    Field(e.identity) + (Field(e.name) + (Field(e.version) + (Boolean(e.isPrimary)
      + (Counted(EncodePair, e.dependencies) + Counted(EncodeUnit, e.units)))))
  }

  const MAGIC: Text := [115, 97, 108, 105, 99, 105, 110, 46, 105, 110, 99, 114, 101, 109, 101, 110, 116, 97, 108,
                        45, 105, 110, 112, 117, 116]
  const BINARY: Text := [98, 105, 110, 97, 114, 121]
  const LIBRARY: Text := [108, 105, 98, 114, 97, 114, 121]
  const TEST: Text := [116, 101, 115, 116]
  const CORE: Text := [99, 111, 114, 101]
  const ALLOC: Text := [97, 108, 108, 111, 99]
  const STD: Text := [115, 116, 100]

  function EncodeTarget(t: Target): seq<Byte> {
    match t
    case Binary => Field(BINARY)
    case Library => Field(LIBRARY)
    case Test(filter) =>
      Field(TEST) + (Boolean(filter.Some?) + (match filter case Some(f) => Field(f) case None => []))
  }

  function EncodeBundle(name: Text, sources: seq<(Text, Text)>): seq<Byte> {
    Field(name) + Counted(EncodePair, sources)
  }

  function EncodeHost(e: Environment): seq<Byte> {
    Field(MAGIC) + (LittleEndian(e.inputSchema, 4) + (Field(e.compiler) + (Field(e.hostOs) + Field(e.hostArch))))
  }

  function EncodeLibraries(e: Environment): seq<Byte> {
    Field(e.edition) + (EncodeBundle(CORE, e.core) + (EncodeBundle(ALLOC, e.alloc) + EncodeBundle(STD, e.standard)))
  }

  /** Everything that is hashed, in order. */
  function Stream(e: Environment, t: Target, entries: seq<Entry>): seq<Byte> {
    EncodeHost(e) + (EncodeTarget(t) + (EncodeLibraries(e) + Counted(EncodeEntry, entries)))
  }

  /* ----- validation ----- */

  function Primaries(packages: seq<Package>): nat {
    if packages == [] then 0
    else Primaries(packages[..|packages| - 1]) + (if packages[|packages| - 1].isPrimary then 1 else 0)
  }

  predicate DistinctIds(packages: seq<Package>) {
    forall i, j | 0 <= i < j < |packages| :: packages[i].id != packages[j].id
  }

  predicate DistinctIdentities(packages: seq<Package>) {
    forall i, j | 0 <= i < j < |packages| :: packages[i].identity != packages[j].identity
  }

  predicate HasId(packages: seq<Package>, id: nat) {
    exists i :: 0 <= i < |packages| && packages[i].id == id
  }

  predicate DependenciesExist(packages: seq<Package>) {
    forall i, j | 0 <= i < |packages| && 0 <= j < |packages[i].dependencies| ::
        HasId(packages, packages[i].dependencies[j].1)
  }

  /** `validate_graph`: the first failing check. */
  function Validate(packages: seq<Package>): Option<GraphError> {
    if Primaries(packages) != 1 then Some(NoSinglePrimary)
    else if !DistinctIds(packages) then Some(DuplicateIds)
    else if !DistinctIdentities(packages) then Some(DuplicateIdentities)
    else if !DependenciesExist(packages) then Some(MissingDependency)
    else None
  }

  /* ----- the encoder ----- */

  class FingerprintEncoder {
    var bytes: seq<Byte>

    constructor ()
      ensures bytes == []
    {
      bytes := [];
    }

    method AddField(field: Text)
      modifies this
      ensures bytes == old(bytes) + Field(field)
    {
      bytes := bytes + U64(|field|);
      bytes := bytes + field;
    }

    method AddU32(value: nat)
      modifies this
      ensures bytes == old(bytes) + LittleEndian(value, 4)
    {
      bytes := bytes + LittleEndian(value, 4);
    }

    method AddUsize(value: nat)
      modifies this
      ensures bytes == old(bytes) + U64(value)
    {
      bytes := bytes + U64(value);
    }

    method AddBoolean(value: bool)
      modifies this
      ensures bytes == old(bytes) + Boolean(value)
    {
      bytes := bytes + (if value then [1] else [0]);
    }

    method AddPairs(pairs: seq<(Text, Text)>)
      modifies this
      ensures bytes == old(bytes) + Counted(EncodePair, pairs)
    {
      hide U64; hide Field;
      AddUsize(|pairs|);
      for i := 0 to |pairs|
        invariant bytes == old(bytes) + (U64(|pairs|) + EncodeAll(EncodePair, pairs[..i]))
      {
        AddField(pairs[i].0);
        AddField(pairs[i].1);
        assert pairs[..i + 1][..i] == pairs[..i];
      }
      assert pairs[..|pairs|] == pairs;
    }

    method AddUnit(u: Unit)
      modifies this
      ensures bytes == old(bytes) + EncodeUnit(u)
    {
      hide U64; hide Field; hide Boolean;
      AddBoolean(u.isRoot);
      AddUsize(|u.modulePath|);
      for i := 0 to |u.modulePath|
        invariant bytes == old(bytes) + (Boolean(u.isRoot) + (U64(|u.modulePath|) + EncodeAll(Field,
            u.modulePath[..i])))
      {
        AddField(u.modulePath[i]);
        assert u.modulePath[..i + 1][..i] == u.modulePath[..i];
      }
      assert u.modulePath[..|u.modulePath|] == u.modulePath;
      AddField(u.source);
    }

    method AddEntry(e: Entry)
      modifies this
      ensures bytes == old(bytes) + EncodeEntry(e)
    {
      hide U64; hide Field; hide Boolean; hide EncodeAll;
      AddField(e.identity);
      AddField(e.name);
      AddField(e.version);
      AddBoolean(e.isPrimary);
      AddPairs(e.dependencies);
      ghost var top := Field(e.identity) + (Field(e.name) + (Field(e.version) +
                         (Boolean(e.isPrimary) + Counted(EncodePair, e.dependencies))));
      assert bytes == old(bytes) + top;
      AddUsize(|e.units|);
      assert e.units[..0] == [] && EncodeAll(EncodeUnit, []) == [] by { EncodeNone(EncodeUnit); }
      for i := 0 to |e.units|
        invariant bytes == old(bytes) + top + (U64(|e.units|) + EncodeAll(EncodeUnit, e.units[..i]))
      {
        AddUnit(e.units[i]);
        EncodeNext(EncodeUnit, e.units, i);
      }
      assert e.units[..|e.units|] == e.units;
    }

    method AddTarget(t: Target)
      modifies this
      ensures bytes == old(bytes) + EncodeTarget(t)
    {
      hide U64; hide Field; hide Boolean;
      match t
      case Binary => AddField(BINARY);
      case Library => AddField(LIBRARY);
      case Test(filter) =>
        AddField(TEST);
        AddBoolean(filter.Some?);
        if filter.Some? { AddField(filter.value); }
    }

    /** `encode_source_bundle`. */
    method AddBundle(name: Text, sources: seq<(Text, Text)>)
      modifies this
      ensures bytes == old(bytes) + EncodeBundle(name, sources)
    {
      hide U64; hide Field; hide EncodeAll;
      AddField(name);
      AddPairs(sources);
    }

    method AddEntries(entries: seq<Entry>)
      modifies this
      ensures bytes == old(bytes) + Counted(EncodeEntry, entries)
    {
      hide U64; hide EncodeAll; hide EncodeEntry;
      AddUsize(|entries|);
      ghost var top := bytes;
      assert EncodeAll(EncodeEntry, entries[..0]) == [] by { NoEntries(entries); }
      for i := 0 to |entries|
        invariant bytes == top + EncodeAll(EncodeEntry, entries[..i])
      {
        AddEntry(entries[i]);
        EntryNext(entries, i);
      }
      WholeCount(old(bytes), entries);
    }
  }

  lemma NoEntries(entries: seq<Entry>)
    ensures EncodeAll(EncodeEntry, entries[..0]) == []
  {
  }

  lemma WholeCount(before: seq<Byte>, entries: seq<Entry>)
    ensures before + U64(|entries|) + EncodeAll(EncodeEntry, entries[..|entries|])
        == before + Counted(EncodeEntry, entries)
  {
    hide U64; hide EncodeAll; hide EncodeEntry;
    assert entries[..|entries|] == entries;
  }

  lemma EncodeNone<T>(encode: T -> seq<Byte>)
    ensures EncodeAll(encode, []) == []
  {
  }

  lemma EncodeNext<T>(encode: T -> seq<Byte>, items: seq<T>, i: nat)
    requires i < |items|
    ensures EncodeAll(encode, items[..i + 1]) == EncodeAll(encode, items[..i]) + encode(items[i])
  {
    assert items[..i + 1][..i] == items[..i];
  }

  lemma EntryNext(entries: seq<Entry>, i: nat)
    requires i < |entries|
    ensures EncodeAll(EncodeEntry, entries[..i + 1]) == EncodeAll(EncodeEntry, entries[..i]) + EncodeEntry(entries[i])
  {
    hide EncodeAll; hide EncodeEntry;
    EncodeNext(EncodeEntry, entries, i);
  }

  /** `fingerprint_package_graph_with_environment`, up to the hash. */
  method Preimage(packages: seq<Package>, t: Target, e: Environment) returns (r: Result<seq<Byte>, GraphError>)
    ensures r == match Validate(packages)
                 case Some(error) => Failure(error)
                 case None => Success(Stream(e, t, Canonical(packages)))
  {
    var error := Validate(packages);
    if error.Some? { return Failure(error.value); }
    var ordered := Canonical(packages);
    var encoder := new FingerprintEncoder();
    hide *;
    encoder.AddField(MAGIC);
    encoder.AddU32(e.inputSchema);
    encoder.AddField(e.compiler);
    encoder.AddField(e.hostOs);
    encoder.AddField(e.hostArch);
    encoder.AddTarget(t);
    encoder.AddField(e.edition);
    encoder.AddBundle(CORE, e.core);
    encoder.AddBundle(ALLOC, e.alloc);
    encoder.AddBundle(STD, e.standard);
    encoder.AddEntries(ordered);
    InOrder(e, t, ordered);
    r := Success(encoder.bytes);
  }

  lemma InOrder(e: Environment, t: Target, entries: seq<Entry>)
    ensures Stream(e, t, entries) ==
            [] + Field(MAGIC) + LittleEndian(e.inputSchema, 4) + Field(e.compiler) + Field(e.hostOs) + Field(e.hostArch)
            + EncodeTarget(t) + Field(e.edition) + EncodeBundle(CORE, e.core) + EncodeBundle(ALLOC, e.alloc)
            + EncodeBundle(STD, e.standard) + Counted(EncodeEntry, entries)
  {
    hide U64; hide LittleEndian; hide Field; hide Counted; hide EncodeTarget; hide EncodeBundle;
  }
}
