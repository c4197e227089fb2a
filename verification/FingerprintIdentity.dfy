/**
 The stream determines its inputs, and two graphs have the same stream exactly when
 they differ at most in package order, source order, package numbers and source paths.
 */
module FingerprintIdentity {
  import opened Wrappers
  import opened Bytes
  import opened Orderings
  import opened Fingerprints

  /* ----- every piece of the stream marks its own end ----- */

  lemma U64Splits(a: nat, b: nat, r: seq<Byte>, s: seq<Byte>)
    requires a < U64_LIMIT && b < U64_LIMIT && U64(a) + r == U64(b) + s
    ensures a == b && r == s
  {
    hide U64;
    assert (U64(a) + r)[..8] == U64(a) && (U64(b) + s)[..8] == U64(b);
    assert (U64(a) + r)[8..] == r && (U64(b) + s)[8..] == s;
    U64Injective(a, b);
  }

  ghost predicate TextFits(t: Text) { |t| < U64_LIMIT }

  lemma FieldSplits(x: Text, y: Text, r: seq<Byte>, s: seq<Byte>)
    requires TextFits(x) && TextFits(y) && Field(x) + r == Field(y) + s
    ensures x == y && r == s
  {
    hide U64;
    assert Field(x) + r == U64(|x|) + (x + r) && Field(y) + s == U64(|y|) + (y + s);
    U64Splits(|x|, |y|, x + r, y + s);
    assert (x + r)[..|x|] == x && (y + s)[..|y|] == y && (x + r)[|x|..] == r && (y + s)[|y|..] == s;
  }

  lemma BooleanSplits(a: bool, b: bool, r: seq<Byte>, s: seq<Byte>)
    requires Boolean(a) + r == Boolean(b) + s
    ensures a == b && r == s
  {
    assert (Boolean(a) + r)[0] == Boolean(a)[0] && (Boolean(b) + s)[0] == Boolean(b)[0];
    assert (Boolean(a) + r)[1..] == r && (Boolean(b) + s)[1..] == s;
  }

  ghost predicate SplitsAt<T>(encode: T -> seq<Byte>, x: T, y: T, r: seq<Byte>, s: seq<Byte>) {
    encode(x) + r == encode(y) + s ==> x == y && r == s
  }

  ghost predicate Splits<T(!new)>(encode: T -> seq<Byte>, fits: T -> bool) {
    forall x, y, r, s | fits(x) && fits(y) :: SplitsAt(encode, x, y, r, s)
  }

  ghost predicate AllFit<T>(fits: T -> bool, items: seq<T>) {
    |items| < U64_LIMIT && forall i | 0 <= i < |items| :: fits(items[i])
  }

  lemma {:induction false} ItemsSplit<T(!new)>(encode: T -> seq<Byte>, fits: T -> bool, xs: seq<T>, ys: seq<T>,
                                               r: seq<Byte>, s: seq<Byte>)
    requires Splits(encode, fits) && |xs| == |ys| && AllFit(fits, xs) && AllFit(fits, ys)
    requires EncodeAll(encode, xs) + r == EncodeAll(encode, ys) + s
    ensures xs == ys && r == s
    decreases |xs|
  {
    if xs == [] {
      assert r == [] + r && s == [] + s;
    } else {
      var n := |xs| - 1;
      var x, y := encode(xs[n]), encode(ys[n]);
      assert (EncodeAll(encode, xs[..n]) + x) + r == EncodeAll(encode, xs[..n]) + (x + r);
      assert (EncodeAll(encode, ys[..n]) + y) + s == EncodeAll(encode, ys[..n]) + (y + s);
      ItemsSplit(encode, fits, xs[..n], ys[..n], x + r, y + s);
      assert SplitsAt(encode, xs[n], ys[n], r, s);
      assert xs == xs[..n] + [xs[n]] && ys == ys[..n] + [ys[n]];
    }
  }

  lemma CountedSplits<T(!new)>(encode: T -> seq<Byte>, fits: T -> bool, xs: seq<T>, ys: seq<T>, r: seq<Byte>,
                               s: seq<Byte>)
    requires Splits(encode, fits) && AllFit(fits, xs) && AllFit(fits, ys)
    requires Counted(encode, xs) + r == Counted(encode, ys) + s
    ensures xs == ys && r == s
  {
    hide U64; hide EncodeAll;
    assert Counted(encode, xs) + r == U64(|xs|) + (EncodeAll(encode, xs) + r);
    assert Counted(encode, ys) + s == U64(|ys|) + (EncodeAll(encode, ys) + s);
    U64Splits(|xs|, |ys|, EncodeAll(encode, xs) + r, EncodeAll(encode, ys) + s);
    ItemsSplit(encode, fits, xs, ys, r, s);
  }

  lemma FieldsSplit()
    ensures Splits(Field, TextFits)
  {
    forall x, y, r, s | TextFits(x) && TextFits(y) ensures SplitsAt(Field, x, y, r, s) {
      if Field(x) + r == Field(y) + s { FieldSplits(x, y, r, s); }
    }
  }

  ghost predicate PairFits(p: (Text, Text)) { TextFits(p.0) && TextFits(p.1) }

  lemma PairSplits(x: (Text, Text), y: (Text, Text), r: seq<Byte>, s: seq<Byte>)
    requires PairFits(x) && PairFits(y) && EncodePair(x) + r == EncodePair(y) + s
    ensures x == y && r == s
  {
    hide Field;
    assert EncodePair(x) + r == Field(x.0) + (Field(x.1) + r) && EncodePair(y) + s == Field(y.0) + (Field(y.1) + s);
    FieldSplits(x.0, y.0, Field(x.1) + r, Field(y.1) + s);
    FieldSplits(x.1, y.1, r, s);
  }

  lemma PairsSplit()
    ensures Splits(EncodePair, PairFits)
  {
    forall x, y, r, s | PairFits(x) && PairFits(y) ensures SplitsAt(EncodePair, x, y, r, s) {
      if EncodePair(x) + r == EncodePair(y) + s { PairSplits(x, y, r, s); }
    }
  }

  ghost predicate UnitFits(u: Unit) { AllFit(TextFits, u.modulePath) && TextFits(u.source) }

  lemma UnitSplits(x: Unit, y: Unit, r: seq<Byte>, s: seq<Byte>)
    requires UnitFits(x) && UnitFits(y) && EncodeUnit(x) + r == EncodeUnit(y) + s
    ensures x == y && r == s
  {
    hide Field; hide Counted; hide Boolean; hide AllFit; hide TextFits;
    var px, py := Counted(Field, x.modulePath), Counted(Field, y.modulePath);
    assert EncodeUnit(x) + r == Boolean(x.isRoot) + (px + (Field(x.source) + r));
    assert EncodeUnit(y) + s == Boolean(y.isRoot) + (py + (Field(y.source) + s));
    BooleanSplits(x.isRoot, y.isRoot, px + (Field(x.source) + r), py + (Field(y.source) + s));
    FieldsSplit();
    CountedSplits(Field, TextFits, x.modulePath, y.modulePath, Field(x.source) + r, Field(y.source) + s);
    FieldSplits(x.source, y.source, r, s);
  }

  lemma UnitsSplit()
    ensures Splits(EncodeUnit, UnitFits)
  {
    forall x, y, r, s | UnitFits(x) && UnitFits(y) ensures SplitsAt(EncodeUnit, x, y, r, s) {
      if EncodeUnit(x) + r == EncodeUnit(y) + s { UnitSplits(x, y, r, s); }
    }
  }

  ghost predicate EntryFits(e: Entry) {
    && TextFits(e.identity) && TextFits(e.name) && TextFits(e.version)
    && AllFit(PairFits, e.dependencies) && AllFit(UnitFits, e.units)
  }

  lemma EntrySplits(x: Entry, y: Entry, r: seq<Byte>, s: seq<Byte>)
    requires EntryFits(x) && EntryFits(y) && EncodeEntry(x) + r == EncodeEntry(y) + s
    ensures x == y && r == s
  {
    hide Field; hide Counted; hide Boolean; hide AllFit; hide TextFits;
    var ux, uy := Counted(EncodeUnit, x.units) + r, Counted(EncodeUnit, y.units) + s;
    var dx, dy := Counted(EncodePair, x.dependencies) + ux, Counted(EncodePair, y.dependencies) + uy;
    var xs, ys := Boolean(x.isPrimary) + dx, Boolean(y.isPrimary) + dy;
    assert EncodeEntry(x) + r == Field(x.identity) + (Field(x.name) + (Field(x.version) + xs));
    assert EncodeEntry(y) + s == Field(y.identity) + (Field(y.name) + (Field(y.version) + ys));
    hide *;
    FieldSplits(x.identity, y.identity, Field(x.name) + (Field(x.version) + xs),
                Field(y.name) + (Field(y.version) + ys));
    FieldSplits(x.name, y.name, Field(x.version) + xs, Field(y.version) + ys);
    FieldSplits(x.version, y.version, xs, ys);
    BooleanSplits(x.isPrimary, y.isPrimary, dx, dy);
    PairsSplit();
    CountedSplits(EncodePair, PairFits, x.dependencies, y.dependencies, ux, uy);
    UnitsSplit();
    CountedSplits(EncodeUnit, UnitFits, x.units, y.units, r, s);
  }

  lemma EntriesSplit()
    ensures Splits(EncodeEntry, EntryFits)
  {
    forall x, y, r, s | EntryFits(x) && EntryFits(y) ensures SplitsAt(EncodeEntry, x, y, r, s) {
      if EncodeEntry(x) + r == EncodeEntry(y) + s { EntrySplits(x, y, r, s); }
    }
  }

  /* ----- targets and environments ----- */

  ghost predicate TargetFits(t: Target) { t.Test? && t.filter.Some? ==> TextFits(t.filter.value) }

  function TargetName(t: Target): Text {
    match t case Binary => BINARY case Library => LIBRARY case Test(_) => TEST
  }

  function TargetRest(t: Target): seq<Byte> {
    match t
    case Test(Some(f)) => Boolean(true) + Field(f)
    case Test(None) => Boolean(false)
    case _ => []
  }

  lemma TargetParts(t: Target, r: seq<Byte>)
    ensures EncodeTarget(t) + r == Field(TargetName(t)) + (TargetRest(t) + r)
  {
    hide Field; hide Boolean;
  }

  lemma NamesDiffer(x: Target, y: Target)
    requires TargetName(x) == TargetName(y)
    ensures x.Binary? == y.Binary? && x.Library? == y.Library? && x.Test? == y.Test?
  {
    assert |BINARY| == 6 && |LIBRARY| == 7 && |TEST| == 4;
  }

  lemma FilterSplits(x: Option<Text>, y: Option<Text>, r: seq<Byte>, s: seq<Byte>)
    requires TargetFits(Test(x)) && TargetFits(Test(y)) && TargetRest(Test(x)) + r == TargetRest(Test(y)) + s
    ensures x == y && r == s
  {
    hide Field; hide Boolean;
    var tx := if x.Some? then Field(x.value) + r else r;
    var ty := if y.Some? then Field(y.value) + s else s;
    assert TargetRest(Test(x)) + r == Boolean(x.Some?) + tx && TargetRest(Test(y)) + s == Boolean(y.Some?) + ty;
    BooleanSplits(x.Some?, y.Some?, tx, ty);
    if x.Some? { FieldSplits(x.value, y.value, r, s); }
  }

  /** Different targets never share a stream, an absent filter and an empty one included. */
  lemma TargetSplits(x: Target, y: Target, r: seq<Byte>, s: seq<Byte>)
    requires TargetFits(x) && TargetFits(y) && EncodeTarget(x) + r == EncodeTarget(y) + s
    ensures x == y && r == s
  {
    TargetParts(x, r);
    TargetParts(y, s);
    NameFits(x);
    NameFits(y);
    hide Field; hide EncodeTarget; hide TargetName;
    FieldSplits(TargetName(x), TargetName(y), TargetRest(x) + r, TargetRest(y) + s);
    NamesDiffer(x, y);
    if x.Test? {
      FilterSplits(x.filter, y.filter, r, s);
      return;
    }
    assert [] + r == r && [] + s == s;
  }

  lemma NameFits(t: Target)
    ensures TextFits(TargetName(t))
  {
  }

  ghost predicate EnvironmentFits(e: Environment) {
    && e.inputSchema < 0x1_0000_0000
    && TextFits(e.compiler) && TextFits(e.hostOs) && TextFits(e.hostArch) && TextFits(e.edition)
    && AllFit(PairFits, e.core) && AllFit(PairFits, e.alloc) && AllFit(PairFits, e.standard)
  }

  lemma U32Splits(a: nat, b: nat, r: seq<Byte>, s: seq<Byte>)
    requires a < 0x1_0000_0000 && b < 0x1_0000_0000 && LittleEndian(a, 4) + r == LittleEndian(b, 4) + s
    ensures a == b && r == s
  {
    var ea, eb := LittleEndian(a, 4), LittleEndian(b, 4);
    assert Power256(4) == 0x1_0000_0000 by { assert Power256(2) == 0x1_0000; }
    LittleEndianRoundTrip(a, 4);
    LittleEndianRoundTrip(b, 4);
    hide *;
    assert (ea + r)[..4] == ea && (eb + s)[..4] == eb && (ea + r)[4..] == r && (eb + s)[4..] == s;
  }

  lemma HostSplits(x: Environment, y: Environment, r: seq<Byte>, s: seq<Byte>)
    requires EnvironmentFits(x) && EnvironmentFits(y) && EncodeHost(x) + r == EncodeHost(y) + s
    ensures x.inputSchema == y.inputSchema && x.compiler == y.compiler && x.hostOs == y.hostOs
        && x.hostArch == y.hostArch
    ensures r == s
  {
    hide Field; hide LittleEndian; hide AllFit;
    var ax, ay := Field(x.hostArch) + r, Field(y.hostArch) + s;
    var ox, oy := Field(x.hostOs) + ax, Field(y.hostOs) + ay;
    var cx, cy := Field(x.compiler) + ox, Field(y.compiler) + oy;
    assert EncodeHost(x) + r == Field(MAGIC) + (LittleEndian(x.inputSchema, 4) + cx);
    assert EncodeHost(y) + s == Field(MAGIC) + (LittleEndian(y.inputSchema, 4) + cy);
    assert TextFits(MAGIC);
    hide *;
    FieldSplits(MAGIC, MAGIC, LittleEndian(x.inputSchema, 4) + cx, LittleEndian(y.inputSchema, 4) + cy);
    U32Splits(x.inputSchema, y.inputSchema, cx, cy);
    FieldSplits(x.compiler, y.compiler, ox, oy);
    FieldSplits(x.hostOs, y.hostOs, ax, ay);
    FieldSplits(x.hostArch, y.hostArch, r, s);
  }

  lemma BundleSplits(name: Text, xs: seq<(Text, Text)>, ys: seq<(Text, Text)>, r: seq<Byte>, s: seq<Byte>)
    requires TextFits(name) && AllFit(PairFits, xs) && AllFit(PairFits, ys)
    requires EncodeBundle(name, xs) + r == EncodeBundle(name, ys) + s
    ensures xs == ys && r == s
  {
    hide Field; hide Counted; hide AllFit;
    assert EncodeBundle(name, xs) + r == Field(name) + (Counted(EncodePair, xs) + r);
    assert EncodeBundle(name, ys) + s == Field(name) + (Counted(EncodePair, ys) + s);
    FieldSplits(name, name, Counted(EncodePair, xs) + r, Counted(EncodePair, ys) + s);
    PairsSplit();
    CountedSplits(EncodePair, PairFits, xs, ys, r, s);
  }

  lemma LibrariesSplit(x: Environment, y: Environment, r: seq<Byte>, s: seq<Byte>)
    requires EnvironmentFits(x) && EnvironmentFits(y) && EncodeLibraries(x) + r == EncodeLibraries(y) + s
    ensures x.edition == y.edition && x.core == y.core && x.alloc == y.alloc && x.standard == y.standard && r == s
  {
    hide Field; hide EncodeBundle; hide AllFit;
    var sx, sy := EncodeBundle(STD, x.standard) + r, EncodeBundle(STD, y.standard) + s;
    var ax, ay := EncodeBundle(ALLOC, x.alloc) + sx, EncodeBundle(ALLOC, y.alloc) + sy;
    var cx, cy := EncodeBundle(CORE, x.core) + ax, EncodeBundle(CORE, y.core) + ay;
    assert EncodeLibraries(x) + r == Field(x.edition) + cx && EncodeLibraries(y) + s == Field(y.edition) + cy;
    assert TextFits(CORE) && TextFits(ALLOC) && TextFits(STD);
    hide *;
    FieldSplits(x.edition, y.edition, cx, cy);
    BundleSplits(CORE, x.core, y.core, ax, ay);
    BundleSplits(ALLOC, x.alloc, y.alloc, sx, sy);
    BundleSplits(STD, x.standard, y.standard, r, s);
  }

  /** Equal streams come from equal environments, targets and canonical graphs. */
  lemma StreamInjective(e: Environment, t: Target, g: seq<Entry>, e': Environment, t': Target, g': seq<Entry>)
    requires EnvironmentFits(e) && TargetFits(t) && AllFit(EntryFits, g)
    requires EnvironmentFits(e') && TargetFits(t') && AllFit(EntryFits, g')
    requires Stream(e, t, g) == Stream(e', t', g')
    ensures e == e' && t == t' && g == g'
  {
    hide EncodeHost; hide EncodeTarget; hide EncodeLibraries; hide Counted; hide AllFit; hide EnvironmentFits;
    var c, c' := Counted(EncodeEntry, g), Counted(EncodeEntry, g');
    var l, l' := EncodeLibraries(e) + c, EncodeLibraries(e') + c';
    var m, m' := EncodeTarget(t) + l, EncodeTarget(t') + l';
    HostSplits(e, e', m, m');
    TargetSplits(t, t', l, l');
    LibrariesSplit(e, e', c, c');
    EntriesSplit();
    assert c + [] == c && c' + [] == c';
    CountedSplits(EncodeEntry, EntryFits, g, g', [], []);
  }

  /* ----- what two graphs may differ in ----- */

  /** A package without its number, its source paths, and the order of its parts. */
  datatype Summary = Summary(
    identity: Text, name: Text, version: Text, isPrimary: bool, dependencies: set<(Text, Text)>, units: multiset<Unit>)

  ghost function Members(s: seq<(Text, Text)>): (r: set<(Text, Text)>)
    ensures forall x :: x in r <==> x in s
  {
    set x | x in s
  }

  ghost function SummaryOf(packages: seq<Package>, p: Package): Summary {
    Summary(p.identity, p.name, p.version, p.isPrimary, Members(Named(packages, p.dependencies)),
            multiset(Units(p.sources)))
  }

  ghost function Summaries(packages: seq<Package>): set<Summary> {
    set i | 0 <= i < |packages| :: SummaryOf(packages, packages[i])
  }

  ghost function EntrySummary(e: Entry): Summary {
    Summary(e.identity, e.name, e.version, e.isPrimary, Members(e.dependencies), multiset(e.units))
  }

  /** The entries of an ordered map come in the order of their keys. */
  ghost predicate Ascending(dependencies: seq<(Text, nat)>) {
    forall i, j | 0 <= i < j < |dependencies| :: CompareText(dependencies[i].0, dependencies[j].0).Less?
  }

  ghost predicate WellOrdered(packages: seq<Package>) {
    forall i | 0 <= i < |packages| :: Ascending(packages[i].dependencies)
  }

  /* ----- the orders ----- */

  predicate PairOrder(a: (Text, Text), b: (Text, Text)) { !CompareText(a.0, b.0).Greater? }

  lemma TextOrders()
    ensures TotalPreorder(PairOrder) && TotalPreorder(EntryOrder)
  {
    forall a, b ensures CompareText(b, a) == CompareText(a, b).Reverse() { TextLaws(a, b); }
    forall a, b, c | !CompareText(a, b).Greater? && !CompareText(b, c).Greater? ensures !CompareText(a, c).Greater? {
      TextTransitive(a, b, c);
    }
  }

  lemma UnitLaws(a: Unit, b: Unit)
    ensures UnitOrder(a, b) || UnitOrder(b, a)
    ensures UnitOrder(a, b) && UnitOrder(b, a) ==> a == b
  {
    TextsLaws(a.modulePath, b.modulePath);
    TextLaws(a.source, b.source);
  }

  lemma UnitTransitive(a: Unit, b: Unit, c: Unit)
    requires UnitOrder(a, b) && UnitOrder(b, c)
    ensures UnitOrder(a, c)
  {
    TextsTransitive(a.modulePath, b.modulePath, c.modulePath);
    TextsLaws(a.modulePath, b.modulePath);
    TextsLaws(b.modulePath, c.modulePath);
    TextsLaws(a.modulePath, c.modulePath);
    if a.modulePath == c.modulePath && a.isRoot == c.isRoot && b.isRoot == a.isRoot {
      TextTransitive(a.source, b.source, c.source);
    }
  }

  lemma UnitOrders()
    ensures TotalPreorder(UnitOrder) && forall s: seq<Unit> :: AntisymmetricOn(s, UnitOrder)
  {
    forall a, b ensures UnitOrder(a, b) || UnitOrder(b, a) { UnitLaws(a, b); }
    forall a, b, c | UnitOrder(a, b) && UnitOrder(b, c) ensures UnitOrder(a, c) { UnitTransitive(a, b, c); }
    forall s: seq<Unit> ensures AntisymmetricOn(s, UnitOrder) {
      forall a, b | a in s && b in s && UnitOrder(a, b) && UnitOrder(b, a) ensures a == b { UnitLaws(a, b); }
    }
  }

  /* ----- an entry is its summary ----- */

  lemma NamedAscend(packages: seq<Package>, dependencies: seq<(Text, nat)>)
    requires Ascending(dependencies)
    ensures var named := Named(packages, dependencies);
            NoRepeats(named) && SortedBy(named, PairOrder) && AntisymmetricOn(named, PairOrder)
  {
    var named := Named(packages, dependencies);
    forall i, j | 0 <= i < j < |named| ensures named[i] != named[j] && PairOrder(named[i], named[j])
        && !PairOrder(named[j], named[i]) {
      TextLaws(dependencies[i].0, dependencies[j].0);
    }
    forall x, y | x in named && y in named && PairOrder(x, y) && PairOrder(y, x) ensures x == y {
      var i :| 0 <= i < |named| && named[i] == x;
      var j :| 0 <= j < |named| && named[j] == y;
    }
  }

  lemma SameDependencies(a: seq<Package>, da: seq<(Text, nat)>, b: seq<Package>, db: seq<(Text, nat)>)
    requires Ascending(da) && Ascending(db)
    requires Members(Named(a, da)) == Members(Named(b, db))
    ensures Named(a, da) == Named(b, db)
  {
    NamedAscend(a, da);
    NamedAscend(b, db);
    TextOrders();
    var na, nb := Named(a, da), Named(b, db);
    forall x ensures x in na <==> x in nb { assert x in Members(na) <==> x in Members(nb); }
    SameElements(na, nb);
    SortedUnique(na, nb, PairOrder);
  }

  lemma EntryHasSummary(packages: seq<Package>, p: Package)
    ensures EntrySummary(EntryOf(packages, p)) == SummaryOf(packages, p)
  {
    UnitOrders();
    SortSorts(Units(p.sources), UnitOrder);
  }

  lemma SummaryHasEntry(a: seq<Package>, p: Package, b: seq<Package>, q: Package)
    requires SummaryOf(a, p) == SummaryOf(b, q) && Ascending(p.dependencies) && Ascending(q.dependencies)
    ensures EntryOf(a, p) == EntryOf(b, q)
  {
    SameDependencies(a, p.dependencies, b, q.dependencies);
    UnitOrders();
    SortSorts(Units(p.sources), UnitOrder);
    SortSorts(Units(q.sources), UnitOrder);
    SortedUnique(Sort(Units(p.sources), UnitOrder), Sort(Units(q.sources), UnitOrder), UnitOrder);
  }

  /* ----- canonical graphs ----- */

  lemma CanonicalSorts(packages: seq<Package>)
    ensures SortedBy(Canonical(packages), EntryOrder) && multiset(Canonical(packages)) == multiset(Entries(packages))
    ensures forall e :: e in Canonical(packages) <==> e in Entries(packages)
  {
    TextOrders();
    SortSorts(Entries(packages), EntryOrder);
    forall e ensures e in Canonical(packages) <==> e in Entries(packages) {
      assert e in multiset(Canonical(packages)) <==> e in multiset(Entries(packages));
    }
  }

  lemma DistinctEntries(packages: seq<Package>)
    requires DistinctIdentities(packages)
    ensures NoRepeats(Entries(packages)) && AntisymmetricOn(Canonical(packages), EntryOrder)
  {
    CanonicalSorts(packages);
    var entries := Entries(packages);
    forall x, y | x in entries && y in entries && EntryOrder(x, y) && EntryOrder(y, x) ensures x == y {
      TextLaws(x.identity, y.identity);
      var i :| 0 <= i < |entries| && entries[i] == x;
      var j :| 0 <= j < |entries| && entries[j] == y;
      assert packages[i].identity == packages[j].identity;
    }
  }

  lemma EntriesFromSummaries(a: seq<Package>, b: seq<Package>, e: Entry)
    requires WellOrdered(a) && WellOrdered(b) && Summaries(a) == Summaries(b) && e in Entries(a)
    ensures e in Entries(b)
  {
    var i :| 0 <= i < |a| && Entries(a)[i] == e;
    assert SummaryOf(a, a[i]) in Summaries(b);
    var j :| 0 <= j < |b| && SummaryOf(b, b[j]) == SummaryOf(a, a[i]);
    SummaryHasEntry(a, a[i], b, b[j]);
    assert Entries(b)[j] == e;
  }

  lemma SummariesFromEntries(a: seq<Package>, b: seq<Package>, s: Summary)
    requires (forall e :: e in Entries(a) ==> e in Entries(b)) && s in Summaries(a)
    ensures s in Summaries(b)
  {
    var i :| 0 <= i < |a| && SummaryOf(a, a[i]) == s;
    assert Entries(a)[i] in Entries(b);
    var j :| 0 <= j < |b| && Entries(b)[j] == Entries(a)[i];
    EntryHasSummary(a, a[i]);
    EntryHasSummary(b, b[j]);
  }

  /** Canonical forms agree exactly when the packages do, up to order, numbers and paths. */
  lemma CanonicalMeansSame(a: seq<Package>, b: seq<Package>)
    requires Validate(a) == None && Validate(b) == None && WellOrdered(a) && WellOrdered(b)
    ensures Canonical(a) == Canonical(b) <==> Summaries(a) == Summaries(b)
  {
    CanonicalSorts(a);
    CanonicalSorts(b);
    if Canonical(a) == Canonical(b) {
      forall s | s in Summaries(a) ensures s in Summaries(b) { SummariesFromEntries(a, b, s); }
      forall s | s in Summaries(b) ensures s in Summaries(a) { SummariesFromEntries(b, a, s); }
    }
    if Summaries(a) == Summaries(b) {
      forall e ensures e in Entries(a) <==> e in Entries(b) {
        if e in Entries(a) { EntriesFromSummaries(a, b, e); }
        if e in Entries(b) { EntriesFromSummaries(b, a, e); }
      }
      DistinctEntries(a);
      DistinctEntries(b);
      SameElements(Entries(a), Entries(b));
      TextOrders();
      SortedUnique(Canonical(a), Canonical(b), EntryOrder);
    }
  }

  ghost predicate GraphFits(packages: seq<Package>) { AllFit(EntryFits, Canonical(packages)) }

  /**
   Two valid graphs emit the same bytes if and only if environment and target are the
   same and the graphs agree up to package order, source order, package numbers and
   source paths.
   */
  lemma FingerprintIdentity(a: seq<Package>, b: seq<Package>, e: Environment, e': Environment, t: Target, t': Target)
    requires Validate(a) == None && Validate(b) == None && WellOrdered(a) && WellOrdered(b)
    requires GraphFits(a) && GraphFits(b) && EnvironmentFits(e) && EnvironmentFits(e') && TargetFits(t)
        && TargetFits(t')
    ensures Stream(e, t, Canonical(a)) == Stream(e', t', Canonical(b))
            <==> e == e' && t == t' && Summaries(a) == Summaries(b)
  {
    CanonicalMeansSame(a, b);
    if Stream(e, t, Canonical(a)) == Stream(e', t', Canonical(b)) {
      StreamInjective(e, t, Canonical(a), e', t', Canonical(b));
    }
  }

  /* ----- which graphs are accepted ----- */

  /** Package `i` is the only primary one. */
  ghost predicate OnlyPrimary(packages: seq<Package>, i: nat) {
    && i < |packages| && packages[i].isPrimary
    && forall j | 0 <= j < |packages| && j != i :: !packages[j].isPrimary
  }

  lemma {:induction false} NoPrimary(packages: seq<Package>)
    ensures Primaries(packages) == 0 <==> forall j | 0 <= j < |packages| :: !packages[j].isPrimary
  {
    if packages != [] {
      var n := |packages| - 1;
      NoPrimary(packages[..n]);
      assert forall j | 0 <= j < n :: packages[..n][j] == packages[j];
    }
  }

  lemma {:induction false} OnePrimary(packages: seq<Package>)
    ensures Primaries(packages) == 1 <==> exists i: nat :: OnlyPrimary(packages, i)
  {
    if packages != [] {
      var n := |packages| - 1;
      var front := packages[..n];
      OnePrimary(front);
      NoPrimary(front);
      assert forall j | 0 <= j < n :: front[j] == packages[j];
      if i: nat :| OnlyPrimary(front, i) {
        if !packages[n].isPrimary { assert OnlyPrimary(packages, i); }
      }
      if i: nat :| OnlyPrimary(packages, i) {
        if i < n { assert OnlyPrimary(front, i); }
      }
      if packages[n].isPrimary && Primaries(front) == 0 { assert OnlyPrimary(packages, n); }
    }
  }

  /**
   A graph is accepted exactly if it has one primary package, no two packages share a number
   or an identity, and every dependency names a package of the graph.
   */
  lemma AcceptedExactly(packages: seq<Package>)
    ensures Validate(packages) == None <==>
            && (exists i: nat :: OnlyPrimary(packages, i))
            && (forall i, j | 0 <= i < |packages| && 0 <= j < |packages| && i != j ::
                  packages[i].id != packages[j].id && packages[i].identity != packages[j].identity)
            && (forall p, d | p in packages && d in p.dependencies :: exists q :: q in packages && q.id == d.1)
  {
    OnePrimary(packages);
    hide Primaries;
    if DependenciesExist(packages) {
      forall p, d | p in packages && d in p.dependencies ensures exists q :: q in packages && q.id == d.1 {
        var i :| 0 <= i < |packages| && packages[i] == p;
        var j :| 0 <= j < |p.dependencies| && p.dependencies[j] == d;
        assert HasId(packages, packages[i].dependencies[j].1);
        var k :| 0 <= k < |packages| && packages[k].id == d.1;
        assert packages[k] in packages;
      }
    }
    if forall p, d | p in packages && d in p.dependencies :: exists q :: q in packages && q.id == d.1 {
      forall i, j | 0 <= i < |packages| && 0 <= j < |packages[i].dependencies|
        ensures HasId(packages, packages[i].dependencies[j].1)
      {
        var p, d := packages[i], packages[i].dependencies[j];
        assert p in packages && d in p.dependencies;
        var q :| q in packages && q.id == d.1;
        var k :| 0 <= k < |packages| && packages[k] == q;
      }
    }
  }
}
