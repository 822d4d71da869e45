/** Compiles a blueprint into a runtime packet: sequences and bridges are sorted, codes become
    stable identifiers, bridges are resolved. */
module BlueprintCompiler {
  import opened Options
  import opened SequenceLaws
  import opened Blueprint

  // ----- stable identifiers

  /** A name-based identifier of the fixed namespace (UUIDv5, section 5.5 of RFC 9562), taken as
      injective in the name. */
  datatype Uuid = Uuid5(name: string)

  function Join(parts: seq<string>): string
    requires parts != []
  {
    if |parts| == 1 then parts[0] else parts[0] + "::" + Join(parts[1..])
  }

  function StableUuid(kind: string, parts: seq<string>): Uuid {
    Uuid5(Join([kind] + parts))
  }

  predicate NoColon(text: string) {
    ':' !in text
  }

  /** Joining with a double colon is injective on parts without a colon. */
  lemma {:induction false} JoinInjective(xs: seq<string>, ys: seq<string>)
    requires xs != [] && ys != [] && Join(xs) == Join(ys)
    requires (forall x | x in xs :: NoColon(x)) && (forall y | y in ys :: NoColon(y))
    ensures xs == ys
  {
    var a, b := xs[0], ys[0];
    assert a in xs && b in ys;
    assert |xs| > 1 ==> Join(xs)[|a|] == ':';
    assert |ys| > 1 ==> Join(ys)[|b|] == ':';
    assert forall i | 0 <= i < |a| :: Join(xs)[i] == a[i] && a[i] in a;
    assert forall i | 0 <= i < |b| :: Join(ys)[i] == b[i] && b[i] in b;
    assert |a| == |b|;
    assert a == Join(xs)[..|a|] && b == Join(ys)[..|b|];
    if |xs| > 1 && |ys| > 1 {
      assert Join(xs[1..]) == Join(xs)[|a| + 2..] && Join(ys[1..]) == Join(ys)[|b| + 2..];
      JoinInjective(xs[1..], ys[1..]);
      assert xs == [a] + xs[1..] && ys == [b] + ys[1..];
    }
  }

  lemma ValidCodeHasNoColon(code: string)
    requires ValidCode(code)
    ensures NoColon(code)
  {
  }

  /** Two identifiers are equal only when their kinds and their parts are. */
  lemma StableUuidInjective(k: string, xs: seq<string>, l: string, ys: seq<string>)
    requires NoColon(k) && NoColon(l)
    requires forall x | x in xs :: ValidCode(x)
    requires forall y | y in ys :: ValidCode(y)
    requires StableUuid(k, xs) == StableUuid(l, ys)
    ensures k == l && xs == ys
  {
    forall x | x in xs ensures NoColon(x) { ValidCodeHasNoColon(x); }
    forall y | y in ys ensures NoColon(y) { ValidCodeHasNoColon(y); }
    JoinInjective([k] + xs, [l] + ys);
    assert ([k] + xs)[0] == k && ([l] + ys)[0] == l;
    assert ([k] + xs)[1..] == xs && ([l] + ys)[1..] == ys;
  }

  // ----- packets

  datatype CompiledSpu = CompiledSpu(id: Uuid, unit: Spu, sequenceCode: string)

  datatype CompiledVbu = CompiledVbu(id: Uuid, unit: Vbu, sequenceCode: string)

  datatype CompiledBridge = CompiledBridge(
    id: Uuid, bridge: Bridge, spuId: Option<Uuid>, vbuId: Option<Uuid>, sequenceCode: string)

  datatype CompiledSequence = CompiledSequence(
    id: Uuid, index: int, sequenceType: string, persuasiveGoal: Option<string>,
    spus: seq<CompiledSpu>, vbus: seq<CompiledVbu>, bridges: seq<CompiledBridge>)

  datatype Packet = Packet(
    projectId: Uuid, runtimeVersion: string, compileReason: string, compileOptions: map<string, Json>,
    visualTrackCount: int, audioTrackCount: int, bridgeCount: int, sequences: seq<CompiledSequence>)

  function SpuId(d: Document, s: Sequence, code: string): Uuid {
    StableUuid("spu", [d.id, s.code, code])
  }

  function VbuId(d: Document, s: Sequence, code: string): Uuid {
    StableUuid("vbu", [d.id, s.code, code])
  }

  function BridgeId(d: Document, s: Sequence, code: string): Uuid {
    StableUuid("bridge", [d.id, s.code, code])
  }

  function CompileSpu(d: Document, s: Sequence, u: Spu): CompiledSpu {
    CompiledSpu(SpuId(d, s, u.code), u, s.code)
  }

  function CompileVbu(d: Document, s: Sequence, u: Vbu): CompiledVbu {
    var language := if Given(u.language) then u.language else Some(d.sourceLanguage);
    CompiledVbu(VbuId(d, s, u.code), u.(language := language), s.code)
  }

  function CompileBridge(d: Document, s: Sequence, b: Bridge): CompiledBridge {
    CompiledBridge(
      BridgeId(d, s, b.code), b,
      if Given(b.spuCode) then Some(SpuId(d, s, b.spuCode.value)) else None,
      if Given(b.vbuCode) then Some(VbuId(d, s, b.vbuCode.value)) else None,
      s.code)
  }

  function BridgeOrder(b: Bridge): int {
    b.executionOrder
  }

  function SequenceIndex(s: Sequence): int {
    s.index
  }

  function CompileSequence(d: Document, s: Sequence): CompiledSequence {
    CompiledSequence(
      StableUuid("sequence", [d.id, s.code]), s.index, s.sequenceType, s.persuasiveGoal,
      Map(u => CompileSpu(d, s, u), s.spus),
      Map(u => CompileVbu(d, s, u), s.vbus),
      Map(b => CompileBridge(d, s, b), SortBy(BridgeOrder, s.bridges)))
  }

  function SetDefault(options: map<string, Json>, key: string, value: Json): map<string, Json> {
    if key in options then options else options[key := value]
  }

  function CompileOptions(d: Document): map<string, Json> {
    var o1 := SetDefault(d.compileOptions, "blueprint_id", Text(d.id));
    var o2 := SetDefault(o1, "blueprint_version", Text(d.version));
    var o3 := SetDefault(o2, "aspect_ratio", Text(d.aspectRatio));
    var o4 := SetDefault(o3, "style_tags", d.styleTags);
    var o5 := SetDefault(o4, "banned_elements", d.bannedElements);
    var o6 := SetDefault(o5, "target_duration_ms", d.targetDurationMs);
    SetDefault(o6, "reference", d.reference)
  }

  function Compile(d: Document): Packet {
    var ordered := SortBy(SequenceIndex, d.sequences);
    Packet(
      StableUuid("project", [d.id]),
      if Given(d.requestedRuntimeVersion) then d.requestedRuntimeVersion.value else d.id + ".stub",
      d.compileReason,
      CompileOptions(d),
      Total((s: Sequence) => |s.spus|, d.sequences),
      Total((s: Sequence) => |s.vbus|, d.sequences),
      Total((s: Sequence) => |s.bridges|, d.sequences),
      Map(s => CompileSequence(d, s), ordered))
  }

  function DocumentOptions(d: Document): map<string, Json> {
    map["blueprint_id" := Text(d.id), "blueprint_version" := Text(d.version),
        "aspect_ratio" := Text(d.aspectRatio), "style_tags" := d.styleTags,
        "banned_elements" := d.bannedElements, "target_duration_ms" := d.targetDurationMs,
        "reference" := d.reference]
  }

  lemma SetDefaultIsOverlay(defaults: map<string, Json>, options: map<string, Json>, key: string, value: Json)
    requires key !in defaults
    ensures SetDefault(defaults + options, key, value) == defaults[key := value] + options
  {
  }

  /** The compile options are the document's seven, overridden by the caller's. */
  lemma CallerOptionsWin(d: Document)
    ensures CompileOptions(d) == DocumentOptions(d) + d.compileOptions
  {
    var c := d.compileOptions;
    var m1 := map["blueprint_id" := Text(d.id)];
    var m2 := m1["blueprint_version" := Text(d.version)];
    var m3 := m2["aspect_ratio" := Text(d.aspectRatio)];
    var m4 := m3["style_tags" := d.styleTags];
    var m5 := m4["banned_elements" := d.bannedElements];
    var m6 := m5["target_duration_ms" := d.targetDurationMs];
    assert map[] + c == c;
    SetDefaultIsOverlay(map[], c, "blueprint_id", Text(d.id));
    SetDefaultIsOverlay(m1, c, "blueprint_version", Text(d.version));
    SetDefaultIsOverlay(m2, c, "aspect_ratio", Text(d.aspectRatio));
    SetDefaultIsOverlay(m3, c, "style_tags", d.styleTags);
    SetDefaultIsOverlay(m4, c, "banned_elements", d.bannedElements);
    SetDefaultIsOverlay(m5, c, "target_duration_ms", d.targetDurationMs);
    SetDefaultIsOverlay(m6, c, "reference", d.reference);
  }

  lemma {:induction false} TotalOfCompiled(
    d: Document, f: CompiledSequence -> int, g: Sequence -> int, ss: seq<Sequence>)
    requires forall s | s in ss :: f(CompileSequence(d, s)) == g(s)
    ensures Total(f, Map(s => CompileSequence(d, s), ss)) == Total(g, ss)
  {
    if ss != [] {
      TotalOfCompiled(d, f, g, ss[1..]);
      assert Map(s => CompileSequence(d, s), ss)[1..] == Map(s => CompileSequence(d, s), ss[1..]);
    }
  }

  /** The packet's three counts are the numbers of units and bridges its sequences hold. */
  lemma CountsMatchPacket(d: Document)
    ensures var p := Compile(d);
      && p.visualTrackCount == Total((s: CompiledSequence) => |s.spus|, p.sequences)
      && p.audioTrackCount == Total((s: CompiledSequence) => |s.vbus|, p.sequences)
      && p.bridgeCount == Total((s: CompiledSequence) => |s.bridges|, p.sequences)
  {
    var ordered := SortBy(SequenceIndex, d.sequences);
    SortSorts(SequenceIndex, d.sequences);
    forall s ensures |CompileSequence(d, s).bridges| == |s.bridges| {
      SortSorts(BridgeOrder, s.bridges);
      assert |multiset(SortBy(BridgeOrder, s.bridges))| == |multiset(s.bridges)|;
    }
    TotalOfPermutation((s: Sequence) => |s.spus|, d.sequences, ordered);
    TotalOfPermutation((s: Sequence) => |s.vbus|, d.sequences, ordered);
    TotalOfPermutation((s: Sequence) => |s.bridges|, d.sequences, ordered);
    TotalOfCompiled(d, (s: CompiledSequence) => |s.spus|, (s: Sequence) => |s.spus|, ordered);
    TotalOfCompiled(d, (s: CompiledSequence) => |s.vbus|, (s: Sequence) => |s.vbus|, ordered);
    TotalOfCompiled(d, (s: CompiledSequence) => |s.bridges|, (s: Sequence) => |s.bridges|, ordered);
  }

  // ----- order independence

  predicate DistinctOrders(s: Sequence) {
    DistinctKeys(BridgeOrder, s.bridges)
  }

  /** The same document with its sequences listed in another order. */
  predicate SequencesPermuted(d: Document, e: Document) {
    e == d.(sequences := e.sequences) && multiset(d.sequences) == multiset(e.sequences)
  }

  /** The same document with the bridges of its sequences listed in another order. */
  predicate BridgesPermuted(d: Document, e: Document) {
    && e == d.(sequences := e.sequences)
    && |d.sequences| == |e.sequences|
    && forall i | 0 <= i < |d.sequences| ::
         && e.sequences[i] == d.sequences[i].(bridges := e.sequences[i].bridges)
         && multiset(d.sequences[i].bridges) == multiset(e.sequences[i].bridges)
  }

  lemma IndexesDistinct(d: Document)
    requires Consistent(d)
    ensures DistinctKeys(SequenceIndex, d.sequences)
    ensures forall s | s in d.sequences :: DistinctOrders(s)
  {
  }

  lemma PermutedSequencesCompileAlike(d: Document, e: Document)
    requires DistinctKeys(SequenceIndex, d.sequences) && SequencesPermuted(d, e)
    ensures Compile(d) == Compile(e)
  {
    SortOfPermutation(SequenceIndex, e.sequences, d.sequences);
    TotalOfPermutation((s: Sequence) => |s.spus|, d.sequences, e.sequences);
    TotalOfPermutation((s: Sequence) => |s.vbus|, d.sequences, e.sequences);
    TotalOfPermutation((s: Sequence) => |s.bridges|, d.sequences, e.sequences);
    var ordered := SortBy(SequenceIndex, d.sequences);
    forall s ensures CompileSequence(d, s) == CompileSequence(e, s) {
      SameCompiledSequence(d, e, s, s);
    }
    assert Map(s => CompileSequence(d, s), ordered) == Map(s => CompileSequence(e, s), ordered);
  }

  /** Only the id, the source language and the bridge order after sorting matter for a sequence. */
  lemma SameCompiledSequence(d: Document, e: Document, s: Sequence, t: Sequence)
    requires e == d.(sequences := e.sequences)
    requires t == s.(bridges := t.bridges)
    requires SortBy(BridgeOrder, s.bridges) == SortBy(BridgeOrder, t.bridges)
    ensures CompileSequence(d, s) == CompileSequence(e, t)
  {
  }

  lemma {:induction false} SameTotals(f: Sequence -> int, ss: seq<Sequence>, ts: seq<Sequence>)
    requires |ss| == |ts| && forall i | 0 <= i < |ss| :: f(ss[i]) == f(ts[i])
    ensures Total(f, ss) == Total(f, ts)
  {
    if ss != [] {
      SameTotals(f, ss[1..], ts[1..]);
    }
  }

  lemma PermutedBridgesCompileAlike(d: Document, e: Document)
    requires Consistent(d) && BridgesPermuted(d, e)
    ensures Compile(d) == Compile(e)
  {
    IndexesDistinct(d);
    var ss, ts := d.sequences, e.sequences;
    forall i | 0 <= i < |ss| ensures CompileSequence(d, ss[i]) == CompileSequence(d, ts[i]) {
      assert DistinctOrders(ss[i]);
      SortOfPermutation(BridgeOrder, ts[i].bridges, ss[i].bridges);
      SameCompiledSequence(d, d, ss[i], ts[i]);
    }
    SortAlike(SequenceIndex, s => CompileSequence(d, s), ss, ts);
    forall s ensures CompileSequence(d, s) == CompileSequence(e, s) {
      SameCompiledSequence(d, e, s, s);
    }
    assert Map(s => CompileSequence(d, s), SortBy(SequenceIndex, ss))
        == Map(s => CompileSequence(e, s), SortBy(SequenceIndex, ts));
    forall i | 0 <= i < |ss| ensures |ss[i].bridges| == |ts[i].bridges| {
      assert |multiset(ss[i].bridges)| == |multiset(ts[i].bridges)|;
    }
    SameTotals((s: Sequence) => |s.spus|, ss, ts);
    SameTotals((s: Sequence) => |s.vbus|, ss, ts);
    SameTotals((s: Sequence) => |s.bridges|, ss, ts);
  }

  /** A consistent blueprint compiles to the same packet whatever the order in which its sequences,
      and the bridges inside each sequence, are listed. */
  lemma OrderIndependence(d: Document, between: Document, e: Document)
    requires Consistent(d) && BridgesPermuted(d, between) && SequencesPermuted(between, e)
    ensures Compile(d) == Compile(e)
  {
    PermutedBridgesCompileAlike(d, between);
    IndexesDistinct(d);
    PermutedSequencesCompileAlike(between, e);
  }

  // ----- closed references

  /** Where a sequence of the packet comes from. */
  lemma SourceOf(d: Document, compiled: CompiledSequence) returns (s: Sequence)
    requires compiled in Compile(d).sequences
    ensures s in d.sequences && compiled == CompileSequence(d, s)
  {
    var ordered := SortBy(SequenceIndex, d.sequences);
    var i :| 0 <= i < |ordered| && Compile(d).sequences[i] == compiled;
    s := ordered[i];
    SortSorts(SequenceIndex, d.sequences);
    assert s in multiset(ordered);
  }

  lemma SourceBridge(d: Document, s: Sequence, compiled: CompiledBridge) returns (b: Bridge)
    requires compiled in CompileSequence(d, s).bridges
    ensures b in s.bridges && compiled == CompileBridge(d, s, b)
  {
    var ordered := SortBy(BridgeOrder, s.bridges);
    var i :| 0 <= i < |ordered| && CompileSequence(d, s).bridges[i] == compiled;
    b := ordered[i];
    SortSorts(BridgeOrder, s.bridges);
    assert b in multiset(ordered);
  }

  predicate NamesOne(ids: seq<Uuid>, id: Uuid) {
    exists i | 0 <= i < |ids| :: ids[i] == id && forall k | 0 <= k < |ids| && k != i :: ids[k] != id
  }

  function SpuIds(s: CompiledSequence): seq<Uuid> {
    Map((u: CompiledSpu) => u.id, s.spus)
  }

  function VbuIds(s: CompiledSequence): seq<Uuid> {
    Map((u: CompiledVbu) => u.id, s.vbus)
  }

  function BridgeIds(s: CompiledSequence): seq<Uuid> {
    Map((b: CompiledBridge) => b.id, s.bridges)
  }

  lemma LocalCodesDistinct(d: Document, s: Sequence)
    requires Consistent(d) && s in d.sequences
    ensures NoDup(SpuCodes(s)) && NoDup(VbuCodes(s)) && NoDup(BridgeCodes(s))
  {
    if !NoDup(SpuCodes(s)) { TwinsInPart(SpuCodes, d.sequences, s); }
    if !NoDup(VbuCodes(s)) { TwinsInPart(VbuCodes, d.sequences, s); }
    if !NoDup(BridgeCodes(s)) { TwinsInPart(BridgeCodes, d.sequences, s); }
  }

  lemma UnitIdsDiffer(d: Document, s: Sequence, kind: string, a: string, b: string)
    requires NoColon(kind) && ValidCode(d.id) && ValidCode(s.code) && ValidCode(a) && ValidCode(b)
    requires a != b
    ensures StableUuid(kind, [d.id, s.code, a]) != StableUuid(kind, [d.id, s.code, b])
  {
    assert [d.id, s.code, a][2] != [d.id, s.code, b][2];
    if StableUuid(kind, [d.id, s.code, a]) == StableUuid(kind, [d.id, s.code, b]) {
      StableUuidInjective(kind, [d.id, s.code, a], kind, [d.id, s.code, b]);
    }
  }

  /** Distinct codes become distinct identifiers. */
  lemma UnitIdsDistinct(d: Document, s: Sequence, kind: string, codes: seq<string>, ids: seq<Uuid>)
    requires NoColon(kind) && ValidCode(d.id) && ValidCode(s.code) && forall c | c in codes :: ValidCode(c)
    requires NoDup(codes) && |ids| == |codes|
    requires forall i | 0 <= i < |ids| :: ids[i] == StableUuid(kind, [d.id, s.code, codes[i]])
    ensures NoDup(ids)
  {
    forall i, k | 0 <= i < k < |ids| ensures ids[i] != ids[k] {
      UnitIdsDiffer(d, s, kind, codes[i], codes[k]);
    }
  }

  lemma NamesOneById(ids: seq<Uuid>, codes: seq<string>, code: string, id: Uuid)
    requires |ids| == |codes| && NoDup(ids) && code in codes
    requires forall i | 0 <= i < |ids| && codes[i] == code :: ids[i] == id
    ensures NamesOne(ids, id)
  {
  }

  lemma IdsOfSequence(d: Document, s: Sequence)
    requires Accepted(d) && s in d.sequences
    ensures NoDup(SpuIds(CompileSequence(d, s))) && NoDup(VbuIds(CompileSequence(d, s)))
  {
    LocalCodesDistinct(d, s);
    UnitIdsDistinct(d, s, "spu", SpuCodes(s), SpuIds(CompileSequence(d, s)));
    UnitIdsDistinct(d, s, "vbu", VbuCodes(s), VbuIds(CompileSequence(d, s)));
  }

  /** Every bridge of the packet names a unit, and each identifier it names belongs to exactly one
      unit of its own sequence. */
  lemma ReferencesClosed(d: Document, compiled: CompiledSequence, b: CompiledBridge)
    requires Accepted(d) && compiled in Compile(d).sequences && b in compiled.bridges
    ensures b.spuId.Some? || b.vbuId.Some?
    ensures b.spuId.Some? ==> NamesOne(SpuIds(compiled), b.spuId.value)
    ensures b.vbuId.Some? ==> NamesOne(VbuIds(compiled), b.vbuId.value)
  {
    var s := SourceOf(d, compiled);
    var source := SourceBridge(d, s, b);
    assert LocallyConsistent(s) && BoundLocally(source, s);
    assert ValidSequence(s) && ValidBridge(source);
    IdsOfSequence(d, s);
    if Given(source.spuCode) {
      NamesOneById(SpuIds(compiled), SpuCodes(s), source.spuCode.value, b.spuId.value);
    }
    if Given(source.vbuCode) {
      NamesOneById(VbuIds(compiled), VbuCodes(s), source.vbuCode.value, b.vbuId.value);
    }
  }

  // ----- distinct identifiers

  function SequenceIds(s: CompiledSequence): seq<Uuid> {
    [s.id] + (SpuIds(s) + (VbuIds(s) + BridgeIds(s)))
  }

  function PacketIds(p: Packet): seq<Uuid> {
    [p.projectId] + Concat(SequenceIds, p.sequences)
  }

  /** The identifier is built from the sequence code and one unit code. */
  ghost predicate IsUnitId(d: Document, sequenceCode: string, kind: string, id: Uuid) {
    exists code | ValidCode(code) :: id == StableUuid(kind, [d.id, sequenceCode, code])
  }

  lemma UnitIdTells(d: Document, c: string, k: string, e: string, l: string, id: Uuid)
    requires NoColon(k) && NoColon(l) && ValidCode(d.id) && ValidCode(c) && ValidCode(e)
    requires IsUnitId(d, c, k, id) && IsUnitId(d, e, l, id)
    ensures k == l && c == e
  {
    var a :| ValidCode(a) && id == StableUuid(k, [d.id, c, a]);
    var b :| ValidCode(b) && id == StableUuid(l, [d.id, e, b]);
    StableUuidInjective(k, [d.id, c, a], l, [d.id, e, b]);
    assert [d.id, c, a][1] == [d.id, e, b][1];
  }

  lemma UnitIdIsNoSequenceId(d: Document, c: string, e: string, k: string, id: Uuid)
    requires NoColon(k) && ValidCode(d.id) && ValidCode(c) && ValidCode(e) && IsUnitId(d, e, k, id)
    ensures id != StableUuid("sequence", [d.id, c])
  {
    var a :| ValidCode(a) && id == StableUuid(k, [d.id, e, a]);
    assert |[d.id, e, a]| != |[d.id, c]|;
    if id == StableUuid("sequence", [d.id, c]) {
      StableUuidInjective(k, [d.id, e, a], "sequence", [d.id, c]);
    }
  }

  /** The units of a compiled sequence carry identifiers of their own kind. */
  lemma UnitIdsTagged(d: Document, s: Sequence)
    requires ValidSequence(s)
    ensures var compiled := CompileSequence(d, s);
      && (forall id | id in SpuIds(compiled) :: IsUnitId(d, s.code, "spu", id))
      && (forall id | id in VbuIds(compiled) :: IsUnitId(d, s.code, "vbu", id))
      && (forall id | id in BridgeIds(compiled) :: IsUnitId(d, s.code, "bridge", id))
  {
    var compiled := CompileSequence(d, s);
    forall id | id in SpuIds(compiled) ensures IsUnitId(d, s.code, "spu", id) {
      var i :| 0 <= i < |s.spus| && SpuIds(compiled)[i] == id;
      assert ValidCode(s.spus[i].code);
    }
    forall id | id in VbuIds(compiled) ensures IsUnitId(d, s.code, "vbu", id) {
      var i :| 0 <= i < |s.vbus| && VbuIds(compiled)[i] == id;
      assert ValidCode(s.vbus[i].code);
    }
    forall id | id in BridgeIds(compiled) ensures IsUnitId(d, s.code, "bridge", id) {
      var i :| 0 <= i < |compiled.bridges| && BridgeIds(compiled)[i] == id;
      var b := SourceBridge(d, s, compiled.bridges[i]);
      assert ValidBridge(b);
    }
  }

  lemma SortedCodesDistinct(s: Sequence)
    requires NoDup(BridgeCodes(s))
    ensures NoDup(Map((b: Bridge) => b.code, SortBy(BridgeOrder, s.bridges)))
  {
    var ordered := SortBy(BridgeOrder, s.bridges);
    SortSorts(BridgeOrder, s.bridges);
    forall i, k | 0 <= i < k < |s.bridges| ensures s.bridges[i] != s.bridges[k] {
      assert BridgeCodes(s)[i] != BridgeCodes(s)[k];
    }
    NoDupPermuted(s.bridges, ordered);
    forall i, k | 0 <= i < k < |ordered| ensures ordered[i].code != ordered[k].code {
      assert ordered[i] in multiset(ordered) && ordered[k] in multiset(ordered);
      var m :| 0 <= m < |s.bridges| && s.bridges[m] == ordered[i];
      var n :| 0 <= n < |s.bridges| && s.bridges[n] == ordered[k];
      assert BridgeCodes(s)[m] != BridgeCodes(s)[n];
    }
  }

  lemma NoDupPermuted<T>(xs: seq<T>, ys: seq<T>)
    requires NoDup(xs) && multiset(xs) == multiset(ys)
    ensures NoDup(ys)
  {
    FewElementsMeanTwins(xs);
    FewElementsMeanTwins(ys);
    assert |multiset(xs)| == |multiset(ys)|;
    forall x ensures x in Elements(xs) <==> x in Elements(ys) {
      assert x in multiset(xs) <==> x in multiset(ys);
    }
    assert Elements(xs) == Elements(ys);
  }

  lemma SequenceIdsDistinct(d: Document, s: Sequence)
    requires Accepted(d) && s in d.sequences
    ensures NoDup(SequenceIds(CompileSequence(d, s)))
  {
    var compiled := CompileSequence(d, s);
    var spus, vbus, bridges := SpuIds(compiled), VbuIds(compiled), BridgeIds(compiled);
    assert ValidSequence(s);
    LocalCodesDistinct(d, s);
    IdsOfSequence(d, s);
    UnitIdsTagged(d, s);
    BridgeIdsDistinct(d, s);
    forall id | id in vbus ensures id !in bridges {
      if id in bridges { UnitIdTells(d, s.code, "vbu", s.code, "bridge", id); }
    }
    NoDupConcat(vbus, bridges);
    forall id | id in spus ensures id !in vbus + bridges {
      if id in vbus { UnitIdTells(d, s.code, "spu", s.code, "vbu", id); }
      if id in bridges { UnitIdTells(d, s.code, "spu", s.code, "bridge", id); }
    }
    NoDupConcat(spus, vbus + bridges);
    forall id | id in spus + (vbus + bridges) ensures id != compiled.id {
      UnitIdIsNoSequenceId(d, s.code, s.code,
        if id in spus then "spu" else if id in vbus then "vbu" else "bridge", id);
    }
    NoDupConcat([compiled.id], spus + (vbus + bridges));
  }

  lemma BridgeIdsDistinct(d: Document, s: Sequence)
    requires Accepted(d) && s in d.sequences
    ensures NoDup(BridgeIds(CompileSequence(d, s)))
  {
    var ordered := SortBy(BridgeOrder, s.bridges);
    LocalCodesDistinct(d, s);
    SortedCodesDistinct(s);
    SortSorts(BridgeOrder, s.bridges);
    assert ValidSequence(s);
    var codes := Map((b: Bridge) => b.code, ordered);
    forall c | c in codes ensures ValidCode(c) {
      var i :| 0 <= i < |codes| && codes[i] == c;
      assert ordered[i] in multiset(ordered);
      assert ValidBridge(ordered[i]);
    }
    UnitIdsDistinct(d, s, "bridge", codes, BridgeIds(CompileSequence(d, s)));
  }

  /** The identifier belongs to the sequence with this code. */
  ghost predicate BelongsTo(d: Document, sequenceCode: string, id: Uuid) {
    || id == StableUuid("sequence", [d.id, sequenceCode])
    || IsUnitId(d, sequenceCode, "spu", id)
    || IsUnitId(d, sequenceCode, "vbu", id)
    || IsUnitId(d, sequenceCode, "bridge", id)
  }

  lemma IdsBelong(d: Document, s: Sequence, id: Uuid)
    requires ValidSequence(s) && id in SequenceIds(CompileSequence(d, s))
    ensures BelongsTo(d, s.code, id)
  {
    UnitIdsTagged(d, s);
  }

  lemma BelongsToOne(d: Document, c: string, e: string, id: Uuid)
    requires ValidCode(d.id) && ValidCode(c) && ValidCode(e)
    requires BelongsTo(d, c, id) && BelongsTo(d, e, id)
    ensures c == e && id != StableUuid("project", [d.id])
  {
    if id == StableUuid("sequence", [d.id, c]) && id == StableUuid("sequence", [d.id, e]) {
      StableUuidInjective("sequence", [d.id, c], "sequence", [d.id, e]);
      assert [d.id, c][1] == [d.id, e][1];
    } else {
      UnitIdsTell(d, c, e, id);
    }
    NotTheProject(d, c, id);
  }

  lemma UnitIdsTell(d: Document, c: string, e: string, id: Uuid)
    requires ValidCode(d.id) && ValidCode(c) && ValidCode(e)
    requires BelongsTo(d, c, id) && BelongsTo(d, e, id)
    requires !(id == StableUuid("sequence", [d.id, c]) && id == StableUuid("sequence", [d.id, e]))
    ensures c == e
  {
    var k, l := UnitKind(d, c, id), UnitKind(d, e, id);
    if id == StableUuid("sequence", [d.id, c]) {
      UnitIdIsNoSequenceId(d, c, e, l, id);
    } else if id == StableUuid("sequence", [d.id, e]) {
      UnitIdIsNoSequenceId(d, e, c, k, id);
    } else {
      UnitIdTells(d, c, k, e, l, id);
    }
  }

  ghost function UnitKind(d: Document, c: string, id: Uuid): (kind: string)
    ensures NoColon(kind)
    ensures BelongsTo(d, c, id) && id != StableUuid("sequence", [d.id, c]) ==> IsUnitId(d, c, kind, id)
  {
    if IsUnitId(d, c, "spu", id) then "spu" else if IsUnitId(d, c, "vbu", id) then "vbu" else "bridge"
  }

  lemma NotTheProject(d: Document, c: string, id: Uuid)
    requires ValidCode(d.id) && ValidCode(c) && BelongsTo(d, c, id)
    ensures id != StableUuid("project", [d.id])
  {
    if id == StableUuid("project", [d.id]) {
      if id == StableUuid("sequence", [d.id, c]) {
        StableUuidInjective("project", [d.id], "sequence", [d.id, c]);
      } else {
        var kind := UnitKind(d, c, id);
        var code :| ValidCode(code) && id == StableUuid(kind, [d.id, c, code]);
        assert |[d.id]| != |[d.id, c, code]|;
        StableUuidInjective("project", [d.id], kind, [d.id, c, code]);
      }
    }
  }

  lemma SortedSequencesDistinct(d: Document)
    requires Consistent(d)
    ensures var ordered := SortBy(SequenceIndex, d.sequences);
      && (forall s | s in ordered :: s in d.sequences)
      && forall i, k | 0 <= i < k < |ordered| :: ordered[i].code != ordered[k].code
  {
    var ss, ordered := d.sequences, SortBy(SequenceIndex, d.sequences);
    SortSorts(SequenceIndex, ss);
    forall i, k | 0 <= i < k < |ss| ensures ss[i] != ss[k] {
      assert SequenceCodes(ss)[i] != SequenceCodes(ss)[k];
    }
    NoDupPermuted(ss, ordered);
    forall s | s in ordered ensures s in ss {
      assert s in multiset(ordered);
    }
    forall i, k | 0 <= i < k < |ordered| ensures ordered[i].code != ordered[k].code {
      assert ordered[i] in ordered && ordered[k] in ordered;
      var m :| 0 <= m < |ss| && ss[m] == ordered[i];
      var n :| 0 <= n < |ss| && ss[n] == ordered[k];
      assert SequenceCodes(ss)[m] != SequenceCodes(ss)[n];
    }
  }

  lemma SequencesApart(d: Document, s: Sequence, t: Sequence)
    requires ValidCode(d.id) && ValidSequence(s) && ValidSequence(t) && s.code != t.code
    ensures Disjoint(SequenceIds(CompileSequence(d, s)), SequenceIds(CompileSequence(d, t)))
  {
    var ids := SequenceIds(CompileSequence(d, t));
    forall id | id in SequenceIds(CompileSequence(d, s)) ensures id !in ids {
      IdsBelong(d, s, id);
      if id in ids {
        IdsBelong(d, t, id);
        BelongsToOne(d, s.code, t.code, id);
      }
    }
  }

  lemma ProjectIdApart(d: Document, id: Uuid)
    requires Accepted(d) && id in Concat(SequenceIds, Compile(d).sequences)
    ensures id != Compile(d).projectId
  {
    InConcat(SequenceIds, Compile(d).sequences, id);
    var s :| s in Compile(d).sequences && id in SequenceIds(s);
    var source := SourceOf(d, s);
    assert ValidSequence(source);
    IdsBelong(d, source, id);
    NotTheProject(d, source.code, id);
  }

  lemma PartsApart(d: Document)
    requires Accepted(d)
    ensures var ss := Compile(d).sequences;
      forall i, k | 0 <= i < k < |ss| :: Disjoint(SequenceIds(ss[i]), SequenceIds(ss[k]))
  {
    var ordered, ss := SortBy(SequenceIndex, d.sequences), Compile(d).sequences;
    SortedSequencesDistinct(d);
    forall i, k | 0 <= i < k < |ss| ensures Disjoint(SequenceIds(ss[i]), SequenceIds(ss[k])) {
      assert ordered[i] in d.sequences && ordered[k] in d.sequences;
      assert ss[i] == CompileSequence(d, ordered[i]) && ss[k] == CompileSequence(d, ordered[k]);
      SequencesApart(d, ordered[i], ordered[k]);
    }
  }

  /** All identifiers in the packet of an accepted blueprint are pairwise distinct. */
  lemma AllIdsDistinct(d: Document)
    requires Accepted(d)
    ensures NoDup(PacketIds(Compile(d)))
  {
    var packet := Compile(d);
    PartsApart(d);
    forall s | s in packet.sequences ensures NoDup(SequenceIds(s)) {
      var source := SourceOf(d, s);
      SequenceIdsDistinct(d, source);
    }
    NoDupParts(SequenceIds, packet.sequences);
    forall id | id in [packet.projectId] ensures id !in Concat(SequenceIds, packet.sequences) {
      if id in Concat(SequenceIds, packet.sequences) {
        ProjectIdApart(d, id);
      }
    }
    NoDupConcat([packet.projectId], Concat(SequenceIds, packet.sequences));
  }
}
