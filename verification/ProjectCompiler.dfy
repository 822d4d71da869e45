/** The checks and the grouping that turn the rows of a project into runtime sequence packets. */
module ProjectCompiler {
  import opened Options
  import opened SequenceLaws

  type Id = string

  datatype SequenceRow = SequenceRow(id: Id, index: int, sequenceType: string, persuasiveGoal: Option<string>)

  /** The descriptive columns of a unit, copied unchanged, are kept as one text. */
  datatype SpuRow = SpuRow(
    id: Id, sequenceId: Option<Id>, code: string, assetRole: string, durationMs: int, body: string)

  datatype VbuRow = VbuRow(id: Id, sequenceId: Option<Id>, code: string, body: string)

  datatype BridgeRow = BridgeRow(
    id: Id, sequenceId: Id, code: string, spuId: Option<Id>, vbuId: Option<Id>, executionOrder: int, body: string)

  /** The rows of one project, as the compiler's queries return them. */
  datatype Project = Project(
    sequences: seq<SequenceRow>, spus: seq<SpuRow>, vbus: seq<VbuRow>, bridges: seq<BridgeRow>)

  function SequenceKeys(p: Project): seq<Id> {
    Map((s: SequenceRow) => s.id, p.sequences)
  }

  function SequenceIndex(s: SequenceRow): int {
    s.index
  }

  function BridgeOrder(b: BridgeRow): int {
    b.executionOrder
  }

  /** What the queries guarantee: primary keys are unique, sequences and bridges come sorted. */
  predicate Queried(p: Project) {
    && NoDup(SequenceKeys(p))
    && Ascending(SequenceIndex, p.sequences)
    && Ascending(BridgeOrder, p.bridges)
  }

  // ----- validation

  datatype Problem =
    | MissingSequences
    | MissingSpus
    | SpuSequenceMissing(code: string)
    | VbuSequenceMissing(code: string)
    | BridgeSequenceMissing(code: string)

  datatype Warning = MissingVbus | MissingBridges

  predicate Assigned(p: Project, sequenceId: Option<Id>) {
    sequenceId.Some? ==> sequenceId.value in SequenceKeys(p)
  }

  ghost predicate HasProblem(p: Project, problem: Problem) {
    match problem
    case MissingSequences => p.sequences == []
    case MissingSpus => p.spus == []
    case SpuSequenceMissing(code) => exists u | u in p.spus :: u.code == code && !Assigned(p, u.sequenceId)
    case VbuSequenceMissing(code) => exists u | u in p.vbus :: u.code == code && !Assigned(p, u.sequenceId)
    case BridgeSequenceMissing(code) => exists b | b in p.bridges :: b.code == code && b.sequenceId !in SequenceKeys(p)
  }

  predicate IsValid(p: Project) {
    && p.sequences != [] && p.spus != []
    && (forall u | u in p.spus :: Assigned(p, u.sequenceId))
    && (forall u | u in p.vbus :: Assigned(p, u.sequenceId))
    && (forall b | b in p.bridges :: b.sequenceId in SequenceKeys(p))
  }

  ghost predicate SpuLost(p: Project, n: nat, code: string)
    requires n <= |p.spus|
  {
    exists k | 0 <= k < n :: p.spus[k].code == code && !Assigned(p, p.spus[k].sequenceId)
  }

  method CheckSpus(p: Project, ids: set<Id>, found: seq<Problem>) returns (errors: seq<Problem>)
    requires ids == set id | id in SequenceKeys(p)
    ensures forall e :: e in errors <==> e in found || (e.SpuSequenceMissing? && HasProblem(p, e))
  {
    errors := found;
    for i := 0 to |p.spus|
      invariant forall e :: e in errors <==> e in found || (e.SpuSequenceMissing? && SpuLost(p, i, e.code))
    {
      var spu := p.spus[i];
      if spu.sequenceId.Some? && spu.sequenceId.value !in ids {
        errors := errors + [SpuSequenceMissing(spu.code)];
      }
    }
  }

  ghost predicate VbuLost(p: Project, n: nat, code: string)
    requires n <= |p.vbus|
  {
    exists k | 0 <= k < n :: p.vbus[k].code == code && !Assigned(p, p.vbus[k].sequenceId)
  }

  method CheckVbus(p: Project, ids: set<Id>, found: seq<Problem>) returns (errors: seq<Problem>)
    requires ids == set id | id in SequenceKeys(p)
    ensures forall e :: e in errors <==> e in found || (e.VbuSequenceMissing? && HasProblem(p, e))
  {
    errors := found;
    for i := 0 to |p.vbus|
      invariant forall e :: e in errors <==> e in found || (e.VbuSequenceMissing? && VbuLost(p, i, e.code))
    {
      var vbu := p.vbus[i];
      if vbu.sequenceId.Some? && vbu.sequenceId.value !in ids {
        errors := errors + [VbuSequenceMissing(vbu.code)];
      }
    }
  }

  ghost predicate BridgeLost(p: Project, n: nat, code: string)
    requires n <= |p.bridges|
  {
    exists k | 0 <= k < n :: p.bridges[k].code == code && p.bridges[k].sequenceId !in SequenceKeys(p)
  }

  method CheckBridges(p: Project, ids: set<Id>, found: seq<Problem>) returns (errors: seq<Problem>)
    requires ids == set id | id in SequenceKeys(p)
    ensures forall e :: e in errors <==> e in found || (e.BridgeSequenceMissing? && HasProblem(p, e))
  {
    errors := found;
    for i := 0 to |p.bridges|
      invariant forall e :: e in errors <==> e in found || (e.BridgeSequenceMissing? && BridgeLost(p, i, e.code))
    {
      var bridge := p.bridges[i];
      if bridge.sequenceId !in ids {
        errors := errors + [BridgeSequenceMissing(bridge.code)];
      }
    }
  }

  /** Reports exactly the problems the project has; it is valid exactly when there is none. */
  method Validate(p: Project) returns (isValid: bool, errors: seq<Problem>, warnings: seq<Warning>)
    ensures forall problem :: problem in errors <==> HasProblem(p, problem)
    ensures isValid <==> IsValid(p)
    ensures (MissingVbus in warnings <==> p.vbus == []) && (MissingBridges in warnings <==> p.bridges == [])
  {
    errors, warnings := [], [];
    if p.sequences == [] {
      errors := errors + [MissingSequences];
    }
    if p.spus == [] {
      errors := errors + [MissingSpus];
    }
    if p.vbus == [] {
      warnings := warnings + [MissingVbus];
    }
    if p.bridges == [] {
      warnings := warnings + [MissingBridges];
    }
    var ids := set id | id in SequenceKeys(p);
    errors := CheckSpus(p, ids, errors);
    errors := CheckVbus(p, ids, errors);
    errors := CheckBridges(p, ids, errors);
    isValid := |errors| == 0;
    ValidMeansNoProblem(p);
    if errors != [] {
      assert errors[0] in errors;
    }
  }

  lemma ValidMeansNoProblem(p: Project)
    ensures IsValid(p) <==> forall problem :: !HasProblem(p, problem)
  {
    if forall problem :: !HasProblem(p, problem) {
      assert !HasProblem(p, MissingSequences) && !HasProblem(p, MissingSpus);
      forall u | u in p.spus ensures Assigned(p, u.sequenceId) {
        assert !HasProblem(p, SpuSequenceMissing(u.code));
      }
      forall u | u in p.vbus ensures Assigned(p, u.sequenceId) {
        assert !HasProblem(p, VbuSequenceMissing(u.code));
      }
      forall b | b in p.bridges ensures b.sequenceId in SequenceKeys(p) {
        assert !HasProblem(p, BridgeSequenceMissing(b.code));
      }
    }
  }

  // ----- grouping

  function Filter<V>(keep: V -> bool, items: seq<V>): seq<V> {
    if items == [] then []
    else Filter(keep, items[..|items| - 1]) + (if keep(items[|items| - 1]) then [items[|items| - 1]] else [])
  }

  lemma FilterStep<V>(keep: V -> bool, items: seq<V>, n: nat)
    requires n < |items|
    ensures Filter(keep, items[..n + 1]) == Filter(keep, items[..n]) + (if keep(items[n]) then [items[n]] else [])
  {
    assert items[..n + 1][..n] == items[..n];
  }

  lemma {:induction false} FilterMembers<V>(keep: V -> bool, items: seq<V>, x: V)
    ensures x in Filter(keep, items) <==> x in items && keep(x)
  {
    if items != [] {
      FilterMembers(keep, items[..|items| - 1], x);
      assert items == items[..|items| - 1] + [items[|items| - 1]];
    }
  }

  lemma {:induction false} FilterKeepsOrder<V>(keep: V -> bool, items: seq<V>, key: V -> int)
    requires Ascending(key, items)
    ensures Ascending(key, Filter(keep, items))
  {
    if items != [] {
      var last := |items| - 1;
      var init := Filter(keep, items[..last]);
      FilterKeepsOrder(keep, items[..last], key);
      forall i | 0 <= i < |init| ensures key(init[i]) <= key(items[last]) {
        FilterMembers(keep, items[..last], init[i]);
        var k :| 0 <= k < last && items[k] == init[i];
      }
    }
  }

  lemma {:induction false} FilterSplits<V>(whole: V -> bool, inner: V -> bool, outer: V -> bool, items: seq<V>)
    requires forall x :: whole(x) <==> inner(x) || outer(x)
    requires forall x :: !(inner(x) && outer(x))
    ensures multiset(Filter(whole, items)) == multiset(Filter(inner, items)) + multiset(Filter(outer, items))
  {
    if items != [] {
      FilterSplits(whole, inner, outer, items[..|items| - 1]);
    }
  }

  /** The items with the given key, in order. */
  function WithKey<K(==), V>(key: V -> K, k: K, items: seq<V>): seq<V> {
    Filter(HasKey(key, k), items)
  }

  function HasKey<K(==), V>(key: V -> K, k: K): V -> bool {
    x => key(x) == k
  }

  function KeyIn<K(==), V>(key: V -> K, keys: seq<K>): V -> bool {
    x => key(x) in keys
  }

  function Groups<K(==), V>(key: V -> K, items: seq<V>): K -> seq<V> {
    k => WithKey(key, k, items)
  }

  /** Appends every item to the list kept under its key. */
  method GroupBy<K(==), V>(key: V -> K, items: seq<V>) returns (groups: map<K, seq<V>>)
    ensures forall k :: (if k in groups then groups[k] else []) == WithKey(key, k, items)
  {
    groups := map[];
    for n := 0 to |items|
      invariant forall k :: (if k in groups then groups[k] else []) == WithKey(key, k, items[..n])
    {
      var k := key(items[n]);
      forall l: K ensures WithKey(key, l, items[..n + 1])
                       == WithKey(key, l, items[..n]) + (if k == l then [items[n]] else []) {
        FilterStep(HasKey(key, l), items, n);
      }
      var group := if k in groups then groups[k] else [];
      groups := groups[k := group + [items[n]]];
    }
    assert items[..|items|] == items;
  }

  // ----- packets

  datatype SequencePacket = SequencePacket(
    sequence: SequenceRow, targetDurationMs: Option<int>, hasVoice: bool,
    spus: seq<SpuRow>, vbus: seq<VbuRow>, bridges: seq<BridgeRow>)

  datatype Packet = Packet(
    visualTrackCount: int, audioTrackCount: int, bridgeCount: int, sequenceCount: int,
    targetTotalDurationMs: int, sequences: seq<SequencePacket>)

  function SpuSequence(u: SpuRow): Option<Id> {
    u.sequenceId
  }

  function VbuSequence(u: VbuRow): Option<Id> {
    u.sequenceId
  }

  function BridgeSequence(b: BridgeRow): Option<Id> {
    Some(b.sequenceId)
  }

  function SpusOf(p: Project, sequenceId: Option<Id>): seq<SpuRow> {
    WithKey(SpuSequence, sequenceId, p.spus)
  }

  function VbusOf(p: Project, sequenceId: Option<Id>): seq<VbuRow> {
    WithKey(VbuSequence, sequenceId, p.vbus)
  }

  function BridgesOf(p: Project, sequenceId: Option<Id>): seq<BridgeRow> {
    WithKey(BridgeSequence, sequenceId, p.bridges)
  }

  /** The duration of the first primary visual, if there is one. */
  function PrimaryDuration(spus: seq<SpuRow>): Option<int> {
    if spus == [] then None
    else if spus[0].assetRole == "primary_visual" then Some(spus[0].durationMs)
    else PrimaryDuration(spus[1..])
  }

  function DurationShare(p: Project, s: SequenceRow): int {
    var duration := PrimaryDuration(SpusOf(p, Some(s.id)));
    if duration.Some? then duration.value else 0
  }

  function PacketOf(p: Project, s: SequenceRow): SequencePacket {
    SequencePacket(s, PrimaryDuration(SpusOf(p, Some(s.id))), VbusOf(p, Some(s.id)) != [],
                   SpusOf(p, Some(s.id)), VbusOf(p, Some(s.id)), BridgesOf(p, Some(s.id)))
  }

  function Packets(p: Project): SequenceRow -> SequencePacket {
    s => PacketOf(p, s)
  }

  function Durations(p: Project): SequenceRow -> int {
    s => DurationShare(p, s)
  }

  method FirstPrimary(spus: seq<SpuRow>) returns (duration: Option<int>)
    ensures duration == PrimaryDuration(spus)
  {
    for i := 0 to |spus|
      invariant PrimaryDuration(spus) == PrimaryDuration(spus[i..])
    {
      if spus[i].assetRole == "primary_visual" {
        return Some(spus[i].durationMs);
      }
    }
    duration := None;
  }

  lemma {:induction false} TotalGrows<T>(f: T -> int, xs: seq<T>, n: nat)
    requires n < |xs|
    ensures Total(f, xs[..n + 1]) == Total(f, xs[..n]) + f(xs[n])
  {
    if n > 0 {
      TotalGrows(f, xs[1..], n - 1);
      assert xs[..n + 1][1..] == xs[1..][..n] && xs[..n][1..] == xs[1..][..n - 1];
    } else {
      assert xs[..1][1..] == [];
    }
  }

  function Group<V>(groups: map<Option<Id>, seq<V>>, id: Id): seq<V> {
    if Some(id) in groups then groups[Some(id)] else []
  }

  /** One round of the loop over the sequences. */
  method CompileSequence(ghost p: Project, s: SequenceRow, spus: seq<SpuRow>, vbus: seq<VbuRow>,
                         bridges: seq<BridgeRow>, totalBefore: int)
    returns (packet: SequencePacket, total: int)
    requires spus == SpusOf(p, Some(s.id)) && vbus == VbusOf(p, Some(s.id)) && bridges == BridgesOf(p, Some(s.id))
    ensures packet == PacketOf(p, s)
    ensures total == totalBefore + DurationShare(p, s)
  {
    var duration := FirstPrimary(spus);
    total := totalBefore;
    if duration.Some? && duration.value != 0 {
      total := total + duration.value;
    }
    packet := SequencePacket(s, duration, vbus != [], spus, vbus, bridges);
  }

  lemma MapGrows<S, T>(f: S -> T, xs: seq<S>, n: nat)
    requires n < |xs|
    ensures Map(f, xs[..n + 1]) == Map(f, xs[..n]) + [f(xs[n])]
  {
  }

  /** Each sequence packet holds the units of its own sequence, in query order; the total duration adds up
      the durations of the first primary visuals; the counts are those of the rows. */
  predicate IsPacketOf(p: Project, packet: Packet) {
    && packet.sequences == PacketsOf(p)
    && packet.targetTotalDurationMs == Total(Durations(p), p.sequences)
    && packet.visualTrackCount == |p.spus| && packet.audioTrackCount == |p.vbus|
    && packet.bridgeCount == |p.bridges| && packet.sequenceCount == |p.sequences|
  }

  method Compile(p: Project) returns (packet: Packet)
    ensures IsPacketOf(p, packet)
  {
    var spusBySequence := GroupBy(SpuSequence, p.spus);
    var vbusBySequence := GroupBy(VbuSequence, p.vbus);
    var bridgesBySequence := GroupBy(BridgeSequence, p.bridges);
    var sequences: seq<SequencePacket> := [];
    var total := 0;
    for n := 0 to |p.sequences|
      invariant sequences == Map(Packets(p), p.sequences[..n])
      invariant total == Total(Durations(p), p.sequences[..n])
    {
      var s := p.sequences[n];
      var next;
      next, total := CompileSequence(p, s, Group(spusBySequence, s.id), Group(vbusBySequence, s.id),
                                     Group(bridgesBySequence, s.id), total);
      TotalGrows(Durations(p), p.sequences, n);
      MapGrows(Packets(p), p.sequences, n);
      sequences := sequences + [next];
    }
    assert p.sequences[..|p.sequences|] == p.sequences;
    packet := Packet(|p.spus|, |p.vbus|, |p.bridges|, |sequences|, total, sequences);
  }

  /** Validation gates compilation. */
  method CompileProject(p: Project) returns (packet: Option<Packet>)
    ensures packet.Some? <==> IsValid(p)
    ensures packet.Some? ==> IsPacketOf(p, packet.value)
  {
    var isValid, errors, warnings := Validate(p);
    if !isValid {
      return None;
    }
    var compiled := Compile(p);
    packet := Some(compiled);
  }

  // ----- conservation

  /** The items whose key is among the given ones. */
  function Keyed<K(==), V>(key: V -> K, keys: seq<K>, items: seq<V>): seq<V> {
    Filter(KeyIn(key, keys), items)
  }

  lemma {:induction false} FilterNone<V>(keep: V -> bool, items: seq<V>)
    requires forall x | x in items :: !keep(x)
    ensures Filter(keep, items) == []
  {
    if items != [] {
      FilterNone(keep, items[..|items| - 1]);
    }
  }

  lemma {:induction false} FilterAll<V>(keep: V -> bool, items: seq<V>)
    requires forall x | x in items :: keep(x)
    ensures Filter(keep, items) == items
  {
    if items != [] {
      FilterAll(keep, items[..|items| - 1]);
      assert items == items[..|items| - 1] + [items[|items| - 1]];
    }
  }

  /** The items with one of the keys are, as a multiset, the groups of these keys together. */
  lemma {:induction false} GroupsPartition<K, V>(key: V -> K, keys: seq<K>, items: seq<V>)
    requires NoDup(keys)
    ensures multiset(Concat(Groups(key, items), keys)) == multiset(Keyed(key, keys, items))
  {
    if keys == [] {
      FilterNone(KeyIn(key, keys), items);
    } else {
      var init, last := keys[..|keys| - 1], keys[|keys| - 1];
      assert keys == init + [last];
      NoDupConcat(init, [last]);
      assert last in [last];
      GroupsPartition(key, init, items);
      FilterSplits(KeyIn(key, keys), KeyIn(key, init), HasKey(key, last), items);
    }
  }

  /** All items are the groups of the keys together with the items that have another key. */
  lemma GroupsCover<K, V>(key: V -> K, keys: seq<K>, spare: K, items: seq<V>)
    requires NoDup(keys) && spare !in keys
    requires forall x | x in items :: key(x) in keys || key(x) == spare
    ensures multiset(items) ==
      multiset(Concat(Groups(key, items), keys)) + multiset(WithKey(key, spare, items))
  {
    GroupsPartition(key, keys, items);
    var whole := keys + [spare];
    FilterAll(KeyIn(key, whole), items);
    FilterSplits(KeyIn(key, whole), KeyIn(key, keys), HasKey(key, spare), items);
  }

  function PacketSpus(s: SequencePacket): seq<SpuRow> {
    s.spus
  }

  function PacketVbus(s: SequencePacket): seq<VbuRow> {
    s.vbus
  }

  function PacketBridges(s: SequencePacket): seq<BridgeRow> {
    s.bridges
  }

  function PacketsOf(p: Project): seq<SequencePacket> {
    Map(Packets(p), p.sequences)
  }

  function GroupKeys(p: Project): seq<Option<Id>> {
    Map((id: Id) => Some(id), SequenceKeys(p))
  }

  lemma {:induction false} ConcatAlike<S, T, U>(f: S -> seq<U>, xs: seq<S>, g: T -> seq<U>, ys: seq<T>)
    requires |xs| == |ys| && forall i | 0 <= i < |xs| :: f(xs[i]) == g(ys[i])
    ensures Concat(f, xs) == Concat(g, ys)
  {
    if xs != [] {
      ConcatAlike(f, xs[..|xs| - 1], g, ys[..|ys| - 1]);
    }
  }

  lemma GroupKeysDistinct(p: Project)
    requires Queried(p)
    ensures NoDup(GroupKeys(p)) && None !in GroupKeys(p)
    ensures forall id :: Some(id) in GroupKeys(p) <==> id in SequenceKeys(p)
  {
  }

  /** In a valid project every unit assigned to a sequence appears in exactly that sequence's packet,
      exactly once, and only the units without a sequence appear in none. */
  lemma UnitsConserved(p: Project)
    requires Queried(p) && IsValid(p)
    ensures multiset(p.spus) == multiset(Concat(PacketSpus, PacketsOf(p))) + multiset(SpusOf(p, None))
    ensures multiset(p.vbus) == multiset(Concat(PacketVbus, PacketsOf(p))) + multiset(VbusOf(p, None))
    ensures multiset(p.bridges) == multiset(Concat(PacketBridges, PacketsOf(p)))
  {
    GroupKeysDistinct(p);
    forall u | u in p.spus ensures SpuSequence(u) in GroupKeys(p) || SpuSequence(u) == None {
      assert Assigned(p, u.sequenceId);
    }
    GroupsCover(SpuSequence, GroupKeys(p), None, p.spus);
    ConcatAlike(PacketSpus, PacketsOf(p), Groups(SpuSequence, p.spus), GroupKeys(p));
    VbusConserved(p);
    BridgesConserved(p);
  }

  lemma VbusConserved(p: Project)
    requires Queried(p) && IsValid(p)
    ensures multiset(p.vbus) == multiset(Concat(PacketVbus, PacketsOf(p))) + multiset(VbusOf(p, None))
  {
    GroupKeysDistinct(p);
    forall u | u in p.vbus ensures VbuSequence(u) in GroupKeys(p) || VbuSequence(u) == None {
      assert Assigned(p, u.sequenceId);
    }
    GroupsCover(VbuSequence, GroupKeys(p), None, p.vbus);
    ConcatAlike(PacketVbus, PacketsOf(p), Groups(VbuSequence, p.vbus), GroupKeys(p));
  }

  lemma BridgesConserved(p: Project)
    requires Queried(p) && IsValid(p)
    ensures multiset(p.bridges) == multiset(Concat(PacketBridges, PacketsOf(p)))
  {
    GroupKeysDistinct(p);
    forall b | b in p.bridges ensures BridgeSequence(b) in GroupKeys(p) {
      assert b.sequenceId in SequenceKeys(p);
    }
    GroupsCover(BridgeSequence, GroupKeys(p), None, p.bridges);
    FilterNone(HasKey(BridgeSequence, None), p.bridges);
    ConcatAlike(PacketBridges, PacketsOf(p), Groups(BridgeSequence, p.bridges), GroupKeys(p));
  }

  /** A packet holds units of its own sequence only, and its bridges in execution order. */
  lemma PacketsAreLocal(p: Project, s: SequenceRow)
    requires Queried(p)
    ensures forall u | u in PacketOf(p, s).spus :: u in p.spus && u.sequenceId == Some(s.id)
    ensures forall u | u in PacketOf(p, s).vbus :: u in p.vbus && u.sequenceId == Some(s.id)
    ensures forall b | b in PacketOf(p, s).bridges :: b in p.bridges && b.sequenceId == s.id
    ensures Ascending(BridgeOrder, PacketOf(p, s).bridges)
  {
    forall u | u in PacketOf(p, s).spus ensures u in p.spus && u.sequenceId == Some(s.id) {
      FilterMembers(HasKey(SpuSequence, Some(s.id)), p.spus, u);
    }
    forall u | u in PacketOf(p, s).vbus ensures u in p.vbus && u.sequenceId == Some(s.id) {
      FilterMembers(HasKey(VbuSequence, Some(s.id)), p.vbus, u);
    }
    forall b | b in PacketOf(p, s).bridges ensures b in p.bridges && b.sequenceId == s.id {
      FilterMembers(HasKey(BridgeSequence, Some(s.id)), p.bridges, b);
    }
    FilterKeepsOrder(HasKey(BridgeSequence, Some(s.id)), p.bridges, BridgeOrder);
  }

  function SizeOf<S, T>(f: S -> seq<T>): S -> int {
    x => |f(x)|
  }

  lemma {:induction false} ConcatSize<S, T>(f: S -> seq<T>, xs: seq<S>)
    ensures |Concat(f, xs)| == Total(SizeOf(f), xs)
  {
    if xs != [] {
      var last := |xs| - 1;
      ConcatSize(f, xs[..last]);
      TotalGrows(SizeOf(f), xs, last);
      assert xs[..last + 1] == xs;
    }
  }

  /** The counts in a compiled packet: one per sequence packet, as many bridges as they hold together, and
      as many tracks as they hold together and the units without a sequence. */
  lemma CountsConserved(p: Project, packet: Packet)
    requires Queried(p) && IsValid(p) && IsPacketOf(p, packet)
    ensures packet.visualTrackCount == Total(SizeOf(PacketSpus), packet.sequences) + |SpusOf(p, None)|
    ensures packet.audioTrackCount == Total(SizeOf(PacketVbus), packet.sequences) + |VbusOf(p, None)|
    ensures packet.bridgeCount == Total(SizeOf(PacketBridges), packet.sequences)
    ensures packet.sequenceCount == |packet.sequences|
  {
    UnitsConserved(p);
    ConcatSize(PacketSpus, PacketsOf(p));
    ConcatSize(PacketVbus, PacketsOf(p));
    ConcatSize(PacketBridges, PacketsOf(p));
    assert |multiset(p.spus)| == |multiset(Concat(PacketSpus, PacketsOf(p)))| + |multiset(SpusOf(p, None))|;
    assert |multiset(p.vbus)| == |multiset(Concat(PacketVbus, PacketsOf(p)))| + |multiset(VbusOf(p, None))|;
    assert |multiset(p.bridges)| == |multiset(Concat(PacketBridges, PacketsOf(p)))|;
  }
}
