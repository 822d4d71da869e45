/** What a compiled packet says, in the words of the document: the order of its lists, the content of each
    entry and the written form of each identifier. */
module BlueprintPacket {
  import opened Options
  import opened SequenceLaws
  import opened Blueprint
  import opened BlueprintCompiler

  // ----- order

  lemma BridgesInOrder(d: Document, s: Sequence)
    ensures var bridges := CompileSequence(d, s).bridges;
      forall i, k | 0 <= i < k < |bridges| :: bridges[i].bridge.executionOrder <= bridges[k].bridge.executionOrder
  {
    SortSorts(BridgeOrder, s.bridges);
    var ordered := SortBy(BridgeOrder, s.bridges);
    assert forall i, k | 0 <= i < k < |ordered| :: ordered[i].executionOrder <= ordered[k].executionOrder;
  }

  /** The packet lists as many sequences as the document, by rising index, and the bridges of each by rising
      execution order. */
  lemma PacketInOrder(d: Document)
    ensures |Compile(d).sequences| == |d.sequences|
    ensures forall i, k | 0 <= i < k < |Compile(d).sequences| ::
      Compile(d).sequences[i].index <= Compile(d).sequences[k].index
    ensures forall compiled | compiled in Compile(d).sequences ::
      forall i, k | 0 <= i < k < |compiled.bridges| ::
        compiled.bridges[i].bridge.executionOrder <= compiled.bridges[k].bridge.executionOrder
  {
    SortSorts(SequenceIndex, d.sequences);
    assert |multiset(SortBy(SequenceIndex, d.sequences))| == |multiset(d.sequences)|;
    forall compiled | compiled in Compile(d).sequences
      ensures forall i, k | 0 <= i < k < |compiled.bridges| ::
        compiled.bridges[i].bridge.executionOrder <= compiled.bridges[k].bridge.executionOrder
    {
      var s := SourceOf(d, compiled);
      BridgesInOrder(d, s);
    }
  }

  /** No two listed sequences of an accepted document share an index, and no two bridges of one a place. */
  lemma PacketInStrictOrder(d: Document)
    requires Consistent(d)
    ensures forall i, k | 0 <= i < k < |Compile(d).sequences| ::
      Compile(d).sequences[i].index < Compile(d).sequences[k].index
    ensures forall compiled | compiled in Compile(d).sequences ::
      forall i, k | 0 <= i < k < |compiled.bridges| ::
        compiled.bridges[i].bridge.executionOrder < compiled.bridges[k].bridge.executionOrder
  {
    PacketInOrder(d);
    IndexesDistinct(d);
    SortKeepsDistinct(SequenceIndex, d.sequences);
    forall compiled | compiled in Compile(d).sequences
      ensures forall i, k | 0 <= i < k < |compiled.bridges| ::
        compiled.bridges[i].bridge.executionOrder < compiled.bridges[k].bridge.executionOrder
    {
      var s := SourceOf(d, compiled);
      assert DistinctOrders(s);
      SortKeepsDistinct(BridgeOrder, s.bridges);
    }
  }

  // ----- content

  /** The head of the packet: the project's identifier, the requested version or else one derived from the
      blueprint's id, and the reason. */
  lemma PacketHead(d: Document)
    ensures Compile(d).projectId == Uuid5("project::" + d.id)
    ensures Compile(d).compileReason == d.compileReason
    ensures forall v :: d.requestedRuntimeVersion == Some(v) && v != "" ==> Compile(d).runtimeVersion == v
    ensures d.requestedRuntimeVersion in {None, Some("")} ==> Compile(d).runtimeVersion == d.id + ".stub"
  {
    JoinTwo("project", d.id);
  }

  lemma JoinTwo(kind: string, a: string)
    ensures Join([kind, a]) == kind + "::" + a
    ensures StableUuid(kind, [a]) == Uuid5(kind + "::" + a)
  {
    assert [kind] + [a] == [kind, a];
    assert [kind, a][1..] == [a];
  }

  lemma JoinThree(kind: string, a: string, b: string)
    ensures StableUuid(kind, [a, b]) == Uuid5(kind + "::" + a + "::" + b)
  {
    assert [kind] + [a, b] == [kind, a, b];
    assert [kind, a, b][1..] == [a, b];
    JoinTwo(a, b);
    assert kind + "::" + (a + "::" + b) == kind + "::" + a + "::" + b;
  }

  lemma JoinFour(kind: string, a: string, b: string, c: string)
    ensures StableUuid(kind, [a, b, c]) == Uuid5(kind + "::" + a + "::" + b + "::" + c)
  {
    assert [kind] + [a, b, c] == [kind, a, b, c];
    assert [kind, a, b, c][1..] == [a, b, c];
    JoinThree(a, b, c);
    assert [a] + [b, c] == [a, b, c];
    assert kind + "::" + (a + "::" + b + "::" + c) == kind + "::" + a + "::" + b + "::" + c;
  }

  /** The compiled sequence has the document's own columns, its units in the listed order and its bridges in
      some order; a voice without a language takes the document's. */
  ghost predicate Carries(d: Document, s: Sequence, compiled: CompiledSequence) {
    && compiled.index == s.index && compiled.sequenceType == s.sequenceType
    && compiled.persuasiveGoal == s.persuasiveGoal
    && |compiled.spus| == |s.spus| && |compiled.vbus| == |s.vbus|
    && (forall i | 0 <= i < |s.spus| ::
          compiled.spus[i].unit == s.spus[i] && compiled.spus[i].sequenceCode == s.code)
    && (forall i | 0 <= i < |s.vbus| ::
          && compiled.vbus[i].unit.(language := s.vbus[i].language) == s.vbus[i]
          && compiled.vbus[i].sequenceCode == s.code
          && (Given(s.vbus[i].language) ==> compiled.vbus[i].unit.language == s.vbus[i].language)
          && (!Given(s.vbus[i].language) ==> compiled.vbus[i].unit.language == Some(d.sourceLanguage)))
    && multiset(Map((b: CompiledBridge) => b.bridge, compiled.bridges)) == multiset(s.bridges)
    && (forall b | b in compiled.bridges :: b.sequenceCode == s.code)
  }

  /** Every identifier is made of the kind, the blueprint, the sequence and the unit it stands for; a bridge
      refers to a unit exactly when its document names one. */
  ghost predicate Named(d: Document, s: Sequence, compiled: CompiledSequence) {
    var place := "::" + d.id + "::" + s.code;
    && compiled.id == Uuid5("sequence" + place)
    && (forall u | u in compiled.spus :: u.id == Uuid5("spu" + place + "::" + u.unit.code))
    && (forall u | u in compiled.vbus :: u.id == Uuid5("vbu" + place + "::" + u.unit.code))
    && (forall b | b in compiled.bridges ::
          && b.id == Uuid5("bridge" + place + "::" + b.bridge.code)
          && (b.spuId.Some? <==> Given(b.bridge.spuCode))
          && (b.vbuId.Some? <==> Given(b.bridge.vbuCode))
          && (b.spuId.Some? ==> b.spuId.value == Uuid5("spu" + place + "::" + b.bridge.spuCode.value))
          && (b.vbuId.Some? ==> b.vbuId.value == Uuid5("vbu" + place + "::" + b.bridge.vbuCode.value)))
  }

  lemma SequenceCarried(d: Document, s: Sequence)
    ensures Carries(d, s, CompileSequence(d, s))
  {
    var compiled := CompileSequence(d, s);
    var ordered := SortBy(BridgeOrder, s.bridges);
    SortSorts(BridgeOrder, s.bridges);
    assert Map((b: CompiledBridge) => b.bridge, compiled.bridges) == ordered;
  }

  lemma Prefixed(kind: string, a: string, b: string, c: string)
    ensures StableUuid(kind, [a, b]) == Uuid5(kind + ("::" + a + "::" + b))
    ensures StableUuid(kind, [a, b, c]) == Uuid5(kind + ("::" + a + "::" + b) + "::" + c)
  {
    JoinThree(kind, a, b);
    JoinFour(kind, a, b, c);
    assert kind + ("::" + a + "::" + b) == kind + "::" + a + "::" + b;
  }

  lemma SequenceNamed(d: Document, s: Sequence)
    ensures Named(d, s, CompileSequence(d, s))
  {
    var compiled := CompileSequence(d, s);
    Prefixed("sequence", d.id, s.code, "");
    forall u | u in compiled.spus ensures u.id == Uuid5("spu" + ("::" + d.id + "::" + s.code) + "::" + u.unit.code) {
      Prefixed("spu", d.id, s.code, u.unit.code);
    }
    forall u | u in compiled.vbus ensures u.id == Uuid5("vbu" + ("::" + d.id + "::" + s.code) + "::" + u.unit.code) {
      Prefixed("vbu", d.id, s.code, u.unit.code);
    }
    forall b | b in compiled.bridges
      ensures b.id == Uuid5("bridge" + ("::" + d.id + "::" + s.code) + "::" + b.bridge.code)
      ensures (b.spuId.Some? <==> Given(b.bridge.spuCode)) && (b.vbuId.Some? <==> Given(b.bridge.vbuCode))
      ensures b.spuId.Some? ==>
        b.spuId.value == Uuid5("spu" + ("::" + d.id + "::" + s.code) + "::" + b.bridge.spuCode.value)
      ensures b.vbuId.Some? ==>
        b.vbuId.value == Uuid5("vbu" + ("::" + d.id + "::" + s.code) + "::" + b.bridge.vbuCode.value)
    {
      var source := SourceBridge(d, s, b);
      Prefixed("bridge", d.id, s.code, source.code);
      if Given(source.spuCode) { Prefixed("spu", d.id, s.code, source.spuCode.value); }
      if Given(source.vbuCode) { Prefixed("vbu", d.id, s.code, source.vbuCode.value); }
    }
  }

  /** Every sequence of the document has its entry in the packet, and the packet has no other entries. */
  lemma ContentIsCarried(d: Document)
    ensures forall s | s in d.sequences ::
      exists compiled | compiled in Compile(d).sequences :: Carries(d, s, compiled) && Named(d, s, compiled)
    ensures forall compiled | compiled in Compile(d).sequences ::
      exists s | s in d.sequences :: Carries(d, s, compiled) && Named(d, s, compiled)
  {
    forall s | s in d.sequences
      ensures exists compiled | compiled in Compile(d).sequences :: Carries(d, s, compiled) && Named(d, s, compiled)
    {
      CompiledIn(d, s);
      SequenceCarried(d, s);
      SequenceNamed(d, s);
    }
    forall compiled | compiled in Compile(d).sequences
      ensures exists s | s in d.sequences :: Carries(d, s, compiled) && Named(d, s, compiled)
    {
      var s := SourceOf(d, compiled);
      SequenceCarried(d, s);
      SequenceNamed(d, s);
    }
  }

  lemma CompiledIn(d: Document, s: Sequence)
    requires s in d.sequences
    ensures CompileSequence(d, s) in Compile(d).sequences
  {
    var ordered := SortBy(SequenceIndex, d.sequences);
    SortSorts(SequenceIndex, d.sequences);
    assert s in multiset(ordered);
    var i :| 0 <= i < |ordered| && ordered[i] == s;
    assert Compile(d).sequences[i] == CompileSequence(d, s);
  }

  lemma SpuPointer(d: Document, s: Sequence, source: Bridge, u: Spu)
    requires ValidCode(d.id) && ValidSequence(s) && ValidBridge(source) && u in s.spus
    ensures CompileBridge(d, s, source).spuId == Some(SpuId(d, s, u.code)) <==> source.spuCode == Some(u.code)
  {
    if Given(source.spuCode) && source.spuCode.value != u.code {
      UnitIdsDiffer(d, s, "spu", source.spuCode.value, u.code);
    }
  }

  lemma VbuPointer(d: Document, s: Sequence, source: Bridge, u: Vbu)
    requires ValidCode(d.id) && ValidSequence(s) && ValidBridge(source) && u in s.vbus
    ensures CompileBridge(d, s, source).vbuId == Some(VbuId(d, s, u.code)) <==> source.vbuCode == Some(u.code)
  {
    if Given(source.vbuCode) && source.vbuCode.value != u.code {
      UnitIdsDiffer(d, s, "vbu", source.vbuCode.value, u.code);
    }
  }

  /** In an accepted document a bridge refers to precisely the units whose codes it names: the identifier it
      carries is that of the unit with the code, and of no other. */
  lemma BridgesPointAtTheirUnits(d: Document, compiled: CompiledSequence, b: CompiledBridge)
    requires Accepted(d) && compiled in Compile(d).sequences && b in compiled.bridges
    ensures forall u | u in compiled.spus :: b.spuId == Some(u.id) <==> b.bridge.spuCode == Some(u.unit.code)
    ensures forall u | u in compiled.vbus :: b.vbuId == Some(u.id) <==> b.bridge.vbuCode == Some(u.unit.code)
  {
    var s := SourceOf(d, compiled);
    var source := SourceBridge(d, s, b);
    assert ValidSequence(s) && ValidBridge(source);
    forall u | u in compiled.spus ensures b.spuId == Some(u.id) <==> b.bridge.spuCode == Some(u.unit.code) {
      SpuPointer(d, s, source, u.unit);
    }
    forall u | u in compiled.vbus ensures b.vbuId == Some(u.id) <==> b.bridge.vbuCode == Some(u.unit.code) {
      var i :| 0 <= i < |compiled.vbus| && compiled.vbus[i] == u;
      VbuPointer(d, s, source, s.vbus[i]);
    }
  }
}
