/** Blueprint documents and their one-pass consistency check. */
module Blueprint {
  import opened Options
  import opened SequenceLaws

  datatype Json =
    | Null
    | Number(number: int)
    | Text(text: string)
    | List(items: seq<Json>)
    | Object(members: map<string, Json>)

  datatype Spu = Spu(
    code: string, displayName: string, assetRole: string, durationMs: int, generationMode: string,
    promptText: Option<string>, negativePromptText: Option<string>, visualConstraints: Json,
    status: string, referenceMapping: Json)

  datatype Vbu = Vbu(
    code: string, persuasiveRole: string, scriptText: string, voiceProfile: Option<string>,
    language: Option<string>, durationMs: Option<int>, ttsParams: Json,
    status: string, referenceMapping: Json)

  datatype Bridge = Bridge(
    code: string, bridgeType: string, executionOrder: int, spuCode: Option<string>, vbuCode: Option<string>,
    transitionPolicy: Json, status: string)

  datatype Sequence = Sequence(
    code: string, index: int, sequenceType: string, persuasiveGoal: Option<string>,
    spus: seq<Spu>, vbus: seq<Vbu>, bridges: seq<Bridge>)

  datatype Beat = Beat(code: string, sequenceCode: string, body: Json)

  datatype Document = Document(
    id: string,
    version: string,
    sourceLanguage: string,
    requestedRuntimeVersion: Option<string>,
    compileReason: string,
    compileOptions: map<string, Json>,
    aspectRatio: string,
    styleTags: Json,
    bannedElements: Json,
    targetDurationMs: Json,
    beats: seq<Beat>,
    reference: Json,
    sequences: seq<Sequence>)

  // ----- field constraints

  predicate CodeHead(c: char) {
    'a' <= c <= 'z' || '0' <= c <= '9'
  }

  predicate CodeTail(c: char) {
    CodeHead(c) || c == '.' || c == '_' || c == '-'
  }

  /** The code pattern: a letter or digit, then one to sixty-three code characters. */
  predicate ValidCode(code: string) {
    2 <= |code| <= 64 && CodeHead(code[0]) && forall i | 1 <= i < |code| :: CodeTail(code[i])
  }

  predicate ValidBridge(b: Bridge) {
    && ValidCode(b.code)
    && b.executionOrder >= 0
    && (b.spuCode.Some? ==> ValidCode(b.spuCode.value))
    && (b.vbuCode.Some? ==> ValidCode(b.vbuCode.value))
    && (Given(b.spuCode) || Given(b.vbuCode))
  }

  predicate ValidSequence(s: Sequence) {
    && ValidCode(s.code)
    && s.index >= 0
    && (forall u | u in s.spus :: ValidCode(u.code) && u.durationMs > 0)
    && (forall u | u in s.vbus :: ValidCode(u.code))
    && (forall b | b in s.bridges :: ValidBridge(b))
  }

  predicate ValidFields(d: Document) {
    && ValidCode(d.id) && |d.id| >= 3
    && d.sequences != []
    && (forall s | s in d.sequences :: ValidSequence(s))
    && (forall b | b in d.beats :: ValidCode(b.code) && ValidCode(b.sequenceCode))
  }

  // ----- consistency, stated over the whole document

  function SpuCodes(s: Sequence): seq<string> {
    Map((u: Spu) => u.code, s.spus)
  }

  function VbuCodes(s: Sequence): seq<string> {
    Map((u: Vbu) => u.code, s.vbus)
  }

  function BridgeCodes(s: Sequence): seq<string> {
    Map((b: Bridge) => b.code, s.bridges)
  }

  function BridgeOrders(s: Sequence): seq<int> {
    Map((b: Bridge) => b.executionOrder, s.bridges)
  }

  function SequenceCodes(ss: seq<Sequence>): seq<string> {
    Map((s: Sequence) => s.code, ss)
  }

  function SequenceIndexes(ss: seq<Sequence>): seq<int> {
    Map((s: Sequence) => s.index, ss)
  }

  function BeatCodes(beats: seq<Beat>): seq<string> {
    Map((b: Beat) => b.code, beats)
  }

  predicate BoundLocally(b: Bridge, s: Sequence) {
    && (Given(b.spuCode) ==> b.spuCode.value in SpuCodes(s))
    && (Given(b.vbuCode) ==> b.vbuCode.value in VbuCodes(s))
  }

  predicate LocallyConsistent(s: Sequence) {
    && (s.spus != [] || s.vbus != [])
    && NoDup(BridgeOrders(s))
    && forall b | b in s.bridges :: BoundLocally(b, s)
  }

  /** Codes are unique over the document, sequences are not empty and bind their bridges locally,
      and reference beats are unique and name existing sequences. */
  predicate Consistent(d: Document) {
    && NoDup(SequenceCodes(d.sequences))
    && NoDup(SequenceIndexes(d.sequences))
    && NoDup(Concat(SpuCodes, d.sequences))
    && NoDup(Concat(VbuCodes, d.sequences))
    && NoDup(Concat(BridgeCodes, d.sequences))
    && (forall s | s in d.sequences :: LocallyConsistent(s))
    && Concat(SpuCodes, d.sequences) != []
    && NoDup(BeatCodes(d.beats))
    && (forall b | b in d.beats :: b.sequenceCode in SequenceCodes(d.sequences))
  }

  /** A document the schema accepts. */
  predicate Accepted(d: Document) {
    ValidFields(d) && Consistent(d)
  }

  // ----- the one-pass check

  datatype Defect =
    | DuplicateSequenceCode(code: string)
    | DuplicateSequenceIndex(index: int)
    | EmptySequence(code: string)
    | DuplicateLocalSpu(sequenceCode: string)
    | DuplicateLocalVbu(sequenceCode: string)
    | DuplicateSpu(code: string)
    | DuplicateVbu(code: string)
    | DuplicateBridge(code: string)
    | DuplicateBridgeOrder(sequenceCode: string, order: int)
    | BridgeSpuMissing(code: string, spuCode: string)
    | BridgeVbuMissing(code: string, vbuCode: string)
    | NoSpu
    | DuplicateBeat(code: string)
    | BeatSequenceMissing(code: string, sequenceCode: string)

  /** What a reported defect says about the document. */
  ghost predicate Present(d: Document, defect: Defect) {
    match defect
    case DuplicateSequenceCode(code) => Twice(SequenceCodes(d.sequences), code)
    case DuplicateSequenceIndex(index) => Twice(SequenceIndexes(d.sequences), index)
    case EmptySequence(code) => exists s | s in d.sequences :: s.code == code && s.spus == [] && s.vbus == []
    case DuplicateLocalSpu(code) => exists s | s in d.sequences :: s.code == code && !NoDup(SpuCodes(s))
    case DuplicateLocalVbu(code) => exists s | s in d.sequences :: s.code == code && !NoDup(VbuCodes(s))
    case DuplicateSpu(code) => Twice(Concat(SpuCodes, d.sequences), code)
    case DuplicateVbu(code) => Twice(Concat(VbuCodes, d.sequences), code)
    case DuplicateBridge(code) => Twice(Concat(BridgeCodes, d.sequences), code)
    case DuplicateBridgeOrder(code, order) =>
      exists s | s in d.sequences :: s.code == code && Twice(BridgeOrders(s), order)
    case BridgeSpuMissing(code, spuCode) =>
      exists s, b | s in d.sequences && b in s.bridges ::
        b.code == code && b.spuCode == Some(spuCode) && spuCode != "" && spuCode !in SpuCodes(s)
    case BridgeVbuMissing(code, vbuCode) =>
      exists s, b | s in d.sequences && b in s.bridges ::
        b.code == code && b.vbuCode == Some(vbuCode) && vbuCode != "" && vbuCode !in VbuCodes(s)
    case NoSpu => forall s | s in d.sequences :: s.spus == []
    case DuplicateBeat(code) => Twice(BeatCodes(d.beats), code)
    case BeatSequenceMissing(code, sequenceCode) =>
      exists b | b in d.beats ::
        b.code == code && b.sequenceCode == sequenceCode && sequenceCode !in SequenceCodes(d.sequences)
  }

  function Elements<T>(xs: seq<T>): set<T> {
    set x | x in xs
  }

  lemma {:induction false} FewElementsMeanTwins<T>(xs: seq<T>)
    ensures |Elements(xs)| <= |xs|
    ensures |Elements(xs)| == |xs| <==> NoDup(xs)
  {
    if xs != [] {
      var last := |xs| - 1;
      var init := xs[..last];
      FewElementsMeanTwins(init);
      assert xs == init + [xs[last]];
      NoDupConcat(init, [xs[last]]);
      if xs[last] in init {
        assert Elements(xs) == Elements(init);
        assert xs[last] in [xs[last]];
        assert !Disjoint(init, [xs[last]]);
      } else {
        assert Elements(xs) == Elements(init) + {xs[last]};
        assert Disjoint(init, [xs[last]]);
      }
    }
  }

  lemma SeenAgain<T>(xs: seq<T>, x: T)
    requires x in xs
    ensures Twice(xs + [x], x) && !NoDup(xs + [x])
  {
    var i :| 0 <= i < |xs| && xs[i] == x;
    assert (xs + [x])[i] == x && (xs + [x])[|xs|] == x;
  }

  lemma NewElement<T>(xs: seq<T>, x: T)
    requires NoDup(xs) && x !in xs
    ensures NoDup(xs + [x])
  {
  }

  lemma TwinsInPrefix<T>(xs: seq<T>, ys: seq<T>)
    requires xs <= ys && !NoDup(xs)
    ensures !NoDup(ys)
  {
  }

  /** Adds the codes of one sequence to the codes known so far, up to the first clash. */
  method AddCodes(codes: seq<string>, ghost before: seq<string>, known: set<string>)
    returns (clash: Option<string>, all: set<string>)
    requires known == Elements(before) && NoDup(before)
    ensures clash.None? <==> NoDup(before + codes)
    ensures clash.None? ==> all == Elements(before + codes)
    ensures clash.Some? ==> Twice(before + codes, clash.value)
  {
    all := known;
    for i := 0 to |codes|
      invariant all == Elements(before + codes[..i]) && NoDup(before + codes[..i])
    {
      assert before + codes[..i + 1] == before + codes[..i] + [codes[i]];
      assert before + codes[..i + 1] <= before + codes;
      if codes[i] in all {
        SeenAgain(before + codes[..i], codes[i]);
        TwiceInPrefix(before + codes[..i + 1], before + codes, codes[i]);
        TwinsInPrefix(before + codes[..i + 1], before + codes);
        return Some(codes[i]), all;
      }
      NewElement(before + codes[..i], codes[i]);
      all := all + {codes[i]};
    }
    assert codes[..|codes|] == codes;
    clash := None;
  }

  /** The bridges of one sequence: codes new to the document, orders new to the sequence, targets
      inside the sequence. */
  ghost predicate BridgesFine(s: Sequence, before: seq<string>, n: nat)
    requires n <= |s.bridges|
  {
    && NoDup(before + BridgeCodes(s)[..n])
    && NoDup(BridgeOrders(s)[..n])
    && forall b | b in s.bridges[..n] :: BoundLocally(b, s)
  }

  ghost predicate BridgeDefect(s: Sequence, before: seq<string>, defect: Defect) {
    match defect
    case DuplicateBridge(code) => Twice(before + BridgeCodes(s), code)
    case DuplicateBridgeOrder(code, order) => code == s.code && Twice(BridgeOrders(s), order)
    case BridgeSpuMissing(code, spuCode) =>
      exists b | b in s.bridges ::
        b.code == code && b.spuCode == Some(spuCode) && spuCode != "" && spuCode !in SpuCodes(s)
    case BridgeVbuMissing(code, vbuCode) =>
      exists b | b in s.bridges ::
        b.code == code && b.vbuCode == Some(vbuCode) && vbuCode != "" && vbuCode !in VbuCodes(s)
    case _ => false
  }

  lemma BridgeCodeClashes(s: Sequence, before: seq<string>, i: nat)
    requires i < |s.bridges| && s.bridges[i].code in before + BridgeCodes(s)[..i]
    ensures Twice(before + BridgeCodes(s), s.bridges[i].code) && !BridgesFine(s, before, |s.bridges|)
  {
    var codes := BridgeCodes(s);
    assert before + codes[..i + 1] == before + codes[..i] + [codes[i]] && before + codes[..i + 1] <= before + codes;
    assert codes[..|s.bridges|] == codes;
    SeenAgain(before + codes[..i], codes[i]);
    TwiceInPrefix(before + codes[..i + 1], before + codes, codes[i]);
    TwinsInPrefix(before + codes[..i + 1], before + codes);
  }

  lemma BridgeOrderClashes(s: Sequence, before: seq<string>, i: nat)
    requires i < |s.bridges| && s.bridges[i].executionOrder in BridgeOrders(s)[..i]
    ensures Twice(BridgeOrders(s), s.bridges[i].executionOrder) && !BridgesFine(s, before, |s.bridges|)
  {
    var orders := BridgeOrders(s);
    SeenAgainInPrefix(orders, i);
    assert orders[..|s.bridges|] == orders;
  }

  lemma BridgeUnbound(s: Sequence, before: seq<string>, i: nat)
    requires i < |s.bridges| && !BoundLocally(s.bridges[i], s)
    ensures !BridgesFine(s, before, |s.bridges|)
  {
    assert s.bridges[i] in s.bridges[..|s.bridges|];
  }

  lemma BridgesGrow(s: Sequence, before: seq<string>, i: nat)
    requires i < |s.bridges| && BridgesFine(s, before, i)
    requires s.bridges[i].code !in before + BridgeCodes(s)[..i]
    requires s.bridges[i].executionOrder !in BridgeOrders(s)[..i]
    requires BoundLocally(s.bridges[i], s)
    ensures BridgesFine(s, before, i + 1)
    ensures Elements(before + BridgeCodes(s)[..i + 1]) == Elements(before + BridgeCodes(s)[..i]) + {s.bridges[i].code}
    ensures Elements(BridgeOrders(s)[..i + 1]) == Elements(BridgeOrders(s)[..i]) + {s.bridges[i].executionOrder}
  {
    var codes, orders := BridgeCodes(s), BridgeOrders(s);
    assert before + codes[..i + 1] == before + codes[..i] + [codes[i]];
    NewElement(before + codes[..i], codes[i]);
    ExtendPrefix(orders, i);
    assert s.bridges[..i + 1] == s.bridges[..i] + [s.bridges[i]];
  }

  method CheckBridges(s: Sequence, localSpus: set<string>, localVbus: set<string>,
                      ghost before: seq<string>, known: set<string>)
    returns (defect: Option<Defect>, all: set<string>)
    requires localSpus == Elements(SpuCodes(s)) && localVbus == Elements(VbuCodes(s))
    requires known == Elements(before) && NoDup(before)
    ensures defect.None? <==> BridgesFine(s, before, |s.bridges|)
    ensures defect.None? ==> all == Elements(before + BridgeCodes(s))
    ensures defect.Some? ==> BridgeDefect(s, before, defect.value)
  {
    all := known;
    var orders: set<int> := {};
    ghost var codes := BridgeCodes(s);
    assert before + codes[..0] == before;
    for i := 0 to |s.bridges|
      invariant BridgesFine(s, before, i)
      invariant all == Elements(before + codes[..i]) && orders == Elements(BridgeOrders(s)[..i])
    {
      var b := s.bridges[i];
      if b.code in all {
        BridgeCodeClashes(s, before, i);
        return Some(DuplicateBridge(b.code)), all;
      }
      all := all + {b.code};
      if b.executionOrder in orders {
        BridgeOrderClashes(s, before, i);
        return Some(DuplicateBridgeOrder(s.code, b.executionOrder)), all;
      }
      orders := orders + {b.executionOrder};
      if Given(b.spuCode) && b.spuCode.value !in localSpus {
        BridgeUnbound(s, before, i);
        return Some(BridgeSpuMissing(b.code, b.spuCode.value)), all;
      }
      if Given(b.vbuCode) && b.vbuCode.value !in localVbus {
        BridgeUnbound(s, before, i);
        return Some(BridgeVbuMissing(b.code, b.vbuCode.value)), all;
      }
      BridgesGrow(s, before, i);
    }
    assert codes[..|s.bridges|] == codes;
    defect := None;
  }

  /** The part of the consistency condition the main loop has established after n sequences. */
  ghost predicate PrefixFine(d: Document, n: nat)
    requires n <= |d.sequences|
  {
    && NoDup(SequenceCodes(d.sequences)[..n])
    && NoDup(SequenceIndexes(d.sequences)[..n])
    && NoDup(Concat(SpuCodes, d.sequences[..n]))
    && NoDup(Concat(VbuCodes, d.sequences[..n]))
    && NoDup(Concat(BridgeCodes, d.sequences[..n]))
    && forall i | 0 <= i < n :: LocallyConsistent(d.sequences[i])
  }

  lemma SeenAgainInPrefix<T>(xs: seq<T>, n: nat)
    requires n < |xs| && xs[n] in xs[..n]
    ensures Twice(xs, xs[n])
  {
  }

  /** A clash inside the first n + 1 parts is a clash in the whole. */
  lemma ClashInPart(f: Sequence -> seq<string>, ss: seq<Sequence>, n: nat, code: string)
    requires n < |ss| && Twice(Concat(f, ss[..n]) + f(ss[n]), code)
    ensures Twice(Concat(f, ss), code)
  {
    ConcatGrows(f, ss, n);
    TwiceInPrefix(Concat(f, ss[..n + 1]), Concat(f, ss), code);
  }

  lemma BridgeDefectPresent(d: Document, n: nat, defect: Defect)
    requires n < |d.sequences|
    requires BridgeDefect(d.sequences[n], Concat(BridgeCodes, d.sequences[..n]), defect)
    ensures Present(d, defect)
  {
    assert d.sequences[n] in d.sequences;
    if defect.DuplicateBridge? {
      ClashInPart(BridgeCodes, d.sequences, n, defect.code);
    }
  }

  lemma TwinsInPart(f: Sequence -> seq<string>, ss: seq<Sequence>, s: Sequence)
    requires s in ss && !NoDup(f(s))
    ensures !NoDup(Concat(f, ss))
  {
    var n :| 0 <= n < |ss| && ss[n] == s;
    ConcatGrows(f, ss, n);
    NoDupConcat(Concat(f, ss[..n]), f(s));
    TwinsInPrefix(Concat(f, ss[..n + 1]), Concat(f, ss));
  }

  /** Every defect that is present contradicts the consistency condition. */
  lemma DefectRefutes(d: Document, defect: Defect)
    requires Present(d, defect)
    ensures !Consistent(d)
  {
    match defect
    case DuplicateLocalSpu(code) =>
      var s :| s in d.sequences && s.code == code && !NoDup(SpuCodes(s));
      TwinsInPart(SpuCodes, d.sequences, s);
    case DuplicateLocalVbu(code) =>
      var s :| s in d.sequences && s.code == code && !NoDup(VbuCodes(s));
      TwinsInPart(VbuCodes, d.sequences, s);
    case DuplicateBridgeOrder(code, order) =>
      var s :| s in d.sequences && s.code == code && Twice(BridgeOrders(s), order);
      assert !LocallyConsistent(s);
    case BridgeSpuMissing(code, spuCode) =>
      var s, b :| s in d.sequences && b in s.bridges
        && b.code == code && b.spuCode == Some(spuCode) && spuCode != "" && spuCode !in SpuCodes(s);
      assert !BoundLocally(b, s);
    case BridgeVbuMissing(code, vbuCode) =>
      var s, b :| s in d.sequences && b in s.bridges
        && b.code == code && b.vbuCode == Some(vbuCode) && vbuCode != "" && vbuCode !in VbuCodes(s);
      assert !BoundLocally(b, s);
    case NoSpu =>
      if Concat(SpuCodes, d.sequences) != [] {
        InConcat(SpuCodes, d.sequences, Concat(SpuCodes, d.sequences)[0]);
      }
    case _ =>
  }

  method CheckBeats(d: Document, sequenceCodes: set<string>) returns (defect: Option<Defect>)
    requires sequenceCodes == Elements(SequenceCodes(d.sequences))
    ensures defect.None? ==>
      NoDup(BeatCodes(d.beats)) && forall b | b in d.beats :: b.sequenceCode in SequenceCodes(d.sequences)
    ensures defect.Some? ==> Present(d, defect.value)
  {
    var beatCodes: set<string> := {};
    ghost var codes := BeatCodes(d.beats);
    for i := 0 to |d.beats|
      invariant beatCodes == Elements(codes[..i]) && NoDup(codes[..i])
      invariant forall k | 0 <= k < i :: d.beats[k].sequenceCode in SequenceCodes(d.sequences)
    {
      var beat := d.beats[i];
      if beat.code in beatCodes {
        SeenAgainInPrefix(codes, i);
        return Some(DuplicateBeat(beat.code));
      }
      NewElement(codes[..i], beat.code);
      assert codes[..i + 1] == codes[..i] + [beat.code];
      beatCodes := beatCodes + {beat.code};
      if beat.sequenceCode !in sequenceCodes {
        return Some(BeatSequenceMissing(beat.code, beat.sequenceCode));
      }
    }
    assert codes[..|d.beats|] == codes;
    defect := None;
  }

  /** The checks of one sequence that look at that sequence alone. */
  method CheckShape(s: Sequence) returns (defect: Option<Defect>)
    ensures defect.None? <==> (s.spus != [] || s.vbus != []) && NoDup(SpuCodes(s)) && NoDup(VbuCodes(s))
    ensures defect == Some(EmptySequence(s.code)) ==> s.spus == [] && s.vbus == []
    ensures defect == Some(DuplicateLocalSpu(s.code)) ==> !NoDup(SpuCodes(s))
    ensures defect == Some(DuplicateLocalVbu(s.code)) ==> !NoDup(VbuCodes(s))
    ensures defect.Some? ==>
      defect.value in {EmptySequence(s.code), DuplicateLocalSpu(s.code), DuplicateLocalVbu(s.code)}
  {
    if s.spus == [] && s.vbus == [] {
      return Some(EmptySequence(s.code));
    }
    FewElementsMeanTwins(SpuCodes(s));
    FewElementsMeanTwins(VbuCodes(s));
    if |Elements(SpuCodes(s))| != |s.spus| {
      return Some(DuplicateLocalSpu(s.code));
    }
    if |Elements(VbuCodes(s))| != |s.vbus| {
      return Some(DuplicateLocalVbu(s.code));
    }
    defect := None;
  }

  lemma ShapeDefectPresent(d: Document, n: nat, defect: Defect)
    requires n < |d.sequences|
    requires var s := d.sequences[n];
      || (defect == EmptySequence(s.code) && s.spus == [] && s.vbus == [])
      || (defect == DuplicateLocalSpu(s.code) && !NoDup(SpuCodes(s)))
      || (defect == DuplicateLocalVbu(s.code) && !NoDup(VbuCodes(s)))
    ensures Present(d, defect)
  {
  }

  /** The codes the main loop knows after n sequences. */
  datatype Known = Known(sequenceCodes: set<string>, sequenceIndexes: set<int>,
                         spuCodes: set<string>, vbuCodes: set<string>, bridgeCodes: set<string>, totalSpus: nat)

  ghost predicate Tracks(d: Document, n: nat, known: Known)
    requires n <= |d.sequences|
  {
    && known.sequenceCodes == Elements(SequenceCodes(d.sequences)[..n])
    && known.sequenceIndexes == Elements(SequenceIndexes(d.sequences)[..n])
    && known.spuCodes == Elements(Concat(SpuCodes, d.sequences[..n]))
    && known.vbuCodes == Elements(Concat(VbuCodes, d.sequences[..n]))
    && known.bridgeCodes == Elements(Concat(BridgeCodes, d.sequences[..n]))
    && known.totalSpus == |Concat(SpuCodes, d.sequences[..n])|
  }

  lemma ExtendPrefix<T>(xs: seq<T>, n: nat)
    requires n < |xs| && NoDup(xs[..n]) && xs[n] !in xs[..n]
    ensures NoDup(xs[..n + 1]) && Elements(xs[..n + 1]) == Elements(xs[..n]) + {xs[n]}
  {
  }

  lemma BridgesFineIsLocal(s: Sequence, before: seq<string>)
    requires BridgesFine(s, before, |s.bridges|) && (s.spus != [] || s.vbus != [])
    ensures LocallyConsistent(s) && NoDup(before + BridgeCodes(s))
  {
    assert s.bridges[..|s.bridges|] == s.bridges;
    assert BridgeOrders(s)[..|s.bridges|] == BridgeOrders(s) && BridgeCodes(s)[..|s.bridges|] == BridgeCodes(s);
  }

  /** The next sequence extends the fine prefix. */
  lemma PrefixGrows(d: Document, n: nat)
    requires n < |d.sequences| && PrefixFine(d, n)
    requires d.sequences[n].code !in SequenceCodes(d.sequences)[..n]
    requires d.sequences[n].index !in SequenceIndexes(d.sequences)[..n]
    requires NoDup(Concat(SpuCodes, d.sequences[..n]) + SpuCodes(d.sequences[n]))
    requires NoDup(Concat(VbuCodes, d.sequences[..n]) + VbuCodes(d.sequences[n]))
    requires NoDup(Concat(BridgeCodes, d.sequences[..n]) + BridgeCodes(d.sequences[n]))
    requires LocallyConsistent(d.sequences[n])
    ensures PrefixFine(d, n + 1)
  {
    ExtendPrefix(SequenceCodes(d.sequences), n);
    ExtendPrefix(SequenceIndexes(d.sequences), n);
    ConcatGrows(SpuCodes, d.sequences, n);
    ConcatGrows(VbuCodes, d.sequences, n);
    ConcatGrows(BridgeCodes, d.sequences, n);
  }

  /** The codes known after the next sequence. */
  lemma KnownGrows(d: Document, n: nat, known: Known, known': Known)
    requires n < |d.sequences| && Tracks(d, n, known)
    requires known'.sequenceCodes == known.sequenceCodes + {d.sequences[n].code}
    requires known'.sequenceIndexes == known.sequenceIndexes + {d.sequences[n].index}
    requires known'.spuCodes == Elements(Concat(SpuCodes, d.sequences[..n]) + SpuCodes(d.sequences[n]))
    requires known'.vbuCodes == Elements(Concat(VbuCodes, d.sequences[..n]) + VbuCodes(d.sequences[n]))
    requires known'.bridgeCodes == Elements(Concat(BridgeCodes, d.sequences[..n]) + BridgeCodes(d.sequences[n]))
    requires known'.totalSpus == known.totalSpus + |d.sequences[n].spus|
    ensures Tracks(d, n + 1, known')
  {
    var codes, indexes := SequenceCodes(d.sequences), SequenceIndexes(d.sequences);
    assert codes[..n + 1] == codes[..n] + [codes[n]] && indexes[..n + 1] == indexes[..n] + [indexes[n]];
    ConcatGrows(SpuCodes, d.sequences, n);
    ConcatGrows(VbuCodes, d.sequences, n);
    ConcatGrows(BridgeCodes, d.sequences, n);
  }

  /** The inner loops of one round: the codes of the sequence against those of its predecessors. */
  method CheckUnits(d: Document, n: nat, known: Known)
    returns (defect: Option<Defect>, spuCodes: set<string>, vbuCodes: set<string>, bridgeCodes: set<string>)
    requires n < |d.sequences| && PrefixFine(d, n) && Tracks(d, n, known)
    ensures var s := d.sequences[n];
      && (defect.Some? ==> Present(d, defect.value))
      && (defect.None? ==>
            && NoDup(Concat(SpuCodes, d.sequences[..n]) + SpuCodes(s))
            && NoDup(Concat(VbuCodes, d.sequences[..n]) + VbuCodes(s))
            && BridgesFine(s, Concat(BridgeCodes, d.sequences[..n]), |s.bridges|)
            && spuCodes == Elements(Concat(SpuCodes, d.sequences[..n]) + SpuCodes(s))
            && vbuCodes == Elements(Concat(VbuCodes, d.sequences[..n]) + VbuCodes(s))
            && bridgeCodes == Elements(Concat(BridgeCodes, d.sequences[..n]) + BridgeCodes(s)))
  {
    var s := d.sequences[n];
    vbuCodes, bridgeCodes := {}, {};
    var clash;
    clash, spuCodes := AddCodes(SpuCodes(s), Concat(SpuCodes, d.sequences[..n]), known.spuCodes);
    if clash.Some? {
      ClashInPart(SpuCodes, d.sequences, n, clash.value);
      defect := Some(DuplicateSpu(clash.value));
      return;
    }
    clash, vbuCodes := AddCodes(VbuCodes(s), Concat(VbuCodes, d.sequences[..n]), known.vbuCodes);
    if clash.Some? {
      ClashInPart(VbuCodes, d.sequences, n, clash.value);
      defect := Some(DuplicateVbu(clash.value));
      return;
    }
    defect, bridgeCodes := CheckBridges(s, Elements(SpuCodes(s)), Elements(VbuCodes(s)),
                                        Concat(BridgeCodes, d.sequences[..n]), known.bridgeCodes);
    if defect.Some? {
      BridgeDefectPresent(d, n, defect.value);
    }
  }

  /** One round of the main loop. */
  method CheckSequence(d: Document, n: nat, known: Known) returns (defect: Option<Defect>, known': Known)
    requires n < |d.sequences| && PrefixFine(d, n) && Tracks(d, n, known)
    ensures defect.None? ==> PrefixFine(d, n + 1) && Tracks(d, n + 1, known')
    ensures defect.Some? ==> Present(d, defect.value)
  {
    var s := d.sequences[n];
    known' := known;
    if s.code in known.sequenceCodes {
      SeenAgainInPrefix(SequenceCodes(d.sequences), n);
      return Some(DuplicateSequenceCode(s.code)), known;
    }
    if s.index in known.sequenceIndexes {
      SeenAgainInPrefix(SequenceIndexes(d.sequences), n);
      return Some(DuplicateSequenceIndex(s.index)), known;
    }
    defect := CheckShape(s);
    if defect.Some? {
      ShapeDefectPresent(d, n, defect.value);
      return;
    }
    var spuCodes, vbuCodes, bridgeCodes;
    defect, spuCodes, vbuCodes, bridgeCodes := CheckUnits(d, n, known);
    if defect.Some? {
      return;
    }
    BridgesFineIsLocal(s, Concat(BridgeCodes, d.sequences[..n]));
    PrefixGrows(d, n);
    known' := Known(known.sequenceCodes + {s.code}, known.sequenceIndexes + {s.index},
                    spuCodes, vbuCodes, bridgeCodes, known.totalSpus + |s.spus|);
    KnownGrows(d, n, known, known');
  }

  /** The one-pass check accepts exactly the consistent documents, and a defect it reports is
      present in the document. */
  method Validate(d: Document) returns (defect: Option<Defect>)
    ensures defect.None? <==> Consistent(d)
    ensures defect.Some? ==> Present(d, defect.value)
  {
    var known := Known({}, {}, {}, {}, {}, 0);
    for n := 0 to |d.sequences|
      invariant PrefixFine(d, n) && Tracks(d, n, known)
    {
      defect, known := CheckSequence(d, n, known);
      if defect.Some? {
        DefectRefutes(d, defect.value);
        return;
      }
    }
    assert d.sequences[..|d.sequences|] == d.sequences;
    assert SequenceCodes(d.sequences)[..|d.sequences|] == SequenceCodes(d.sequences);
    assert SequenceIndexes(d.sequences)[..|d.sequences|] == SequenceIndexes(d.sequences);
    if known.totalSpus == 0 {
      forall s | s in d.sequences ensures s.spus == [] {
        if s.spus != [] {
          assert SpuCodes(s)[0] in SpuCodes(s);
          InConcat(SpuCodes, d.sequences, SpuCodes(s)[0]);
        }
      }
      DefectRefutes(d, NoSpu);
      return Some(NoSpu);
    }
    defect := CheckBeats(d, known.sequenceCodes);
    if defect.Some? {
      DefectRefutes(d, defect.value);
    }
  }
}
