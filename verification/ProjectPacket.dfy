/** What a project's packet says of each sequence, in the words of the project's rows. */
module ProjectPacket {
  import opened Options
  import opened SequenceLaws
  import opened ProjectCompiler

  // ----- durations

  /** The row is a primary visual of the sequence. */
  predicate IsPrimary(u: SpuRow, sequenceId: Id) {
    u.sequenceId == Some(sequenceId) && u.assetRole == "primary_visual"
  }

  /** The row is the first primary visual of the sequence. */
  predicate IsFirstPrimary(spus: seq<SpuRow>, i: nat, sequenceId: Id) {
    i < |spus| && IsPrimary(spus[i], sequenceId) && forall k | 0 <= k < i :: !IsPrimary(spus[k], sequenceId)
  }

  lemma {:induction false} PrimaryGrows(spus: seq<SpuRow>, u: SpuRow)
    ensures PrimaryDuration(spus + [u]) ==
      if PrimaryDuration(spus).Some? then PrimaryDuration(spus)
      else if u.assetRole == "primary_visual" then Some(u.durationMs) else None
  {
    if spus != [] {
      PrimaryGrows(spus[1..], u);
      assert (spus + [u])[1..] == spus[1..] + [u];
    }
  }

  function TargetOf(spus: seq<SpuRow>, sequenceId: Id): Option<int> {
    PrimaryDuration(WithKey(SpuSequence, Some(sequenceId), spus))
  }

  lemma TargetGrows(spus: seq<SpuRow>, u: SpuRow, sequenceId: Id)
    ensures TargetOf(spus + [u], sequenceId) ==
      if TargetOf(spus, sequenceId).Some? then TargetOf(spus, sequenceId)
      else if IsPrimary(u, sequenceId) then Some(u.durationMs) else None
  {
    var group := WithKey(SpuSequence, Some(sequenceId), spus);
    assert (spus + [u])[..|spus|] == spus;
    assert group + [] == group;
    PrimaryGrows(group, u);
  }

  /** The target duration of a group is that of the first primary visual among all rows. */
  lemma {:induction false} FirstPrimaryOfRows(spus: seq<SpuRow>, sequenceId: Id)
    ensures TargetOf(spus, sequenceId) == None <==> forall k | 0 <= k < |spus| :: !IsPrimary(spus[k], sequenceId)
    ensures forall i: nat | IsFirstPrimary(spus, i, sequenceId) ::
      TargetOf(spus, sequenceId) == Some(spus[i].durationMs)
  {
    if spus != [] {
      var last := |spus| - 1;
      var init := spus[..last];
      FirstPrimaryOfRows(init, sequenceId);
      TargetGrows(init, spus[last], sequenceId);
      assert spus == init + [spus[last]];
      assert forall k | 0 <= k < last :: init[k] == spus[k];
      forall i: nat | IsFirstPrimary(spus, i, sequenceId)
        ensures TargetOf(spus, sequenceId) == Some(spus[i].durationMs)
      {
        assert i < last ==> IsFirstPrimary(init, i, sequenceId);
      }
    }
  }

  /** A sequence's target duration is that of its first primary visual, and it has none exactly when it has no
      primary visual. */
  lemma TargetIsFirstPrimary(p: Project, packet: Packet, n: nat)
    requires IsPacketOf(p, packet) && n < |p.sequences|
    ensures |packet.sequences| == |p.sequences| && packet.sequences[n].sequence == p.sequences[n]
    ensures forall i: nat | IsFirstPrimary(p.spus, i, p.sequences[n].id) ::
      packet.sequences[n].targetDurationMs == Some(p.spus[i].durationMs)
    ensures packet.sequences[n].targetDurationMs == None <==>
      forall u | u in p.spus && u.sequenceId == Some(p.sequences[n].id) :: u.assetRole != "primary_visual"
  {
    var id := p.sequences[n].id;
    FirstPrimaryOfRows(p.spus, id);
    assert TargetOf(p.spus, id) == packet.sequences[n].targetDurationMs;
  }

  /** A sequence has a voice exactly when a voice row names it. */
  lemma HasVoiceExactly(p: Project, packet: Packet, n: nat)
    requires IsPacketOf(p, packet) && n < |p.sequences|
    ensures packet.sequences[n].hasVoice <==> exists v | v in p.vbus :: v.sequenceId == Some(p.sequences[n].id)
  {
    var id := p.sequences[n].id;
    if packet.sequences[n].hasVoice {
      var v := VbusOf(p, Some(id))[0];
      FilterMembers(HasKey(VbuSequence, Some(id)), p.vbus, v);
    }
    if v :| v in p.vbus && v.sequenceId == Some(id) {
      FilterMembers(HasKey(VbuSequence, Some(id)), p.vbus, v);
    }
  }

  /** The total duration is reached from zero by adding the target durations of the sequences that have one. */
  lemma TotalAddsUp(p: Project, packet: Packet) returns (sums: seq<int>)
    requires IsPacketOf(p, packet)
    ensures |sums| == |packet.sequences| + 1 && sums[0] == 0
    ensures sums[|packet.sequences|] == packet.targetTotalDurationMs
    ensures forall i | 0 <= i < |packet.sequences| ::
      match packet.sequences[i].targetDurationMs
      case None => sums[i + 1] == sums[i]
      case Some(duration) => sums[i + 1] == sums[i] + duration
  {
    var n := |p.sequences|;
    sums := seq(n + 1, i requires 0 <= i <= n => Total(Durations(p), p.sequences[..i]));
    forall i | 0 <= i < n ensures sums[i + 1] == sums[i] + DurationShare(p, p.sequences[i]) {
      TotalGrows(Durations(p), p.sequences, i);
    }
    assert p.sequences[..n] == p.sequences;
  }

  // ----- order

  /** The places of the items to keep. */
  function Places<V>(keep: V -> bool, items: seq<V>): seq<nat> {
    if items == [] then []
    else Places(keep, items[..|items| - 1]) + (if keep(items[|items| - 1]) then [|items| - 1] else [])
  }

  lemma {:induction false} PlacesRise<V>(keep: V -> bool, items: seq<V>)
    ensures forall n | n in Places(keep, items) :: n < |items|
    ensures forall i, k | 0 <= i < k < |Places(keep, items)| :: Places(keep, items)[i] < Places(keep, items)[k]
  {
    if items != [] {
      var init := Places(keep, items[..|items| - 1]);
      PlacesRise(keep, items[..|items| - 1]);
      assert forall i | 0 <= i < |init| :: init[i] in init;
    }
  }

  lemma {:induction false} PlacesAreAll<V>(keep: V -> bool, items: seq<V>, n: nat)
    requires n < |items|
    ensures keep(items[n]) <==> n in Places(keep, items)
  {
    var last := |items| - 1;
    PlacesRise(keep, items[..last]);
    if n < last {
      PlacesAreAll(keep, items[..last], n);
    }
  }

  lemma {:induction false} PlacesOfFilter<V>(keep: V -> bool, items: seq<V>)
    ensures |Places(keep, items)| == |Filter(keep, items)|
    ensures forall i | 0 <= i < |Places(keep, items)| ::
      Places(keep, items)[i] < |items| && Filter(keep, items)[i] == items[Places(keep, items)[i]]
  {
    if items != [] {
      PlacesOfFilter(keep, items[..|items| - 1]);
    }
  }

  /** The kept items are those at some rising places, which are all the places of an item to keep. */
  lemma FilterPlaces<V>(keep: V -> bool, items: seq<V>) returns (places: seq<nat>)
    ensures |places| == |Filter(keep, items)| && forall i, k | 0 <= i < k < |places| :: places[i] < places[k]
    ensures forall i | 0 <= i < |places| :: places[i] < |items| && Filter(keep, items)[i] == items[places[i]]
    ensures forall n: nat | n < |items| :: keep(items[n]) <==> n in places
  {
    places := Places(keep, items);
    PlacesRise(keep, items);
    PlacesOfFilter(keep, items);
    forall n: nat | n < |items| ensures keep(items[n]) <==> n in places { PlacesAreAll(keep, items, n); }
  }

  /** The units are the rows to keep, each once and in query order. */
  ghost predicate InQueryOrder<U>(units: seq<U>, rows: seq<U>, keep: U -> bool) {
    exists places: seq<nat> ::
      && |places| == |units|
      && (forall i, k | 0 <= i < k < |places| :: places[i] < places[k])
      && (forall i | 0 <= i < |places| :: places[i] < |rows| && units[i] == rows[places[i]])
      && (forall n: nat | n < |rows| :: keep(rows[n]) <==> n in places)
  }

  lemma GroupInOrder<U>(key: U -> Option<Id>, rows: seq<U>, id: Id, keep: U -> bool)
    requires forall u :: keep(u) <==> key(u) == Some(id)
    ensures InQueryOrder(WithKey(key, Some(id), rows), rows, keep)
  {
    var places := FilterPlaces(HasKey(key, Some(id)), rows);
  }

  /** The units and bridges of a packet are the rows that name its sequence, each once and in query order. */
  lemma UnitsInQueryOrder(p: Project, packet: Packet, n: nat)
    requires IsPacketOf(p, packet) && n < |p.sequences|
    ensures var id, out := p.sequences[n].id, packet.sequences[n];
      && InQueryOrder(out.spus, p.spus, (u: SpuRow) => u.sequenceId == Some(id))
      && InQueryOrder(out.vbus, p.vbus, (u: VbuRow) => u.sequenceId == Some(id))
      && InQueryOrder(out.bridges, p.bridges, (b: BridgeRow) => b.sequenceId == id)
  {
    var id := p.sequences[n].id;
    GroupInOrder(SpuSequence, p.spus, id, (u: SpuRow) => u.sequenceId == Some(id));
    GroupInOrder(VbuSequence, p.vbus, id, (u: VbuRow) => u.sequenceId == Some(id));
    GroupInOrder(BridgeSequence, p.bridges, id, (b: BridgeRow) => b.sequenceId == id);
  }
}
