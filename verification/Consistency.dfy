/** The startup check that a stored chain is still the one the channel serves. */
module Consistency {
  import opened Prelude
  import opened Blocks

  /** What a channel message decodes to. */
  datatype ZoneMessage = BlockMessage(blockId: nat, hash: HashType) | Undecodable | NotABlock

  datatype Observation = Observation(msg: ZoneMessage, slot: nat)

  datatype ChainMismatch =
    | DifferentBlock(ours: (nat, HashType), channel: (nat, HashType))
    | ReinscribedBlock(served: (nat, HashType), slot: nat, reAnchorSlot: nat)
    | AnchorSlotChanged(slotOfAnchor: nat)
    | ChannelMissing
    | ChannelBehindAnchor(tipSlot: nat, anchorSlot: nat)

  datatype ChainConsistency = Consistent | Inconclusive | Inconsistent(mismatch: ChainMismatch)

  datatype AnchorProbe = SameChain | Mismatch(evidence: ChainMismatch) | Bail | KeepLooking

  datatype Anchor = Anchor(slot: nat, block: Option<(nat, HashType)>) {
    /** What one message tells. */
    function Probe(o: Observation): AnchorProbe {
      if o.slot < slot then KeepLooking
      else
        match block
        case None => if o.slot == slot then SameChain else Mismatch(AnchorSlotChanged(slot))
        case Some((id, hash)) =>
          if !o.msg.BlockMessage? then KeepLooking
          else if o.msg.blockId == id then
            if o.msg.hash == hash then SameChain
            else Mismatch(DifferentBlock((id, hash), (o.msg.blockId, o.msg.hash)))
          else if o.msg.blockId > id then Bail
          else if o.slot == slot then KeepLooking
          else Mismatch(ReinscribedBlock((o.msg.blockId, o.msg.hash), o.slot, slot))
    }
  }

  function FrontierVerdict(anchorSlot: nat, tipSlot: Option<nat>): Option<ChainMismatch> {
    match tipSlot
    case None => Some(ChannelMissing)
    case Some(t) => if t < anchorSlot then Some(ChannelBehindAnchor(t, anchorSlot)) else None
  }

  function VerdictOf(probe: AnchorProbe): Option<ChainConsistency> {
    match probe
    case SameChain => Some(Consistent)
    case Mismatch(m) => Some(Inconsistent(m))
    case Bail => Some(Inconclusive)
    case KeepLooking => None
  }

  /** The first message that decides anything decides; `None` while none has. */
  function Scan(a: Anchor, stream: seq<Observation>): Option<ChainConsistency> {
    match FirstIndex(stream, (o: Observation) => a.Probe(o) != KeepLooking)
    case None => None
    case Some(k) => VerdictOf(a.Probe(stream[k]))
  }

  /** The verdict after the frontier check and a stream of messages. */
  function Verdict(a: Anchor, tipSlot: Option<nat>, stream: seq<Observation>): Option<ChainConsistency> {
    match FrontierVerdict(a.slot, tipSlot)
    case Some(m) => Some(Inconsistent(m))
    case None => Scan(a, stream)
  }

  class AnchorConsistencyCheck {
    const anchor: Anchor
    var verdict: Option<ChainConsistency>

    constructor (anchor: Anchor)
      ensures this.anchor == anchor && verdict == None
    {
      this.anchor := anchor;
      verdict := None;
    }

    method CheckFrontier(tipSlot: Option<nat>)
      modifies this
      ensures old(verdict).Some? ==> verdict == old(verdict)
      ensures old(verdict).None? ==> verdict == Verdict(anchor, tipSlot, [])
    {
      if verdict.None? {
        var mismatch := FrontierVerdict(anchor.slot, tipSlot);
        verdict := match mismatch case Some(m) => Some(Inconsistent(m)) case None => None;
      }
    }

    /** Feeding the next message extends the stream the verdict is about. */
    method Observe(o: Observation, ghost tipSlot: Option<nat>, ghost seen: seq<Observation>)
      returns (r: Option<ChainConsistency>)
      requires verdict == Verdict(anchor, tipSlot, seen)
      modifies this
      ensures r == verdict == Verdict(anchor, tipSlot, seen + [o])
      ensures old(verdict).Some? ==> verdict == old(verdict)
    {
      ScanSnoc(anchor, seen, o);
      if verdict.None? {
        verdict := VerdictOf(anchor.Probe(o));
      }
      r := verdict;
    }

    function Finish(): ChainConsistency
      reads this
    {
      match verdict case Some(v) => v case None => Inconclusive
    }
  }

  /** One message more: an open verdict is decided by it, a reached one stays. */
  lemma ScanSnoc(a: Anchor, stream: seq<Observation>, o: Observation)
    ensures Scan(a, stream + [o]) == if Scan(a, stream).Some? then Scan(a, stream) else VerdictOf(a.Probe(o))
  {
    var decisive := (q: Observation) => a.Probe(q) != KeepLooking;
    var all := stream + [o];
    assert all[..|stream|] == stream && all[|stream|] == o;
    FirstIndexPrefix(all, decisive, |stream|);
    var k := FirstIndex(all, decisive);
    if k.Some? && k.value < |stream| {
      assert all[k.value] == stream[k.value];
    }
  }

  /** A verdict once reached never changes, whatever the channel serves next. */
  lemma {:induction false} VerdictSticks(a: Anchor, tipSlot: Option<nat>, stream: seq<Observation>,
                                         more: seq<Observation>)
    requires Verdict(a, tipSlot, stream).Some?
    ensures Verdict(a, tipSlot, stream + more) == Verdict(a, tipSlot, stream)
    decreases |more|
  {
    if more == [] {
      assert stream + more == stream;
    } else {
      var n := |more| - 1;
      VerdictSticks(a, tipSlot, stream, more[..n]);
      assert stream + more == (stream + more[..n]) + [more[n]];
      ScanSnoc(a, stream + more[..n], more[n]);
    }
  }

  /** A channel that is missing or ends before the anchor slot is another one, whatever it serves. */
  lemma FrontierDecides(a: Anchor, tipSlot: Option<nat>, stream: seq<Observation>)
    ensures Verdict(a, None, stream) == Some(Inconsistent(ChannelMissing))
    ensures tipSlot.Some? && tipSlot.value < a.slot ==>
              Verdict(a, tipSlot, stream) == Some(Inconsistent(ChannelBehindAnchor(tipSlot.value, a.slot)))
    ensures tipSlot.Some? && a.slot <= tipSlot.value && (forall o :: o in stream ==> o.slot < a.slot) ==>
              Verdict(a, tipSlot, stream) == None
  {
    var f := FirstIndex(stream, (o: Observation) => a.Probe(o) != KeepLooking);
    if f.Some? {
      assert stream[f.value] in stream;
    }
  }

  // ---- Streams of a chain ------------------------------------------------------------------

  ghost predicate SlotOrdered(stream: seq<Observation>) {
    forall i, j :: 0 <= i < j < |stream| ==> stream[i].slot <= stream[j].slot
  }

  ghost predicate IdsIncrease(stream: seq<Observation>) {
    forall i, j :: 0 <= i < j < |stream| && stream[i].msg.BlockMessage? && stream[j].msg.BlockMessage? ==>
      stream[i].msg.blockId < stream[j].msg.blockId
  }

  /**
   * Never a false alarm: a channel that still serves the anchor at its slot, in slot order and
   * with increasing ids, is found consistent, whatever else it carries.
   */
  lemma SameChainIsConsistent(a: Anchor, tipSlot: nat, stream: seq<Observation>, k: nat)
    requires a.block.Some? && a.slot <= tipSlot
    requires SlotOrdered(stream) && IdsIncrease(stream)
    requires k < |stream|
             && stream[k] == Observation(BlockMessage(a.block.value.0, a.block.value.1), a.slot)
    ensures Verdict(a, Some(tipSlot), stream) == Some(Consistent)
  {
    forall i | 0 <= i < k
      ensures a.Probe(stream[i]) == KeepLooking
    {
    }
    FirstIndexUnique(stream, (o: Observation) => a.Probe(o) != KeepLooking, k);
  }

  /** A block at or past the anchor slot, other than an older one sharing the slot. */
  predicate Telling(a: Anchor, o: Observation)
    requires a.block.Some?
  {
    o.msg.BlockMessage? && a.slot <= o.slot && (o.slot == a.slot ==> a.block.value.0 <= o.msg.blockId)
  }

  /**
   * The complete decision for an anchor with a header, on any stream: without a telling block
   * there is no verdict, and otherwise the first one decides. It is consistent if it is the
   * anchor block, wherever it sits; a reset shows exactly in a lower id or another hash.
   */
  lemma HeaderVerdict(a: Anchor, tipSlot: nat, stream: seq<Observation>)
    requires a.block.Some? && a.slot <= tipSlot
    ensures var (id, hash) := a.block.value;
            var v := Verdict(a, Some(tipSlot), stream);
            && (v.None? <==> forall o :: o in stream ==> !Telling(a, o))
            && (forall k :: 0 <= k < |stream| && Telling(a, stream[k])
                            && (forall i :: 0 <= i < k ==> !Telling(a, stream[i])) ==>
                  var first, firstHash := stream[k].msg.blockId, stream[k].msg.hash;
                  && v.Some?
                  && (v.value == Consistent <==> first == id && firstHash == hash)
                  && (v.value == Inconclusive <==> first > id)
                  && (first == id && firstHash != hash <==>
                        v.value == Inconsistent(DifferentBlock((id, hash), (first, firstHash))))
                  && (first < id <==>
                        v.value == Inconsistent(ReinscribedBlock((first, firstHash), stream[k].slot, a.slot))))
  {
    var decisive := (o: Observation) => a.Probe(o) != KeepLooking;
    assert forall o: Observation :: decisive(o) == Telling(a, o);
    var f := FirstIndex(stream, decisive);
    if f.Some? {
      assert stream[f.value] in stream;
    }
    forall k | 0 <= k < |stream| && Telling(a, stream[k]) && (forall i :: 0 <= i < k ==> !Telling(a, stream[i]))
      ensures f == Some(k)
    {
      FirstIndexUnique(stream, decisive, k);
    }
  }

  /**
   * The documented rule that an id at or below the anchor served past its slot betrays a reset
   * holds below the anchor only: the anchor block itself re-inscribed later passes.
   */
  lemma ReinscribedAnchorPasses(slot: nat, id: nat, hash: HashType)
    ensures Verdict(Anchor(slot, Some((id, hash))), Some(slot + 1), [Observation(BlockMessage(id, hash), slot + 1)])
            == Some(Consistent)
  {
    var a := Anchor(slot, Some((id, hash)));
    var stream := [Observation(BlockMessage(id, hash), slot + 1)];
    FirstIndexUnique(stream, (o: Observation) => a.Probe(o) != KeepLooking, 0);
  }

  /**
   * An anchor without a header is only its slot: with any message at or past that slot, the
   * first of them decides, and it is consistent exactly when it sits on the slot.
   */
  lemma HeaderlessVerdict(a: Anchor, tipSlot: nat, stream: seq<Observation>, k: nat)
    requires a.block.None? && a.slot <= tipSlot
    requires k < |stream| && a.slot <= stream[k].slot && forall i :: 0 <= i < k ==> stream[i].slot < a.slot
    ensures Verdict(a, Some(tipSlot), stream) ==
            Some(if stream[k].slot == a.slot then Consistent else Inconsistent(AnchorSlotChanged(a.slot)))
  {
    FirstIndexUnique(stream, (o: Observation) => a.Probe(o) != KeepLooking, k);
  }
}
