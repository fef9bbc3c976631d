/** What each list of a returned block holds (etherman/etherman.go). */
module EthermanBlocks {
  import opened Wrappers
  import opened Sequences
  import opened EthermanEvents

  function PickData<P>(hash: Hash, kinds: set<EventOrder>): Event<P> -> Option<P> {
    (e: Event<P>) => if e.hash == hash && e.name in kinds then Some(e.data) else None
  }

  /** The data of a block's events of the given kinds, in log order. */
  function DataFor<P>(events: seq<Event<P>>, hash: Hash, kinds: set<EventOrder>): seq<P> {
    Collect(PickData(hash, kinds), events)
  }

  lemma DataForSnoc<P>(events: seq<Event<P>>, e: Event<P>, hash: Hash, kinds: set<EventOrder>)
    ensures DataFor(events + [e], hash, kinds) ==
            DataFor(events, hash, kinds) + if e.hash == hash && e.name in kinds then [e.data] else []
  {
    CollectSnoc(PickData(hash, kinds), events, e);
  }

  lemma DataForNone<P>(events: seq<Event<P>>, hash: Hash, kinds: set<EventOrder>)
    requires !Occurs(events, hash)
    ensures DataFor(events, hash, kinds) == []
  {
    CollectNone(PickData<P>(hash, kinds), events);
  }

  /** The last of several etrog updates is the one that stays. */
  function Latest<P>(updates: seq<P>): Option<P> {
    if updates == [] then None else Some(updates[|updates| - 1])
  }

  ghost predicate HoldsRoots<P>(block: Block<P>, events: seq<Event<P>>) {
    && block.globalExitRoots == DataFor(events, block.hash, {GlobalExitRoots})
    && block.l1InfoTree == DataFor(events, block.hash, {L1InfoTree})
    && block.forkIDs == DataFor(events, block.hash, {ForkIDs})
  }

  ghost predicate HoldsBatches<P>(block: Block<P>, events: seq<Event<P>>) {
    && block.sequencedBatches == DataFor(events, block.hash, {SequenceBatches, InitialSequenceBatches})
    && block.verifiedBatches == DataFor(events, block.hash, {TrustedVerifyBatch, VerifyBatch})
    && block.updateEtrogSequence == Latest(DataFor(events, block.hash, {UpdateEtrogSequence}))
  }

  ghost predicate HoldsForced<P>(block: Block<P>, events: seq<Event<P>>) {
    && block.forcedBatches == DataFor(events, block.hash, {ForcedBatches})
    && block.sequencedForceBatches == DataFor(events, block.hash, {SequenceForceBatches})
  }

  /** Every list holds the data of its kinds of event, and nothing else. */
  ghost predicate Holds<P>(block: Block<P>, events: seq<Event<P>>) {
    HoldsRoots(block, events) && HoldsBatches(block, events) && HoldsForced(block, events)
  }

  lemma OtherBlockHolds<P>(block: Block<P>, events: seq<Event<P>>, e: Event<P>)
    requires Holds(block, events) && block.hash != e.hash
    ensures Holds(block, events + [e])
  {
    forall kinds: set<EventOrder>
      ensures DataFor(events + [e], block.hash, kinds) == DataFor(events, block.hash, kinds)
    {
      DataForSnoc(events, e, block.hash, kinds);
    }
  }

  lemma FreshBlockHolds<P>(events: seq<Event<P>>, e: Event<P>)
    requires !Occurs(events, e.hash)
    ensures Holds(PrepareBlock(e), events)
  {
    forall kinds: set<EventOrder>
      ensures DataFor(events, e.hash, kinds) == []
    {
      DataForNone(events, e.hash, kinds);
    }
  }

  lemma AppendedRoots<P>(block: Block<P>, events: seq<Event<P>>, e: Event<P>)
    requires HoldsRoots(block, events) && block.hash == e.hash
    ensures HoldsRoots(block.Append(e.name, e.data), events + [e])
  {
    DataForSnoc(events, e, e.hash, {GlobalExitRoots});
    DataForSnoc(events, e, e.hash, {L1InfoTree});
    DataForSnoc(events, e, e.hash, {ForkIDs});
    AppendedData(block, e);
  }

  lemma AppendedBatches<P>(block: Block<P>, events: seq<Event<P>>, e: Event<P>)
    requires HoldsBatches(block, events) && block.hash == e.hash
    ensures HoldsBatches(block.Append(e.name, e.data), events + [e])
  {
    DataForSnoc(events, e, e.hash, {SequenceBatches, InitialSequenceBatches});
    DataForSnoc(events, e, e.hash, {TrustedVerifyBatch, VerifyBatch});
    DataForSnoc(events, e, e.hash, {UpdateEtrogSequence});
    AppendedData(block, e);
  }

  lemma AppendedForced<P>(block: Block<P>, events: seq<Event<P>>, e: Event<P>)
    requires HoldsForced(block, events) && block.hash == e.hash
    ensures HoldsForced(block.Append(e.name, e.data), events + [e])
  {
    DataForSnoc(events, e, e.hash, {ForcedBatches});
    DataForSnoc(events, e, e.hash, {SequenceForceBatches});
    AppendedData(block, e);
  }

  lemma AppendedHolds<P>(block: Block<P>, events: seq<Event<P>>, e: Event<P>)
    requires Holds(block, events) && block.hash == e.hash
    ensures Holds(block.Append(e.name, e.data), events + [e])
  {
    AppendedRoots(block, events, e);
    AppendedBatches(block, events, e);
    AppendedForced(block, events, e);
  }

  ghost predicate AllHold<P>(blocks: Blocks<P>, events: seq<Event<P>>) {
    forall i :: 0 <= i < |blocks| ==> Holds(blocks[i], events)
  }

  /** The blocks before the one that an event goes to. */
  function Earlier<P>(blocks: Blocks<P>, e: Event<P>): Blocks<P> {
    if IsHeadBlock(blocks, e) then blocks[..|blocks| - 1] else blocks
  }

  lemma AddedBlock<P>(blocks: Blocks<P>, orders: Orders, events: seq<Event<P>>, e: Event<P>)
    requires BlocksStem(blocks, events) && AllHold(blocks, events) && Contiguous(events + [e])
    ensures exists block :: Add(blocks, orders, e).0 == Earlier(blocks, e) + [block] && Holds(block, events + [e])
    ensures forall i :: 0 <= i < |Earlier(blocks, e)| ==> Earlier(blocks, e)[i].hash != e.hash
  {
    HeadOrNew(blocks, events, e);
    var head := if IsHeadBlock(blocks, e) then blocks[|blocks| - 1] else PrepareBlock(e);
    if !IsHeadBlock(blocks, e) {
      FreshBlockHolds(events, e);
    }
    var block := head.Append(e.name, e.data);
    assert Holds(block, events + [e]) by {
      AppendedHolds(head, events, e);
    }
    assert Add(blocks, orders, e).0 == Earlier(blocks, e) + [block];
  }

  lemma AddHolds<P>(blocks: Blocks<P>, orders: Orders, events: seq<Event<P>>, e: Event<P>)
    requires BlocksStem(blocks, events) && AllHold(blocks, events) && Contiguous(events + [e])
    ensures AllHold(Add(blocks, orders, e).0, events + [e])
  {
    AddedBlock(blocks, orders, events, e);
    var earlier := Earlier(blocks, e);
    forall i | 0 <= i < |earlier|
      ensures Holds(earlier[i], events + [e])
    {
      OtherBlockHolds(blocks[i], events, e);
    }
  }

  lemma {:induction false} AddAllHolds<P>(events: seq<Event<P>>)
    requires Contiguous(events)
    ensures AllHold(AddAll(events).0, events)
  {
    if events != [] {
      var last := |events| - 1;
      assert events == events[..last] + [events[last]];
      AddAllStems(events[..last]);
      AddAllHolds(events[..last]);
      var (blocks, orders) := AddAll(events[..last]);
      AddHolds(blocks, orders, events[..last], events[last]);
    }
  }

  ghost predicate HasBlock<P>(blocks: Blocks<P>, hash: Hash) {
    exists i :: 0 <= i < |blocks| && blocks[i].hash == hash
  }

  lemma {:induction false} EveryEventHasBlock<P>(events: seq<Event<P>>, h: Hash)
    requires Occurs(events, h)
    ensures HasBlock(AddAll(events).0, h)
  {
    var last := |events| - 1;
    var (blocks, orders) := AddAll(events[..last]);
    var e := events[last];
    var head := if IsHeadBlock(blocks, e) then blocks[|blocks| - 1] else PrepareBlock(e);
    AppendedData(head, e);
    var blocks' := Add(blocks, orders, e).0;
    assert blocks'[|blocks'| - 1] == head.Append(e.name, e.data);
    if h != e.hash {
      assert Occurs(events[..last], h) by {
        var i :| 0 <= i < |events| && events[i].hash == h;
        assert events[..last][i] == events[i];
      }
      EveryEventHasBlock(events[..last], h);
      var i :| 0 <= i < |blocks| && blocks[i].hash == h;
      assert blocks'[i] == blocks[i];
    }
  }

  /**
   The blocks of a log whose blocks are contiguous: one for each block with a relevant event and no other, and
   each list of each block is the data of that block's events of the list's kinds, in log order. The etrog slot
   holds the last etrog update.
   */
  lemma BlocksHoldEvents<P>(logs: seq<Log<P>>)
    requires Contiguous(RelevantEvents(logs))
    ensures var events, blocks := RelevantEvents(logs), AddAll(RelevantEvents(logs)).0;
            && DistinctBlocks(blocks)
            && (forall h :: HasBlock(blocks, h) <==> Occurs(events, h))
            && AllHold(blocks, events)
  {
    var events := RelevantEvents(logs);
    AddAllStems(events);
    AddAllHolds(events);
    forall h
      ensures HasBlock(AddAll(events).0, h) <==> Occurs(events, h)
    {
      if Occurs(events, h) {
        EveryEventHasBlock(events, h);
      }
    }
  }
}
