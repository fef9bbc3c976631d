/** Turning the L1 event log into blocks plus an order of events (etherman/etherman.go). */
module EthermanEvents {
  import opened Wrappers
  import opened Sequences

  type Hash = nat

  datatype EventOrder =
    | GlobalExitRoots | L1InfoTree | SequenceBatches | UpdateEtrogSequence | ForcedBatches
    | TrustedVerifyBatch | VerifyBatch | SequenceForceBatches | ForkIDs | InitialSequenceBatches

  /** An event the synchronizer must store: where it was logged, its kind and its decoded data. */
  datatype Event<P> = Event(hash: Hash, number: nat, name: EventOrder, data: P)

  /**
   One L1 log as its handler sees it. Events of other contracts' concern and of other rollups are ignored;
   a handler fails when the log cannot be parsed or the node cannot be asked about its block.
   */
  datatype Log<P> = Ignored | Broken | Relevant(event: Event<P>)

  datatype Order = Order(name: EventOrder, pos: nat)

  /** A block holds one list per kind of data; two kinds of event share a list in two cases. */
  datatype Block<P> = Block(
    hash: Hash, number: nat,
    globalExitRoots: seq<P>, l1InfoTree: seq<P>, sequencedBatches: seq<P>, updateEtrogSequence: Option<P>,
    forcedBatches: seq<P>, verifiedBatches: seq<P>, sequencedForceBatches: seq<P>, forkIDs: seq<P>)
  {
    /** The data that a position of the given kind refers to. */
    function DataOf(name: EventOrder): seq<P> {
      match name
      case GlobalExitRoots => globalExitRoots
      case L1InfoTree => l1InfoTree
      case SequenceBatches => sequencedBatches
      case InitialSequenceBatches => sequencedBatches
      case UpdateEtrogSequence => if updateEtrogSequence.Some? then [updateEtrogSequence.value] else []
      case ForcedBatches => forcedBatches
      case TrustedVerifyBatch => verifiedBatches
      case VerifyBatch => verifiedBatches
      case SequenceForceBatches => sequencedForceBatches
      case ForkIDs => forkIDs
    }

    function Append(name: EventOrder, data: P): Block<P> {
      match name
      case GlobalExitRoots => this.(globalExitRoots := globalExitRoots + [data])
      case L1InfoTree => this.(l1InfoTree := l1InfoTree + [data])
      case SequenceBatches => this.(sequencedBatches := sequencedBatches + [data])
      case InitialSequenceBatches => this.(sequencedBatches := sequencedBatches + [data])
      case UpdateEtrogSequence => this.(updateEtrogSequence := Some(data))
      case ForcedBatches => this.(forcedBatches := forcedBatches + [data])
      case TrustedVerifyBatch => this.(verifiedBatches := verifiedBatches + [data])
      case VerifyBatch => this.(verifiedBatches := verifiedBatches + [data])
      case SequenceForceBatches => this.(sequencedForceBatches := sequencedForceBatches + [data])
      case ForkIDs => this.(forkIDs := forkIDs + [data])
    }
  }

  function PrepareBlock<P>(e: Event<P>): Block<P> {
    Block(e.hash, e.number, [], [], [], None, [], [], [], [])
  }

  type Blocks<P> = seq<Block<P>>
  type Orders = map<Hash, seq<Order>>

  function OrderOf(orders: Orders, hash: Hash): seq<Order> {
    if hash in orders then orders[hash] else []
  }

  predicate IsHeadBlock<P>(blocks: Blocks<P>, e: Event<P>) {
    blocks != [] && blocks[|blocks| - 1].hash == e.hash && blocks[|blocks| - 1].number == e.number
  }

  /** The list of blocks and the order map after one relevant event. */
  function Add<P>(blocks: Blocks<P>, orders: Orders, e: Event<P>): (Blocks<P>, Orders) {
    var earlier, head := if IsHeadBlock(blocks, e) then blocks[..|blocks| - 1] else blocks,
                         if IsHeadBlock(blocks, e) then blocks[|blocks| - 1] else PrepareBlock(e);
    var block := head.Append(e.name, e.data);
    var pos := |block.DataOf(e.name)| - 1;
    (earlier + [block], orders[e.hash := OrderOf(orders, e.hash) + [Order(e.name, pos)]])
  }

  function AddAll<P>(events: seq<Event<P>>): (Blocks<P>, Orders) {
    if events == [] then ([], map[])
    else
      var last := |events| - 1;
      var (blocks, orders) := AddAll(events[..last]);
      Add(blocks, orders, events[last])
  }

  /** The relevant events of a log, in order. */
  function RelevantEvents<P>(logs: seq<Log<P>>): seq<Event<P>> {
    Collect(EventOf, logs)
  }

  function EventOf<P>(log: Log<P>): Option<Event<P>> {
    if log.Relevant? then Some(log.event) else None
  }

  /** The `blocks` and `blocksOrder` that the handlers extend. */
  class EventReader<P> {
    var blocks: Blocks<P>
    var blocksOrder: Orders

    constructor ()
      ensures blocks == [] && blocksOrder == map[]
    {
      blocks, blocksOrder := [], map[];
    }

    /** What every handler does once it has decoded its event. */
    method HandleEvent(e: Event<P>)
      modifies this
      ensures (blocks, blocksOrder) == Add(old(blocks), old(blocksOrder), e)
    {
      if !IsHeadBlock(blocks, e) {
        blocks := blocks + [PrepareBlock(e).Append(e.name, e.data)];
      } else {
        var head := |blocks| - 1;
        blocks := blocks[head := blocks[head].Append(e.name, e.data)];
        assert blocks == old(blocks)[..head] + [blocks[head]];
      }
      var block := blocks[|blocks| - 1];
      var or := Order(e.name, |block.DataOf(e.name)| - 1);
      blocksOrder := blocksOrder[block.hash := OrderOf(blocksOrder, block.hash) + [or]];
    }

    method ProcessEvent(log: Log<P>) returns (err: bool)
      modifies this
      ensures err == log.Broken?
      ensures (blocks, blocksOrder) ==
        if log.Relevant? then Add(old(blocks), old(blocksOrder), log.event) else (old(blocks), old(blocksOrder))
    {
      match log
      case Ignored => return false;
      case Broken => return true;
      case Relevant(e) =>
        HandleEvent(e);
        return false;
    }
  }

  lemma AddAllSnoc<P>(events: seq<Event<P>>, e: Event<P>)
    ensures var (blocks, orders) := AddAll(events); AddAll(events + [e]) == Add(blocks, orders, e)
  {
    assert (events + [e])[..|events|] == events;
  }

  lemma NextLog<P>(logs: seq<Log<P>>, i: nat)
    requires i < |logs|
    ensures var (blocks, orders) := AddAll(RelevantEvents(logs[..i]));
            AddAll(RelevantEvents(logs[..i + 1])) ==
            if logs[i].Relevant? then Add(blocks, orders, logs[i].event) else (blocks, orders)
  {
    var before := RelevantEvents(logs[..i]);
    CollectNext(EventOf, logs, i);
    if logs[i].Relevant? {
      AddAllSnoc(before, logs[i].event);
    } else {
      assert RelevantEvents(logs[..i + 1]) == before;
    }
  }

  /** `fetched` is the node's answer to the log query. */
  method ReadEvents<P>(fetched: Result<seq<Log<P>>>) returns (r: Result<(Blocks<P>, Orders)>)
    ensures r.Ok? <==> fetched.Ok? && forall i :: 0 <= i < |fetched.value| ==> !fetched.value[i].Broken?
    ensures r.Ok? ==> r.value == AddAll(RelevantEvents(fetched.value))
  {
    if fetched.Err? {
      return Err;
    }
    var logs := fetched.value;
    var reader := new EventReader<P>();
    for i := 0 to |logs|
      invariant fresh(reader)
      invariant forall k :: 0 <= k < i ==> !logs[k].Broken?
      invariant (reader.blocks, reader.blocksOrder) == AddAll(RelevantEvents(logs[..i]))
    {
      NextLog(logs, i);
      var err := reader.ProcessEvent(logs[i]);
      if err {
        return Err;
      }
    }
    assert logs[..|logs|] == logs;
    return Ok((reader.blocks, reader.blocksOrder));
  }

  // ----- Replaying the order over the blocks -----

  /** The consumer's side: follow the order entries of one block. */
  function ReplayBlock<P>(block: Block<P>, orders: seq<Order>): seq<Event<P>> {
    if orders == [] then []
    else
      var last := |orders| - 1;
      var Order(name, pos) := orders[last];
      ReplayBlock(block, orders[..last]) +
      if pos < |block.DataOf(name)| then [Event(block.hash, block.number, name, block.DataOf(name)[pos])] else []
  }

  function Replay<P>(blocks: Blocks<P>, orders: Orders): seq<Event<P>> {
    if blocks == [] then []
    else
      var last := |blocks| - 1;
      Replay(blocks[..last], orders) + ReplayBlock(blocks[last], OrderOf(orders, blocks[last].hash))
  }

  /** Events of one block stand together, and a block has one number. */
  ghost predicate Contiguous<P>(events: seq<Event<P>>) {
    forall i, j :: 0 <= i < j < |events| && events[i].hash == events[j].hash ==>
      events[i].number == events[j].number && events[j - 1].hash == events[j].hash
  }

  ghost predicate SameEtrog<P>(e: Event<P>, e': Event<P>) {
    e.name == e'.name == UpdateEtrogSequence && e.hash == e'.hash ==> e.data == e'.data
  }

  /** A block has room for one update-etrog event only, so two of them must not differ. */
  ghost predicate EtrogsAgree<P>(events: seq<Event<P>>) {
    forall i, j :: 0 <= i < j < |events| ==> SameEtrog(events[i], events[j])
  }

  ghost predicate PositionsValid<P>(block: Block<P>, orders: seq<Order>) {
    forall k :: 0 <= k < |orders| ==> orders[k].pos < |block.DataOf(orders[k].name)|
  }

  ghost predicate Occurs<P>(events: seq<Event<P>>, hash: Hash) {
    exists i :: 0 <= i < |events| && events[i].hash == hash
  }

  /** The etrog data of a block, if it has any, is that of one of the events. */
  ghost predicate EtrogOccurs<P>(events: seq<Event<P>>, block: Block<P>) {
    block.updateEtrogSequence.Some? ==>
      exists i :: 0 <= i < |events| && IsEtrog(events[i], block.hash, block.updateEtrogSequence.value)
  }

  ghost predicate IsEtrog<P>(e: Event<P>, hash: Hash, data: P) {
    e.hash == hash && e.name == UpdateEtrogSequence && e.data == data
  }

  /** Appending `e` to the block loses no etrog update. */
  ghost predicate HasRoom<P>(block: Block<P>, e: Event<P>) {
    e.name == UpdateEtrogSequence ==> block.updateEtrogSequence == None || block.updateEtrogSequence == Some(e.data)
  }

  /** Blocks are distinct, all their positions are valid, and both stem from the events. */
  ghost predicate Shape<P>(blocks: Blocks<P>, orders: Orders, events: seq<Event<P>>) {
    && (forall i, j :: 0 <= i < j < |blocks| ==> blocks[i].hash != blocks[j].hash)
    && (forall h :: h in orders <==> Occurs(events, h))
    && (forall i :: 0 <= i < |blocks| ==> Occurs(events, blocks[i].hash))
    && (forall i :: 0 <= i < |blocks| ==> PositionsValid(blocks[i], OrderOf(orders, blocks[i].hash)))
    && (forall i :: 0 <= i < |blocks| ==> EtrogOccurs(events, blocks[i]))
  }

  /** What holds of the blocks and the order after `events`. */
  ghost predicate Represents<P>(blocks: Blocks<P>, orders: Orders, events: seq<Event<P>>) {
    && Shape(blocks, orders, events)
    && (if events == [] then blocks == [] else IsHeadBlock(blocks, events[|events| - 1]))
    && Replay(blocks, orders) == events
  }

  /** Orders of other blocks do not matter. */
  lemma {:induction false} ReplayFrame<P>(blocks: Blocks<P>, orders: Orders, orders': Orders)
    requires forall i :: 0 <= i < |blocks| ==> OrderOf(orders, blocks[i].hash) == OrderOf(orders', blocks[i].hash)
    ensures Replay(blocks, orders) == Replay(blocks, orders')
  {
    if blocks != [] {
      ReplayFrame(blocks[..|blocks| - 1], orders, orders');
    }
  }

  ghost predicate EndsWith<P>(s: seq<P>, x: P) {
    s != [] && s[|s| - 1] == x
  }

  /** Where appended data goes, and what it leaves alone. */
  lemma AppendedData<P>(block: Block<P>, e: Event<P>)
    ensures var block' := block.Append(e.name, e.data);
            && block'.hash == block.hash && block'.number == block.number
            && EndsWith(block'.DataOf(e.name), e.data)
  {
    match e.name
    case GlobalExitRoots =>
    case L1InfoTree =>
    case SequenceBatches =>
    case InitialSequenceBatches =>
    case UpdateEtrogSequence =>
    case ForcedBatches =>
    case TrustedVerifyBatch =>
    case VerifyBatch =>
    case SequenceForceBatches =>
    case ForkIDs =>
  }

  lemma OtherData<P>(block: Block<P>, e: Event<P>, other: EventOrder)
    requires HasRoom(block, e)
    ensures block.DataOf(other) <= block.Append(e.name, e.data).DataOf(other)
  {
    match other
    case GlobalExitRoots =>
    case L1InfoTree =>
    case SequenceBatches =>
    case InitialSequenceBatches =>
    case UpdateEtrogSequence =>
    case ForcedBatches =>
    case TrustedVerifyBatch =>
    case VerifyBatch =>
    case SequenceForceBatches =>
    case ForkIDs =>
  }

  ghost predicate LaterVersion<P>(block: Block<P>, block': Block<P>) {
    && block'.hash == block.hash && block'.number == block.number
    && forall name: EventOrder :: block.DataOf(name) <= block'.DataOf(name)
  }

  /** Appending overwrites nothing, except a different etrog update. */
  lemma AppendIsLater<P>(block: Block<P>, e: Event<P>)
    requires HasRoom(block, e)
    ensures LaterVersion(block, block.Append(e.name, e.data))
  {
    AppendedData(block, e);
    forall other
      ensures block.DataOf(other) <= block.Append(e.name, e.data).DataOf(other)
    {
      OtherData(block, e, other);
    }
  }

  /** Valid positions mean the same in a later version of the block. */
  lemma {:induction false} ReplayLater<P>(block: Block<P>, block': Block<P>, orders: seq<Order>)
    requires PositionsValid(block, orders) && LaterVersion(block, block')
    ensures PositionsValid(block', orders) && ReplayBlock(block', orders) == ReplayBlock(block, orders)
  {
    if orders != [] {
      var last := |orders| - 1;
      ReplayLater(block, block', orders[..last]);
    }
  }

  /** `block'` is `block` with the data of `e` at the end of whichever list it belongs to. */
  ghost predicate Extends<P>(block: Block<P>, block': Block<P>, e: Event<P>) {
    LaterVersion(block, block') && EndsWith(block'.DataOf(e.name), e.data)
  }

  lemma AppendExtends<P>(block: Block<P>, e: Event<P>)
    requires HasRoom(block, e)
    ensures Extends(block, block.Append(e.name, e.data), e)
  {
    AppendIsLater(block, e);
    AppendedData(block, e);
  }

  lemma EtrogAfterAppend<P>(events: seq<Event<P>>, block: Block<P>, e: Event<P>)
    requires EtrogOccurs(events, block) && block.hash == e.hash
    ensures EtrogOccurs(events + [e], block.Append(e.name, e.data))
  {
    var block', later := block.Append(e.name, e.data), events + [e];
    assert later[|events|] == e;
    if e.name == UpdateEtrogSequence {
      assert IsEtrog(later[|events|], block'.hash, e.data);
    } else {
      assert block'.updateEtrogSequence == block.updateEtrogSequence && block'.hash == block.hash;
      EtrogLater(events, block, e);
    }
  }

  lemma EtrogLater<P>(events: seq<Event<P>>, block: Block<P>, e: Event<P>)
    requires EtrogOccurs(events, block)
    ensures EtrogOccurs(events + [e], block)
  {
    if block.updateEtrogSequence.Some? {
      var i :| 0 <= i < |events| && IsEtrog(events[i], block.hash, block.updateEtrogSequence.value);
      assert (events + [e])[i] == events[i];
    }
  }

  /** The new entry points at the appended data. */
  lemma NewEntry<P>(block: Block<P>, block': Block<P>, orders: seq<Order>, e: Event<P>)
    requires PositionsValid(block, orders) && block.hash == e.hash && block.number == e.number
    requires Extends(block, block', e)
    ensures var orders' := orders + [Order(e.name, |block'.DataOf(e.name)| - 1)];
            && PositionsValid(block', orders')
            && ReplayBlock(block', orders') == ReplayBlock(block, orders) + [e]
  {
    var orders' := orders + [Order(e.name, |block'.DataOf(e.name)| - 1)];
    ReplayLater(block, block', orders);
    assert orders'[..|orders|] == orders;
  }

  lemma ReplaySnoc<P>(earlier: Blocks<P>, block: Block<P>, orders: Orders)
    ensures Replay(earlier + [block], orders) ==
            Replay(earlier, orders) + ReplayBlock(block, OrderOf(orders, block.hash))
  {
    assert (earlier + [block])[..|earlier|] == earlier;
  }

  /** One more event in the last block is one more event at the end. */
  lemma LastBlockReplay<P>(
    earlier: Blocks<P>, head: Block<P>, block: Block<P>, orders: Orders, orders': Orders, e: Event<P>)
    requires head.hash == block.hash && orders' == orders[head.hash := OrderOf(orders', head.hash)]
    requires forall i :: 0 <= i < |earlier| ==> earlier[i].hash != head.hash
    requires ReplayBlock(block, OrderOf(orders', head.hash)) == ReplayBlock(head, OrderOf(orders, head.hash)) + [e]
    ensures Replay(earlier + [block], orders') == Replay(earlier + [head], orders) + [e]
  {
    ReplayFrame(earlier, orders, orders');
    ReplaySnoc(earlier, block, orders');
    ReplaySnoc(earlier, head, orders);
  }

  /** Replay after the head block was extended, or a fresh one was opened and extended. */
  lemma ExtendedReplay<P>(earlier: Blocks<P>, head: Block<P>, block: Block<P>, orders: Orders, e: Event<P>)
    requires head.hash == e.hash && head.number == e.number && Extends(head, block, e)
    requires PositionsValid(head, OrderOf(orders, e.hash))
    requires forall i :: 0 <= i < |earlier| ==> earlier[i].hash != e.hash
    ensures var entry := Order(e.name, |block.DataOf(e.name)| - 1);
            var orders' := orders[e.hash := OrderOf(orders, e.hash) + [entry]];
            && PositionsValid(block, OrderOf(orders', e.hash))
            && Replay(earlier + [block], orders') == Replay(earlier + [head], orders) + [e]
  {
    var entry := Order(e.name, |block.DataOf(e.name)| - 1);
    var orders' := orders[e.hash := OrderOf(orders, e.hash) + [entry]];
    NewEntry(head, block, OrderOf(orders, e.hash), e);
    LastBlockReplay(earlier, head, block, orders, orders', e);
  }

  lemma OccursLater<P>(events: seq<Event<P>>, e: Event<P>)
    ensures forall h :: Occurs(events + [e], h) <==> Occurs(events, h) || h == e.hash
  {
    var later := events + [e];
    assert later[|events|] == e;
    assert forall i :: 0 <= i < |events| ==> later[i] == events[i];
  }

  /** What a block already holds does not differ from the next etrog update for it. */
  lemma RoomInHead<P>(events: seq<Event<P>>, head: Block<P>, e: Event<P>)
    requires EtrogsAgree(events + [e]) && EtrogOccurs(events, head) && head.hash == e.hash
    ensures HasRoom(head, e)
  {
    if e.name == UpdateEtrogSequence && head.updateEtrogSequence.Some? {
      var later := events + [e];
      var i :| 0 <= i < |events| && IsEtrog(events[i], head.hash, head.updateEtrogSequence.value);
      assert later[i] == events[i] && later[|events|] == e;
      assert SameEtrog(later[i], later[|events|]);
    }
  }

  /** Everything but the replay itself, after the head block was extended or a fresh one opened. */
  lemma ExtendedShape<P>(
    earlier: Blocks<P>, block: Block<P>, orders: Orders, orders': Orders, events: seq<Event<P>>, e: Event<P>)
    requires Shape(earlier, orders, events)
    requires block.hash == e.hash && block.number == e.number
    requires forall i :: 0 <= i < |earlier| ==> earlier[i].hash != e.hash
    requires e.hash in orders' && orders' == orders[e.hash := orders'[e.hash]]
    requires PositionsValid(block, orders'[e.hash])
    requires EtrogOccurs(events + [e], block)
    ensures Shape(earlier + [block], orders', events + [e])
  {
    OccursLater(events, e);
    var blocks := earlier + [block];
    forall i | 0 <= i < |blocks|
      ensures PositionsValid(blocks[i], OrderOf(orders', blocks[i].hash)) && EtrogOccurs(events + [e], blocks[i])
    {
      if i < |earlier| {
        assert PositionsValid(earlier[i], OrderOf(orders, earlier[i].hash));
        EtrogLater(events, earlier[i], e);
      }
    }
  }

  /** In a contiguous log an event opens a new block exactly when its block was not seen before. */
  lemma HeadOrNew<P>(blocks: Blocks<P>, events: seq<Event<P>>, e: Event<P>)
    requires forall i :: 0 <= i < |blocks| ==> Occurs(events, blocks[i].hash)
    requires if events == [] then blocks == [] else IsHeadBlock(blocks, events[|events| - 1])
    requires Contiguous(events + [e])
    ensures IsHeadBlock(blocks, e) <==> Occurs(events, e.hash)
  {
    var later := events + [e];
    assert forall i :: 0 <= i < |events| ==> later[i] == events[i];
    if Occurs(events, e.hash) {
      var i :| 0 <= i < |events| && events[i].hash == e.hash;
      var n := |events|;
      assert later[i].hash == later[n].hash && later[n - 1].hash == later[n].hash;
      assert later[n - 1].number == later[n].number;
    }
  }

  lemma PrefixHypotheses<P>(events: seq<Event<P>>, e: Event<P>)
    requires Contiguous(events + [e]) && EtrogsAgree(events + [e])
    ensures Contiguous(events) && EtrogsAgree(events)
  {
    var later := events + [e];
    assert forall i :: 0 <= i < |events| ==> later[i] == events[i];
  }

  /** The invariant after the head block was extended, or a fresh one was opened and extended. */
  lemma ExtendedRepresents<P>(
    earlier: Blocks<P>, head: Block<P>, block: Block<P>, orders: Orders, events: seq<Event<P>>, e: Event<P>)
    requires Shape(earlier, orders, events) && Replay(earlier + [head], orders) == events
    requires head.hash == e.hash && head.number == e.number && Extends(head, block, e)
    requires PositionsValid(head, OrderOf(orders, e.hash))
    requires forall i :: 0 <= i < |earlier| ==> earlier[i].hash != e.hash
    requires EtrogOccurs(events + [e], block)
    ensures var entry := Order(e.name, |block.DataOf(e.name)| - 1);
            Represents(earlier + [block], orders[e.hash := OrderOf(orders, e.hash) + [entry]], events + [e])
  {
    var entry := Order(e.name, |block.DataOf(e.name)| - 1);
    var orders' := orders[e.hash := OrderOf(orders, e.hash) + [entry]];
    ExtendedReplay(earlier, head, block, orders, e);
    ExtendedShape(earlier, block, orders, orders', events, e);
  }

  /** What adding to the head block relies on. */
  lemma HeadFacts<P>(earlier: Blocks<P>, head: Block<P>, orders: Orders, events: seq<Event<P>>, e: Event<P>)
    requires Shape(earlier + [head], orders, events) && head.hash == e.hash && EtrogsAgree(events + [e])
    ensures Shape(earlier, orders, events)
    ensures PositionsValid(head, OrderOf(orders, e.hash))
    ensures forall i :: 0 <= i < |earlier| ==> earlier[i].hash != e.hash
    ensures HasRoom(head, e) && EtrogOccurs(events + [e], head.Append(e.name, e.data))
  {
    var blocks := earlier + [head];
    assert blocks[|earlier|] == head && forall i :: 0 <= i < |earlier| ==> blocks[i] == earlier[i];
    RoomInHead(events, head, e);
    EtrogAfterAppend(events, head, e);
  }

  lemma AddToHead<P>(blocks: Blocks<P>, orders: Orders, events: seq<Event<P>>, e: Event<P>)
    requires Represents(blocks, orders, events) && IsHeadBlock(blocks, e) && EtrogsAgree(events + [e])
    ensures var (blocks', orders') := Add(blocks, orders, e); Represents(blocks', orders', events + [e])
  {
    var last := |blocks| - 1;
    var earlier, head := blocks[..last], blocks[last];
    assert blocks == earlier + [head];
    var block := head.Append(e.name, e.data);
    var entry := Order(e.name, |block.DataOf(e.name)| - 1);
    assert Add(blocks, orders, e) == (earlier + [block], orders[e.hash := OrderOf(orders, e.hash) + [entry]]);
    HeadFacts(earlier, head, orders, events, e);
    AppendExtends(head, e);
    ExtendedRepresents(earlier, head, block, orders, events, e);
  }

  /** A block that was just opened has nothing to replay. */
  lemma FreshBlock<P>(blocks: Blocks<P>, orders: Orders, events: seq<Event<P>>, e: Event<P>)
    requires Shape(blocks, orders, events) && !Occurs(events, e.hash)
    ensures OrderOf(orders, e.hash) == []
    ensures Replay(blocks + [PrepareBlock(e)], orders) == Replay(blocks, orders)
    ensures forall i :: 0 <= i < |blocks| ==> blocks[i].hash != e.hash
  {
    ReplaySnoc(blocks, PrepareBlock(e), orders);
  }

  lemma AddNewBlock<P>(blocks: Blocks<P>, orders: Orders, events: seq<Event<P>>, e: Event<P>)
    requires Represents(blocks, orders, events) && !IsHeadBlock(blocks, e) && !Occurs(events, e.hash)
    ensures var (blocks', orders') := Add(blocks, orders, e); Represents(blocks', orders', events + [e])
  {
    var head := PrepareBlock(e);
    FreshBlock(blocks, orders, events, e);
    EtrogAfterAppend(events, head, e);
    AppendExtends(head, e);
    var block := head.Append(e.name, e.data);
    ExtendedRepresents(blocks, head, block, orders, events, e);
  }

  lemma AddKeeps<P>(blocks: Blocks<P>, orders: Orders, events: seq<Event<P>>, e: Event<P>)
    requires Represents(blocks, orders, events)
    requires Contiguous(events + [e]) && EtrogsAgree(events + [e])
    ensures var (blocks', orders') := Add(blocks, orders, e); Represents(blocks', orders', events + [e])
  {
    HeadOrNew(blocks, events, e);
    if IsHeadBlock(blocks, e) {
      AddToHead(blocks, orders, events, e);
    } else {
      AddNewBlock(blocks, orders, events, e);
    }
  }

  lemma {:induction false} AddAllRepresents<P>(events: seq<Event<P>>)
    requires Contiguous(events) && EtrogsAgree(events)
    ensures var (blocks, orders) := AddAll(events); Represents(blocks, orders, events)
  {
    if events != [] {
      var last := |events| - 1;
      assert events == events[..last] + [events[last]];
      PrefixHypotheses(events[..last], events[last]);
      AddAllRepresents(events[..last]);
      var (blocks, orders) := AddAll(events[..last]);
      AddKeeps(blocks, orders, events[..last], events[last]);
    }
  }

  // ----- Why two different etrog updates of one block cannot be replayed -----

  ghost predicate DistinctBlocks<P>(blocks: Blocks<P>) {
    forall i, j :: 0 <= i < j < |blocks| ==> blocks[i].hash != blocks[j].hash
  }

  /** What holds of the blocks of a contiguous log, whatever the etrog updates. */
  ghost predicate BlocksStem<P>(blocks: Blocks<P>, events: seq<Event<P>>) {
    && DistinctBlocks(blocks)
    && (forall i :: 0 <= i < |blocks| ==> Occurs(events, blocks[i].hash))
    && (if events == [] then blocks == [] else IsHeadBlock(blocks, events[|events| - 1]))
  }

  lemma AddStems<P>(blocks: Blocks<P>, orders: Orders, events: seq<Event<P>>, e: Event<P>)
    requires BlocksStem(blocks, events) && Contiguous(events + [e])
    ensures BlocksStem(Add(blocks, orders, e).0, events + [e])
  {
    HeadOrNew(blocks, events, e);
    OccursLater(events, e);
    var head := if IsHeadBlock(blocks, e) then blocks[|blocks| - 1] else PrepareBlock(e);
    AppendedData(head, e);
    var blocks' := Add(blocks, orders, e).0;
    assert forall i :: 0 <= i < |blocks'| - 1 ==> blocks'[i] == blocks[i];
    assert blocks'[|blocks'| - 1] == head.Append(e.name, e.data);
  }

  lemma {:induction false} AddAllStems<P>(events: seq<Event<P>>)
    requires Contiguous(events)
    ensures BlocksStem(AddAll(events).0, events)
  {
    if events != [] {
      var last := |events| - 1;
      assert events == events[..last] + [events[last]];
      AddAllStems(events[..last]);
      var (blocks, orders) := AddAll(events[..last]);
      AddStems(blocks, orders, events[..last], events[last]);
    }
  }

  ghost predicate StemsFrom<P>(block: Block<P>, e: Event<P>) {
    && e.hash == block.hash
    && (e.name == UpdateEtrogSequence ==> block.updateEtrogSequence == Some(e.data))
  }

  lemma {:induction false} ReplayedFromBlock<P>(block: Block<P>, orders: seq<Order>, e: Event<P>)
    requires e in ReplayBlock(block, orders)
    ensures StemsFrom(block, e)
  {
    var last := |orders| - 1;
    var Order(name, pos) := orders[last];
    if e in ReplayBlock(block, orders[..last]) {
      ReplayedFromBlock(block, orders[..last], e);
    } else {
      assert e == Event(block.hash, block.number, name, block.DataOf(name)[pos]);
    }
  }

  lemma {:induction false} ReplayedFrom<P>(blocks: Blocks<P>, orders: Orders, e: Event<P>) returns (i: nat)
    requires e in Replay(blocks, orders)
    ensures i < |blocks| && StemsFrom(blocks[i], e)
  {
    var last := |blocks| - 1;
    if e in Replay(blocks[..last], orders) {
      i := ReplayedFrom(blocks[..last], orders, e);
    } else {
      i := last;
      ReplayedFromBlock(blocks[last], OrderOf(orders, blocks[last].hash), e);
    }
  }

  /** A block answers with its one etrog update for all of them. */
  lemma ReplayedEtrogsAgree<P>(blocks: Blocks<P>, orders: Orders)
    requires DistinctBlocks(blocks)
    ensures EtrogsAgree(Replay(blocks, orders))
  {
    var replayed := Replay(blocks, orders);
    forall i, j | 0 <= i < j < |replayed|
      ensures SameEtrog(replayed[i], replayed[j])
    {
      var k := ReplayedFrom(blocks, orders, replayed[i]);
      var l := ReplayedFrom(blocks, orders, replayed[j]);
    }
  }

  lemma ReplayExact<P>(events: seq<Event<P>>)
    requires Contiguous(events)
    ensures var (blocks, orders) := AddAll(events); Replay(blocks, orders) == events <==> EtrogsAgree(events)
  {
    var (blocks, orders) := AddAll(events);
    AddAllStems(events);
    ReplayedEtrogsAgree(blocks, orders);
    if EtrogsAgree(events) {
      AddAllRepresents(events);
    }
  }

  /**
   Replaying the order over the returned blocks gives back the relevant events, in log order, each once,
   if and only if no block has two different etrog updates.
   */
  lemma ReplayGivesEvents<P>(logs: seq<Log<P>>)
    requires Contiguous(RelevantEvents(logs))
    ensures var (blocks, orders) := AddAll(RelevantEvents(logs));
            Replay(blocks, orders) == RelevantEvents(logs) <==> EtrogsAgree(RelevantEvents(logs))
  {
    ReplayExact(RelevantEvents(logs));
  }

  const TWO_ETROGS: seq<Event<nat>> := [Event(7, 1, UpdateEtrogSequence, 10), Event(7, 1, UpdateEtrogSequence, 20)]

  /** The code keeps only the later of two etrog updates of one block. */
  lemma SecondEtrogOverwrites()
    ensures Contiguous(TWO_ETROGS)
    ensures var (blocks, orders) := AddAll(TWO_ETROGS); Replay(blocks, orders) != TWO_ETROGS
  {
    ReplayExact(TWO_ETROGS);
    assert !SameEtrog(TWO_ETROGS[0], TWO_ETROGS[1]);
  }
}
