/**
 Monitored transactions and what one call of the manager does to a stored one
 (ethtxmanager/monitoredtx.go, ethtxmanager/ethtxmanager.go).

 A transaction hash is modelled by the signed transaction itself, so equal hashes mean equal contents.
 Every answer of the node, the signer, the database and the synchronizer is an input.
 */
module EthTxModel {
  import opened Wrappers

  type Address = nat

  datatype Tx = Tx(
    from: Address, to: Option<Address>, nonce: nat, value: Option<nat>, data: seq<bv8>, gas: nat, gasPrice: nat)

  datatype Status = Created | Sent | Failed | Confirmed | Reorged | Done

  datatype Key = Key(owner: string, id: string)

  datatype MonitoredTx = MonitoredTx(
    from: Address, to: Option<Address>, nonce: nat, value: Option<nat>, data: seq<bv8>,
    gas: nat, gasOffset: nat, gasPrice: nat,
    status: Status, blockNumber: Option<nat>, history: set<Tx>)
  {
    /** The transaction the current fields stand for, signed by the sender. */
    function BuildTx(): Tx {
      Tx(from, to, nonce, value, data, gas + gasOffset, gasPrice)
    }
  }

  type Store = map<Key, MonitoredTx>

  datatype Receipt = Receipt(success: bool, block: nat)
  datatype Lookup = LookupError | NotMined | Mined(receipt: Receipt)
  datatype Found = FoundInNetwork | NotFound | FindError
  datatype Wait = WaitError | TimedOut | MinedInTime
  datatype RevertMessage = NoRevertError | ExecutionReverted | OtherRevertError

  datatype Config = Config(forcedGas: nat, maxGasPriceLimit: nat)

  /** What the outside world answers during one `monitorTx`. `None` and `false` stand for errors. */
  datatype Answers = Answers(
    lookup: Tx -> Lookup,
    createdRead: bool, pendingNonce: Option<nat>, nonceStored: bool,
    estimatedGas: Option<nat>, adjustedPrice: Option<nat>, reviewStored: bool,
    signed: bool, historyStored: bool,
    found: Found, sendOk: bool, sentStored: bool,
    wait: Wait, receipt: Tx -> Option<Receipt>,
    lastSyncedBlock: Option<nat>, failedTxFound: bool, revert: RevertMessage, finalStored: bool)

  /** The result of scanning the history for receipts. `receipt` matters only when confirmed. */
  datatype Scan = Scan(confirmed: bool, receipt: Receipt, hasFailed: bool, allMined: bool) {
    predicate NeedsNonceReview() {
      !confirmed && hasFailed && allMined
    }
  }

  predicate Succeeded(l: Lookup) {
    l.Mined? && l.receipt.success
  }

  predicate FailedOnChain(l: Lookup) {
    l.Mined? && !l.receipt.success
  }

  /**
   What a scan reports, without naming the order in which the history was visited. When there is no
   success the other two flags are exact; they are not read otherwise.
   */
  ghost predicate IsScan(history: set<Tx>, lookup: Tx -> Lookup, s: Scan) {
    && (s.confirmed <==> exists t :: t in history && Succeeded(lookup(t)))
    && (s.confirmed ==> exists t :: t in history && lookup(t) == Mined(s.receipt) && s.receipt.success)
    && (!s.confirmed ==> (s.hasFailed <==> exists t :: t in history && FailedOnChain(lookup(t))))
    && (!s.confirmed ==> (s.allMined <==> forall t :: t in history ==> !lookup(t).NotMined?))
  }

  /** The gas price after the configured limit. */
  function LimitedGasPrice(cfg: Config, adjusted: Option<nat>): (price: Option<nat>)
    ensures price.Some? <==> adjusted.Some?
    ensures price.Some? && cfg.maxGasPriceLimit > 0 ==> price.value <= cfg.maxGasPriceLimit
    ensures price.Some? ==> price.value <= adjusted.value
    ensures price.Some? ==> price == adjusted || price == Some(cfg.maxGasPriceLimit)
  {
    match adjusted
    case None => None
    case Some(p) =>
      if cfg.maxGasPriceLimit > 0 && p > cfg.maxGasPriceLimit then Some(cfg.maxGasPriceLimit) else adjusted
  }

  predicate IsCreatedBy(store: Store, k: Key, from: Address) {
    k in store && store[k].from == from && store[k].status == Created
  }

  /** The nonce to use next: past every created transaction of the sender, else the node's answer. */
  ghost predicate IsNextNonce(store: Store, from: Address, read: bool, pending: Option<nat>, next: Option<nat>) {
    if !read then next.None?
    else if exists k :: IsCreatedBy(store, k, from) then
      && next.Some?
      && (exists k :: IsCreatedBy(store, k, from) && store[k].nonce + 1 == next.value)
      && (forall k :: IsCreatedBy(store, k, from) ==> store[k].nonce < next.value)
    else next == pending
  }

  // ----- The writes and sends of one monitorTx, in order -----

  datatype Effect = Stored(mTx: MonitoredTx) | SentOut(tx: Tx)

  function Max(x: nat, y: nat): nat {
    if x >= y then x else y
  }

  function MonitorEffects(cfg: Config, m: MonitoredTx, next: Option<nat>, a: Answers, s: Scan): seq<Effect> {
    if s.NeedsNonceReview() then
      if next.None? || !a.nonceStored then []
      else
        var m1 := m.(nonce := Max(m.nonce, next.value));
        [Stored(m1)] + AfterNonceReview(cfg, m1, a, s)
    else
      AfterNonceReview(cfg, m, a, s)
  }

  function AfterNonceReview(cfg: Config, m: MonitoredTx, a: Answers, s: Scan): seq<Effect> {
    if s.confirmed then Conclude(m, a, s.receipt)
    else if m.status == Reorged then []
    else if m.status == Sent then
      var price := LimitedGasPrice(cfg, a.adjustedPrice);
      if a.estimatedGas.None? || price.None? || !a.reviewStored then []
      else
        var m1 := m.(gas := Max(m.gas, a.estimatedGas.value), gasPrice := Max(m.gasPrice, price.value));
        [Stored(m1)] + RecordTx(m1, a)
    else RecordTx(m, a)
  }

  function RecordTx(m: MonitoredTx, a: Answers): seq<Effect> {
    var tx := m.BuildTx();
    if !a.signed then []
    else if tx in m.history then SendTx(m, tx, a)
    else if !a.historyStored then []
    else
      var m1 := m.(history := m.history + {tx});
      [Stored(m1)] + SendTx(m1, tx, a)
  }

  function SendTx(m: MonitoredTx, tx: Tx, a: Answers): seq<Effect> {
    if a.found != NotFound then AwaitTx(m, tx, a)
    else if !a.sendOk then [SentOut(tx)]
    else if m.status != Created then [SentOut(tx)] + AwaitTx(m, tx, a)
    else if !a.sentStored then [SentOut(tx)]
    else
      var m1 := m.(status := Sent);
      [SentOut(tx)] + ([Stored(m1)] + AwaitTx(m1, tx, a))
  }

  function AwaitTx(m: MonitoredTx, tx: Tx, a: Answers): seq<Effect> {
    if a.wait != MinedInTime || a.receipt(tx).None? then [] else Conclude(m, a, a.receipt(tx).value)
  }

  /** `shouldContinueToMonitorThisTx` for a failed receipt. */
  predicate KeepsMonitoring(a: Answers) {
    a.failedTxFound && a.revert == ExecutionReverted
  }

  function Conclude(m: MonitoredTx, a: Answers, receipt: Receipt): seq<Effect> {
    if !a.finalStored then []
    else if receipt.success then
      if a.lastSyncedBlock.None? || a.lastSyncedBlock.value < receipt.block then []
      else [Stored(m.(status := Confirmed, blockNumber := Some(receipt.block)))]
    else if KeepsMonitoring(a) then []
    else [Stored(m.(status := Failed, blockNumber := Some(receipt.block)))]
  }

  /** The stored transaction after some of the effects took place. */
  function StoredAfter(m: MonitoredTx, es: seq<Effect>): MonitoredTx
    decreases |es|
  {
    if es == [] then m
    else if es[0].Stored? then StoredAfter(es[0].mTx, es[1..])
    else StoredAfter(m, es[1..])
  }

  /** What was handed to SendTx on behalf of one stored transaction. */
  function SendsOf(key: Key, es: seq<Effect>): set<(Key, Tx)> {
    set e | e in es && e.SentOut? :: (key, e.tx)
  }

  lemma FirstEffect(key: Key, m: MonitoredTx, e: Effect, es: seq<Effect>)
    ensures StoredAfter(m, [e] + es) == StoredAfter(if e.Stored? then e.mTx else m, es)
    ensures SendsOf(key, [e] + es) == SendsOf(key, es) + if e.SentOut? then {(key, e.tx)} else {}
  {
    assert ([e] + es)[1..] == es;
    if e.SentOut? {
      assert e in [e] + es;
    }
  }

  // ----- Storage operations over the table -----

  /** The keys `GetByBlock(from, nil)` returns. */
  function AtOrAfter(store: Store, from: nat): set<Key> {
    set k | k in store && store[k].blockNumber.Some? && store[k].blockNumber.value >= from
  }

  /** The table after the rows of `keys` were set to reorged. */
  function ReorgedRows(store: Store, keys: set<Key>): (store': Store)
    ensures store'.Keys == store.Keys
  {
    map k | k in store :: if k in keys then store[k].(status := Reorged, blockNumber := None) else store[k]
  }
}
