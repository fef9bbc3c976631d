/**
 Whole runs of the transaction manager against an arbitrary chain: what every reachable state keeps,
 and when at most one transaction of a monitored transaction's history can succeed.
 */
module EthTxRuns {
  import opened Wrappers
  import opened EthTxModel
  import opened EthTxManager

  /** `chain` maps mined transactions to receipts; `synced` is the highest L1 block synchronized so far. */
  datatype World = World(store: Store, chain: map<Tx, Receipt>, sends: set<(Key, Tx)>, synced: nat)

  /** A monitoring round may stop, by failure or crash, after any number of its effects. */
  datatype Op =
    | AddOp(key: Key, from: Address, to: Option<Address>, value: Option<nat>, data: seq<bv8>, gasOffset: nat,
            next: Option<nat>, addAnswers: AddAnswers)
    | MonitorOp(key: Key, a: Answers, s: Scan, next: Option<nat>, upTo: nat)
    | ReorgOp(fromBlock: nat, keys: set<Key>)
    | DoneOp(key: Key)
    | ChainOp

  predicate Monitored(status: Status) {
    status == Created || status == Sent || status == Reorged
  }

  ghost predicate Next(cfg: Config, w: World, op: Op, w': World) {
    match op
    case AddOp(key, from, to, value, data, gasOffset, next, a) =>
      var row := NewRow(cfg, from, to, value, data, gasOffset, next, a);
      && IsNextNonce(w.store, from, a.createdRead, a.pendingNonce, next)
      && w'.sends == w.sends
      && (w'.store == w.store || (row.Some? && key !in w.store && w'.store == w.store[key := row.value]))
    case MonitorOp(key, a, s, next, upTo) =>
      && key in w.store && Monitored(w.store[key].status)
      && IsScan(w.store[key].history, a.lookup, s)
      && (s.NeedsNonceReview() ==> IsNextNonce(w.store, w.store[key].from, a.createdRead, a.pendingNonce, next))
      && var es := MonitorEffects(cfg, w.store[key], next, a, s);
      && upTo <= |es|
      && w'.store == w.store[key := StoredAfter(w.store[key], es[..upTo])]
      && w'.sends == w.sends + SendsOf(key, es[..upTo])
    case ReorgOp(fromBlock, keys) =>
      keys <= AtOrAfter(w.store, fromBlock) && w'.store == ReorgedRows(w.store, keys) && w'.sends == w.sends
    case DoneOp(key) =>
      key in w.store && w'.store == w.store[key := w.store[key].(status := Done)] && w'.sends == w.sends
    case ChainOp =>
      w'.store == w.store && w'.sends == w.sends
  }

  /** The caller listed the row as confirmed, then or earlier; it does not look again before completing it. */
  ghost predicate ListedConfirmed(ws: seq<World>, i: nat, k: Key)
    requires i < |ws|
  {
    exists j :: 0 <= j <= i && k in ws[j].store && ws[j].store[k].status == Confirmed
  }

  ghost predicate IsRun(cfg: Config, ws: seq<World>, ops: seq<Op>) {
    && |ws| == |ops| + 1
    && ws[0].store == map[] && ws[0].sends == {}
    && (forall i :: 0 <= i < |ops| ==> Next(cfg, ws[i], ops[i], ws[i + 1]))
    && (forall i :: 0 <= i < |ops| && ops[i].DoneOp? ==> ListedConfirmed(ws, i, ops[i].key))
  }

  // ----- One monitoring round, write by write -----

  /** The receipt a round concludes on comes from a transaction of the stored history. */
  ghost predicate IsReceiptOf(m: MonitoredTx, a: Answers, t: Tx, receipt: Receipt) {
    t in m.history && (a.lookup(t) == Mined(receipt) || a.receipt(t) == Some(receipt))
  }

  ghost predicate IsConclusion(m: MonitoredTx, a: Answers, receipt: Receipt, m': MonitoredTx) {
    && (receipt.success ==> a.lastSyncedBlock.Some? && receipt.block <= a.lastSyncedBlock.value)
    && (!receipt.success ==> !KeepsMonitoring(a))
    && (m.status == Reorged ==> receipt.success)
    && m' == m.(status := if receipt.success then Confirmed else Failed, blockNumber := Some(receipt.block))
  }

  /** Everything a single storage write of `monitorTx` can do to the row. */
  ghost predicate Write(m: MonitoredTx, a: Answers, s: Scan, next: Option<nat>, m': MonitoredTx) {
    && Monitored(m.status)
    && (|| (s.NeedsNonceReview() && IsScan(m.history, a.lookup, s) && next.Some?
            && m' == m.(nonce := Max(m.nonce, next.value)))
        || (m.status != Reorged && m'.gas >= m.gas && m'.gasPrice >= m.gasPrice
            && m' == m.(gas := m'.gas, gasPrice := m'.gasPrice))
        || (m.status != Reorged && m' == m.(history := m.history + {m.BuildTx()}))
        || (m.status == Created && m' == m.(status := Sent))
        || (exists t, receipt :: IsReceiptOf(m, a, t, receipt) && IsConclusion(m, a, receipt, m')))
  }

  /** A list of effects in which every write is allowed and every send is already stored. */
  ghost predicate Steps(m: MonitoredTx, a: Answers, s: Scan, next: Option<nat>, es: seq<Effect>)
    decreases |es|
  {
    if es == [] then true
    else if es[0].Stored? then Write(m, a, s, next, es[0].mTx) && Steps(es[0].mTx, a, s, next, es[1..])
    else es[0].tx in m.history && Steps(m, a, s, next, es[1..])
  }

  lemma StepsCons(m: MonitoredTx, a: Answers, s: Scan, next: Option<nat>, e: Effect, es: seq<Effect>)
    requires if e.Stored? then Write(m, a, s, next, e.mTx) && Steps(e.mTx, a, s, next, es)
             else e.tx in m.history && Steps(m, a, s, next, es)
    ensures Steps(m, a, s, next, [e] + es)
  {
    assert ([e] + es)[1..] == es;
  }

  lemma ConcludeSteps(m: MonitoredTx, a: Answers, s: Scan, next: Option<nat>, t: Tx, receipt: Receipt)
    requires Monitored(m.status) && IsReceiptOf(m, a, t, receipt) && (m.status == Reorged ==> receipt.success)
    ensures Steps(m, a, s, next, Conclude(m, a, receipt))
  {
    var es := Conclude(m, a, receipt);
    if es != [] {
      assert IsConclusion(m, a, receipt, es[0].mTx);
      StepsCons(m, a, s, next, es[0], []);
    }
  }

  lemma SendSteps(m: MonitoredTx, a: Answers, s: Scan, next: Option<nat>, tx: Tx)
    requires Monitored(m.status) && m.status != Reorged && tx in m.history
    ensures Steps(m, a, s, next, SendTx(m, tx, a))
  {
    var m1 := if m.status == Created then m.(status := Sent) else m;
    if a.wait == MinedInTime && a.receipt(tx).Some? {
      ConcludeSteps(m, a, s, next, tx, a.receipt(tx).value);
      ConcludeSteps(m1, a, s, next, tx, a.receipt(tx).value);
    }
    if a.found == NotFound {
      StepsCons(m, a, s, next, SentOut(tx), []);
      StepsCons(m, a, s, next, SentOut(tx), AwaitTx(m, tx, a));
      if m.status == Created {
        StepsCons(m, a, s, next, Stored(m1), AwaitTx(m1, tx, a));
        StepsCons(m, a, s, next, SentOut(tx), [Stored(m1)] + AwaitTx(m1, tx, a));
      }
    }
  }

  lemma RecordSteps(m: MonitoredTx, a: Answers, s: Scan, next: Option<nat>)
    requires Monitored(m.status) && m.status != Reorged
    ensures Steps(m, a, s, next, RecordTx(m, a))
  {
    var tx := m.BuildTx();
    var m1 := m.(history := m.history + {tx});
    SendSteps(m1, a, s, next, tx);
    StepsCons(m, a, s, next, Stored(m1), SendTx(m1, tx, a));
    if tx in m.history {
      SendSteps(m, a, s, next, tx);
    }
  }

  lemma AfterNonceReviewSteps(cfg: Config, m: MonitoredTx, a: Answers, s: Scan, next: Option<nat>)
    requires Monitored(m.status) && IsScan(m.history, a.lookup, s)
    ensures Steps(m, a, s, next, AfterNonceReview(cfg, m, a, s))
  {
    if s.confirmed {
      var t :| t in m.history && a.lookup(t) == Mined(s.receipt) && s.receipt.success;
      ConcludeSteps(m, a, s, next, t, s.receipt);
    } else if m.status == Sent {
      var price := LimitedGasPrice(cfg, a.adjustedPrice);
      if a.estimatedGas.Some? && price.Some? {
        var m1 := m.(gas := Max(m.gas, a.estimatedGas.value), gasPrice := Max(m.gasPrice, price.value));
        RecordSteps(m1, a, s, next);
        StepsCons(m, a, s, next, Stored(m1), RecordTx(m1, a));
      }
    } else if m.status == Created {
      RecordSteps(m, a, s, next);
    }
  }

  /** Every write of a round is one of the allowed ones, and nothing is sent before it is stored. */
  lemma MonitorSteps(cfg: Config, m: MonitoredTx, a: Answers, s: Scan, next: Option<nat>)
    requires Monitored(m.status) && IsScan(m.history, a.lookup, s)
    ensures Steps(m, a, s, next, MonitorEffects(cfg, m, next, a, s))
  {
    AfterNonceReviewSteps(cfg, m, a, s, next);
    if s.NeedsNonceReview() && next.Some? {
      var m1 := m.(nonce := Max(m.nonce, next.value));
      AfterNonceReviewSteps(cfg, m1, a, s, next);
      StepsCons(m, a, s, next, Stored(m1), AfterNonceReview(cfg, m1, a, s));
    }
  }

  // ----- What a row keeps -----

  /** The block number is known exactly once the transaction was identified as mined. */
  ghost predicate BlockKnown(m: MonitoredTx) {
    m.blockNumber.Some? <==> m.status == Confirmed || m.status == Failed || m.status == Done
  }

  /** The part of it that every run keeps: only a completed row may be without its block. */
  ghost predicate BlockRule(m: MonitoredTx) {
    BlockKnown(m) || (m.status == Done && m.blockNumber.None?)
  }

  /** The transaction makes the requested call, with at least the requested extra gas. */
  ghost predicate IsRequested(m: MonitoredTx, t: Tx) {
    && t.from == m.from && t.to == m.to && t.value == m.value && t.data == m.data
    && m.gasOffset <= t.gas <= m.gas + m.gasOffset && t.gasPrice <= m.gasPrice
  }

  /** The history holds only transactions for this request, none with a later nonce. */
  ghost predicate OwnHistory(m: MonitoredTx) {
    forall t :: t in m.history ==> IsRequested(m, t) && t.nonce <= m.nonce
  }

  /** A later version of a row: same request, history and prices only grew. */
  ghost predicate Grew(m: MonitoredTx, m': MonitoredTx) {
    && m'.from == m.from && m'.to == m.to && m'.value == m.value && m'.data == m.data && m'.gasOffset == m.gasOffset
    && m.history <= m'.history
    && m.nonce <= m'.nonce && m.gas <= m'.gas && m.gasPrice <= m'.gasPrice
  }

  /** How one monitoring round may leave a row. */
  ghost predicate RoundKeeps(m: MonitoredTx, s: Scan, next: Option<nat>, m': MonitoredTx) {
    && BlockKnown(m') && OwnHistory(m') && Grew(m, m')
    && (m.status == Reorged ==> m'.status == Reorged || m'.status == Confirmed)
    && (!Monitored(m.status) ==> m'.status == m.status)
    && (m'.status == Created ==> m.status == Created)
    && m'.status != Done
    && (m'.status == Reorged ==> m.status == Reorged)
    && (m'.nonce == m.nonce || (s.NeedsNonceReview() && next.Some? && m'.nonce == Max(m.nonce, next.value)))
  }

  lemma WriteKeeps(m: MonitoredTx, a: Answers, s: Scan, next: Option<nat>, m': MonitoredTx)
    requires BlockKnown(m) && OwnHistory(m) && Write(m, a, s, next, m')
    ensures RoundKeeps(m, s, next, m')
  {
  }

  lemma RoundsCompose(m: MonitoredTx, s: Scan, next: Option<nat>, m1: MonitoredTx, m2: MonitoredTx)
    requires RoundKeeps(m, s, next, m1) && RoundKeeps(m1, s, next, m2)
    ensures RoundKeeps(m, s, next, m2)
  {
  }

  lemma {:induction false} StepsKeep(
    key: Key, m: MonitoredTx, a: Answers, s: Scan, next: Option<nat>, es: seq<Effect>, n: nat)
    requires BlockKnown(m) && OwnHistory(m) && m.status != Done && Steps(m, a, s, next, es) && n <= |es|
    ensures RoundKeeps(m, s, next, StoredAfter(m, es[..n]))
    ensures forall k, t :: (k, t) in SendsOf(key, es[..n]) ==> k == key && t in StoredAfter(m, es[..n]).history
    decreases |es|
  {
    if n > 0 {
      var m1 := if es[0].Stored? then es[0].mTx else m;
      if es[0].Stored? {
        WriteKeeps(m, a, s, next, m1);
      }
      StepsKeep(key, m1, a, s, next, es[1..], n - 1);
      assert es[..n] == [es[0]] + es[1..][..n - 1];
      FirstEffect(key, m, es[0], es[1..][..n - 1]);
      if es[0].Stored? {
        RoundsCompose(m, s, next, m1, StoredAfter(m, es[..n]));
      }
    }
  }

  // ----- What every reachable state keeps -----

  ghost predicate CreatedNoncesDistinct(store: Store) {
    forall k, k' :: k != k' && k in store && k' in store ==>
      !(store[k].status == store[k'].status == Created
        && store[k].from == store[k'].from && store[k].nonce == store[k'].nonce)
  }

  ghost predicate SendsRecorded(w: World) {
    forall k, t :: (k, t) in w.sends ==> k in w.store && t in w.store[k].history
  }

  ghost predicate Inv(w: World) {
    && (forall k :: k in w.store ==> BlockRule(w.store[k]) && OwnHistory(w.store[k]))
    && CreatedNoncesDistinct(w.store)
    && SendsRecorded(w)
  }

  ghost predicate StoreGrew(store: Store, store': Store) {
    forall k :: k in store ==> k in store' && Grew(store[k], store'[k])
  }

  /** The new nonce of a created transaction is past those of the sender's other created ones. */
  lemma NonceStaysDistinct(store: Store, key: Key, m': MonitoredTx, s: Scan, a: Answers, next: Option<nat>)
    requires key in store && CreatedNoncesDistinct(store)
    requires RoundKeeps(store[key], s, next, m')
    requires s.NeedsNonceReview() ==> IsNextNonce(store, store[key].from, a.createdRead, a.pendingNonce, next)
    ensures CreatedNoncesDistinct(store[key := m'])
  {
    if m'.status == Created {
      assert IsCreatedBy(store, key, store[key].from);
      forall k | k in store && k != key && store[k].from == m'.from && store[k].status == Created
        ensures store[k].nonce != m'.nonce
      {
        assert IsCreatedBy(store, k, m'.from);
      }
    }
  }

  lemma MonitorKeepsInv(cfg: Config, w: World, op: Op, w': World)
    requires op.MonitorOp? && Next(cfg, w, op, w') && Inv(w)
    ensures Inv(w') && StoreGrew(w.store, w'.store)
  {
    var m := w.store[op.key];
    var es := MonitorEffects(cfg, m, op.next, op.a, op.s);
    MonitorSteps(cfg, m, op.a, op.s, op.next);
    StepsKeep(op.key, m, op.a, op.s, op.next, es, op.upTo);
    NonceStaysDistinct(w.store, op.key, StoredAfter(m, es[..op.upTo]), op.s, op.a, op.next);
  }

  lemma AddKeepsInv(cfg: Config, w: World, op: Op, w': World)
    requires op.AddOp? && Next(cfg, w, op, w') && Inv(w)
    ensures Inv(w') && StoreGrew(w.store, w'.store)
  {
    if w'.store != w.store {
      forall k | IsCreatedBy(w.store, k, op.from)
        ensures w.store[k].nonce != w'.store[op.key].nonce
      {
      }
      assert forall k :: k in w.store && w.store[k].from == op.from && w.store[k].status == Created ==>
        IsCreatedBy(w.store, k, op.from);
    }
  }

  lemma ReorgKeepsInv(cfg: Config, w: World, op: Op, w': World)
    requires op.ReorgOp? && Next(cfg, w, op, w') && Inv(w)
    ensures Inv(w') && StoreGrew(w.store, w'.store)
  {
  }

  lemma DoneKeepsInv(cfg: Config, w: World, op: Op, w': World)
    requires op.DoneOp? && Next(cfg, w, op, w') && Inv(w)
    ensures Inv(w') && StoreGrew(w.store, w'.store)
  {
  }

  lemma NextKeepsInv(cfg: Config, w: World, op: Op, w': World)
    requires Next(cfg, w, op, w') && Inv(w)
    ensures Inv(w') && StoreGrew(w.store, w'.store)
  {
    match op
    case AddOp(_, _, _, _, _, _, _, _) => AddKeepsInv(cfg, w, op, w');
    case MonitorOp(_, _, _, _, _) => MonitorKeepsInv(cfg, w, op, w');
    case ReorgOp(_, _) => ReorgKeepsInv(cfg, w, op, w');
    case DoneOp(_) => DoneKeepsInv(cfg, w, op, w');
    case ChainOp =>
  }

  /** Every state of every run, whatever the chain, the database and the network answer. */
  lemma {:induction false} ReachableInv(cfg: Config, ws: seq<World>, ops: seq<Op>, i: nat)
    requires IsRun(cfg, ws, ops) && i < |ws|
    ensures Inv(ws[i])
  {
    if i > 0 {
      ReachableInv(cfg, ws, ops, i - 1);
      NextKeepsInv(cfg, ws[i - 1], ops[i - 1], ws[i]);
    }
  }

  lemma RunNext(cfg: Config, ws: seq<World>, ops: seq<Op>, i: nat)
    requires IsRun(cfg, ws, ops) && i < |ops|
    ensures Inv(ws[i]) && Next(cfg, ws[i], ops[i], ws[i + 1])
  {
    ReachableInv(cfg, ws, ops, i);
  }

  /** Rows are never dropped; histories, nonces, gas and gas prices never shrink over a run. */
  lemma {:induction false} RunGrows(cfg: Config, ws: seq<World>, ops: seq<Op>, i: nat, j: nat)
    requires IsRun(cfg, ws, ops) && i <= j < |ws|
    ensures StoreGrew(ws[i].store, ws[j].store)
  {
    if i < j {
      RunGrows(cfg, ws, ops, i, j - 1);
      ReachableInv(cfg, ws, ops, j - 1);
      NextKeepsInv(cfg, ws[j - 1], ops[j - 1], ws[j]);
    }
  }

  /** A reorged transaction is never sent again; monitoring can only confirm it, else it stays or is completed. */
  lemma ReorgedOnlyConfirms(cfg: Config, ws: seq<World>, ops: seq<Op>, i: nat, k: Key)
    requires IsRun(cfg, ws, ops) && i < |ops| && k in ws[i].store && ws[i].store[k].status == Reorged
    ensures k in ws[i + 1].store
    ensures var status := ws[i + 1].store[k].status;
            if ops[i] == DoneOp(k) then status == Done else status == Reorged || status == Confirmed
    ensures ws[i + 1].store[k].history == ws[i].store[k].history
    ensures forall t :: (k, t) in ws[i + 1].sends ==> (k, t) in ws[i].sends
  {
    var w, op := ws[i], ops[i];
    ReachableInv(cfg, ws, ops, i);
    assert Next(cfg, w, op, ws[i + 1]);
    if op.MonitorOp? {
      var m := w.store[op.key];
      var es := MonitorEffects(cfg, m, op.next, op.a, op.s);
      MonitorSteps(cfg, m, op.a, op.s, op.next);
      StepsKeep(op.key, m, op.a, op.s, op.next, es, op.upTo);
      if op.key == k {
        ReorgedHistory(cfg, k, m, op.next, op.a, op.s, op.upTo);
      }
    }
  }

  lemma ReorgedHistory(cfg: Config, key: Key, m: MonitoredTx, next: Option<nat>, a: Answers, s: Scan, n: nat)
    requires m.status == Reorged && n <= |MonitorEffects(cfg, m, next, a, s)|
    ensures var es := MonitorEffects(cfg, m, next, a, s)[..n];
            StoredAfter(m, es).history == m.history && SendsOf(key, es) == {}
  {
    var es := MonitorEffects(cfg, m, next, a, s);
    assert |es| <= 1;
    assert n == 0 ==> es[..n] == [];
    if n == 1 {
      assert es[..n] == [es[0]] + [];
      FirstEffect(key, m, es[0], []);
    }
  }

  // ----- Completion -----

  ghost predicate AllBlocksKnown(w: World) {
    forall k :: k in w.store ==> BlockKnown(w.store[k])
  }

  /** The guard that completion lacks: the row it is about to write is not being monitored. */
  ghost predicate CompletesMined(w: World, op: Op) {
    op.DoneOp? && op.key in w.store ==> !Monitored(w.store[op.key].status)
  }

  lemma NextKeepsBlocks(cfg: Config, w: World, op: Op, w': World)
    requires Next(cfg, w, op, w') && Inv(w) && AllBlocksKnown(w)
    ensures AllBlocksKnown(w') <==> CompletesMined(w, op)
  {
    if op.MonitorOp? {
      var m := w.store[op.key];
      var es := MonitorEffects(cfg, m, op.next, op.a, op.s);
      MonitorSteps(cfg, m, op.a, op.s, op.next);
      StepsKeep(op.key, m, op.a, op.s, op.next, es, op.upTo);
    } else if op.DoneOp? {
      DoneExact(w.store[op.key]);
      assert op.key in w'.store && w'.store[op.key] == w.store[op.key].(status := Done);
    }
  }

  lemma {:induction false} BlocksKnownUpTo(cfg: Config, ws: seq<World>, ops: seq<Op>, i: nat)
    requires IsRun(cfg, ws, ops) && i < |ws|
    ensures (forall j :: 0 <= j <= i ==> AllBlocksKnown(ws[j]))
       <==> (forall j :: 0 <= j < i ==> CompletesMined(ws[j], ops[j]))
  {
    if i > 0 {
      BlocksKnownUpTo(cfg, ws, ops, i - 1);
      ReachableInv(cfg, ws, ops, i - 1);
      if AllBlocksKnown(ws[i - 1]) {
        NextKeepsBlocks(cfg, ws[i - 1], ops[i - 1], ws[i]);
      }
    }
  }

  /**
   Over every run a block number is set exactly when the status is confirmed, failed or done, if and only if
   no row was being monitored again by the time it was completed.
   */
  lemma CompletionExact(cfg: Config, ws: seq<World>, ops: seq<Op>)
    requires IsRun(cfg, ws, ops)
    ensures (forall i :: 0 <= i < |ws| ==> AllBlocksKnown(ws[i]))
       <==> (forall j :: 0 <= j < |ops| ==> CompletesMined(ws[j], ops[j]))
  {
    BlocksKnownUpTo(cfg, ws, ops, |ops|);
  }

  /** Once confirmed, a row is confirmed, reorged or done ever after. */
  predicate Settled(status: Status) {
    status == Confirmed || status == Reorged || status == Done
  }

  ghost predicate SettledAt(w: World, k: Key) {
    k in w.store && Settled(w.store[k].status)
  }

  lemma NextKeepsSettled(cfg: Config, w: World, op: Op, w': World, k: Key)
    requires Next(cfg, w, op, w') && Inv(w) && SettledAt(w, k)
    ensures SettledAt(w', k)
  {
    if op.MonitorOp? && op.key == k {
      var m := w.store[k];
      var es := MonitorEffects(cfg, m, op.next, op.a, op.s);
      MonitorSteps(cfg, m, op.a, op.s, op.next);
      StepsKeep(k, m, op.a, op.s, op.next, es, op.upTo);
    }
  }

  lemma {:induction false} SettledStays(cfg: Config, ws: seq<World>, ops: seq<Op>, i: nat, j: nat, k: Key)
    requires IsRun(cfg, ws, ops) && i <= j < |ws| && SettledAt(ws[i], k)
    ensures SettledAt(ws[j], k)
  {
    if i < j {
      SettledStays(cfg, ws, ops, i, j - 1, k);
      RunNext(cfg, ws, ops, j - 1);
      NextKeepsSettled(cfg, ws[j - 1], ops[j - 1], ws[j], k);
    }
  }

  lemma CompletedWasSettled(cfg: Config, ws: seq<World>, ops: seq<Op>, i: nat)
    requires IsRun(cfg, ws, ops) && i < |ops| && ops[i].DoneOp?
    ensures SettledAt(ws[i], ops[i].key)
  {
    var k := ops[i].key;
    assert ListedConfirmed(ws, i, k);
    var j :| 0 <= j <= i && k in ws[j].store && ws[j].store[k].status == Confirmed;
    SettledStays(cfg, ws, ops, j, i, k);
  }

  // ----- Runs against a chain with permanent receipts -----

  /** A sender's nonce is consumed at most once (section 6 of the Ethereum Yellow Paper). */
  ghost predicate NonceUsedOnce(chain: map<Tx, Receipt>) {
    forall t, t' :: t in chain && t' in chain && t.from == t'.from && t.nonce == t'.nonce ==> t == t'
  }

  /** Answers about receipts and synchronization are those of the chain, some time during the round. */
  ghost predicate Truthful(a: Answers, w: World) {
    && (forall t :: a.lookup(t).Mined? ==> t in w.chain && w.chain[t] == a.lookup(t).receipt)
    && (forall t :: a.receipt(t).Some? ==> t in w.chain && w.chain[t] == a.receipt(t).value)
    && (a.lastSyncedBlock.Some? ==> a.lastSyncedBlock.value <= w.synced)
  }

  ghost predicate ChainStep(w: World, op: Op, w': World) {
    && (forall t :: t in w.chain ==> t in w'.chain && w'.chain[t] == w.chain[t])
    && NonceUsedOnce(w'.chain)
    && w.synced <= w'.synced
    && (op.MonitorOp? ==> Truthful(op.a, w'))
  }

  ghost predicate NonceUsed(chain: map<Tx, Receipt>, from: Address, nonce: nat) {
    exists t :: t in chain && t.from == from && t.nonce == nonce
  }

  /** The transaction succeeded, or its nonce is still to be used. */
  ghost predicate CanSucceed(chain: map<Tx, Receipt>, t: Tx) {
    if t in chain then chain[t].success else !NonceUsed(chain, t.from, t.nonce)
  }

  /** Lookups that failed during a nonce review hid nothing that has succeeded or still can. */
  ghost predicate HarmlessErrors(history: set<Tx>, a: Answers, chain: map<Tx, Receipt>) {
    forall t :: t in history && a.lookup(t).LookupError? ==> !CanSucceed(chain, t)
  }

  /** A round moved the nonce of its row. */
  ghost predicate MovesNonce(w: World, op: Op, w': World) {
    op.MonitorOp? && op.key in w.store && op.key in w'.store && w'.store[op.key].nonce != w.store[op.key].nonce
  }

  ghost predicate CleanStep(w: World, op: Op, w': World) {
    MovesNonce(w, op, w') ==> HarmlessErrors(w.store[op.key].history, op.a, w'.chain)
  }

  ghost predicate IsChainRun(cfg: Config, ws: seq<World>, ops: seq<Op>) {
    && IsRun(cfg, ws, ops)
    && NonceUsedOnce(ws[0].chain)
    && forall i :: 0 <= i < |ops| ==> ChainStep(ws[i], ops[i], ws[i + 1])
  }

  /** Whatever was signed with an earlier nonce has not succeeded and cannot any more. */
  ghost predicate Spent(m: MonitoredTx, chain: map<Tx, Receipt>) {
    forall t :: t in m.history && t.nonce != m.nonce ==> !CanSucceed(chain, t)
  }

  /** What can succeed later could succeed before. */
  lemma CouldBefore(w: World, op: Op, w': World, t: Tx)
    requires ChainStep(w, op, w')
    ensures CanSucceed(w'.chain, t) ==> CanSucceed(w.chain, t)
  {
    assert NonceUsed(w.chain, t.from, t.nonce) ==> NonceUsed(w'.chain, t.from, t.nonce);
  }

  lemma SpentLater(m: MonitoredTx, w: World, op: Op, w': World)
    requires ChainStep(w, op, w') && Spent(m, w.chain)
    ensures Spent(m, w'.chain)
  {
    forall t | t in m.history && t.nonce != m.nonce
      ensures !CanSucceed(w'.chain, t)
    {
      CouldBefore(w, op, w', t);
    }
  }

  /** A transaction of the history succeeded in a synchronized block, which is the one stored. */
  ghost predicate Backed(m: MonitoredTx, w: World) {
    && m.blockNumber.Some? && m.blockNumber.value <= w.synced
    && exists t :: t in m.history && t in w.chain && w.chain[t] == Receipt(true, m.blockNumber.value)
  }

  ghost predicate Confirmable(m: MonitoredTx, w: World) {
    m.status == Confirmed || (m.status == Done && m.blockNumber.Some?) ==> Backed(m, w)
  }

  lemma WriteKeepsConfirmable(m: MonitoredTx, a: Answers, s: Scan, next: Option<nat>, m': MonitoredTx, w: World)
    requires Truthful(a, w) && Write(m, a, s, next, m') && Confirmable(m, w)
    ensures Confirmable(m', w)
  {
    if m'.status == Confirmed {
      var t, receipt :| IsReceiptOf(m, a, t, receipt) && IsConclusion(m, a, receipt, m');
      assert t in m'.history && w.chain[t] == receipt;
    }
  }

  lemma {:induction false} StepsKeepConfirmable(
    m: MonitoredTx, a: Answers, s: Scan, next: Option<nat>, es: seq<Effect>, n: nat, w: World)
    requires Truthful(a, w) && Steps(m, a, s, next, es) && n <= |es| && Confirmable(m, w)
    ensures Confirmable(StoredAfter(m, es[..n]), w)
    decreases |es|
  {
    if n > 0 {
      var m1 := if es[0].Stored? then es[0].mTx else m;
      if es[0].Stored? {
        WriteKeepsConfirmable(m, a, s, next, m1, w);
      }
      StepsKeepConfirmable(m1, a, s, next, es[1..], n - 1, w);
      assert es[..n][1..] == es[1..][..n - 1];
    }
  }

  /** Without a nonce change, what is added to the history carries the current nonce. */
  lemma {:induction false} StepsKeepSpent(
    m: MonitoredTx, a: Answers, s: Scan, es: seq<Effect>, n: nat, chain: map<Tx, Receipt>)
    requires Steps(m, a, s, None, es) && n <= |es|
    ensures StoredAfter(m, es[..n]).nonce == m.nonce
    ensures Spent(m, chain) ==> Spent(StoredAfter(m, es[..n]), chain)
    decreases |es|
  {
    if n > 0 {
      var m1 := if es[0].Stored? then es[0].mTx else m;
      StepsKeepSpent(m1, a, s, es[1..], n - 1, chain);
      assert es[..n][1..] == es[1..][..n - 1];
    }
  }

  /** A nonce review whose failed lookups hid nothing leaves no transaction that can still succeed. */
  lemma ReviewFoundNoneLeft(history: set<Tx>, a: Answers, s: Scan, w: World)
    requires Truthful(a, w) && IsScan(history, a.lookup, s) && s.NeedsNonceReview()
    requires HarmlessErrors(history, a, w.chain)
    ensures forall t :: t in history ==> !CanSucceed(w.chain, t)
  {
    forall t | t in history
      ensures !CanSucceed(w.chain, t)
    {
      assert !Succeeded(a.lookup(t));
    }
  }

  /** After the review: either the nonce stayed, or nothing of the history can succeed any more. */
  lemma ReviewedKeepsSpent(cfg: Config, m: MonitoredTx, a: Answers, s: Scan, next: nat, n: nat, w: World)
    requires Truthful(a, w) && Monitored(m.status) && IsScan(m.history, a.lookup, s) && s.NeedsNonceReview()
    requires n <= |AfterNonceReview(cfg, m.(nonce := Max(m.nonce, next)), a, s)|
    requires if next > m.nonce then HarmlessErrors(m.history, a, w.chain) else Spent(m, w.chain)
    ensures var m1 := m.(nonce := Max(m.nonce, next));
            Spent(StoredAfter(m1, AfterNonceReview(cfg, m1, a, s)[..n]), w.chain)
  {
    var m1 := m.(nonce := Max(m.nonce, next));
    if next > m.nonce {
      ReviewFoundNoneLeft(m.history, a, s, w);
    }
    AfterNonceReviewSteps(cfg, m1, a, s, None);
    StepsKeepSpent(m1, a, s, AfterNonceReview(cfg, m1, a, s), n, w.chain);
  }

  lemma FirstWrite(m: MonitoredTx, m1: MonitoredTx, rest: seq<Effect>, n: nat)
    requires 0 < n <= |rest| + 1
    ensures StoredAfter(m, ([Stored(m1)] + rest)[..n]) == StoredAfter(m1, rest[..n - 1])
  {
    assert ([Stored(m1)] + rest)[..n][1..] == rest[..n - 1];
  }

  /** A round with a review stores the reviewed row first. */
  lemma ReviewComesFirst(cfg: Config, m: MonitoredTx, a: Answers, s: Scan, next: Option<nat>, n: nat)
    requires s.NeedsNonceReview() && 0 < n <= |MonitorEffects(cfg, m, next, a, s)|
    ensures next.Some?
    ensures var m1 := m.(nonce := Max(m.nonce, next.value));
            && n <= |AfterNonceReview(cfg, m1, a, s)| + 1
            && StoredAfter(m, MonitorEffects(cfg, m, next, a, s)[..n]) ==
               StoredAfter(m1, AfterNonceReview(cfg, m1, a, s)[..n - 1])
  {
    var m1 := m.(nonce := Max(m.nonce, next.value));
    var rest := AfterNonceReview(cfg, m1, a, s);
    assert MonitorEffects(cfg, m, next, a, s) == [Stored(m1)] + rest;
    FirstWrite(m, m1, rest, n);
  }

  /** The nonce of a row after a round. */
  lemma NonceAfterRound(cfg: Config, m: MonitoredTx, a: Answers, s: Scan, next: Option<nat>, n: nat)
    requires Monitored(m.status) && IsScan(m.history, a.lookup, s) && n <= |MonitorEffects(cfg, m, next, a, s)|
    ensures StoredAfter(m, MonitorEffects(cfg, m, next, a, s)[..n]).nonce ==
            if n > 0 && s.NeedsNonceReview() && next.Some? then Max(m.nonce, next.value) else m.nonce
  {
    if !s.NeedsNonceReview() {
      AfterNonceReviewSteps(cfg, m, a, s, None);
      StepsKeepSpent(m, a, s, MonitorEffects(cfg, m, next, a, s), n, map[]);
    } else if n > 0 {
      ReviewComesFirst(cfg, m, a, s, next, n);
      var m1 := m.(nonce := Max(m.nonce, next.value));
      AfterNonceReviewSteps(cfg, m1, a, s, None);
      StepsKeepSpent(m1, a, s, AfterNonceReview(cfg, m1, a, s), n - 1, map[]);
    }
  }

  lemma MonitorKeepsSpent(
    cfg: Config, m: MonitoredTx, a: Answers, s: Scan, next: Option<nat>, n: nat, w: World)
    requires Truthful(a, w) && Monitored(m.status) && IsScan(m.history, a.lookup, s)
    requires n <= |MonitorEffects(cfg, m, next, a, s)|
    requires if StoredAfter(m, MonitorEffects(cfg, m, next, a, s)[..n]).nonce == m.nonce then Spent(m, w.chain)
             else HarmlessErrors(m.history, a, w.chain)
    ensures Spent(StoredAfter(m, MonitorEffects(cfg, m, next, a, s)[..n]), w.chain)
  {
    NonceAfterRound(cfg, m, a, s, next, n);
    if !s.NeedsNonceReview() {
      AfterNonceReviewSteps(cfg, m, a, s, None);
      StepsKeepSpent(m, a, s, MonitorEffects(cfg, m, next, a, s), n, w.chain);
    } else if n > 0 {
      ReviewComesFirst(cfg, m, a, s, next, n);
      ReviewedKeepsSpent(cfg, m, a, s, next.value, n - 1, w);
    }
  }

  ghost predicate AllSpent(w: World) {
    forall k :: k in w.store ==> Spent(w.store[k], w.chain)
  }

  ghost predicate AllConfirmable(w: World) {
    forall k :: k in w.store ==> Confirmable(w.store[k], w)
  }

  lemma NextKeepsSpent(cfg: Config, w: World, op: Op, w': World)
    requires Next(cfg, w, op, w') && ChainStep(w, op, w') && CleanStep(w, op, w') && AllSpent(w)
    ensures AllSpent(w')
  {
    forall k | k in w'.store
      ensures Spent(w'.store[k], w'.chain)
    {
      if k in w.store {
        SpentLater(w.store[k], w, op, w');
        if op.MonitorOp? && op.key == k {
          MonitorKeepsSpent(cfg, w.store[k], op.a, op.s, op.next, op.upTo, w');
        }
      }
    }
  }

  lemma ConfirmableLater(m: MonitoredTx, w: World, op: Op, w': World)
    requires ChainStep(w, op, w') && Confirmable(m, w)
    ensures Confirmable(m, w')
  {
  }

  lemma NextKeepsConfirmable(cfg: Config, w: World, op: Op, w': World)
    requires Next(cfg, w, op, w') && ChainStep(w, op, w') && Inv(w) && AllConfirmable(w)
    requires op.DoneOp? ==> SettledAt(w, op.key)
    ensures AllConfirmable(w')
  {
    forall k | k in w'.store
      ensures Confirmable(w'.store[k], w')
    {
      if k in w.store {
        ConfirmableLater(w.store[k], w, op, w');
        if op.MonitorOp? && k == op.key {
          var m := w.store[k];
          var es := MonitorEffects(cfg, m, op.next, op.a, op.s);
          MonitorSteps(cfg, m, op.a, op.s, op.next);
          StepsKeepConfirmable(m, op.a, op.s, op.next, es, op.upTo, w');
        }
      }
    }
  }

  /**
   In every reachable state a confirmed row is backed by the chain, and so is a completed one that still has its
   block; completed rows all have it when no completion hit a row that was being monitored again.
   */
  lemma {:induction false} ReachableConfirmable(cfg: Config, ws: seq<World>, ops: seq<Op>, i: nat)
    requires IsChainRun(cfg, ws, ops) && i < |ws|
    ensures AllConfirmable(ws[i])
    ensures (forall j :: 0 <= j < i ==> CompletesMined(ws[j], ops[j])) ==> AllBlocksKnown(ws[i])
  {
    BlocksKnownUpTo(cfg, ws, ops, i);
    if i > 0 {
      ReachableConfirmable(cfg, ws, ops, i - 1);
      ReachableInv(cfg, ws, ops, i - 1);
      if ops[i - 1].DoneOp? {
        CompletedWasSettled(cfg, ws, ops, i - 1);
      }
      NextKeepsConfirmable(cfg, ws[i - 1], ops[i - 1], ws[i]);
    }
  }

  lemma {:induction false} ReachableSpent(cfg: Config, ws: seq<World>, ops: seq<Op>, i: nat)
    requires IsChainRun(cfg, ws, ops) && i < |ws|
    requires forall j :: 0 <= j < |ops| ==> CleanStep(ws[j], ops[j], ws[j + 1])
    ensures AllSpent(ws[i]) && NonceUsedOnce(ws[i].chain)
  {
    if i > 0 {
      ReachableSpent(cfg, ws, ops, i - 1);
      NextKeepsSpent(cfg, ws[i - 1], ops[i - 1], ws[i]);
    }
  }

  ghost predicate AtMostOne(history: set<Tx>, chain: map<Tx, Receipt>) {
    forall t, t' :: t in history && t' in history && t in chain && t' in chain ==>
      chain[t].success && chain[t'].success ==> t == t'
  }

  // ----- Duplicated data -----

  /** Some lawful future of the chain alone makes two transactions of the history succeed. */
  ghost predicate CanDuplicate(w: World, history: set<Tx>) {
    exists chain :: ChainStep(w, ChainOp, w.(chain := chain)) && !AtMostOne(history, chain)
  }

  ghost predicate TwoCanSucceed(history: set<Tx>, chain: map<Tx, Receipt>) {
    exists t, t' :: t in history && t' in history && t.nonce != t'.nonce
                    && CanSucceed(chain, t) && CanSucceed(chain, t')
  }

  /** The chain once `t` has succeeded, if it still could. */
  function Succeed(chain: map<Tx, Receipt>, t: Tx): map<Tx, Receipt> {
    if t in chain then chain else chain[t := Receipt(true, 0)]
  }

  lemma SucceedIsLawful(chain: map<Tx, Receipt>, t: Tx)
    requires NonceUsedOnce(chain) && CanSucceed(chain, t)
    ensures var chain' := Succeed(chain, t);
            && NonceUsedOnce(chain') && t in chain' && chain'[t].success
            && (forall u :: u in chain ==> u in chain' && chain'[u] == chain[u])
            && (forall u: Tx :: u.nonce != t.nonce && CanSucceed(chain, u) ==> CanSucceed(chain', u))
  {
    var chain' := Succeed(chain, t);
    forall u: Tx | u.nonce != t.nonce && CanSucceed(chain, u)
      ensures CanSucceed(chain', u)
    {
      assert NonceUsed(chain', u.from, u.nonce) ==> NonceUsed(chain, u.from, u.nonce);
    }
  }

  lemma TwoDuplicate(w: World, history: set<Tx>)
    requires NonceUsedOnce(w.chain) && TwoCanSucceed(history, w.chain)
    ensures CanDuplicate(w, history)
  {
    var t, t' :| t in history && t' in history && t.nonce != t'.nonce
                 && CanSucceed(w.chain, t) && CanSucceed(w.chain, t');
    var chain1 := Succeed(w.chain, t);
    var chain2 := Succeed(chain1, t');
    SucceedIsLawful(w.chain, t);
    SucceedIsLawful(chain1, t');
    assert ChainStep(w, ChainOp, w.(chain := chain2));
    assert chain2[t].success && chain2[t'].success && t != t';
  }

  lemma DuplicateNeedsTwo(w: World, m: MonitoredTx, chain: map<Tx, Receipt>)
    requires OwnHistory(m) && ChainStep(w, ChainOp, w.(chain := chain)) && !AtMostOne(m.history, chain)
    ensures TwoCanSucceed(m.history, w.chain)
  {
    var t, t' :| t in m.history && t' in m.history && t in chain && t' in chain
                 && chain[t].success && chain[t'].success && t != t';
    CouldBefore(w, ChainOp, w.(chain := chain), t);
    CouldBefore(w, ChainOp, w.(chain := chain), t');
  }

  /** The data can be duplicated exactly when two entries under different nonces can both succeed. */
  lemma DuplicationExact(w: World, m: MonitoredTx)
    requires NonceUsedOnce(w.chain) && OwnHistory(m)
    ensures CanDuplicate(w, m.history) <==> TwoCanSucceed(m.history, w.chain)
  {
    if TwoCanSucceed(m.history, w.chain) {
      TwoDuplicate(w, m.history);
    }
    if CanDuplicate(w, m.history) {
      var chain: map<Tx, Receipt> :| ChainStep(w, ChainOp, w.(chain := chain)) && !AtMostOne(m.history, chain);
      DuplicateNeedsTwo(w, m, chain);
    }
  }

  /** A spent row cannot be duplicated, whatever the chain does next. */
  lemma SpentIsSafe(w: World, m: MonitoredTx)
    requires NonceUsedOnce(w.chain) && OwnHistory(m) && Spent(m, w.chain)
    ensures AtMostOne(m.history, w.chain) && !CanDuplicate(w, m.history)
  {
    DuplicationExact(w, m);
  }

  /**
   No duplicated data reaches the rollup: over every run in which no failed lookup hides a transaction that can
   still succeed from a review that moves the nonce, at most one transaction of a monitored transaction's history
   has succeeded, and no future of the chain alone changes that.
   */
  lemma AtMostOneSuccess(cfg: Config, ws: seq<World>, ops: seq<Op>, i: nat, k: Key)
    requires IsChainRun(cfg, ws, ops) && i < |ws| && k in ws[i].store
    requires forall j :: 0 <= j < |ops| ==> CleanStep(ws[j], ops[j], ws[j + 1])
    ensures AtMostOne(ws[i].store[k].history, ws[i].chain) && !CanDuplicate(ws[i], ws[i].store[k].history)
  {
    ReachableSpent(cfg, ws, ops, i);
    ReachableInv(cfg, ws, ops, i);
    SpentIsSafe(ws[i], ws[i].store[k]);
  }

  // ----- What the manager can see -----

  /** Every entry whose lookup failed shares its nonce with an entry that was seen mined. */
  ghost predicate VisiblyHarmless(history: set<Tx>, a: Answers) {
    forall t :: t in history && a.lookup(t).LookupError? ==> SeenMined(history, a, t.from, t.nonce)
  }

  ghost predicate SeenMined(history: set<Tx>, a: Answers, from: Address, nonce: nat) {
    exists t :: t in history && a.lookup(t).Mined? && t.from == from && t.nonce == nonce
  }

  /** A lawful chain that agrees with what the lookups of a round said. */
  ghost predicate Agrees(chain: map<Tx, Receipt>, history: set<Tx>, a: Answers) {
    && NonceUsedOnce(chain)
    && forall t :: t in history && a.lookup(t).Mined? ==> t in chain && chain[t] == a.lookup(t).receipt
  }

  lemma VisiblyHarmlessIsHarmless(history: set<Tx>, a: Answers, s: Scan, chain: map<Tx, Receipt>)
    requires IsScan(history, a.lookup, s) && s.NeedsNonceReview() && Agrees(chain, history, a)
    requires VisiblyHarmless(history, a)
    ensures HarmlessErrors(history, a, chain)
  {
    forall t | t in history && a.lookup(t).LookupError?
      ensures !CanSucceed(chain, t)
    {
      assert SeenMined(history, a, t.from, t.nonce);
      var t' :| t' in history && a.lookup(t').Mined? && t'.from == t.from && t'.nonce == t.nonce;
      assert t' != t && t' in chain;
    }
  }

  /** What was seen mined, and nothing else. */
  ghost function SeenChain(history: set<Tx>, a: Answers): map<Tx, Receipt> {
    map t | t in history && a.lookup(t).Mined? :: a.lookup(t).receipt
  }

  /**
   A review's failed lookups hid nothing, whatever lawful chain its answers came from, if and only if each entry
   they were about shares its nonce with one that was seen mined.
   */
  lemma VisibleGuardExact(history: set<Tx>, a: Answers, s: Scan, w: World)
    requires IsScan(history, a.lookup, s) && s.NeedsNonceReview() && Truthful(a, w) && NonceUsedOnce(w.chain)
    ensures VisiblyHarmless(history, a) <==>
            forall chain :: Agrees(chain, history, a) ==> HarmlessErrors(history, a, chain)
  {
    if VisiblyHarmless(history, a) {
      forall chain | Agrees(chain, history, a)
        ensures HarmlessErrors(history, a, chain)
      {
        VisiblyHarmlessIsHarmless(history, a, s, chain);
      }
    } else {
      var t :| t in history && a.lookup(t).LookupError? && !SeenMined(history, a, t.from, t.nonce);
      var seen := SeenChain(history, a);
      assert Agrees(seen, history, a);
      assert CanSucceed(seen, t);
    }
  }

  /** A round moved the nonce although an entry with a failed lookup may have succeeded, for all it could see. */
  ghost predicate MovesBlindly(w: World, op: Op, w': World) {
    MovesNonce(w, op, w') && !VisiblyHarmless(w.store[op.key].history, op.a)
  }

  lemma SeeingIsClean(cfg: Config, w: World, op: Op, w': World)
    requires Next(cfg, w, op, w') && ChainStep(w, op, w') && !MovesBlindly(w, op, w')
    ensures CleanStep(w, op, w')
  {
    if MovesNonce(w, op, w') {
      NonceAfterRound(cfg, w.store[op.key], op.a, op.s, op.next, op.upTo);
      VisiblyHarmlessIsHarmless(w.store[op.key].history, op.a, op.s, w'.chain);
    }
  }

  /** What the manager itself can check before it moves a nonce is enough to rule out duplicated data. */
  lemma SeeingNoDuplicate(cfg: Config, ws: seq<World>, ops: seq<Op>, i: nat, k: Key)
    requires IsChainRun(cfg, ws, ops) && i < |ws| && k in ws[i].store
    requires forall j :: 0 <= j < |ops| ==> !MovesBlindly(ws[j], ops[j], ws[j + 1])
    ensures AtMostOne(ws[i].store[k].history, ws[i].chain) && !CanDuplicate(ws[i], ws[i].store[k].history)
  {
    forall j | 0 <= j < |ops|
      ensures CleanStep(ws[j], ops[j], ws[j + 1])
    {
      SeeingIsClean(cfg, ws[j], ops[j], ws[j + 1]);
    }
    AtMostOneSuccess(cfg, ws, ops, i, k);
  }

  /** A receipt lookup failed in a round that went on to review the nonce. */
  ghost predicate LookupFailedInReview(w: World, op: Op) {
    && op.MonitorOp? && op.key in w.store && op.s.NeedsNonceReview()
    && exists t :: t in w.store[op.key].history && op.a.lookup(t).LookupError?
  }

  /** In particular it is enough to give up every review in which a lookup failed. */
  lemma NoLookupErrorNoDuplicate(cfg: Config, ws: seq<World>, ops: seq<Op>, i: nat, k: Key)
    requires IsChainRun(cfg, ws, ops) && i < |ws| && k in ws[i].store
    requires forall j :: 0 <= j < |ops| ==> !LookupFailedInReview(ws[j], ops[j])
    ensures AtMostOne(ws[i].store[k].history, ws[i].chain) && !CanDuplicate(ws[i], ws[i].store[k].history)
  {
    forall j | 0 <= j < |ops|
      ensures !MovesBlindly(ws[j], ops[j], ws[j + 1])
    {
      assert Next(cfg, ws[j], ops[j], ws[j + 1]) && !LookupFailedInReview(ws[j], ops[j]);
      if MovesNonce(ws[j], ops[j], ws[j + 1]) {
        NonceAfterRound(cfg, ws[j].store[ops[j].key], ops[j].a, ops[j].s, ops[j].next, ops[j].upTo);
      }
    }
    SeeingNoDuplicate(cfg, ws, ops, i, k);
  }

  /** The run goes on with `chain` and then holds two successes of one history. */
  ghost predicate EndsInDuplicate(cfg: Config, ws: seq<World>, ops: seq<Op>, history: set<Tx>, chain: map<Tx, Receipt>)
    requires ws != []
  {
    && IsChainRun(cfg, ws + [ws[|ws| - 1].(chain := chain)], ops + [ChainOp])
    && !AtMostOne(history, chain)
  }

  ghost predicate CanEndInDuplicate(cfg: Config, ws: seq<World>, ops: seq<Op>, history: set<Tx>)
    requires ws != []
  {
    exists chain :: EndsInDuplicate(cfg, ws, ops, history, chain)
  }

  lemma ListedInLonger(ws: seq<World>, w: World, i: nat, k: Key)
    requires i < |ws| && ListedConfirmed(ws, i, k)
    ensures ListedConfirmed(ws + [w], i, k)
  {
    var j :| 0 <= j <= i && k in ws[j].store && ws[j].store[k].status == Confirmed;
    assert (ws + [w])[j] == ws[j];
  }

  /** Runs go on by any lawful move of the chain, and by no other. */
  lemma RunExtends(cfg: Config, ws: seq<World>, ops: seq<Op>, chain: map<Tx, Receipt>)
    requires IsChainRun(cfg, ws, ops)
    ensures var last := ws[|ws| - 1];
            IsChainRun(cfg, ws + [last.(chain := chain)], ops + [ChainOp])
            <==> ChainStep(last, ChainOp, last.(chain := chain))
  {
    var n := |ops|;
    var w' := ws[n].(chain := chain);
    var ws', ops' := ws + [w'], ops + [ChainOp];
    assert ws'[n] == ws[n] && ws'[n + 1] == w' && ops'[n] == ChainOp;
    forall i | 0 <= i < n
      ensures Next(cfg, ws'[i], ops'[i], ws'[i + 1]) && ChainStep(ws'[i], ops'[i], ws'[i + 1])
    {
      assert ws'[i] == ws[i] && ops'[i] == ops[i] && ws'[i + 1] == ws[i + 1];
    }
    forall i | 0 <= i < |ops'| && ops'[i].DoneOp?
      ensures ListedConfirmed(ws', i, ops'[i].key)
    {
      assert ops'[i] == ops[i];
      ListedInLonger(ws, w', i, ops[i].key);
    }
  }

  lemma ReviewDuplicates(cfg: Config, w: World, op: Op, w': World)
    requires Next(cfg, w, op, w') && ChainStep(w, op, w') && Inv(w) && Inv(w') && MovesNonce(w, op, w')
    requires exists t :: t in w'.store[op.key].history && t.nonce == w'.store[op.key].nonce && CanSucceed(w'.chain, t)
    ensures CanDuplicate(w', w'.store[op.key].history) <==> !HarmlessErrors(w.store[op.key].history, op.a, w'.chain)
  {
    var m, m' := w.store[op.key], w'.store[op.key];
    NextKeepsInv(cfg, w, op, w');
    DuplicationExact(w', m');
    if HarmlessErrors(m.history, op.a, w'.chain) {
      MonitorKeepsSpent(cfg, m, op.a, op.s, op.next, op.upTo, w');
      SpentIsSafe(w', m');
    } else {
      var t :| t in m.history && op.a.lookup(t).LookupError? && CanSucceed(w'.chain, t);
      var t' :| t' in m'.history && t'.nonce == m'.nonce && CanSucceed(w'.chain, t');
      assert Grew(m, m') && t in m'.history && t.nonce <= m.nonce;
    }
  }

  /**
   The hypothesis of `AtMostOneSuccess` is the right one. Take any run whose last step is a round that moved the
   nonce of a row and stored a transaction under the new one, which can still succeed. One more move of the chain
   can duplicate the data if and only if a failed lookup of that round hid a transaction that can succeed.
   */
  lemma NonceReviewExact(cfg: Config, ws: seq<World>, ops: seq<Op>, i: nat)
    requires IsChainRun(cfg, ws, ops) && i + 1 == |ops| && MovesNonce(ws[i], ops[i], ws[i + 1])
    requires var m' := ws[i + 1].store[ops[i].key];
             exists t :: t in m'.history && t.nonce == m'.nonce && CanSucceed(ws[i + 1].chain, t)
    ensures CanEndInDuplicate(cfg, ws, ops, ws[i + 1].store[ops[i].key].history)
       <==> !HarmlessErrors(ws[i].store[ops[i].key].history, ops[i].a, ws[i + 1].chain)
  {
    var w, op, w' := ws[i], ops[i], ws[i + 1];
    var history := w'.store[op.key].history;
    ReachableInv(cfg, ws, ops, i);
    ReachableInv(cfg, ws, ops, i + 1);
    ReviewDuplicates(cfg, w, op, w');
    forall chain
      ensures EndsInDuplicate(cfg, ws, ops, history, chain) <==>
              ChainStep(w', ChainOp, w'.(chain := chain)) && !AtMostOne(history, chain)
    {
      RunExtends(cfg, ws, ops, chain);
    }
  }

  // ----- Scans, reorgs and completion -----

  /** Two scans of one history, in whatever order, lead to the same decisions and the same receipt. */
  lemma ScanOrderIrrelevant(history: set<Tx>, a: Answers, s: Scan, s': Scan, w: World)
    requires IsScan(history, a.lookup, s) && IsScan(history, a.lookup, s') && Truthful(a, w)
    ensures s.confirmed == s'.confirmed && s.NeedsNonceReview() == s'.NeedsNonceReview()
    ensures s.confirmed && AtMostOne(history, w.chain) ==> s.receipt == s'.receipt
  {
    if s.confirmed {
      var t :| t in history && a.lookup(t) == Mined(s.receipt) && s.receipt.success;
      var t' :| t' in history && a.lookup(t') == Mined(s'.receipt) && s'.receipt.success;
    }
  }

  /** A round that sees a success sends nothing and changes nothing but, once it is synchronized, the status. */
  lemma VisibleSuccessEnds(cfg: Config, key: Key, m: MonitoredTx, a: Answers, s: Scan, next: Option<nat>, n: nat)
    requires IsScan(m.history, a.lookup, s) && n <= |MonitorEffects(cfg, m, next, a, s)|
    requires exists t :: t in m.history && Succeeded(a.lookup(t))
    ensures var es := MonitorEffects(cfg, m, next, a, s)[..n];
            var m' := StoredAfter(m, es);
            && SendsOf(key, es) == {}
            && (m' == m || m' == m.(status := Confirmed, blockNumber := Some(s.receipt.block)))
            && (n > 0 ==> m'.status == Confirmed
                          && a.lastSyncedBlock.Some? && s.receipt.block <= a.lastSyncedBlock.value)
  {
    var es := MonitorEffects(cfg, m, next, a, s);
    if n > 0 {
      assert es[..n] == [es[0]] + [];
      FirstEffect(key, m, es[0], []);
    }
  }

  /** A round reviews the nonce exactly if it saw a failure, no success, and nothing that is not mined. */
  lemma ReviewCondition(history: set<Tx>, lookup: Tx -> Lookup, s: Scan)
    requires IsScan(history, lookup, s)
    ensures s.NeedsNonceReview() <==>
            && (exists t :: t in history && lookup(t).Mined? && !lookup(t).receipt.success)
            && (forall t :: t in history ==> !(lookup(t).Mined? && lookup(t).receipt.success) && !lookup(t).NotMined?)
  {
    if exists t :: t in history && lookup(t).Mined? && !lookup(t).receipt.success {
      var t :| t in history && lookup(t).Mined? && !lookup(t).receipt.success;
      assert FailedOnChain(lookup(t));
    }
    if s.NeedsNonceReview() {
      var t :| t in history && FailedOnChain(lookup(t));
      forall u | u in history
        ensures !(lookup(u).Mined? && lookup(u).receipt.success)
      {
        assert !Succeeded(lookup(u));
      }
    }
  }

  /** A completed reorg leaves nothing at or after the block and touches nothing before it. */
  lemma ReorgExact(store: Store, fromBlock: nat, k: Key)
    requires k in store
    ensures var m, m' := store[k], ReorgedRows(store, AtOrAfter(store, fromBlock))[k];
            if m.blockNumber.Some? && m.blockNumber.value >= fromBlock
            then m' == m.(status := Reorged, blockNumber := None)
            else m' == m
  {
  }

  /** Completion keeps the block-number rule exactly when the transaction had been identified as mined. */
  lemma DoneExact(m: MonitoredTx)
    requires BlockKnown(m)
    ensures BlockKnown(m.(status := Done)) <==> !Monitored(m.status)
  {
  }

  // ----- The manager's methods are steps of these runs -----

  ghost function WorldOf(c: Client, chain: map<Tx, Receipt>, synced: nat): World
    reads c
  {
    World(c.storage, chain, c.sends, synced)
  }

  method AddIsStep(c: Client, key: Key, from: Address, to: Option<Address>, value: Option<nat>, data: seq<bv8>,
                   gasOffset: nat, a: AddAnswers, ghost chain: map<Tx, Receipt>, ghost synced: nat)
    returns (ghost op: Op)
    modifies c
    ensures op.AddOp? && Next(c.cfg, old(WorldOf(c, chain, synced)), op, WorldOf(c, chain, synced))
  {
    var _, next := c.Add(key, from, to, value, data, gasOffset, a);
    op := AddOp(key, from, to, value, data, gasOffset, next, a);
  }

  method MonitorIsStep(c: Client, key: Key, a: Answers, ghost chain: map<Tx, Receipt>, ghost synced: nat)
    returns (ghost op: Op)
    requires key in c.storage && Monitored(c.storage[key].status)
    modifies c
    ensures op.MonitorOp? && Next(c.cfg, old(WorldOf(c, chain, synced)), op, WorldOf(c, chain, synced))
  {
    ghost var m := c.storage[key];
    var s, next := c.MonitorTx(key, a);
    ghost var es := MonitorEffects(c.cfg, m, next, a, s);
    assert es[..|es|] == es;
    op := MonitorOp(key, a, s, next, |es|);
  }

  method ReorgIsStep(c: Client, fromBlock: nat, updates: Key -> bool, ghost chain: map<Tx, Receipt>, ghost synced: nat)
    returns (ghost op: Op)
    modifies c
    ensures op.ReorgOp? && Next(c.cfg, old(WorldOf(c, chain, synced)), op, WorldOf(c, chain, synced))
  {
    var _, done := c.Reorg(fromBlock, updates);
    op := ReorgOp(fromBlock, done);
  }

  /** Completion writes the row as it is by then; `IsRun` says which rows the caller asks for. */
  method DoneIsStep(c: Client, key: Key, updated: bool, ghost chain: map<Tx, Receipt>, ghost synced: nat)
    returns (ghost op: Op)
    modifies c
    ensures Next(c.cfg, old(WorldOf(c, chain, synced)), op, WorldOf(c, chain, synced))
    ensures op == DoneOp(key) || (op == ChainOp && c.storage == old(c.storage))
  {
    var ok := c.SetStatusDone(key, updated);
    op := if ok then DoneOp(key) else ChainOp;
  }
}
