/** The transaction manager itself (ethtxmanager/ethtxmanager.go, ethtxmanager/pgstorage.go). */
module EthTxManager {
  import opened Wrappers
  import opened EthTxModel

  /** What the outside world answers during one `Add`. */
  datatype AddAnswers = AddAnswers(
    createdRead: bool, pendingNonce: Option<nat>, estimatedGas: Option<nat>, adjustedPrice: Option<nat>, inserted: bool)

  /** The row `Add` inserts, if it gets that far. */
  function NewRow(cfg: Config, from: Address, to: Option<Address>, value: Option<nat>, data: seq<bv8>,
                  gasOffset: nat, next: Option<nat>, a: AddAnswers): Option<MonitoredTx>
  {
    var price := LimitedGasPrice(cfg, a.adjustedPrice);
    if next.None? || (a.estimatedGas.None? && cfg.forcedGas == 0) || price.None? then None
    else
      var gas := if a.estimatedGas.Some? then a.estimatedGas.value else cfg.forcedGas;
      Some(MonitoredTx(from, to, next.value, value, data, gas, gasOffset, price.value, Created, None, {}))
  }

  /**
   Scans the history for receipts in an arbitrary order, stopping at the first success. The outcome
   the caller acts on does not depend on that order.
   */
  method ScanHistory(history: set<Tx>, lookup: Tx -> Lookup) returns (s: Scan)
    ensures IsScan(history, lookup, s)
  {
    var receipt := Receipt(false, 0);
    var hasFailed, allMined := false, true;
    var left := history;
    while left != {}
      invariant left <= history
      invariant forall t :: t in history - left ==> !Succeeded(lookup(t))
      invariant hasFailed <==> exists t :: t in history - left && FailedOnChain(lookup(t))
      invariant allMined <==> forall t :: t in history - left ==> !lookup(t).NotMined?
      decreases left
    {
      var t :| t in left;
      left := left - {t};
      match lookup(t)
      case LookupError =>
      case NotMined =>
        allMined := false;
      case Mined(r) =>
        receipt := r;
        if r.success {
          return Scan(true, receipt, hasFailed, allMined);
        }
        hasFailed := true;
    }
    return Scan(false, receipt, hasFailed, allMined);
  }

  /** Whatever was sent meanwhile belongs to the row and is in its history. */
  ghost predicate NewSendsStored(before: set<(Key, Tx)>, after: set<(Key, Tx)>, key: Key, m: MonitoredTx) {
    before <= after && forall k, t :: (k, t) in after && (k, t) !in before ==> k == key && t in m.history
  }

  class Client {
    const cfg: Config
    /** The monitored_txs table. */
    var storage: Store
    /** Everything handed to SendTx so far. */
    var sends: set<(Key, Tx)>

    /** Takes up the table as an earlier process left it. */
    constructor (cfg: Config, storage: Store)
      ensures this.cfg == cfg && this.storage == storage && sends == {}
    {
      this.cfg, this.storage, sends := cfg, storage, {};
    }

    method GetTxNonce(from: Address, createdRead: bool, pendingNonce: Option<nat>) returns (next: Option<nat>)
      ensures IsNextNonce(storage, from, createdRead, pendingNonce, next)
      ensures createdRead && (forall k :: k in storage && storage[k].status == Created ==> storage[k].from != from) ==>
                next == pendingNonce
      ensures forall k :: createdRead && k in storage && storage[k].status == Created && storage[k].from == from ==>
                next.Some? && storage[k].nonce < next.value
    {
      if !createdRead {
        return None;
      }
      var created := set k | k in storage && IsCreatedBy(storage, k, from);
      assert forall k :: IsCreatedBy(storage, k, from) ==> k in created;
      assert forall k :: k in storage && storage[k].status == Created && storage[k].from == from ==> k in created;
      if created == {} {
        return pendingNonce;
      }
      var nonce, left := 0, created;
      while left != {}
        invariant left <= created
        invariant forall k :: k in created - left ==> storage[k].nonce <= nonce
        invariant nonce == 0 || exists k :: k in created - left && storage[k].nonce == nonce
        decreases left
      {
        var k :| k in left;
        left := left - {k};
        if storage[k].nonce > nonce {
          nonce := storage[k].nonce;
        }
      }
      var some :| some in created;
      assert IsCreatedBy(storage, some, from);
      assert exists k :: IsCreatedBy(storage, k, from) && storage[k].nonce == nonce by {
        if nonce == 0 {
          assert storage[some].nonce == nonce;
        }
      }
      return Some(nonce + 1);
    }

    /** Stores a new row; nothing changes when a call fails or the key is taken. */
    method Add(key: Key, from: Address, to: Option<Address>, value: Option<nat>, data: seq<bv8>, gasOffset: nat,
               a: AddAnswers) returns (ok: bool, next: Option<nat>)
      modifies this`storage
      ensures IsNextNonce(old(storage), from, a.createdRead, a.pendingNonce, next)
      ensures var row := NewRow(cfg, from, to, value, data, gasOffset, next, a);
              && ok == (row.Some? && key !in old(storage) && a.inserted)
              && storage == if ok then old(storage)[key := row.value] else old(storage)
      ensures ok <==> next.Some? && (a.estimatedGas.Some? || cfg.forcedGas > 0) && a.adjustedPrice.Some?
                      && key !in old(storage) && a.inserted
      ensures ok ==>
        && storage[key].BuildTx() == Tx(from, to, next.value, value, data,
             gasOffset + (if a.estimatedGas.Some? then a.estimatedGas.value else cfg.forcedGas),
             if 0 < cfg.maxGasPriceLimit < a.adjustedPrice.value then cfg.maxGasPriceLimit else a.adjustedPrice.value)
        && storage[key].gasOffset == gasOffset
        && storage[key].status == Created && storage[key].blockNumber.None? && storage[key].history == {}
    {
      ok := false;
      next := GetTxNonce(from, a.createdRead, a.pendingNonce);
      if next.None? {
        return;
      }
      var gas := 0;
      if a.estimatedGas.None? {
        if cfg.forcedGas == 0 {
          return;
        }
        gas := cfg.forcedGas;
      } else {
        gas := a.estimatedGas.value;
      }
      var price := LimitedGasPrice(cfg, a.adjustedPrice);
      if price.None? || key in storage || !a.inserted {
        return;
      }
      var mTx := MonitoredTx(from, to, next.value, value, data, gas, gasOffset, price.value, Created, None, {});
      storage := storage[key := mTx];
      ok := true;
    }

    /** Runs one monitoring round of the stored transaction `key`. */
    method MonitorTx(key: Key, a: Answers) returns (s: Scan, next: Option<nat>)
      requires key in storage
      modifies this
      ensures IsScan(old(storage[key].history), a.lookup, s)
      ensures s.NeedsNonceReview() ==>
                IsNextNonce(old(storage), old(storage[key].from), a.createdRead, a.pendingNonce, next)
      ensures var es := MonitorEffects(cfg, old(storage[key]), next, a, s);
              && storage == old(storage)[key := StoredAfter(old(storage[key]), es)]
              && sends == old(sends) + SendsOf(key, es)
      ensures NewSendsStored(old(sends), sends, key, storage[key])
    {
      var mTx := storage[key];
      s := ScanHistory(mTx.history, a.lookup);
      next := None;
      if s.NeedsNonceReview() {
        next := GetTxNonce(mTx.from, a.createdRead, a.pendingNonce);
        if next.None? {
          return;
        }
        if next.value > mTx.nonce {
          mTx := mTx.(nonce := next.value);
        }
        if !a.nonceStored {
          return;
        }
        storage := storage[key := mTx];
        FirstEffect(key, old(storage[key]), Stored(mTx), AfterNonceReview(cfg, mTx, a, s));
        assert MonitorEffects(cfg, old(storage[key]), next, a, s) == [Stored(mTx)] + AfterNonceReview(cfg, mTx, a, s);
      }
      MonitorRest(key, mTx, a, s);
    }

    /** The part of `monitorTx` after the nonce review, on the copy `m` that was last stored. */
    method MonitorRest(key: Key, m: MonitoredTx, a: Answers, s: Scan)
      requires key in storage && storage[key] == m
      modifies this
      ensures var es := AfterNonceReview(cfg, m, a, s);
              && storage == old(storage)[key := StoredAfter(m, es)]
              && sends == old(sends) + SendsOf(key, es)
      ensures NewSendsStored(old(sends), sends, key, storage[key])
    {
      var mTx := m;
      if s.confirmed {
        ConcludeTx(key, mTx, a, s.receipt);
        return;
      }
      if mTx.status == Reorged {
        return;
      }
      if mTx.status == Sent {
        ReviewAndSend(key, mTx, a, s);
        return;
      }
      RecordAndSend(key, mTx, a);
    }

    /** Raises gas and gas price of a transaction that was sent before. */
    method ReviewAndSend(key: Key, m: MonitoredTx, a: Answers, s: Scan)
      requires key in storage && storage[key] == m && m.status == Sent && !s.confirmed
      modifies this
      ensures var es := AfterNonceReview(cfg, m, a, s);
              && storage == old(storage)[key := StoredAfter(m, es)]
              && sends == old(sends) + SendsOf(key, es)
      ensures NewSendsStored(old(sends), sends, key, storage[key])
    {
      var mTx := m;
      var price := LimitedGasPrice(cfg, a.adjustedPrice);
      if a.estimatedGas.None? || price.None? {
        return;
      }
      if a.estimatedGas.value > mTx.gas {
        mTx := mTx.(gas := a.estimatedGas.value);
      }
      if price.value > mTx.gasPrice {
        mTx := mTx.(gasPrice := price.value);
      }
      if !a.reviewStored {
        return;
      }
      storage := storage[key := mTx];
      FirstEffect(key, m, Stored(mTx), RecordTx(mTx, a));
      assert AfterNonceReview(cfg, m, a, s) == [Stored(mTx)] + RecordTx(mTx, a);
      RecordAndSend(key, mTx, a);
    }

    method RecordAndSend(key: Key, m: MonitoredTx, a: Answers)
      requires key in storage && storage[key] == m
      modifies this
      ensures var es := RecordTx(m, a);
              && storage == old(storage)[key := StoredAfter(m, es)]
              && sends == old(sends) + SendsOf(key, es)
      ensures NewSendsStored(old(sends), sends, key, storage[key])
    {
      var mTx := m;
      var tx := mTx.BuildTx();
      if !a.signed {
        return;
      }
      if tx !in mTx.history {
        mTx := mTx.(history := mTx.history + {tx});
        if !a.historyStored {
          return;
        }
        storage := storage[key := mTx];
        FirstEffect(key, m, Stored(mTx), SendTx(mTx, tx, a));
      }
      SendAndWait(key, mTx, tx, a);
    }

    method SendAndWait(key: Key, m: MonitoredTx, tx: Tx, a: Answers)
      requires key in storage && storage[key] == m && tx in m.history
      modifies this
      ensures var es := SendTx(m, tx, a);
              && storage == old(storage)[key := StoredAfter(m, es)]
              && sends == old(sends) + SendsOf(key, es)
      ensures NewSendsStored(old(sends), sends, key, storage[key])
    {
      var mTx := m;
      if a.found == NotFound {
        sends := sends + {(key, tx)};
        FirstEffect(key, m, SentOut(tx), []);
        if !a.sendOk {
          return;
        }
        if mTx.status == Created {
          mTx := mTx.(status := Sent);
          if !a.sentStored {
            return;
          }
          storage := storage[key := mTx];
          FirstEffect(key, m, Stored(mTx), AwaitTx(mTx, tx, a));
          FirstEffect(key, m, SentOut(tx), [Stored(mTx)] + AwaitTx(mTx, tx, a));
        } else {
          FirstEffect(key, m, SentOut(tx), AwaitTx(m, tx, a));
        }
      }
      if a.wait != MinedInTime || a.receipt(tx).None? {
        return;
      }
      ConcludeTx(key, mTx, a, a.receipt(tx).value);
    }

    method ConcludeTx(key: Key, m: MonitoredTx, a: Answers, receipt: Receipt)
      requires key in storage && storage[key] == m
      modifies this`storage
      ensures storage == old(storage)[key := StoredAfter(m, Conclude(m, a, receipt))]
      ensures storage[key].history == m.history
      ensures storage[key] == m || (storage[key].blockNumber == Some(receipt.block)
                && storage[key].status == if receipt.success then Confirmed else Failed)
    {
      var mTx := m;
      if receipt.success {
        if a.lastSyncedBlock.None? || a.lastSyncedBlock.value < receipt.block {
          return;
        }
        mTx := mTx.(status := Confirmed, blockNumber := Some(receipt.block));
      } else {
        if KeepsMonitoring(a) {
          return;
        }
        mTx := mTx.(status := Failed, blockNumber := Some(receipt.block));
      }
      if a.finalStored {
        storage := storage[key := mTx];
      }
    }

    /**
     Sets every transaction identified at or after a block to reorged. `updates` are the answers of the
     row updates: the first failure ends the loop, leaving the rows done so far.
     */
    method Reorg(fromBlock: nat, updates: Key -> bool) returns (ok: bool, done: set<Key>)
      modifies this`storage
      ensures done <= AtOrAfter(old(storage), fromBlock)
      ensures storage == ReorgedRows(old(storage), done)
      ensures ok <==> done == AtOrAfter(old(storage), fromBlock)
      ensures ok ==> AtOrAfter(storage, fromBlock) == {}
      ensures ok ==>
        forall k :: k in storage && storage[k].blockNumber.Some? ==> storage[k].blockNumber.value < fromBlock
    {
      ghost var before := storage;
      var rows := AtOrAfter(storage, fromBlock);
      var left := rows;
      done := {};
      while left != {}
        invariant left !! done && left + done == rows
        invariant storage == ReorgedRows(before, done)
        decreases left
      {
        var k :| k in left;
        if !updates(k) {
          assert k !in done;
          return false, done;
        }
        storage := storage[k := storage[k].(status := Reorged, blockNumber := None)];
        left, done := left - {k}, done + {k};
        assert storage == ReorgedRows(before, done);
      }
      return true, done;
    }

    /** Marks a transaction done, whatever its status. */
    method SetStatusDone(key: Key, updated: bool) returns (ok: bool)
      modifies this`storage
      ensures ok == (key in old(storage) && updated)
      ensures storage == if ok then old(storage)[key := old(storage)[key].(status := Done)] else old(storage)
    {
      if key !in storage || !updated {
        return false;
      }
      storage := storage[key := storage[key].(status := Done)];
      return true;
    }
  }
}
