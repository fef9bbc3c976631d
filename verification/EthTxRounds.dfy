/** What one monitoring round achieves when the calls it makes succeed (ethtxmanager/ethtxmanager.go). */
module EthTxRounds {
  import opened Wrappers
  import opened EthTxModel
  import opened EthTxManager
  import opened EthTxRuns

  /** Every call of the round succeeds; what the chain answers about transactions is left open. */
  predicate Works(a: Answers) {
    && a.nonceStored && a.estimatedGas.Some? && a.adjustedPrice.Some? && a.reviewStored && a.signed && a.historyStored
    && a.sendOk && a.sentStored && a.finalStored
  }

  /** A failing receipt ends the monitoring unless the revert error is the one of a reverted execution. */
  lemma FailureEnds(key: Key, m: MonitoredTx, a: Answers, receipt: Receipt)
    requires a.finalStored && !receipt.success
    ensures StoredAfter(m, Conclude(m, a, receipt)) ==
            if a.failedTxFound && a.revert == ExecutionReverted then m
            else m.(status := Failed, blockNumber := Some(receipt.block))
    ensures SendsOf(key, Conclude(m, a, receipt)) == {}
  {
    var es := Conclude(m, a, receipt);
    if es != [] {
      FirstEffect(key, m, es[0], []);
    }
  }

  /** A successful receipt confirms once its block is synchronized. */
  lemma SuccessConfirms(key: Key, m: MonitoredTx, a: Answers, receipt: Receipt)
    requires a.finalStored && receipt.success
    ensures StoredAfter(m, Conclude(m, a, receipt)) ==
            if a.lastSyncedBlock.Some? && receipt.block <= a.lastSyncedBlock.value
            then m.(status := Confirmed, blockNumber := Some(receipt.block)) else m
    ensures SendsOf(key, Conclude(m, a, receipt)) == {}
  {
    var es := Conclude(m, a, receipt);
    if es != [] {
      FirstEffect(key, m, es[0], []);
    }
  }

  /** How the answers about a transaction leave its row: settled by a receipt that came in time, or as it was. */
  ghost predicate Awaited(m: MonitoredTx, a: Answers, tx: Tx, m': MonitoredTx) {
    var receipt := a.receipt(tx);
    if a.wait != MinedInTime || receipt.None? then m' == m
    else if receipt.value.success then
      if a.lastSyncedBlock.Some? && receipt.value.block <= a.lastSyncedBlock.value
      then m' == m.(status := Confirmed, blockNumber := Some(receipt.value.block)) else m' == m
    else
      if a.failedTxFound && a.revert == ExecutionReverted then m' == m
      else m' == m.(status := Failed, blockNumber := Some(receipt.value.block))
  }

  lemma AwaitOutcome(key: Key, m: MonitoredTx, a: Answers, tx: Tx)
    requires a.finalStored
    ensures Awaited(m, a, tx, StoredAfter(m, AwaitTx(m, tx, a))) && SendsOf(key, AwaitTx(m, tx, a)) == {}
  {
    if a.wait == MinedInTime && a.receipt(tx).Some? {
      var receipt := a.receipt(tx).value;
      if receipt.success {
        SuccessConfirms(key, m, a, receipt);
      } else {
        FailureEnds(key, m, a, receipt);
      }
    }
  }

  predicate Sendable(status: Status) {
    status == Created || status == Sent
  }

  /** The row once its transaction is known to the network. */
  function Known(m: MonitoredTx, a: Answers): MonitoredTx {
    if a.found == NotFound then m.(status := Sent) else m
  }

  lemma SendOutcome(key: Key, m: MonitoredTx, a: Answers, tx: Tx)
    requires Works(a) && Sendable(m.status)
    ensures Awaited(Known(m, a), a, tx, StoredAfter(m, SendTx(m, tx, a)))
    ensures SendsOf(key, SendTx(m, tx, a)) == if a.found == NotFound then {(key, tx)} else {}
  {
    var m1 := Known(m, a);
    AwaitOutcome(key, m1, a, tx);
    if a.found == NotFound {
      if m.status == Created {
        FirstEffect(key, m, Stored(m1), AwaitTx(m1, tx, a));
        FirstEffect(key, m, SentOut(tx), [Stored(m1)] + AwaitTx(m1, tx, a));
      } else {
        assert m1 == m;
        FirstEffect(key, m, SentOut(tx), AwaitTx(m, tx, a));
      }
    }
  }

  /** The transaction of the row is recorded, made known to the network and waited for. */
  ghost predicate CarriedOut(key: Key, m: MonitoredTx, a: Answers, es: seq<Effect>, from: MonitoredTx) {
    var tx := m.BuildTx();
    && Awaited(Known(m.(history := m.history + {tx}), a), a, tx, StoredAfter(from, es))
    && SendsOf(key, es) == if a.found == NotFound then {(key, tx)} else {}
  }

  lemma RecordOutcome(key: Key, m: MonitoredTx, a: Answers)
    requires Works(a) && Sendable(m.status)
    ensures CarriedOut(key, m, a, RecordTx(m, a), m)
  {
    var tx := m.BuildTx();
    var m1 := m.(history := m.history + {tx});
    if tx in m.history {
      assert m.history + {tx} == m.history;
    } else {
      FirstEffect(key, m, Stored(m1), SendTx(m1, tx, a));
    }
    SendOutcome(key, m1, a, tx);
  }

  /** The greater of what is stored and what the node suggests now, for a row that was sent before. */
  function Raised(cfg: Config, m: MonitoredTx, a: Answers): MonitoredTx
    requires Works(a)
  {
    var limit, price, gas := cfg.maxGasPriceLimit, a.adjustedPrice.value, a.estimatedGas.value;
    var capped := if 0 < limit < price then limit else price;
    if m.status != Sent then m
    else m.(gas := if gas > m.gas then gas else m.gas, gasPrice := if capped > m.gasPrice then capped else m.gasPrice)
  }

  lemma RaiseOutcome(cfg: Config, key: Key, m: MonitoredTx, a: Answers, s: Scan)
    requires Works(a) && Sendable(m.status) && !s.confirmed
    ensures CarriedOut(key, Raised(cfg, m, a), a, AfterNonceReview(cfg, m, a, s), m)
  {
    var m1 := Raised(cfg, m, a);
    RecordOutcome(key, m1, a);
    if m.status == Sent {
      FirstEffect(key, m, Stored(m1), RecordTx(m1, a));
      assert AfterNonceReview(cfg, m, a, s) == [Stored(m1)] + RecordTx(m1, a);
    }
  }

  /** The row with the nonce the round uses. */
  function Renumbered(m: MonitoredTx, s: Scan, next: Option<nat>): MonitoredTx {
    if s.NeedsNonceReview() && next.Some? && next.value > m.nonce then m.(nonce := next.value) else m
  }

  /**
   A whole round without a visible success and without a failing call: it uses the next nonce if it reviewed it,
   raises gas and price of a row sent before, stores the transaction so built, sends it if the network does not
   know it, and settles the row on a receipt that comes in time.
   */
  lemma WorkingRound(cfg: Config, key: Key, m: MonitoredTx, a: Answers, s: Scan, next: Option<nat>)
    requires Works(a) && Sendable(m.status) && !s.confirmed && (s.NeedsNonceReview() ==> next.Some?)
    ensures CarriedOut(key, Raised(cfg, Renumbered(m, s, next), a), a, MonitorEffects(cfg, m, next, a, s), m)
  {
    var m1 := Renumbered(m, s, next);
    RaiseOutcome(cfg, key, m1, a, s);
    if s.NeedsNonceReview() {
      FirstEffect(key, m, Stored(m1), AfterNonceReview(cfg, m1, a, s));
      assert MonitorEffects(cfg, m, next, a, s) == [Stored(m1)] + AfterNonceReview(cfg, m1, a, s);
    }
  }

  /** The requested call under the nonce, gas and price that the round worked out. */
  ghost predicate IsRoundTx(cfg: Config, m: MonitoredTx, a: Answers, s: Scan, next: Option<nat>, tx: Tx)
    requires Works(a) && (s.NeedsNonceReview() ==> next.Some?)
  {
    && tx.from == m.from && tx.to == m.to && tx.value == m.value && tx.data == m.data
    && tx.nonce == (if s.NeedsNonceReview() then Max(m.nonce, next.value) else m.nonce)
    && tx.gas == m.gasOffset + (if m.status == Sent then Max(m.gas, a.estimatedGas.value) else m.gas)
    && (m.status == Created ==> tx.gasPrice == m.gasPrice)
    && var limit, price := cfg.maxGasPriceLimit, a.adjustedPrice.value;
    (m.status == Sent ==> tx.gasPrice == Max(m.gasPrice, if 0 < limit < price then limit else price))
  }

  lemma RoundTx(cfg: Config, m: MonitoredTx, a: Answers, s: Scan, next: Option<nat>)
    requires Works(a) && Sendable(m.status) && (s.NeedsNonceReview() ==> next.Some?)
    ensures var m1 := Raised(cfg, Renumbered(m, s, next), a);
            IsRoundTx(cfg, m, a, s, next, m1.BuildTx()) && m1.history == m.history
  {
  }

  lemma CarriedOutSends(key: Key, m: MonitoredTx, a: Answers, es: seq<Effect>, from: MonitoredTx)
    requires CarriedOut(key, m, a, es, from) && a.found == NotFound
    ensures SendsOf(key, es) == {(key, m.BuildTx())}
    ensures StoredAfter(from, es).history == m.history + {m.BuildTx()}
  {
  }

  /** What such a round sends to a network that does not know it, and has stored before. */
  lemma WorkingRoundSends(cfg: Config, key: Key, m: MonitoredTx, a: Answers, s: Scan, next: Option<nat>)
    returns (tx: Tx)
    requires Works(a) && Sendable(m.status) && !s.confirmed && (s.NeedsNonceReview() ==> next.Some?)
    requires a.found == NotFound
    ensures IsRoundTx(cfg, m, a, s, next, tx)
    ensures SendsOf(key, MonitorEffects(cfg, m, next, a, s)) == {(key, tx)}
    ensures StoredAfter(m, MonitorEffects(cfg, m, next, a, s)).history == m.history + {tx}
  {
    WorkingRound(cfg, key, m, a, s, next);
    var m1 := Raised(cfg, Renumbered(m, s, next), a);
    RoundTx(cfg, m, a, s, next);
    CarriedOutSends(key, m1, a, MonitorEffects(cfg, m, next, a, s), m);
    tx := m1.BuildTx();
  }

  /** A working round that sees a success confirms the row once its block is synchronized, and does nothing else. */
  lemma SeenSuccess(cfg: Config, key: Key, m: MonitoredTx, a: Answers, s: Scan, next: Option<nat>)
    requires a.finalStored && IsScan(m.history, a.lookup, s)
    requires exists t :: t in m.history && Succeeded(a.lookup(t))
    ensures var es := MonitorEffects(cfg, m, next, a, s);
            && SendsOf(key, es) == {}
            && StoredAfter(m, es) ==
               if a.lastSyncedBlock.Some? && s.receipt.block <= a.lastSyncedBlock.value
               then m.(status := Confirmed, blockNumber := Some(s.receipt.block)) else m
  {
    SuccessConfirms(key, m, a, s.receipt);
  }

  /** The manager's own round, when its calls succeed and no success is visible. */
  method MonitorWorkingRound(c: Client, key: Key, a: Answers) returns (s: Scan, next: Option<nat>)
    requires key in c.storage && Sendable(c.storage[key].status) && Works(a)
    requires a.createdRead && a.pendingNonce.Some?
    requires forall t :: t in c.storage[key].history ==> !Succeeded(a.lookup(t))
    modifies c
    ensures key in c.storage
    ensures var m := Raised(c.cfg, Renumbered(old(c.storage[key]), s, next), a);
            var tx := m.BuildTx();
            && Awaited(Known(m.(history := m.history + {tx}), a), a, tx, c.storage[key])
            && c.sends == old(c.sends) + if a.found == NotFound then {(key, tx)} else {}
    ensures forall k :: k in old(c.storage) && k != key ==> k in c.storage && c.storage[k] == old(c.storage[k])
  {
    ghost var m := c.storage[key];
    s, next := c.MonitorTx(key, a);
    WorkingRound(c.cfg, key, m, a, s, next);
  }
}
