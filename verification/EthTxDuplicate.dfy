/**
 A complete run in which two transactions of one monitored transaction succeed: a receipt lookup that
 fails during a nonce review hides the first success, so the same request is sent under a new nonce.
 */
module EthTxDuplicate {
  import opened Wrappers
  import opened EthTxModel
  import opened EthTxManager
  import opened EthTxRuns

  const CFG := Config(0, 0)
  const KEY := Key("owner", "id")

  function TxOf(nonce: nat): Tx {
    Tx(1, None, nonce, None, [], 21000, 5)
  }

  function Row(nonce: nat, status: Status, history: set<Tx>): MonitoredTx {
    MonitoredTx(1, None, nonce, None, [], 21000, 0, 5, status, None, history)
  }

  function StateOf(row: MonitoredTx, chain: map<Tx, Receipt>, sent: set<Tx>): World {
    World(map[KEY := row], chain, set t | t in sent :: (KEY, t), 0)
  }

  /** Before anything was mined. */
  function FirstLookup(t: Tx): Lookup {
    NotMined
  }

  /** The node reports nonce 5 as mined and failed, and cannot be asked about any other. */
  function LaterLookup(t: Tx): Lookup {
    if t == TxOf(5) then Mined(Receipt(false, 10)) else LookupError
  }

  /** All other calls work; `pending` is the account's next nonce and nothing is mined while we wait. */
  function AnswersWith(lookup: Tx -> Lookup, pending: nat): Answers {
    Answers(lookup, true, Some(pending), true, Some(21000), Some(5), true, true, true, NotFound, true, true,
            TimedOut, t => None, None, true, NoRevertError, true)
  }

  const REVIEW := Scan(false, Receipt(false, 10), true, true)
  const NOTHING := Scan(false, Receipt(false, 10), false, true)

  /** A round that moves a sent transaction from one nonce to the next and sends it again. */
  lemma ResendEffects(nonce: nat, history: set<Tx>)
    requires TxOf(nonce + 1) !in history
    ensures var m, a := Row(nonce, Sent, history), AnswersWith(LaterLookup, nonce + 1);
            var es := MonitorEffects(CFG, m, Some(nonce + 1), a, REVIEW);
            && |es| == 4
            && StoredAfter(m, es) == Row(nonce + 1, Sent, history + {TxOf(nonce + 1)})
            && SendsOf(KEY, es) == {(KEY, TxOf(nonce + 1))}
  {
    var m, a, tx := Row(nonce, Sent, history), AnswersWith(LaterLookup, nonce + 1), TxOf(nonce + 1);
    var m1, m2 := Row(nonce + 1, Sent, history), Row(nonce + 1, Sent, history + {tx});
    assert m1.BuildTx() == tx;
    var es0 := [SentOut(tx)] + AwaitTx(m2, tx, a);
    var es1 := [Stored(m2)] + es0;
    var es2 := [Stored(m1)] + es1;
    assert RecordTx(m1, a) == es1;
    assert AfterNonceReview(CFG, m1, a, REVIEW) == es2;
    FirstEffect(KEY, m2, SentOut(tx), []);
    FirstEffect(KEY, m1, Stored(m2), es0);
    FirstEffect(KEY, m1, Stored(m1), es1);
    FirstEffect(KEY, m, Stored(m1), es2);
  }

  lemma ResendStep(nonce: nat, history: set<Tx>, chain: map<Tx, Receipt>, sent: set<Tx>)
    requires TxOf(5) in history && TxOf(nonce + 1) !in history
    ensures Next(CFG, StateOf(Row(nonce, Sent, history), chain, sent),
                 MonitorOp(KEY, AnswersWith(LaterLookup, nonce + 1), REVIEW, Some(nonce + 1), 4),
                 StateOf(Row(nonce + 1, Sent, history + {TxOf(nonce + 1)}), chain, sent + {TxOf(nonce + 1)}))
  {
    var a, m := AnswersWith(LaterLookup, nonce + 1), Row(nonce, Sent, history);
    var w := StateOf(m, chain, sent);
    ResendEffects(nonce, history);
    var es := MonitorEffects(CFG, m, Some(nonce + 1), a, REVIEW);
    assert es[..4] == es;
    assert IsScan(history, a.lookup, REVIEW) by {
      assert FailedOnChain(a.lookup(TxOf(5)));
    }
    assert IsNextNonce(w.store, 1, true, Some(nonce + 1), Some(nonce + 1));
  }

  lemma FirstRound()
    ensures Next(CFG, StateOf(Row(5, Created, {}), map[], {}),
                 MonitorOp(KEY, AnswersWith(FirstLookup, 5), NOTHING, None, 3),
                 StateOf(Row(5, Sent, {TxOf(5)}), map[], {TxOf(5)}))
  {
    var m, a, tx := Row(5, Created, {}), AnswersWith(FirstLookup, 5), TxOf(5);
    var m1, m2 := Row(5, Created, {tx}), Row(5, Sent, {tx});
    assert m.BuildTx() == tx && m.(history := m.history + {tx}) == m1;
    var es1 := [Stored(m2)] + AwaitTx(m2, tx, a);
    var es := [Stored(m1)] + ([SentOut(tx)] + es1);
    assert MonitorEffects(CFG, m, None, a, NOTHING) == es;
    assert es[..3] == es;
    FirstEffect(KEY, m1, Stored(m2), []);
    FirstEffect(KEY, m1, SentOut(tx), es1);
    FirstEffect(KEY, m, Stored(m1), [SentOut(tx)] + es1);
    assert IsScan({}, a.lookup, NOTHING);
  }

  const CHAIN5: map<Tx, Receipt> := map[TxOf(5) := Receipt(false, 10)]
  const CHAIN6: map<Tx, Receipt> := CHAIN5[TxOf(6) := Receipt(true, 11)]
  const CHAIN7: map<Tx, Receipt> := CHAIN6[TxOf(7) := Receipt(true, 12)]

  function Worlds(): seq<World> {
    var h5, h6, h7 := {TxOf(5)}, {TxOf(5)} + {TxOf(6)}, {TxOf(5)} + {TxOf(6)} + {TxOf(7)};
    [ World(map[], map[], {}, 0),
      StateOf(Row(5, Created, {}), map[], {}),
      StateOf(Row(5, Sent, h5), map[], h5),
      StateOf(Row(5, Sent, h5), CHAIN5, h5),
      StateOf(Row(6, Sent, h6), CHAIN5, h6),
      StateOf(Row(6, Sent, h6), CHAIN6, h6),
      StateOf(Row(7, Sent, h7), CHAIN6, h7),
      StateOf(Row(7, Sent, h7), CHAIN7, h7) ]
  }

  function Ops(): seq<Op> {
    [ AddOp(KEY, 1, None, None, [], 0, Some(5), AddAnswers(true, Some(5), Some(21000), Some(5), true)),
      MonitorOp(KEY, AnswersWith(FirstLookup, 5), NOTHING, None, 3),
      ChainOp,
      MonitorOp(KEY, AnswersWith(LaterLookup, 6), REVIEW, Some(6), 4),
      ChainOp,
      MonitorOp(KEY, AnswersWith(LaterLookup, 7), REVIEW, Some(7), 4),
      ChainOp ]
  }

  ghost predicate StepOk(ws: seq<World>, ops: seq<Op>, i: nat)
    requires |ws| == |ops| + 1 && i < |ops|
  {
    Next(CFG, ws[i], ops[i], ws[i + 1]) && ChainStep(ws[i], ops[i], ws[i + 1])
  }

  lemma Assemble(ws: seq<World>, ops: seq<Op>)
    requires |ws| == |ops| + 1 && ws[0] == World(map[], map[], {}, 0)
    requires forall i :: 0 <= i < |ops| ==> StepOk(ws, ops, i)
    requires forall i :: 0 <= i < |ops| && ops[i].DoneOp? ==> ListedConfirmed(ws, i, ops[i].key)
    ensures IsChainRun(CFG, ws, ops)
  {
    forall i | 0 <= i < |ops|
      ensures Next(CFG, ws[i], ops[i], ws[i + 1]) && ChainStep(ws[i], ops[i], ws[i + 1])
    {
      assert StepOk(ws, ops, i);
    }
  }

  lemma AddStep()
    ensures StepOk(Worlds(), Ops(), 0)
  {
    assert IsNextNonce(map[], 1, true, Some(5), Some(5));
  }

  lemma FirstRoundStep()
    ensures StepOk(Worlds(), Ops(), 1)
  {
    FirstRound();
  }

  lemma ChainSteps()
    ensures StepOk(Worlds(), Ops(), 2) && StepOk(Worlds(), Ops(), 4) && StepOk(Worlds(), Ops(), 6)
  {
  }

  lemma ResendFrom5()
    ensures StepOk(Worlds(), Ops(), 3)
  {
    var ws, h5 := Worlds(), {TxOf(5)};
    assert ws[3] == StateOf(Row(5, Sent, h5), CHAIN5, h5);
    assert ws[4] == StateOf(Row(6, Sent, h5 + {TxOf(6)}), CHAIN5, h5 + {TxOf(6)});
    ResendStep(5, h5, CHAIN5, h5);
  }

  lemma ResendFrom6()
    ensures StepOk(Worlds(), Ops(), 5)
  {
    var ws, h6 := Worlds(), {TxOf(5)} + {TxOf(6)};
    assert ws[5] == StateOf(Row(6, Sent, h6), CHAIN6, h6);
    assert ws[6] == StateOf(Row(7, Sent, h6 + {TxOf(7)}), CHAIN6, h6 + {TxOf(7)});
    ResendStep(6, h6, CHAIN6, h6);
  }

  lemma AllSteps(i: nat)
    requires i < 7
    ensures StepOk(Worlds(), Ops(), i)
  {
    if i == 0 {
      AddStep();
    } else if i == 1 {
      FirstRoundStep();
    } else if i == 3 {
      ResendFrom5();
    } else if i == 5 {
      ResendFrom6();
    } else {
      ChainSteps();
    }
  }

  lemma RunIsValid()
    ensures IsChainRun(CFG, Worlds(), Ops())
  {
    forall i | 0 <= i < 7
      ensures StepOk(Worlds(), Ops(), i)
    {
      AllSteps(i);
    }
    Assemble(Worlds(), Ops());
  }

  /** The bound of `AtMostOneSuccess` fails without its hypothesis on lookups. */
  lemma LookupErrorDuplicates()
    ensures IsChainRun(CFG, Worlds(), Ops())
    ensures KEY in Worlds()[7].store && !AtMostOne(Worlds()[7].store[KEY].history, Worlds()[7].chain)
    ensures LookupFailedInReview(Worlds()[5], Ops()[5])
  {
    RunIsValid();
    var last := Worlds()[7];
    assert TxOf(6) in last.store[KEY].history && TxOf(7) in last.store[KEY].history;
    assert last.chain[TxOf(6)].success && last.chain[TxOf(7)].success;
    assert TxOf(6) in Worlds()[5].store[KEY].history && LaterLookup(TxOf(6)).LookupError?;
  }
}
