/**
 A complete run in which a row that was listed as confirmed is reorged before it is completed: it ends up done
 without a block, so neither a later reorg nor the monitoring loop will ever look at it again.
 */
module EthTxCompletion {
  import opened Wrappers
  import opened EthTxModel
  import opened EthTxRuns
  import opened EthTxDuplicate

  const MINED := Receipt(true, 10)
  const CHAIN: map<Tx, Receipt> := map[TxOf(5) := MINED]
  const FOUND := Scan(true, MINED, false, true)

  function MinedLookup(t: Tx): Lookup {
    if t == TxOf(5) then Mined(MINED) else NotMined
  }

  function SyncedAnswers(): Answers {
    AnswersWith(MinedLookup, 6).(lastSyncedBlock := Some(10))
  }

  function RowWith(status: Status, block: Option<nat>): MonitoredTx {
    Row(5, status, {TxOf(5)}).(blockNumber := block)
  }

  function Synced(row: MonitoredTx): World {
    StateOf(row, CHAIN, {TxOf(5)}).(synced := 10)
  }

  function ReorgedRun(): seq<World> {
    [ Worlds()[0], Worlds()[1], Worlds()[2],
      Synced(RowWith(Sent, None)),
      Synced(RowWith(Confirmed, Some(10))),
      Synced(RowWith(Reorged, None)),
      Synced(RowWith(Done, None)) ]
  }

  function ReorgedOps(): seq<Op> {
    [ Ops()[0], Ops()[1], ChainOp,
      MonitorOp(KEY, SyncedAnswers(), FOUND, None, 1),
      ReorgOp(10, {KEY}),
      DoneOp(KEY) ]
  }

  lemma ConfirmRound()
    ensures Next(CFG, Synced(RowWith(Sent, None)), MonitorOp(KEY, SyncedAnswers(), FOUND, None, 1),
                 Synced(RowWith(Confirmed, Some(10))))
  {
    var m, a := RowWith(Sent, None), SyncedAnswers();
    var es := MonitorEffects(CFG, m, None, a, FOUND);
    assert es == [Stored(RowWith(Confirmed, Some(10)))] + [];
    assert es[..1] == es;
    FirstEffect(KEY, m, es[0], []);
    assert IsScan(m.history, a.lookup, FOUND) by {
      assert Succeeded(a.lookup(TxOf(5)));
    }
  }

  lemma FirstSteps()
    ensures StepOk(ReorgedRun(), ReorgedOps(), 0) && StepOk(ReorgedRun(), ReorgedOps(), 1)
  {
    AddStep();
    FirstRoundStep();
  }

  lemma MinedStep()
    ensures StepOk(ReorgedRun(), ReorgedOps(), 2)
  {
  }

  lemma ConfirmIsLawful()
    ensures ChainStep(Synced(RowWith(Sent, None)), MonitorOp(KEY, SyncedAnswers(), FOUND, None, 1),
                      Synced(RowWith(Confirmed, Some(10))))
  {
  }

  lemma ConfirmStep()
    ensures StepOk(ReorgedRun(), ReorgedOps(), 3)
  {
    var ws, ops := ReorgedRun(), ReorgedOps();
    assert ws[3] == Synced(RowWith(Sent, None)) && ws[4] == Synced(RowWith(Confirmed, Some(10)));
    assert ops[3] == MonitorOp(KEY, SyncedAnswers(), FOUND, None, 1);
    ConfirmRound();
    ConfirmIsLawful();
  }

  lemma ReorgStep()
    ensures StepOk(ReorgedRun(), ReorgedOps(), 4)
  {
    var w := Synced(RowWith(Confirmed, Some(10)));
    assert AtOrAfter(w.store, 10) == {KEY};
    assert ReorgedRows(w.store, {KEY}) == Synced(RowWith(Reorged, None)).store;
  }

  lemma DoneStep()
    ensures StepOk(ReorgedRun(), ReorgedOps(), 5)
  {
  }

  lemma EveryStep(i: nat)
    requires i < 6
    ensures StepOk(ReorgedRun(), ReorgedOps(), i)
  {
    if i < 2 {
      FirstSteps();
    } else if i == 2 {
      MinedStep();
    } else if i == 3 {
      ConfirmStep();
    } else if i == 4 {
      ReorgStep();
    } else {
      DoneStep();
    }
  }

  lemma ReorgedRunIsValid()
    ensures IsChainRun(CFG, ReorgedRun(), ReorgedOps())
  {
    var ws, ops := ReorgedRun(), ReorgedOps();
    forall i | 0 <= i < |ops|
      ensures StepOk(ws, ops, i)
    {
      EveryStep(i);
    }
    assert ListedConfirmed(ws, 5, KEY) by {
      assert ws[4].store[KEY].status == Confirmed;
    }
    Assemble(ws, ops);
  }

  /** The block-number rule of `CompletionExact` fails without its guard, and a reorged row leaves to done. */
  lemma CompletionAfterReorg()
    ensures IsChainRun(CFG, ReorgedRun(), ReorgedOps())
    ensures KEY in ReorgedRun()[5].store && ReorgedRun()[5].store[KEY].status == Reorged
    ensures KEY in ReorgedRun()[6].store && ReorgedRun()[6].store[KEY].status == Done
    ensures !AllBlocksKnown(ReorgedRun()[6]) && !Backed(ReorgedRun()[6].store[KEY], ReorgedRun()[6])
  {
    ReorgedRunIsValid();
    var w := ReorgedRun()[6];
    assert w == Synced(RowWith(Done, None)) && !BlockKnown(w.store[KEY]);
  }
}
