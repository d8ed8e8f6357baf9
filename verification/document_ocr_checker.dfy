/** The older poll cycle: the same four queries and the same batch, but every
    candidate becomes a job; nothing records which documents a worker already
    holds. */
module DocumentOcrChecker {
  import opened DocStore
  import DocOcrChecker

  /** One cycle of the older scheduler, submitting one job per candidate. */
  method CheckUnscannedDocuments(store: Store) returns (dispatched: seq<Doc>)
    ensures forall d :: d in dispatched <==> d in store && Dispatchable(d.state)
    ensures |dispatched| == |FindByState(store, Scanned)| + |FindByState(store, Processing)|
                          + |FindByState(store, WaitingToSend)| + |FindByState(store, ResourceToClean)|
    ensures dispatched == WorkBatch(store)
  {
    var cleaningDocs := FindByState(store, ResourceToClean);
    var completedDocs := FindByState(store, Scanned);
    var processingDocs := FindByState(store, Processing);
    var waitingToSendDocs := FindByState(store, WaitingToSend);

    var work := completedDocs + processingDocs + waitingToSendDocs + cleaningDocs;

    dispatched := [];
    var i := 0;
    while i < |work|
      invariant 0 <= i <= |work|
      invariant dispatched == work[..i]
    {
      assert work[..i + 1] == work[..i] + [work[i]];
      dispatched := dispatched + [work[i]];
      i := i + 1;
    }
    assert work[..|work|] == work;
    assert work == WorkBatch(store);
  }

  /** Any number of cycles of the older scheduler: all their jobs, in order. */
  function LegacyRunCycles(stores: seq<Store>): (jobs: seq<Doc>)
    ensures forall d :: d in jobs <==> exists k :: 0 <= k < |stores| && d in stores[k] && Dispatchable(d.state)
    decreases |stores|
  {
    if stores == [] then []
    else
      var rest := LegacyRunCycles(stores[1..]);
      assert forall d :: d in rest <==> exists k :: 1 <= k < |stores| && d in stores[k] && Dispatchable(d.state) by {
        forall d | d in rest ensures exists k :: 1 <= k < |stores| && d in stores[k] && Dispatchable(d.state) {
          var k :| 0 <= k < |stores[1..]| && d in stores[1..][k] && Dispatchable(d.state);
          assert stores[1..][k] == stores[k + 1];
        }
        forall d | exists k :: 1 <= k < |stores| && d in stores[k] && Dispatchable(d.state) ensures d in rest {
          var k :| 1 <= k < |stores| && d in stores[k] && Dispatchable(d.state);
          assert stores[1..][k - 1] == stores[k];
        }
      }
      WorkBatch(stores[0]) + rest
  }

  /** Without the registry filter, two cycles over a store that still holds a
      dispatchable document dispatch it twice: the counterexample to no double
      dispatch for this variant. */
  lemma LegacyDoubleDispatch(store: Store, d: Doc)
    requires d in store && Dispatchable(d.state)
    ensures Occurrences(LegacyRunCycles([store, store]), d.id) >= 2
    ensures !UniqueIds(LegacyRunCycles([store, store]))
  {
    var batch := WorkBatch(store);
    assert [store, store][1..] == [store];
    assert [store][1..] == [];
    assert LegacyRunCycles([store]) == batch + [];
    assert LegacyRunCycles([store, store]) == batch + batch;
    OccurrencesPositive(batch, d.id);
    OccurrencesAppend(batch, batch, d.id);
  }

  /** A document waiting to be sent, polled twice before its worker finishes:
      the older scheduler submits it twice, the deduplicating one once. */
  lemma TwoQuickCyclesContrast()
    ensures LegacyRunCycles([[Doc("D2", WaitingToSend)], [Doc("D2", WaitingToSend)]])
         == [Doc("D2", WaitingToSend), Doc("D2", WaitingToSend)]
    ensures DocOcrChecker.RunCycles([[Doc("D2", WaitingToSend)], [Doc("D2", WaitingToSend)]], {}).dispatched
         == [Doc("D2", WaitingToSend)]
  {
    var store := [Doc("D2", WaitingToSend)];
    var stores := [store, store];
    assert stores[1..] == [store];
    assert [store][1..] == [];
    assert FindByState(store, WaitingToSend) == store;
    assert FindByState(store, Scanned) == [];
    assert FindByState(store, Processing) == [];
    assert FindByState(store, ResourceToClean) == [];
    assert WorkBatch(store) == store;
    var first := DocOcrChecker.Cycle(store, {});
    assert first.dispatched == store;
    assert first.registry == {"D2"};
    assert DocOcrChecker.Cycle(store, first.registry).dispatched == [];
  }
}
