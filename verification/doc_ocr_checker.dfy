/** The poll cycle of the background OCR scheduler that deduplicates against
    the in-flight registry: query the four dispatchable states, drop the
    candidates already held by a worker, register the rest, and hand one job
    per survivor to the executor. */
module DocOcrChecker {
  import opened Seqs
  import opened DocStore

  /** What one cycle leaves behind: the jobs handed to the executor, in
      submission order, and the in-flight registry afterwards. */
  datatype CycleResult = CycleResult(dispatched: seq<Doc>, registry: set<DocId>)

  /** The stream filter: candidates whose id is not already in use. */
  function NotInFlight(batch: seq<Doc>, registry: set<DocId>): (r: seq<Doc>)
    ensures forall d :: d in r <==> d in batch && d.id !in registry
  {
    Filter(batch, (d: Doc) => d.id !in registry)
  }

  /** One poll cycle over a store snapshot, starting from `registry`. The
      filter consults the registry as it was at the start of the cycle; the
      survivors' ids are added afterwards. */
  function Cycle(store: Store, registry: set<DocId>): (r: CycleResult)
    ensures forall d :: d in r.dispatched ==> d in store && Dispatchable(d.state)
    ensures forall d :: d in r.dispatched ==> d.id !in registry
    ensures forall d :: d in store && Dispatchable(d.state) && d.id !in registry ==> d in r.dispatched
    ensures registry <= r.registry
    ensures r.registry - registry == Ids(r.dispatched)
  {
    var survivors := NotInFlight(WorkBatch(store), registry);
    CycleResult(survivors, registry + Ids(survivors))
  }

  /** The cycle step by step: the four queries in the order the scheduler
      issues them, the batch assembled in its own order, the filter and the
      registration loop; the survivors are the jobs submitted. */
  method CheckUnscannedDocs(store: Store, registry: set<DocId>)
    returns (dispatched: seq<Doc>, registry': set<DocId>)
    ensures dispatched == Cycle(store, registry).dispatched
    ensures registry' == Cycle(store, registry).registry
  {
    var cleaningDocs := FindByState(store, ResourceToClean);
    var scannedDocs := FindByState(store, Scanned);
    var processingDocs := FindByState(store, Processing);
    var waitingToSendDocs := FindByState(store, WaitingToSend);

    var work := scannedDocs + processingDocs + waitingToSendDocs + cleaningDocs;
    assert work == WorkBatch(store);

    dispatched := DropInFlight(work, registry);
    registry' := RegisterAll(dispatched, registry);
  }

  /** The stream filter as a loop over the batch. */
  method DropInFlight(work: seq<Doc>, registry: set<DocId>) returns (survivors: seq<Doc>)
    ensures survivors == NotInFlight(work, registry)
  {
    survivors := [];
    var i := 0;
    while i < |work|
      invariant 0 <= i <= |work|
      invariant survivors == NotInFlight(work[..i], registry)
    {
      assert work[..i + 1][..i] == work[..i];
      if work[i].id !in registry {
        survivors := survivors + [work[i]];
      }
      i := i + 1;
    }
    assert work[..|work|] == work;
  }

  /** The registration loop: every survivor's id is added to the registry. */
  method RegisterAll(survivors: seq<Doc>, registry: set<DocId>) returns (registry': set<DocId>)
    ensures registry' == registry + Ids(survivors)
  {
    registry' := registry;
    var j := 0;
    while j < |survivors|
      invariant 0 <= j <= |survivors|
      invariant registry' == registry + Ids(survivors[..j])
    {
      assert survivors[..j + 1] == survivors[..j] + [survivors[j]];
      IdsAppend(survivors[..j], [survivors[j]]);
      registry' := registry' + {survivors[j].id};
      j := j + 1;
    }
    assert survivors[..|survivors|] == survivors;
  }

  /** How often a document is dispatched: never when its id is in flight or
      its state is not dispatchable, otherwise exactly as often as the store
      holds it. With a store of distinct documents, every free candidate is
      dispatched exactly once. */
  lemma DispatchCount(store: Store, registry: set<DocId>, d: Doc)
    ensures multiset(Cycle(store, registry).dispatched)[d]
         == if d.id in registry || !Dispatchable(d.state) then 0 else multiset(store)[d]
  {
    FilterCount(WorkBatch(store), (x: Doc) => x.id !in registry, d);
    WorkBatchCount(store, d);
  }

  /** The dispatched jobs keep the batch order: the free scanned documents
      first, then processing, waiting-to-send and resources-to-clean, each
      block in store order. */
  lemma DispatchOrder(store: Store, registry: set<DocId>)
    ensures Cycle(store, registry).dispatched
         == NotInFlight(FindByState(store, Scanned), registry)
          + NotInFlight(FindByState(store, Processing), registry)
          + NotInFlight(FindByState(store, WaitingToSend), registry)
          + NotInFlight(FindByState(store, ResourceToClean), registry)
  {
    var p := (d: Doc) => d.id !in registry;
    var sc := FindByState(store, Scanned);
    var pr := FindByState(store, Processing);
    var wa := FindByState(store, WaitingToSend);
    var cl := FindByState(store, ResourceToClean);
    FilterAppend(sc + pr + wa, cl, p);
    FilterAppend(sc + pr, wa, p);
    FilterAppend(sc, pr, p);
  }

  /** Registration and filtering agree: an id is in the registry after the
      cycle exactly when it was before or one of its documents was
      dispatched, and no dispatched id was registered before. */
  lemma RegistryAfterCycle(store: Store, registry: set<DocId>, id: DocId)
    ensures id in Cycle(store, registry).registry <==>
              id in registry || Occurrences(Cycle(store, registry).dispatched, id) > 0
    ensures id in registry ==> Occurrences(Cycle(store, registry).dispatched, id) == 0
  {
    OccurrencesPositive(Cycle(store, registry).dispatched, id);
  }

  /** Within one cycle, a store with distinct ids yields jobs with distinct
      ids. */
  lemma {:induction false} UniqueStoreUniqueDispatch(store: Store, registry: set<DocId>)
    requires UniqueIds(store)
    ensures UniqueIds(Cycle(store, registry).dispatched)
  {
    var sc := FindByState(store, Scanned);
    var pr := FindByState(store, Processing);
    var wa := FindByState(store, WaitingToSend);
    var cl := FindByState(store, ResourceToClean);
    forall id ensures Occurrences(Cycle(store, registry).dispatched, id) <= 1 {
      OccurrencesFilter(WorkBatch(store), (x: Doc) => x.id !in registry, id);
      OccurrencesAppend(sc + pr + wa, cl, id);
      OccurrencesAppend(sc + pr, wa, id);
      OccurrencesAppend(sc, pr, id);
      BatchOccurrences(store, id);
    }
  }

  /** An id occurs in the batch no more often than in the store: each stored
      document falls into at most one of the four queries. */
  lemma {:induction false} BatchOccurrences(store: Store, id: DocId)
    ensures Occurrences(FindByState(store, Scanned), id) + Occurrences(FindByState(store, Processing), id)
          + Occurrences(FindByState(store, WaitingToSend), id) + Occurrences(FindByState(store, ResourceToClean), id)
         <= Occurrences(store, id)
    decreases |store|
  {
    if store != [] {
      var init := store[..|store| - 1];
      var last := store[|store| - 1];
      assert store == init + [last];
      BatchOccurrences(init, id);
      OccurrencesFindByStateStep(init, last, Scanned, id);
      OccurrencesFindByStateStep(init, last, Processing, id);
      OccurrencesFindByStateStep(init, last, WaitingToSend, id);
      OccurrencesFindByStateStep(init, last, ResourceToClean, id);
    }
  }

  /** Appending one document to a snapshot adds one to a query's count of
      its id exactly when the document has the queried state. */
  lemma OccurrencesFindByStateStep(init: Store, last: Doc, s: AsyncApiState, id: DocId)
    ensures Occurrences(FindByState(init + [last], s), id)
         == Occurrences(FindByState(init, s), id) + (if last.state == s && last.id == id then 1 else 0)
  {
    FindByStateAppend(init, [last], s);
    OccurrencesAppend(FindByState(init, s), FindByState([last], s), id);
    assert [last][..0] == [];
    if last.state == s {
      assert FindByState([last], s) == [last];
    } else {
      assert FindByState([last], s) == [];
    }
  }

  /** Because the filter reads the start-of-cycle registry, two different
      dispatchable documents of the store that share a free id are both
      dispatched in the same cycle: without distinct store ids, one cycle
      can dispatch an id twice. */
  lemma DuplicateIdDispatchedTwice(store: Store, registry: set<DocId>, d1: Doc, d2: Doc)
    requires d1 != d2 && d1.id == d2.id && d1.id !in registry
    requires d1 in store && Dispatchable(d1.state)
    requires d2 in store && Dispatchable(d2.state)
    ensures Occurrences(Cycle(store, registry).dispatched, d1.id) >= 2
    ensures !UniqueIds(Cycle(store, registry).dispatched)
  {
    DispatchCount(store, registry, d1);
    DispatchCount(store, registry, d2);
    OccurrencesOfPair(Cycle(store, registry).dispatched, d1, d2);
  }

  /** Two different documents with one id each add their multiplicity to
      that id's count. */
  lemma {:induction false} OccurrencesOfPair(docs: seq<Doc>, d1: Doc, d2: Doc)
    requires d1 != d2 && d1.id == d2.id
    ensures Occurrences(docs, d1.id) >= multiset(docs)[d1] + multiset(docs)[d2]
    decreases |docs|
  {
    if docs != [] {
      var init := docs[..|docs| - 1];
      assert docs == init + [docs[|docs| - 1]];
      OccurrencesOfPair(init, d1, d2);
    }
  }

  /** Two cycles back to back, with no release in between and whatever the
      workers did to the store meanwhile: no id is dispatched by both, and
      with stores of distinct ids no id is dispatched twice overall. */
  lemma NoDoubleDispatchTwoCycles(store1: Store, store2: Store, registry: set<DocId>)
    ensures var first := Cycle(store1, registry);
            Ids(first.dispatched) !! Ids(Cycle(store2, first.registry).dispatched)
    ensures UniqueIds(store1) && UniqueIds(store2) ==>
              var first := Cycle(store1, registry);
              UniqueIds(first.dispatched + Cycle(store2, first.registry).dispatched)
  {
    var first := Cycle(store1, registry);
    var second := Cycle(store2, first.registry);
    if UniqueIds(store1) && UniqueIds(store2) {
      UniqueStoreUniqueDispatch(store1, registry);
      UniqueStoreUniqueDispatch(store2, first.registry);
      forall id ensures Occurrences(first.dispatched + second.dispatched, id) <= 1 {
        OccurrencesAppend(first.dispatched, second.dispatched, id);
        OccurrencesPositive(first.dispatched, id);
        OccurrencesPositive(second.dispatched, id);
      }
    }
  }

  /** Any number of cycles with no release in between: the jobs of all
      cycles, in order, and the final registry. */
  function RunCycles(stores: seq<Store>, registry: set<DocId>): (r: CycleResult)
    ensures registry <= r.registry
    ensures r.registry - registry == Ids(r.dispatched)
    ensures forall d :: d in r.dispatched ==> d.id !in registry
    decreases |stores|
  {
    if stores == [] then CycleResult([], registry)
    else
      var first := Cycle(stores[0], registry);
      var rest := RunCycles(stores[1..], first.registry);
      IdsAppend(first.dispatched, rest.dispatched);
      CycleResult(first.dispatched + rest.dispatched, rest.registry)
  }

  /** No double dispatch across any number of cycles: as long as no worker
      releases an id, each id is dispatched at most once in total. */
  lemma {:induction false} NoDoubleDispatchAcrossCycles(stores: seq<Store>, registry: set<DocId>)
    requires forall k :: 0 <= k < |stores| ==> UniqueIds(stores[k])
    ensures UniqueIds(RunCycles(stores, registry).dispatched)
    decreases |stores|
  {
    if stores != [] {
      var first := Cycle(stores[0], registry);
      var rest := RunCycles(stores[1..], first.registry);
      assert forall k :: 0 <= k < |stores[1..]| ==> stores[1..][k] == stores[k + 1];
      NoDoubleDispatchAcrossCycles(stores[1..], first.registry);
      UniqueStoreUniqueDispatch(stores[0], registry);
      forall id ensures Occurrences(first.dispatched + rest.dispatched, id) <= 1 {
        OccurrencesAppend(first.dispatched, rest.dispatched, id);
        OccurrencesPositive(first.dispatched, id);
        OccurrencesPositive(rest.dispatched, id);
      }
    }
  }
}
