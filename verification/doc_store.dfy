/** Documents as the OCR pollers see them, and the document store's query by
    asynchronous-processing state. */
module DocStore {
  import opened Seqs

  /** A document's store identifier (a Mongo object id, opaque here). */
  type DocId = string

  /** Position of a document in the remote OCR lifecycle. The four named
      states are the ones the pollers query; `OtherState` stands for any
      further value the enumeration may hold. */
  datatype AsyncApiState =
    | WaitingToSend
    | Processing
    | Scanned
    | ResourceToClean
    | OtherState(name: string)

  /** The restricted view of a stored document the pollers work with. */
  datatype Doc = Doc(id: DocId, state: AsyncApiState)

  /** A snapshot of the document store, in its own (query result) order. */
  type Store = seq<Doc>

  /** States whose documents a poll cycle hands to a worker. */
  predicate Dispatchable(s: AsyncApiState) {
    s.WaitingToSend? || s.Processing? || s.Scanned? || s.ResourceToClean?
  }

  /** The derived repository query "documents whose async-API state is
      `state`", answered from a snapshot in snapshot order. */
  function FindByState(store: Store, state: AsyncApiState): (r: seq<Doc>)
    ensures forall d :: d in r <==> d in store && d.state == state
  {
    Filter(store, (d: Doc) => d.state == state)
  }

  /** The candidate batch of one poll cycle: the four query results
      concatenated, scanned first, then processing, waiting-to-send and
      resources-to-clean (not the order in which they are queried). */
  function WorkBatch(store: Store): (batch: seq<Doc>)
    ensures forall d :: d in batch <==> d in store && Dispatchable(d.state)
  {
    FindByState(store, Scanned) + FindByState(store, Processing)
      + FindByState(store, WaitingToSend) + FindByState(store, ResourceToClean)
  }

  /** Place of a state's block inside the candidate batch. */
  function BatchRank(s: AsyncApiState): nat {
    match s
    case Scanned => 0
    case Processing => 1
    case WaitingToSend => 2
    case ResourceToClean => 3
    case OtherState(_) => 4
  }

  /** Documents appear grouped by state, in batch-rank order. */
  ghost predicate RankSorted(docs: seq<Doc>) {
    forall i, j :: 0 <= i < j < |docs| ==> BatchRank(docs[i].state) <= BatchRank(docs[j].state)
  }

  /** Every document of `docs` has batch rank at most `k`. */
  ghost predicate RankAtMost(docs: seq<Doc>, k: nat) {
    forall i :: 0 <= i < |docs| ==> BatchRank(docs[i].state) <= k
  }

  /** Number of positions of `docs` that carry identifier `id`. */
  function Occurrences(docs: seq<Doc>, id: DocId): nat {
    if docs == [] then 0
    else Occurrences(docs[..|docs| - 1], id) + (if docs[|docs| - 1].id == id then 1 else 0)
  }

  /** No identifier occurs twice. */
  ghost predicate UniqueIds(docs: seq<Doc>) {
    forall id :: Occurrences(docs, id) <= 1
  }

  /** The identifiers of `docs`. */
  function Ids(docs: seq<Doc>): set<DocId> {
    set d | d in docs :: d.id
  }

  lemma IdsAppend(a: seq<Doc>, b: seq<Doc>)
    ensures Ids(a + b) == Ids(a) + Ids(b)
  {
    assert forall d :: d in a + b <==> d in a || d in b;
  }

  lemma {:induction false} OccurrencesAppend(a: seq<Doc>, b: seq<Doc>, id: DocId)
    ensures Occurrences(a + b, id) == Occurrences(a, id) + Occurrences(b, id)
    decreases |b|
  {
    if b == [] {
      assert a + b == a;
    } else {
      assert (a + b)[..|a + b| - 1] == a + b[..|b| - 1];
      OccurrencesAppend(a, b[..|b| - 1], id);
    }
  }

  /** An identifier occurs in `docs` exactly when it is one of their ids. */
  lemma {:induction false} OccurrencesPositive(docs: seq<Doc>, id: DocId)
    ensures Occurrences(docs, id) > 0 <==> id in Ids(docs)
    decreases |docs|
  {
    if docs != [] {
      var init := docs[..|docs| - 1];
      OccurrencesPositive(init, id);
      assert docs == init + [docs[|docs| - 1]];
      assert Ids(docs) == Ids(init) + {docs[|docs| - 1].id};
    }
  }

  /** Filtering never makes an identifier more frequent. */
  lemma {:induction false} OccurrencesFilter(docs: seq<Doc>, p: Doc -> bool, id: DocId)
    ensures Occurrences(Filter(docs, p), id) <= Occurrences(docs, id)
    decreases |docs|
  {
    if docs != [] {
      var init := docs[..|docs| - 1];
      var last := docs[|docs| - 1];
      OccurrencesFilter(init, p, id);
      if p(last) {
        OccurrencesAppend(Filter(init, p), [last], id);
      } else {
        assert Filter(docs, p) == Filter(init, p) + [];
        assert Filter(init, p) + [] == Filter(init, p);
      }
    }
  }

  /** A document of the store is found exactly as often as it is stored by a
      query for its own state, and never by a query for another state. */
  lemma FindByStateCount(store: Store, state: AsyncApiState, d: Doc)
    ensures multiset(FindByState(store, state))[d] == if d.state == state then multiset(store)[d] else 0
  {
    FilterCount(store, (x: Doc) => x.state == state, d);
  }

  /** Querying a query result again for the same state changes nothing. */
  lemma FindByStateOfFoundSame(store: Store, s: AsyncApiState)
    ensures FindByState(FindByState(store, s), s) == FindByState(store, s)
  {
    FindByStateStates(store, s);
    FilterKeepsAll(FindByState(store, s), (d: Doc) => d.state == s);
  }

  /** Querying a query result for any other state yields nothing. */
  lemma FindByStateOfFoundOther(store: Store, s: AsyncApiState, t: AsyncApiState)
    requires s != t
    ensures FindByState(FindByState(store, s), t) == []
  {
    FindByStateStates(store, s);
    FilterKeepsNone(FindByState(store, s), (d: Doc) => d.state == t);
  }

  /** The query distributes over concatenated snapshots. */
  lemma FindByStateAppend(a: Store, b: Store, state: AsyncApiState)
    ensures FindByState(a + b, state) == FindByState(a, state) + FindByState(b, state)
  {
    FilterAppend(a, b, (d: Doc) => d.state == state);
  }

  lemma RankSortedAppend(a: seq<Doc>, b: seq<Doc>, k: nat)
    requires RankSorted(a) && RankAtMost(a, k)
    requires forall i :: 0 <= i < |b| ==> BatchRank(b[i].state) == k
    ensures RankSorted(a + b) && RankAtMost(a + b, k)
  {
    var ab := a + b;
    forall i, j | 0 <= i < j < |ab|
      ensures BatchRank(ab[i].state) <= BatchRank(ab[j].state)
    {
      if j < |a| {
        assert ab[i] == a[i] && ab[j] == a[j];
      } else if i < |a| {
        assert ab[i] == a[i] && ab[j] == b[j - |a|];
      } else {
        assert ab[i] == b[i - |a|] && ab[j] == b[j - |a|];
      }
    }
  }

  /** A query result holds only documents of the queried state. */
  lemma FindByStateStates(store: Store, state: AsyncApiState)
    ensures forall i :: 0 <= i < |FindByState(store, state)| ==> FindByState(store, state)[i].state == state
  {
    var r := FindByState(store, state);
    forall i | 0 <= i < |r| ensures r[i].state == state {
      assert r[i] in r;
    }
  }

  /** The candidate batch holds each dispatchable stored document as often
      as the store does, and nothing else. */
  lemma WorkBatchCount(store: Store, d: Doc)
    ensures multiset(WorkBatch(store))[d] == if Dispatchable(d.state) then multiset(store)[d] else 0
  {
    FindByStateCount(store, Scanned, d);
    FindByStateCount(store, Processing, d);
    FindByStateCount(store, WaitingToSend, d);
    FindByStateCount(store, ResourceToClean, d);
  }

  /** The candidate batch is grouped by state in the order scanned,
      processing, waiting-to-send, resources-to-clean. */
  lemma WorkBatchGrouped(store: Store)
    ensures RankSorted(WorkBatch(store))
  {
    var sc := FindByState(store, Scanned);
    var pr := FindByState(store, Processing);
    var wa := FindByState(store, WaitingToSend);
    var cl := FindByState(store, ResourceToClean);
    FindByStateStates(store, Scanned);
    FindByStateStates(store, Processing);
    FindByStateStates(store, WaitingToSend);
    FindByStateStates(store, ResourceToClean);
    RankSortedAppend([], sc, 0);
    assert [] + sc == sc;
    RankSortedAppend(sc, pr, 1);
    RankSortedAppend(sc + pr, wa, 2);
    RankSortedAppend(sc + pr + wa, cl, 3);
  }

  /** Querying the candidate batch for one state queries each of its four
      blocks. */
  lemma WorkBatchBlocks(store: Store, s: AsyncApiState)
    ensures FindByState(WorkBatch(store), s)
         == FindByState(FindByState(store, Scanned), s) + FindByState(FindByState(store, Processing), s)
          + FindByState(FindByState(store, WaitingToSend), s) + FindByState(FindByState(store, ResourceToClean), s)
  {
    var sc := FindByState(store, Scanned);
    var pr := FindByState(store, Processing);
    var wa := FindByState(store, WaitingToSend);
    var cl := FindByState(store, ResourceToClean);
    FindByStateAppend(sc + pr + wa, cl, s);
    FindByStateAppend(sc + pr, wa, s);
    FindByStateAppend(sc, pr, s);
  }

  /** The batch's scanned documents are the scanned query's answer. */
  lemma WorkBatchScanned(store: Store)
    ensures FindByState(WorkBatch(store), Scanned) == FindByState(store, Scanned)
  {
    var s := Scanned;
    WorkBatchBlocks(store, s);
    FindByStateOfFoundSame(store, s);
    FindByStateOfFoundOther(store, Processing, s);
    FindByStateOfFoundOther(store, WaitingToSend, s);
    FindByStateOfFoundOther(store, ResourceToClean, s);
    assert FindByState(store, s) + [] + [] + [] == FindByState(store, s);
  }

  /** The batch's processing documents are the processing query's answer. */
  lemma WorkBatchProcessing(store: Store)
    ensures FindByState(WorkBatch(store), Processing) == FindByState(store, Processing)
  {
    var s := Processing;
    WorkBatchBlocks(store, s);
    FindByStateOfFoundOther(store, Scanned, s);
    FindByStateOfFoundSame(store, s);
    FindByStateOfFoundOther(store, WaitingToSend, s);
    FindByStateOfFoundOther(store, ResourceToClean, s);
    assert [] + FindByState(store, s) + [] + [] == FindByState(store, s);
  }

  /** The batch's waiting-to-send documents are that query's answer. */
  lemma WorkBatchWaitingToSend(store: Store)
    ensures FindByState(WorkBatch(store), WaitingToSend) == FindByState(store, WaitingToSend)
  {
    var s := WaitingToSend;
    WorkBatchBlocks(store, s);
    FindByStateOfFoundOther(store, Scanned, s);
    FindByStateOfFoundOther(store, Processing, s);
    FindByStateOfFoundSame(store, s);
    FindByStateOfFoundOther(store, ResourceToClean, s);
    assert [] + [] + FindByState(store, s) + [] == FindByState(store, s);
  }

  /** The batch's resource-to-clean documents are that query's answer. */
  lemma WorkBatchResourceToClean(store: Store)
    ensures FindByState(WorkBatch(store), ResourceToClean) == FindByState(store, ResourceToClean)
  {
    var s := ResourceToClean;
    WorkBatchBlocks(store, s);
    FindByStateOfFoundOther(store, Scanned, s);
    FindByStateOfFoundOther(store, Processing, s);
    FindByStateOfFoundOther(store, WaitingToSend, s);
    FindByStateOfFoundSame(store, s);
    assert [] + [] + [] + FindByState(store, s) == FindByState(store, s);
  }

  /** Within one state the candidate batch keeps the store's order; states
      that are not dispatchable contribute nothing. */
  lemma WorkBatchPerState(store: Store, s: AsyncApiState)
    ensures FindByState(WorkBatch(store), s) == if Dispatchable(s) then FindByState(store, s) else []
  {
    match s
    case Scanned => WorkBatchScanned(store);
    case Processing => WorkBatchProcessing(store);
    case WaitingToSend => WorkBatchWaitingToSend(store);
    case ResourceToClean => WorkBatchResourceToClean(store);
    case OtherState(_) =>
      WorkBatchBlocks(store, s);
      FindByStateOfFoundOther(store, Scanned, s);
      FindByStateOfFoundOther(store, Processing, s);
      FindByStateOfFoundOther(store, WaitingToSend, s);
      FindByStateOfFoundOther(store, ResourceToClean, s);
  }
}
