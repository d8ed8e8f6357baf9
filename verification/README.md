# ERDMS OCR scheduling core and document-controller normalisation, in Dafny

This project models two parts of the ERDMS document archive backend.

The first is the poll cycle of the background OCR scheduler. Once a minute the
scheduler asks the document store for the documents in each of four
asynchronous-processing states: resources to clean, scanned, processing and
waiting to send. It concatenates the four answers into one candidate batch in
a fixed order (scanned, processing, waiting-to-send, resources-to-clean). The
newer scheduler (`DocOcrChecker`) then drops every candidate whose id is
already held by a worker in the in-flight registry. It adds the survivors'
ids to the registry and submits one OCR job per survivor. The older scheduler
(`DocumentOcrChecker`) builds the same batch but submits a job for every
candidate. It is modelled alongside to show, as a proved counterexample, the
double dispatch that the registry prevents.

The second part is three pure rules of the document controller:
- the language-name normalisation used for uploads and searches;
- the element-wise normalisation of a search request's language list;
- the rule that sets a listed document's owner flag.

Files:
- `wrappers.dfy`: `Option` and `Result`, standing for Java's null and thrown
  exceptions.
- `seqs.dfy`: an order-preserving `Filter` on sequences and its lemmas. It is
  the shape shared by the store query and the in-flight filter.
- `doc_store.dfy`: documents, async states, the per-state store query and the
  candidate batch, with a characterisation of the batch.
- `doc_ocr_checker.dfy`: the deduplicating poll cycle as a pure function
  (`Cycle`) and as the step-by-step method (`CheckUnscannedDocs`). It also
  holds the multi-cycle composition and the no-double-dispatch lemmas.
- `document_ocr_checker.dfy`: the older, non-deduplicating cycle and the
  double-dispatch counterexample.
- `doc_controller.dfy`: `ConvertLanguageName`, `NormalizeSearchLanguages`
  and `IsOwner`.

Modelling choices:
- The document store is a snapshot `seq<Doc>`. A query for a state returns
  the documents in that state in snapshot order, because the order of the
  store's answer is not visible in the code.
- The registry is a `set<DocId>`. `isDocUsed` is membership and `addDoc` is
  insertion.
- A submitted job is the document handed to the executor. The dispatched jobs
  are a sequence in submission order.
- One cycle is sequential. The filter reads the registry as it was at the
  start of the cycle, because the stream is collected before any id is added.
- The older scheduler asks a document service, not the repository, for the
  documents in each state. That service and its entity type are not part of
  this model. The older cycle is given the same snapshot query `FindByState`
  as the newer one. So its "exactly the stored documents" holds under the
  assumption that the service answers like the repository query.
- The enumeration of async states is not part of this model. The four states
  the schedulers query are named, and `OtherState` stands for any other
  value.

## Model

| member | source | states |
|---|---|---|
| DocStore.FindByState | src/main/java/com/sulikdan/ERDMS/workers/DocOcrChecker.java:61-75 | A state query returns exactly the stored documents in that state. |
| DocStore.WorkBatch | src/main/java/com/sulikdan/ERDMS/workers/DocOcrChecker.java:77-80 | The candidate batch holds exactly the stored documents in one of the four queried states; no other state gets in. |
| DocStore.WorkBatchCount | src/main/java/com/sulikdan/ERDMS/workers/DocOcrChecker.java:61-80 | The batch is a permutation of the dispatchable part of the store: each such document appears as often as it is stored, and documents in any other state never appear. |
| DocStore.WorkBatchGrouped | src/main/java/com/sulikdan/ERDMS/workers/DocOcrChecker.java:77-80 | The batch is grouped by state in the order scanned, processing, waiting-to-send, resources-to-clean, which differs from the query order. |
| DocStore.WorkBatchPerState | src/main/java/com/sulikdan/ERDMS/workers/DocOcrChecker.java:77-80 | For each state, the batch's documents of that state are that state's query result in store order; non-dispatchable states contribute nothing. |
| DocOcrChecker.NotInFlight | src/main/java/com/sulikdan/ERDMS/workers/DocOcrChecker.java:83-86 | The filter keeps exactly the candidates whose id is not in the registry. |
| DocOcrChecker.Cycle | src/main/java/com/sulikdan/ERDMS/workers/DocOcrChecker.java:58-101 | Only stored documents in the four states are dispatched. None with an id registered at cycle start is dispatched. Every dispatchable document with a free id is dispatched. The registry only grows, and it grows by exactly the dispatched ids. |
| DocOcrChecker.CheckUnscannedDocs | src/main/java/com/sulikdan/ERDMS/workers/DocOcrChecker.java:58-101 | The step-by-step cycle (queries in source order, batch, filter loop, registration loop) computes the same jobs and registry as `Cycle`. |
| DocOcrChecker.DropInFlight | src/main/java/com/sulikdan/ERDMS/workers/DocOcrChecker.java:83-86 | The filter loop yields the batch filtered by non-membership, in batch order. |
| DocOcrChecker.RegisterAll | src/main/java/com/sulikdan/ERDMS/workers/DocOcrChecker.java:89 | The registration loop adds every survivor's id to the registry. |
| DocOcrChecker.DispatchCount | src/main/java/com/sulikdan/ERDMS/workers/DocOcrChecker.java:83-98 | A document is dispatched zero times if its id is registered or its state is not dispatchable. Otherwise it is dispatched exactly as often as the store holds it, so once for a store without repeats. |
| DocOcrChecker.DispatchOrder | src/main/java/com/sulikdan/ERDMS/workers/DocOcrChecker.java:77-98 | The jobs are the free scanned, processing, waiting-to-send and resource-to-clean documents, in that block order and in store order within each block. |
| DocOcrChecker.RegistryAfterCycle | src/main/java/com/sulikdan/ERDMS/workers/DocOcrChecker.java:89 | An id is registered after the cycle iff it was registered before or was dispatched. A previously registered id is never dispatched. |
| DocOcrChecker.UniqueStoreUniqueDispatch | src/main/java/com/sulikdan/ERDMS/workers/DocOcrChecker.java:83-89 | Within one cycle, dedup holds when the store's ids are distinct. |
| DocOcrChecker.DuplicateIdDispatchedTwice | src/main/java/com/sulikdan/ERDMS/workers/DocOcrChecker.java:83-89 | The filter reads the start-of-cycle registry. So any two different dispatchable stored documents that share an id not in the registry are both dispatched in one cycle, and that cycle's ids are not distinct. This is a partial converse of `UniqueStoreUniqueDispatch`: two free dispatchable documents sharing an id break within-cycle dedup. |
| DocOcrChecker.NoDoubleDispatchTwoCycles | src/main/java/com/sulikdan/ERDMS/workers/DocOcrChecker.java:83-89 | With no release between two cycles, no id is dispatched by both, whatever the store became meanwhile. With distinct-id stores, no id is dispatched twice overall. |
| DocOcrChecker.RunCycles | src/main/java/com/sulikdan/ERDMS/workers/DocOcrChecker.java:57-101 | Over repeated cycles with no release, the registry only grows, and by exactly the dispatched ids. No initially registered id is dispatched. |
| DocOcrChecker.NoDoubleDispatchAcrossCycles | src/main/java/com/sulikdan/ERDMS/workers/DocOcrChecker.java:83-89 | Over any number of cycles with no release, where each cycle's store has distinct ids, each id is dispatched at most once. |
| DocumentOcrChecker.CheckUnscannedDocuments | BackEnd/ERDMS/src/main/java/com/sulikdan/ERDMS/workers/DocumentOcrChecker.java:54-92 | The older cycle dispatches exactly the stored documents in the four states, one job per candidate. The number of jobs is the sum of the four query sizes, with no filtering. |
| DocumentOcrChecker.LegacyRunCycles | BackEnd/ERDMS/src/main/java/com/sulikdan/ERDMS/workers/DocumentOcrChecker.java:53-89 | Over repeated older cycles, a document is dispatched iff some cycle's store holds it in a dispatchable state. |
| DocumentOcrChecker.LegacyDoubleDispatch | BackEnd/ERDMS/src/main/java/com/sulikdan/ERDMS/workers/DocumentOcrChecker.java:82-89 | Two older cycles over a store holding a dispatchable document dispatch its id at least twice. This is the counterexample to no double dispatch. |
| DocumentOcrChecker.TwoQuickCyclesContrast | BackEnd/ERDMS/src/main/java/com/sulikdan/ERDMS/workers/DocumentOcrChecker.java:82-89 | An example: one store holding a single waiting-to-send document, polled twice with nothing in flight at first. The older cycle submits it twice and the deduplicating one once. |
| DocController.ToLowerAscii | src/main/java/com/sulikdan/ERDMS/controllers/DocController.java:349 | Lower-casing keeps the name equal up to ASCII case and leaves no ASCII capital. |
| DocController.ToLowerAsciiUnique | src/main/java/com/sulikdan/ERDMS/controllers/DocController.java:349 | Those two properties determine the lower-cased form: any capital-free name equal up to case is it. |
| DocController.ConvertLanguageName | src/main/java/com/sulikdan/ERDMS/controllers/DocController.java:348-364 | A name is accepted iff its lower-cased form is an alias: english/eng, czech/cz/czk or slovak/svk. The result is that alias's canonical name, always one of english, czech, slovak. Anything else is rejected with the lower-cased name. |
| DocController.ConvertLanguageNameCaseInsensitive | src/main/java/com/sulikdan/ERDMS/controllers/DocController.java:349 | Names that differ only in ASCII letter case normalise alike, and each normalises like its lower-cased form. |
| DocController.ConvertLanguageNameIdempotent | src/main/java/com/sulikdan/ERDMS/controllers/DocController.java:350-360 | Each canonical name maps to itself, so normalising a result again changes nothing. |
| DocController.NormalizeSearchLanguages | src/main/java/com/sulikdan/ERDMS/controllers/DocController.java:176-182 | The list is accepted iff every element is. On success it keeps length and order, and each element is its own element's normalisation. On failure the error is that of the first unsupported element. |
| DocController.NormalizeSearchLanguagesIdempotent | src/main/java/com/sulikdan/ERDMS/controllers/DocController.java:176-182 | Normalising an already normalised search list returns it unchanged. |
| DocController.IsOwner | src/main/java/com/sulikdan/ERDMS/controllers/DocController.java:320-324 | The flag is true iff the user and the owner are present and the owner's id is set and equals the user's id. It fails iff the user is present and the owner is present without an id. Otherwise it is false. |

## Left out

- Scheduling (a fixed 60-second delay between cycles), the cycle's log
  lines, and the executor's thread pool: timing, I/O and concurrency. `execute` is modelled as appending the
  document to the dispatched jobs.
- Concurrent access to the registry: the filter and the insertion form a
  non-atomic check-then-act. One cycle is modelled sequentially, with no
  interleaving of cycles or workers.
- Executor rejection: every id is added to the registry before any job is
  submitted. A rejected submission would therefore leave its id, and those of
  all later survivors, registered with no worker to release them. The
  executor is not part of this model, so submission always succeeds here.
- Store-query failures: the code has no per-query isolation. An exception
  from any of the four queries leaves the cycle before anything is
  registered or submitted, so the cycle has no effect. Query failures are not
  modelled; each query is its answer on a snapshot.
- The OCR job worker, the per-document state transitions, and the registry
  release when a job ends: the worker, the registry's implementation and the
  OCR and document services are not part of this model. The states are kept
  as an enumeration only. The multi-cycle lemmas therefore assume that no
  release happens between cycles.
- Repository interfaces, security and web configuration, JSON/HAL
  serialisation, HTTP responses, multipart upload and the connected-user
  lookup: I/O and framework plumbing.
- ToLowerAscii: lower-cases ASCII letters only, unlike Java's
  locale-sensitive `toLowerCase` (see the next line).
- ConvertLanguageName: lower-casing is ASCII only. Java's locale-sensitive
  `toLowerCase` also maps non-ASCII characters. For example, the Kelvin sign
  becomes `k`, so "CZ" followed by a Kelvin sign is accepted as czech there
  and rejected here. Under a Turkish locale, "ENGLISH" lower-cases to a
  dotless-i spelling and is rejected there.
- NormalizeSearchLanguages: null is not modelled, because `seq<string>`
  cannot hold it. This covers a null language list (the parameter object's
  default builds an empty one) and a null element of the list. A null
  element fails with a NullPointerException when it is lower-cased, not
  with an unsupported-language error.
