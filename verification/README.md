# MechMind: a verified model

MechMind reads trouble codes from cars in a workshop bay, uploads the scans, and explains them with rules, a recall
catalog and a short generated narrative. This project models the parts of it whose guarantees come from reasoning
across functions, and proves those guarantees with Dafny 4.11. `dafny verify dfyconfig.toml` checks everything.

| files | what they model |
|---|---|
| `JobQueue`, `JobQueueProofs`, `JobQueueTheorems`, `SeedTwice` | the enrichment job table as a transition system: any number of workers claim, finish, fail, spawn, crash and give up waiting, with lost replies and dropped database errors |
| `Interference` | one worker among many: what other sessions' steps leave alone, and runs seen from one worker |
| `EnrichmentWorker`, `Market` | the store's statements as methods that change the table in place, and the worker, seed and drain programs, each proved to be a run of that system in which other sessions take any steps between its statements |
| `Recalls` | the catalog upsert, the attach statement and a whole recall fetch, alone and among other sessions' statements |
| `BayScan`, `BayThreads`, `BayServer` | the bay UI's scan jobs: handlers, cancel calls and runners interleaved at their mutex sections; one thread among many; and the same code as classes, each program proved to be such a run with others at work between its sections |
| `UsbAdapter`, `Link` | the USB adapter's handle life cycle and what a scan sends and reports |
| `HexText`, `Codes`, `Pids`, `Frames`, `EchoStrip`, `StatusMerge` | the OBD text decoders, code replies of other shapes, what `command` takes out of a raw reply before them, and the three-source status merge |
| `Diagnosis`, `DecodedRules`, `Packet`, `Narrative` | rules, stable ranking, cut, gate and narrative cache |
| `CoOccurrence` | the fleet query as counts on a bag of rows |
| `Common`, `Text` | shared types and string operations |

Conventions. What the outside answers (NHTSA, the database, the model, clocks, serial replies, cancellation) is a
parameter, or an arbitrary choice where every outcome is to be covered. SQL statements are atomic updates. `float64` is
an exact rational (`real`). `log`, `origin`, `history`, `closes`, `exchanges` and `completed` are histories: they
record what happened and no program reads them. Strings are ASCII. Errors have a text: the adapter's, the context's and
the server's own are prefixed or fixed strings.

What the proofs brought out about the code:

- The closing updates on jobs have no status guard, and need none: over every interleaving they hit only a running row
  that the caller alone holds.
- A finished `seed_catalog` job has a row for every model and year, but has it exactly once if and only if its earlier
  attempts inserted nothing. A run in which it fails is exhibited for every non-empty list of market models.
- "queue empty" in `enrichctl --drain` means that no row is due that no other session has locked.
- `vin_decode` queues a recall fetch whenever its attach adds nothing, so also when the vehicle already has every
  listed campaign.
- A cancel call's own note can land on the next scan; the runner's notes never can.
- `command` deletes its own text wherever it occurs in a reply. The adapter is configured with spaces off, so data can
  contain it: a stored P0300 ("430300" in reply to "03") is lost, and a code list comes through if and only if the
  query does not occur in it. Live readings have the same condition; an airflow of 43.67 g/s is lost.
- A code reply of two or more pairs without its service byte is misread exactly when its first code is C03xx, C07xx or
  C0Axx; a single code without it is always lost.
- The decoder knows no count byte, which ISO 15765-4, the first protocol tried, puts behind the service byte. All
  pairs are then put together one byte early. With the true count and no code twice, only an empty memory and a sole
  P0101 come through.
- A second frame with its own service byte is misread unless all its bytes are that byte too, and "SEARCHING...NO DATA"
  reads as the code U2ACD.
- Three branches of the USB path cannot run: "Reconnecting" in `ensureOpen`, the lost-port return of `Identify`, and
  the failure branches of `Scan` for codes and live sample.
- The freeze-frame rule never fires on scans of the USB adapter, whose frames carry no `rpm`.
- No two kinds of finding share a confidence, so ties never happen and the order of any two kinds is fixed.
- `docs/llm-context.md` lists `structured_sufficient` as a reason to skip the narrative; no rule is confident enough
  for it ever to be given.
- A scan that lists a code twice can push a co-occurrence rate above 1; the exact condition is proved.

## Model

| member | source | states |
|---|---|---|
| JobQueueTheorems.ClosingHitsOwnRunningJob | internal/store/enrichment.go:116-134 | In every reachable state, late updates included, the unguarded complete and fail updates change one row only, that row is running, the caller holds it, and no other worker holds or has locked it |
| JobQueueTheorems.AtMostOneHolder | internal/store/enrichment.go:80-114 | Over every interleaving a held job is running; two workers never hold the same row, never have locked the same row, and none has locked a row that another holds |
| JobQueueTheorems.FinalRowsStay | internal/enrichment/worker.go:46-57 | A done or failed row stays exactly as it is through every later run |
| JobQueueTheorems.RetryBound | internal/store/enrichment.go:102-134 | Attempts is the number of claims ever made of the row: at most 4 while pending, 1 to 5 when running or done, 5 when failed |
| JobQueueTheorems.VinSpawnsAtMostOnce | internal/enrichment/worker.go:73-148 | Over all its retries, lost replies and crashes one vin_decode job inserts at most one row, and that is a recall fetch |
| JobQueueTheorems.RecallsSpawnNothing | internal/enrichment/worker.go:150-196 | A recalls_mmy job never inserts a row |
| JobQueueTheorems.SlotsAreModelYears | internal/enrichment/worker.go:203-216 | Positions in a seed run and pairs of market model and even year 2010 to 2024 correspond one to one |
| JobQueueTheorems.SeedCoversExactlyOnceIff | internal/enrichment/worker.go:198-219 | A done seed job has a row for every model and year and no other rows; it has each once if and only if its earlier attempts inserted nothing |
| JobQueueTheorems.SeedWithoutFailureCoversOnce | internal/enrichment/worker.go:198-219 | A seed job done in its first attempt has exactly one row for each market model and even year from 2010 to 2024 |
| SeedTwice.SeedCanDouble | internal/enrichment/worker.go:206-214 | For every non-empty list of market models a reachable state has a done seed job with two rows for one model and year: an insert whose reply was lost is repeated |
| SeedTwice.FirstInsertIsLost | internal/enrichment/worker.go:206-214 | The run to the failed first attempt: the row is in, the attempt is given back, another worker has the row locked |
| SeedTwice.SeedRunsOn | internal/enrichment/worker.go:198-219 | From any point of a seed run with rows to go its remaining inserts can all follow, leaving earlier claims alone |
| JobQueueTheorems.FirstClaimsFollowSeedOrder | internal/enrichment/worker.go:203-216 | When the clock did not step back during a seed run, a row of it is first claimed only after the earlier rows were, or while another worker has one of them locked |
| JobQueueTheorems.QueryFindsDueRow | internal/store/enrichment.go:88-95 | If any row is pending, due and unlocked the claim query returns one, the earliest |
| JobQueueTheorems.StepPaysForClaims | internal/enrichment/worker.go:60-71 | No step increases claims made plus claims still possible, except by what a row from outside brings in |
| JobQueueTheorems.ClaimsAreBounded | internal/store/enrichment.go:102-134 | Every interleaving makes finitely many claims: at most the table's rank plus 5 for each outside recall fetch, 10 for a VIN, 5 + 200 per market model for a seed |
| JobQueueTheorems.ClosedSystemStops | internal/enrichment/worker.go:139-146 | With no outside rows the committed claims of any run are at most the starting rank, however many workers take part |
| JobQueueProofs.StepKeepsInv | internal/store/enrichment.go:80-134 | Ownership, retry, spawn and seed invariants survive every step of every worker |
| JobQueueProofs.GiveUpKeepsInv | internal/store/enrichment.go:116-134 | They survive a worker that goes on while the database may still apply its closing update |
| JobQueueProofs.RunKeepsInv | internal/store/enrichment.go:80-134 | The invariants survive every run of any interleaving |
| JobQueueProofs.SpawnKeepsSteady | internal/enrichment/worker.go:206-214 | With a clock that does not step back, the due times of a seed run are strictly increasing |
| Interference.ForeignStepLeavesUnmoved | internal/store/enrichment.go:80-134 | No step of another session touches the row a worker has locked or is processing, its claim, or its place |
| Interference.ForeignRunLeavesUnmoved | internal/store/enrichment.go:80-134 | Nor does any run of other sessions |
| Interference.OwnStepStaysEnabled | internal/store/enrichment.go:116-134 | After any run of other sessions a worker can still take the insert, finish, fail, commit, rollback or crash it could take before, for the same claim; to give up waiting it may need another session number |
| Interference.LateUpdateHitsOwnRow | internal/store/enrichment.go:116-134 | A closing update that lands after its worker gave up waiting, and after any steps of others and of that worker, finds its own row as it was, still running and neither held nor locked by anyone else, and changes that row only |
| Interference.EveryForeignRunIsPlayed | internal/enrichment/worker.go:41-58 | The interruptions the programs below are proved under include every run of other sessions |
| EnrichmentWorker.InSequence | internal/enrichment/worker.go:46-57 | Two runs of a worker among others, one after the other, are one whose own steps are those of both |
| EnrichmentWorker.ClaimRun | internal/store/enrichment.go:80-114 | The claim transaction, with others at work between its statements, is a run in which the worker locks and then commits or rolls back |
| EnrichmentWorker.SeedAdvances | internal/enrichment/worker.go:206-214 | After whatever others did, one more acknowledged insert carries a seed run to its next model and year; any other reply ends it in a state from which it may only fail |
| EnrichmentWorker.VinQueued | internal/enrichment/worker.go:139-147 | However the fetch's insert ends, the vin_decode that asked for it may only succeed |
| EnrichmentWorker.OwnClaimsAreBounded | cmd/enrichctl/main.go:64-79 | Whatever a worker claims in a run among others is at most what the table owed at the start plus what outside rows brought in |
| EnrichmentWorker.JobTable.LetOthersWork | internal/store/enrichment.go:80-134 | Whatever other sessions attempt that is possible happens, in order, and leaves this worker's row and claim alone |
| EnrichmentWorker.JobTable.EnqueueEnrichmentJob | internal/store/enrichment.go:62-67 | An insert is one step; a lost reply reports an error and still adds the row |
| EnrichmentWorker.JobTable.ClaimEnrichmentJob | internal/store/enrichment.go:80-114 | Returns the row that was earliest among those due and unlocked, or nothing exactly when there was none, or an error; others may work inside the transaction; a lost commit leaves the row running and unheld |
| EnrichmentWorker.JobTable.ClaimNext | internal/store/enrichment.go:95-113 | The transaction on the row found: still unchanged when it is marked running, whatever others did meanwhile |
| EnrichmentWorker.JobTable.CompleteEnrichmentJob | internal/store/enrichment.go:116-122 | The update by id is a finish step of the calling worker, applied or not |
| EnrichmentWorker.JobTable.FailEnrichmentJob | internal/store/enrichment.go:124-134 | The update by id is a fail step of the calling worker with the given retry time, applied or not |
| EnrichmentWorker.JobTable.GiveUpClosing | internal/store/enrichment.go:116-134 | The worker goes idle and its claim stays with the database session, decided as the worker decided it |
| EnrichmentWorker.AttachFetch | internal/enrichment/worker.go:135-138 | After what others sent to the recall tables, an acknowledged attach reports zero if and only if the vehicle by then had every listed campaign |
| EnrichmentWorker.JobTable.AttachOrQueue | internal/enrichment/worker.go:135-147 | With recall statements of others before the attach: a fetch is queued exactly when the attach succeeded and the vehicle by then already had every listed campaign |
| EnrichmentWorker.JobTable.VinDecode | internal/enrichment/worker.go:73-148 | With other sessions at work on the jobs and on the recall tables: fails exactly on an id that does not parse, no decode, a failed upsert or, in scope, a failed attach; its own step is the fetch for the vehicle and model year decoded, exactly when the attach, as it met the tables, had nothing left to do, and none out of scope |
| EnrichmentWorker.JobTable.RecallsForModelYear | internal/enrichment/worker.go:150-196 | Adds no rows and fails exactly when, in scope, NHTSA, an upsert or the pause fails; when all is acknowledged the vehicle has every campaign returned, whatever other sessions upsert and attach meanwhile; a payload of another shape reads as empty fields, out of scope |
| EnrichmentWorker.JobTable.EnqueueSeedRow | internal/enrichment/worker.go:206-214 | Inserts the row of this model and year, due 500 ms after the previous one's offset |
| EnrichmentWorker.JobTable.SeedModel | internal/enrichment/worker.go:205-215 | The year loop inserts the eight rows of one model in order, or stops at the first insert that is not acknowledged |
| EnrichmentWorker.JobTable.SeedCatalog | internal/enrichment/worker.go:198-219 | Succeeds exactly when every statement is acknowledged, and then its own steps are the whole seed list in order, whatever others inserted in between |
| EnrichmentWorker.JobTable.Process | internal/enrichment/worker.go:60-71 | Whatever the job's kind and whatever others do, its own steps are inserts, the claim stays its own, and the error is the one the kind prescribes |
| EnrichmentWorker.JobTable.Work | internal/enrichment/worker.go:51-56 | Processing is followed by the failing or finishing update its error calls for, applied, lost or given up on, with others at work in between |
| EnrichmentWorker.JobTable.ClaimAndProcess | cmd/enrichctl/main.go:65-79 | One round among others: lock, commit, inserts, and the closing update its processing calls for, answered or given up on, or no step of its own; it leaves the worker idle |
| EnrichmentWorker.JobTable.Tick | internal/enrichment/worker.go:41-58 | Among others, a tick claims at most five jobs, and fewer only when a claim failed or no unlocked row is due; none while switched off |
| EnrichmentWorker.JobTable.Drain | cmd/enrichctl/main.go:60-83 | Among others: reports empty exactly when a round before the deadline finds no unlocked row due; counts exactly the jobs that did not fail; stops by itself once it has had more rounds than the table owed at the start plus what outside rows brought in |
| Recalls.UpsertReplacesOneRow | internal/store/enrichment.go:194-211 | Afterwards the key is there once with the new details, its source kept, every other row untouched |
| Recalls.UpsertKeepsCampaigns | internal/store/enrichment.go:194-211 | An upsert adds its own campaign to what the catalog lists for a model year and takes none away |
| Recalls.UpsertLosesNone | internal/store/enrichment.go:194-211 | What was listed for a model year stays listed after any upsert |
| Recalls.AttachCoversListed | internal/store/enrichment.go:213-227 | Attaching keeps earlier attachments and adds, for that vehicle only, exactly the listed campaigns it lacked, in any spelling of make and model |
| Recalls.NothingAttachedIff | internal/store/enrichment.go:213-227 | The statement affects no row if and only if the vehicle already has every listed campaign |
| Recalls.AttachIdempotent | internal/store/enrichment.go:213-227 | A second attach changes nothing |
| Recalls.UpsertsKeepRows | internal/enrichment/worker.go:167-182 | A batch of upserts leaves every row its place, key and source, and gives it the batch's last details for its key |
| Recalls.UpsertsCoverBatch | internal/enrichment/worker.go:167-182 | After a batch every campaign of it is in the catalog |
| Recalls.UpsertsIdempotent | internal/enrichment/worker.go:167-182 | Repeating a batch changes nothing, even when it repeats keys with different details |
| Recalls.RetryConverges | internal/enrichment/worker.go:163-182 | A fetch that broke off after any number of upserts and is retried with the same reply ends in the catalog of one unbroken fetch |
| Recalls.FetchCoversReply | internal/enrichment/worker.go:163-188 | Undisturbed: after the upserts and the attach the vehicle has every campaign NHTSA returned |
| Recalls.StatementGrows | internal/store/enrichment.go:194-227 | No upsert and no attach, whoever sends it, unlists a campaign, changes an attachment or doubles a key |
| Recalls.RunGrows | internal/store/enrichment.go:194-227 | Nor does any interleaving of such statements |
| Recalls.UpsertedStaysListed | internal/enrichment/worker.go:167-182 | Among any statements of others, a row the fetch has upserted is listed at the end, even if others upsert its key again |
| Recalls.FetchCoversAmongOthers | internal/enrichment/worker.go:163-188 | For every interleaving with upserts and attaches of other sessions, the vehicle ends with every campaign returned |
| Recalls.UndisturbedUpserts | internal/enrichment/worker.go:167-182 | With nobody else at work such a run of upserts leaves what the batch leaves |
| Recalls.RecallTables.LetOthersWork | internal/store/enrichment.go:194-227 | The statements of other sessions happen in order, and keys stay unique |
| Recalls.RecallTables.UpsertAmongOthers | internal/enrichment/worker.go:169-181 | Others work, then one upsert of this fetch, applied or not |
| Recalls.RecallTables.AttachAmongOthers | internal/enrichment/worker.go:183-188 | Others work, then the attach of this fetch, applied or not |
| Recalls.RecallTables.UpsertRecallCatalog | internal/store/enrichment.go:194-211 | Reports an error exactly when unacknowledged, and keeps keys unique whatever happens |
| Recalls.RecallTables.AttachCatalogRecallsToVehicle | internal/store/enrichment.go:213-227 | The reported count is the number of attachments added |
| Recalls.RecallTables.UpsertAll | internal/enrichment/worker.go:167-182 | The loop's own statements are the batch up to the first unacknowledged upsert, that one included if only its reply was lost; the others' are all they attempted |
| Recalls.RecallTables.RecallsMMY | internal/enrichment/worker.go:150-196 | Among others: out of scope nothing changes; otherwise the tables are those of an interleaving of the applied upserts, then the attach, with the others' statements; acknowledged throughout, the vehicle has every campaign returned |
| BayScan.AtMostOneBusy | cmd/bayui/server.go:210-232 | Over all interleavings of scan, cancel and quit calls with runners at most one job is busy, and it is the current one |
| BayScan.RunnerNotesLandOnOwnJob | cmd/bayui/server.go:281-295 | Every note a runner emits is appended to its own job, still busy, and to no other, although it finds the job through b.job |
| BayScan.RefusedIffRunnerAlive | cmd/bayui/server.go:210-222 | A scan request is refused if and only if some runner has not finished |
| BayScan.LogIsTailOfHistory | cmd/bayui/server.go:288-294 | The stored log is the last min(50, n) of all notes ever made to the job, and busy is the opposite of done |
| BayScan.ExactlyOneOutcomeShown | cmd/bayui/server.go:321-342 | In every reachable state a done job was finished once and shows exactly one of error and result; any other shows neither |
| BayScan.DoneIsFinal | cmd/bayui/server.go:330-342 | Once done, flags, error and result never change, whatever cancels and scans follow |
| BayScan.CancelNoteLandsOnCancelledJobIff | cmd/bayui/server.go:267-277 | The cancel call's note goes to the job it cancelled if and only if no newer scan was accepted before it looks again |
| BayScan.CancelNoteCanHitLaterScan | cmd/bayui/server.go:267-277 | A run in which the note of a cancel lands on the next, busy scan |
| BayScan.StepKeepsInv | cmd/bayui/server.go:210-232 | The ownership and log invariants survive every mutex section of every thread |
| BayScan.RunKeepsInv | cmd/bayui/server.go:210-232 | They survive every run |
| BayThreads.OthersGoOn | cmd/bayui/server.go:281-295 | While others run, a thread stays where it is; if it is a runner no scan is accepted, and its job gets nothing but cancel notes |
| BayThreads.EveryForeignRunIsPlayed | cmd/bayui/server.go:210-232 | The interruptions the programs below are proved under include every run of other threads |
| BayThreads.InSequence | cmd/bayui/server.go:281-295 | Two runs of a thread among others, one after the other, are one whose own sections are those of both |
| BayServer.ScanJob.Append | cmd/bayui/server.go:288-294 | The note's section appends one line, keeps the last fifty and keeps the job well-formed |
| BayServer.ScanJob.FinishJob | cmd/bayui/server.go:330-342 | A busy, well-formed job becomes done, finished once, with the outcome's own error or result and the other field untouched |
| BayServer.Bay.Note | cmd/bayui/server.go:281-295 | Two sections, with any sections of others in between; the line goes to the job that was current in the first |
| BayServer.Bay.HandleScan | cmd/bayui/server.go:210-232 | Refuses exactly when the current job is busy, leaving it in place; otherwise a fresh busy job becomes current |
| BayServer.Bay.Perform | cmd/bayui/server.go:210-232 | Any section of any thread acts on the objects as on the model state |
| BayServer.Bay.LetOthersWork | cmd/bayui/server.go:210-232 | Whatever sections other threads attempt that can run do run, in order |
| BayServer.Bay.StopScan | cmd/bayui/server.go:260-279 | With others at work between its sections: reports true exactly when the job it read first was busy when it looked, and then one note follows, on whatever job is current by then |
| BayServer.Bay.StopLooks | cmd/bayui/server.go:267-279 | Looks at the job it read, and notes exactly when that is busy |
| BayServer.Bay.NoteCancel | cmd/bayui/server.go:276 | The cancel note is two sections of its own, others working before and within |
| BayServer.Bay.RunScan | cmd/bayui/server.go:344-399 | A run of its own sections among any of other threads: every path notes what it should, in order, and finishes its own job once; a result exactly when a VIN was read that is no refused mock, a failed upload included |
| BayServer.Bay.RunnerNote | cmd/bayui/server.go:281-295 | One more note of the runner among others, shown on the runner's own busy job |
| BayServer.Bay.Finish | cmd/bayui/server.go:330-342 | The runner's last section ends its own job, once, with the outcome, and the runner is gone |
| BayServer.Bay.FailScan | cmd/bayui/server.go:321-328 | The error is noted and the job ends showing it |
| BayServer.Bay.UploadAndExplain | cmd/bayui/server.go:374-398 | An accepted scan notes upload, explanations and done in order, or the upload error, among others |
| BayServer.ShowsNote | cmd/bayui/server.go:291 | A further line hides no note already shown and shows its own |
| BayServer.NotedOnce | cmd/bayui/server.go:281-295 | A runner that has noted some phases in order, with others at work before and within, has noted one more |
| BayServer.OthersHideNothing | cmd/bayui/server.go:281-295 | Other threads' sections hide no note of a runner's job |
| UsbAdapter.USBAdapter.LetTimePass | pkg/obd/usb.go:165-170 | Handles that arrive after their open was given up are closed on arrival, once |
| UsbAdapter.USBAdapter.CloseSerialAsync | pkg/obd/usb.go:219-224 | Exactly the given handle is closed once more; none for nil |
| UsbAdapter.USBAdapter.OpenPort | pkg/obd/usb.go:149-189 | Called without a port: either a new handle at the requested rate, or no port and the old rate, with a late handle accounted for |
| UsbAdapter.USBAdapter.AbandonPort | pkg/obd/usb.go:193-201 | No port, not ready, and the handle handed to the closer exactly once |
| UsbAdapter.USBAdapter.SetBaud | pkg/obd/usb.go:232-246 | The recorded rate is the line's last successfully set rate on success and on failure |
| UsbAdapter.USBAdapter.Command | pkg/obd/usb.go:601-666 | A command never drops the port, and succeeds only with one; the reply is the raw text with the command, prompts and outer blanks taken out, an error exactly for a complaint that is not NO DATA, and one that counts as a lost port exactly if it names one |
| UsbAdapter.USBAdapter.ConfigureELM | pkg/obd/usb.go:540-553 | Success means the five setup commands were answered in order and the timeout command sent last |
| UsbAdapter.USBAdapter.ReopenAfterUSBReset | pkg/obd/usb.go:501-538 | The old handle is given up before the new one is opened at the same rate; success means a banner was seen and the adapter configured |
| UsbAdapter.USBAdapter.InitELM | pkg/obd/usb.go:415-482 | Success means a port at the unchanged rate, an ELM banner among the replies and a configured adapter; no handle is lost on any path |
| UsbAdapter.USBAdapter.BaudCandidates | pkg/obd/usb.go:55-74 | Every positive candidate exactly once, the configured rate first; never empty, so the fallback in Open is never used |
| UsbAdapter.USBAdapter.Open | pkg/obd/usb.go:76-147 | Either a ready, identified and configured adapter or an error and no port; an open adapter is left alone; every handle is kept or closed once |
| UsbAdapter.USBAdapter.Close | pkg/obd/usb.go:203-217 | Parks an open adapter with one command and then holds no port |
| UsbAdapter.USBAdapter.EnsureOpen | pkg/obd/usb.go:399-413 | Succeeds exactly when it ends with a port; an open adapter is untouched; the reconnect branch is dead |
| UsbAdapter.USBAdapter.FindBus | pkg/obd/usb.go:310-339 | The named bus is the first protocol on which the car shows PID 00, the earlier ones having been refused in order; a failure other than cancellation means that all five were |
| UsbAdapter.RefusedMore | pkg/obd/usb.go:313-334 | One more protocol the adapter or the car refuses extends the record of refusals |
| UsbAdapter.USBAdapter.Identify | pkg/obd/usb.go:259-285 | The protocol is the adapter's description or the found bus; an unreadable VIN is empty, not an error; the port stays |
| UsbAdapter.USBAdapter.QuerySources | pkg/obd/usb.go:356-375 | The three queries go out in order and the map is the merge of their replies, failed ones skipped |
| UsbAdapter.USBAdapter.ReadDTCs | pkg/obd/usb.go:341-382 | On an open adapter it cannot fail; it sends the three queries in order and lists every code of their replies once, with the merged status |
| UsbAdapter.USBAdapter.ReadFreezeFrame | pkg/obd/usb.go:384-397 | One Mode 02 command, whose reply and error it returns |
| UsbAdapter.USBAdapter.ReadLiveSnapshot | pkg/obd/pids.go:10-48 | Sends the PIDs in order until the context ends; each reading is there exactly when its reply decodes, with that value |
| UsbAdapter.USBAdapter.ReadFrames | pkg/obd/types.go:101-118 | One query per code; each code carries its own reply; failures counts exactly the unanswered queries; the map agrees with the codes |
| UsbAdapter.USBAdapter.ScanOpened | pkg/obd/types.go:85-148 | A finished scan's codes, frames, sample, protocol and metrics are those of the commands it sent, in order |
| UsbAdapter.USBAdapter.Scan | pkg/obd/types.go:76-149 | On every path no port is left and every handle was closed once; a finished scan parked the adapter, reports what the car answered, and has attempts 2 + codes + live and failures at most the codes |
| UsbAdapter.ScanReportsStoredPairs | pkg/obd/usb.go:341-382 | From the raw replies to the report, for sources that each tell their memory: a pair's code is reported if and only if a memory that was told has it, with the status of the memory that counts most; a memory is told by a reply of one service byte followed by pairs and nothing else that does not contain the query; a failed reply or one of fewer than six hex digits stands for an empty memory |
| UsbAdapter.FramesAdvance | pkg/obd/types.go:102-114 | Filling in one code's frame keeps the frame map and the list in agreement |
| UsbAdapter.ListDtcs | pkg/obd/usb.go:377-381 | Walking the map in any order lists every code once with its status |
| Link.FragileIff | pkg/obd/types.go:151-167 | For a finished scan confidence is in (0, 100], and below 55 if and only if 20 times failures exceeds 9 times attempts |
| Link.FragileNeedsTwoOptionalReads | internal/diagnosis/engine.go:264-281 | No scan with fewer than two freeze frames and live samples together is ever called fragile |
| HexText.FilterHex | pkg/obd/pids.go:51-58 | The filter loop keeps the hex digits in order and nothing else |
| HexText.HexStringToBytes | pkg/obd/codes.go:104-118 | The index loop reads digits two by two and drops an odd last one |
| HexText.RenderedDigitsSurvive | pkg/obd/codes.go:51-57 | Whatever separators stand between them, the printed digits come through, in order |
| HexText.PrintedBytesReadBack | pkg/obd/codes.go:104-131 | Any bytes printed in hex, in either case, with any separators, are the bytes read back, with and without upper-casing |
| HexText.EveryBytesHaveAPrint | pkg/obd/codes.go:104-131 | Every byte sequence has such a print for any choice of separators |
| Codes.EncodeIsInjective | pkg/obd/codes.go:84-102 | Every byte pair encodes to a well-formed code from which it can be read back |
| Codes.EncodeIsSurjective | pkg/obd/codes.go:84-102 | Every code in {P,C,B,U} x {0..3} x hex^3 is the encoding of the pair read from it |
| Codes.DecodeDTCs | pkg/obd/codes.go:50-82 | The method computes the specification on which the round trips are proved, short and empty replies included |
| Codes.CodesFrom | pkg/obd/codes.go:73-80 | The pair loop yields the codes of the pairs from its start, skipping zero pairs and a single last byte |
| Codes.PairCodesAreEncoded | pkg/obd/codes.go:73-80 | The decoder's codes are the encodings of exactly the nonzero pairs, in order |
| Codes.DtcRoundTrip | pkg/obd/codes.go:50-82 | A reply that prints a service byte and pairs, in any spacing and with padding anywhere, decodes to the codes of its nonzero pairs, which can be read back |
| Codes.ShiftedPairsDiffer | pkg/obd/codes.go:69-72 | Read one byte late, a list of pairs never gives its own codes |
| Codes.LighterBytesDiffer | pkg/obd/codes.go:73-80 | Bytes whose hex digits add up to less than those of some pairs never decode to these pairs |
| Codes.HeaderlessDecodesIff | pkg/obd/codes.go:58-72 | Without its service byte a reply of two or more pairs decodes correctly if and only if its first byte is none of 43, 47, 4A; one pair alone only if it is padding |
| Frames.ByteInFrontIff | pkg/obd/codes.go:69-80 | Pairs read with one more byte in front give their own codes if and only if every byte of them is that byte |
| Frames.CountedDecodesIff | pkg/obd/codes.go:50-82 | A reply with a count byte behind its service byte decodes to its codes if and only if both bytes of every code are that count |
| Frames.TrueCountDecodesIff | pkg/obd/codes.go:50-82 | With the true count and no code twice: if and only if the memory is empty or holds P0101 alone |
| Frames.TwoCountedCodes | pkg/obd/codes.go:69-80 | Counted, P0133 and P0171 are read as P0201 and P3301 |
| Frames.RepeatedHeaderDecodesIff | pkg/obd/codes.go:69-80 | A second frame with its own service byte decodes, behind any first one, if and only if all its bytes are that service byte |
| Frames.SearchingReadsAsCode | pkg/obd/codes.go:50-82 | The text SEARCHING...NO DATA decodes to U2ACD |
| EchoStrip.CodesSurviveCommandIff | pkg/obd/usb.go:655-657 | From the raw reply, with an echo or without: a printed service byte and pairs decode to their codes if and only if the query does not occur in the reply |
| EchoStrip.LoneCodeIsLost | pkg/obd/usb.go:655-657 | A single code whose print contains the query is lost altogether |
| EchoStrip.MisfireCodeIsLost | pkg/obd/usb.go:655-657 | A stored P0300, answered to 03 with spaces off, decodes to nothing |
| EchoStrip.CleanedDigits | pkg/obd/usb.go:655-657 | Of the whole clean-up only taking out the command touches hex digits, and an echo at the start goes entirely |
| EchoStrip.HeaderSurvives | pkg/obd/usb.go:655 | The two header digits of a code reply always survive, and what is behind them is cleaned on its own |
| EchoStrip.TakingOutLowersSum | pkg/obd/usb.go:655 | Taking out a text worth something lowers the digit sum whenever it occurs |
| EchoStrip.PayloadSurvivesCommandIff | pkg/obd/usb.go:655-657 | A live reply's data comes back through the clean-up if and only if the command does not occur in the reply |
| EchoStrip.AirflowReadingIsLost | pkg/obd/usb.go:655-657 | An airflow of 43.67 g/s, answered to 0110 with spaces off, decodes to nothing |
| Pids.DecodePayload | pkg/obd/pids.go:50-73 | The search loop computes the specification on which the round trips are proved |
| Pids.PayloadRoundTrip | pkg/obd/pids.go:50-73 | For any print of 41, PID and data the data comes back, even when PID or data contain 41 |
| Pids.CountUndoesValue | pkg/obd/pids.go:75-145 | Every scaling can be undone exactly |
| Pids.ReadingRoundTrip | pkg/obd/pids.go:75-145 | The value of a raw count is decoded from any print of its reply and gives the count back |
| Pids.DecodedValuesAreScaledCounts | pkg/obd/pids.go:75-145 | A value is decoded from some reply if and only if it is a scaled count; ranges are exact, such as trim [-100, 99.21875] and RPM [0, 16383.75] |
| StatusMerge.MergedMeans | pkg/obd/usb.go:362-374 | One source adds its codes and overrides every status but confirmed, whatever repeats |
| StatusMerge.MergeIsPriorityUnion | pkg/obd/usb.go:356-375 | The merged codes are the union of the replies received; confirmed beats permanent beats pending, whichever commands failed |
| StatusMerge.MergeReply | pkg/obd/usb.go:362-374 | The inner loop computes that merge for one reply |
| StatusMerge.MergeCodes | pkg/obd/usb.go:362-374 | The loop over a code list computes that merge |
| StatusMerge.AfterOneMore | pkg/obd/usb.go:357-374 | One more source merges its reply's codes into what was seen |
| StatusMerge.ToldPairsAreHeard | pkg/obd/usb.go:358-362 | A pair's code is among those of a source's reply if and only if the memory it tells has the pair; a memory is told by a reply of one service byte followed by pairs and nothing else that does not contain the query; a failed reply or one of fewer than six hex digits stands for an empty memory |
| StatusMerge.MergedListShowsStoredPairs | pkg/obd/usb.go:356-375 | Through the raw replies, for sources that each tell their memory: a pair's code is listed if and only if a memory that was told has it, with the highest-priority status; "told" as above |
| Diagnosis.CoOccurrenceRule | internal/diagnosis/engine.go:302-331 | The loop with its skips and its break yields the specification's finding |
| Diagnosis.RuleOutputsGrouped | internal/diagnosis/engine.go:54-61 | For every input at most one finding from each of the eight rules, pairwise distinct, each with its kind's fixed confidence, none as much as 85 |
| Diagnosis.FragileFindingIff | internal/diagnosis/engine.go:264-281 | For a finished scan the link finding is present if and only if 20 times failures exceeds 9 times attempts |
| Diagnosis.Insert | internal/diagnosis/engine.go:382-385 | The inner loop extends the descending prefix by one finding and keeps the order of equals |
| Diagnosis.RankFindings | internal/diagnosis/engine.go:376-388 | The swapping loops sort by falling confidence and keep the order of equals |
| Diagnosis.SwapKeepsOrder | internal/diagnosis/engine.go:383 | Swapping neighbours of different confidence disturbs no group of equals |
| Diagnosis.SameOrderIsPermutation | internal/diagnosis/engine.go:376-388 | Keeping each group in order makes the ranking a permutation |
| Diagnosis.RankingIsUnique | internal/diagnosis/engine.go:376-388 | Sorted and stable leaves no choice: there is one such list |
| Diagnosis.PermutationKeepsDistinctRules | internal/diagnosis/engine.go:376-388 | Ranking introduces no duplicate finding |
| Diagnosis.RankedOutputsAreAnalysis | internal/diagnosis/engine.go:39-64 | A stable ranking of the rule outputs has at most eight findings with distinct ids, each with its kind's fixed confidence |
| Diagnosis.RankingOrderIsFixed | internal/diagnosis/engine.go:376-388 | Over all inputs results are strictly descending, and two kinds of finding always come in the same order, so the sort's stability is never called upon |
| Diagnosis.Analyze | internal/diagnosis/engine.go:39-64 | For every input the result is that stable ranking of the rule outputs |
| Diagnosis.ResultIsFiredRules | internal/diagnosis/engine.go:39-64 | For every input the result names exactly the kinds of finding that fired, surest first |
| Diagnosis.CodesHoldLastEntry | internal/diagnosis/engine.go:48-51 | The code map has exactly the upper-cased codes listed, each with its last entry |
| Diagnosis.MapCodes | internal/diagnosis/engine.go:48-51 | The loop builds that map |
| DecodedRules.TrimRuleInCounts | internal/diagnosis/engine.go:66-122 | On decoded readings, missing engine and road speed counting as zero, each trim finding is present if and only if the raw counts meet exact integer bounds, idle being 1 to 4399 quarter-revolutions below 3 km/h |
| DecodedRules.AirflowRuleInCounts | internal/diagnosis/engine.go:124-166 | On decoded readings the ratio test is an integer comparison of counts, the rule is silent below 600 rpm, and the divisor's floor is never reached |
| DecodedRules.CatalystRuleInCounts | internal/diagnosis/engine.go:168-190 | On decoded sensors the finding is present if and only if P0420 is in play, the counts differ by less than 10 and the rear one is strictly between 80 and 140 |
| DecodedRules.MisfireRuleIff | internal/diagnosis/engine.go:229-262 | With P0300 in play: a single-cylinder finding if and only if exactly one cylinder code is present, a lean one if and only if none is and the trim is above 12 |
| DecodedRules.RelatedMeans | internal/diagnosis/engine.go:342-351 | The list of present codes is empty, or has one entry, exactly when none, or one, of the codes is present |
| DecodedRules.ConditionRuleInCounts | internal/diagnosis/engine.go:192-227 | Present if and only if the frame's speed and the live count are more than 3200 counts apart, either way |
| DecodedRules.ConditionRuleIff | internal/diagnosis/engine.go:192-227 | On any readings: present if and only if the frame and the live sample are more than 800 rpm apart |
| DecodedRules.FleetRuleIff | internal/diagnosis/engine.go:302-331 | Present if and only if there is a focus code and one of the first three partners was seen at least twice and in a quarter of the scans |
| DecodedRules.VoltageRuleInCounts | internal/diagnosis/engine.go:284-299 | The low-voltage finding is present if and only if the count is 1 to 11799 |
| DecodedRules.RawFramesNeverMismatch | pkg/obd/usb.go:393-396 | Frames without an rpm, which is what the USB adapter returns, never give the condition-mismatch finding |
| DecodedRules.IdleLeanPattern | internal/diagnosis/engine_test.go:9-50 | For all readings: with a lean focus code, an idling sample whose short trim exceeds 12 and long trim 10, a frame more than 800 rpm away and a frequent partner give their three findings in this order |
| DecodedRules.TestCaseIsIdleLean | internal/diagnosis/engine_test.go:9-50 | The engine's own test input gives the three findings it asks for |
| Packet.BuildPacket | internal/explain/packet.go:59-122 | Keeps the first three findings with two evidence lines each, three article items, two frequent partners, two history lines |
| Packet.KeepPartners | internal/explain/packet.go:105-113 | The loop that stops at two yields the first two partners with rate at least a quarter |
| Packet.CutKeepsTheBest | internal/explain/packet.go:78-93 | No dropped finding outranks a kept one, and evidence is a prefix |
| Packet.Round2IsClose | internal/explain/packet.go:187-189 | A rounded rate is within half a hundredth |
| Packet.NarratedIffSomethingFound | internal/explain/packet.go:124-141 | Rules, ranking, cut and gate together: unforced, a narrative is made if and only if some rule fired; structured_sufficient is never given |
| Narrative.TextsComeFromCompletions | internal/explain/narrative.go:54-91 | Over all concurrent runs every text returned was completed for the same fingerprint, a cached one was younger than the TTL when looked at, and no error is ever cached |
| Narrative.StepKeepsInv | internal/explain/narrative.go:70-90 | That survives every load, delete, completion and store; a failed completion leaves the cache alone |
| Narrative.RunKeepsInv | internal/explain/narrative.go:70-90 | It survives every run |
| Narrative.Narrator.Narrate | internal/explain/narrative.go:54-91 | One undisturbed call is a run of those steps; it hits exactly on a live entry, drops an expired one, stores only an answer, and does nothing when gated or disabled |
| CoOccurrence.JoinBalance | internal/store/store.go:707-714 | Joined rows plus focus scans without the code equal focus scans plus repeats of the code |
| CoOccurrence.RateIsFractionIff | internal/store/store.go:707-714 | A rate is positive, and at most 1 if and only if the repeats are no more than the focus scans without the code |
| CoOccurrence.RateIsFraction | internal/store/store.go:686-734 | When no scan repeats a code every rate is in (0, 1] and the count is the focus scans that have the code |
| CoOccurrence.RepeatedCodeExceedsOne | internal/store/store.go:686-734 | Three rows for which the rate is 2 |

## Left out

- Liveness of jobs: a job whose closing update was lost, or whose worker crashed, stays running forever; the model allows this and claims nothing else.
- `last_error`, `created_at`, `updated_at` and `fetched_at`: no statement modelled here reads them.
- `HasRecentJob` and the one-shot startup seed: check and insert are not one statement, so two processes may both seed.
- Job kinds outside the table's CHECK constraint, for which `Process` does nothing.
- The form of vehicle ids: whether one parses is an answer from outside.
- `vin_decode`'s vehicle identity and enrichment columns: those statements only succeed or fail here.
- HTTP, JSON, the NHTSA client, the language-model client and pgx: their answers are inputs.
- Authentication, roles, registration and bcrypt: thin wrappers without a property of this kind.
- Stability of `phase` after a job is done: a late cancel note may overwrite it.
- `jobStatus`: it only reads one consistent snapshot under the job's mutex.
- Timing in `command` and `readUntilPrompt`: a command ends in any raw text or any error.
- `extractVIN`: it searches characters for a 17-character window; the VIN is any text it may find.
- UsbAdapter.USBAdapter.Open: says what success and failure leave behind, not which serial outcomes lead to which, because every outcome is allowed at every point.
- UsbAdapter.ScanReportsStoredPairs: says nothing of scans in which a source answers with a counted frame, a repeated header or other text of six or more hex digits; for those Frames.CountedDecodesIff and Frames.RepeatedHeaderDecodesIff say exactly when the codes come through, and Frames.SearchingReadsAsCode shows one that does not.
- StatusMerge.ToldPairsAreHeard: the same replies are outside its hypothesis.
- StatusMerge.MergedListShowsStoredPairs: the same replies are outside its hypothesis.
- Progress texts of the adapter and the scanner, other than as notes of the bay server's runner.
- Packet.BuildPacket: titles, the vehicle line and the clipped article summary pass through as they are.
- Titles, summaries, vehicle line, `clipSentence`, `DescribeCode` and fingerprint hashing: string cosmetics; a fingerprint is any string.
- Rounding of `float64`: values are exact rationals, so a threshold met exactly on paper may fall on the other side.
- DecodedRules.AirflowRuleInCounts: at exact equality `float64` may differ: rpm count 2400 and airflow count 330 under load give a ratio just below 0.55, and the low finding appears.
- DecodedRules.CatalystRuleInCounts: at a difference of exactly ten counts `float64` may differ: counts 91 and 81 give just below 0.05, and the finding appears.
- Non-ASCII text in upper-casing, and Postgres locales in `lower`.
- Ordering and limit of the co-occurrence query: they choose and order rows, not their counts.
