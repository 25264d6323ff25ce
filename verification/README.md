# Panoptic: a verified model of its state machines and algorithms

Panoptic takes in detection fragments and images from trailers, aggregates,
captions and embeds them, searches them, and writes summaries, events and
reports.  This project models the parts of it whose correctness rests on an
argument and not on a look at one function, in Dafny 4.11, and proves what each
of them promises.  `dafny verify dfyconfig.toml` checks everything.

* **Image pipeline** (`Runs.dfy`, `Pipeline*.dfy`).  Webhook, caption and embed workers
  and the lease reclaimer as one state machine over Postgres tables, Redis streams
  and Qdrant points.  A run is any interleaving of their steps: crashes
  anywhere, lost leases, failed enqueues, duplicate deliveries, stale workers
  that still upsert points.  As in the code, an executor exception does not roll
  back; only a lost lease does.  `PipelineWorkers.dfy` is the worker code, call by
  call with the branches of its executors, checked against the step functions of
  the machine.  Between any two calls it lets the others do anything, chosen anew
  each time, or the worker crash; its contracts fix what each executor decides, the
  order of all its writes, and that a crash leaves a beginning of them.
* **Reports** (`Report*.dfy`).  The enqueue endpoint, the
  report worker and the reclaimer as a second instance of that machine.
* **Intake** (`Intake*.dfy`, `Canonical*.dfy`, `Ingest*.dfy`, `ColonKeys.dfy`,
  `Folds.dfy`).
  Fragments accumulate in Redis hashes, quiet windows are finalized, canonical
  records are built and ingested.
* **Summaries** (`Summaries.dfy`, `SummaryTheorems.dfy`).  The chain of versions per scope.
* **Guards** (`Replay.dfy`, `RateLimit.dfy`, `Strings.dfy`).  Time windows: the replay
  cache and the two sliding-window limiters.
* **Events** (`Event*.dfy`, `Json.dfy`).  Live production and backfill of events
  with hashed ids.
* **Algorithms** (`Sorting.dfy`, `Positions.dfy`, `Search.dfy`, `Dedup*.dfy`,
  `Merge*.dfy`, `Rerank*.dfy`, `Citation*.dfy`).  Greedy image dedup, merging two
  rankings, reranking with fallbacks, and citation rewriting through six
  regular-expression passes.

Code that changes state is modelled as classes and loops and proved against
functions; what the system promises is proved about those functions.  The contracts
of the main operations also say what they do without those functions: by positions in
the input, by tables of cases, by what a regular expression matches.

## Where the code does not do what is said of it

* The reclaimer's UPDATE names only the job, after its SELECT has committed
  (`shared/utils/leases.py:519-600`).  A job that finishes in between is set back:
  `PipelineTheorems.FinishedJobCanReopen` and `ReportTheorems.ReportAndJobCanDisagree`
  are such runs, and `PipelineTheorems.TerminalChangesOnlyByStaleReclaim` and
  `ReportTheorems.ReportAgreesWithJobExactly` show it is the only way.
* `services/search_api/reports.py:98-102` takes a pending or running report to have a
  worker on it or one to come.  That is so, and the report can still be settled,
  exactly when its job waits to be claimed or a worker that may write it is at work
  (`ReportTheorems.SettlesIffServed`); otherwise it stays in flight in every run,
  since it cannot be enqueued again.  `ReportTheorems.ReportsCanBeStranded` shows three
  ways to get there.
* A finalization that ingests a window but fails to write its done marker, or to
  delete its hash, is reported as an error and repeated on the next pass, possibly
  with newer fragments: `IntakeTheorems.IngestedAgainIff`, `IntakeTheorems.MarkFailureRepeats`.
* `upsert_summary` says that it returns False for a `summary_id` that exists
  (`services/panoptic_summary_agent/summary_db.py:45-48`).  For a superseded id it returns
  True and demotes the latest row: `SummaryTheorems.StaleSubmissionLosesLatest`.
* `rerank_images` says that it always returns as many hits as it received
  (`services/search_api/rerank.py:103`).  A short ranking loses hits
  (`RerankTheorems.ShortRankingDropsHits`), and the cap at lines 178-180 cuts them off.
  `RerankTheorems.SameNumberIff` gives the exact condition: as many pairs in range as
  documents shown, failed calls keeping all of theirs, and no cap below the number
  received (in text mode the cap is left to the reranker); or more pairs than documents and a cap equal to that number.  The number alone
  says little, since a repeated document can stand in for a lost one
  (`RerankTheorems.RepeatHidesLoss`); that the hits themselves are kept has its own
  condition (`RerankTheorems.ImagesConserveIff`), and where no reply names a document twice
  the two agree (`RerankTheorems.CountShowsLoss`).
* The default replay settings, 300 and 600 seconds, are enough for clock readings
  in whole seconds only; `int(time.time())` cuts off a fraction, so the cache
  should live one second longer: `Replay.DefaultsAreTight`.
* Window keys and summary job keys are joined with colons.  Two different cameras share a
  window exactly when, for some texts x, y and t, the one has serial x and camera t:y and
  the other serial x:t and camera y (`IntakeTheorems.CamerasShareWindowIff`).  The same holds of two (profile, prompt) pairs
  of a bucket and their job (`IngestTheorems.SameSummaryKeyIff`), so that two profiles can
  share one exactly when they are equal or one starts with the other and a colon
  (`IngestTheorems.ProfilesCanShareIff`).
* A fragment whose object type starts with an underscore is accepted and never
  ingested: `IntakeTheorems.InternalNeverPassed`; a window of only such fragments
  disappears: `IntakeTheorems.InternalOnlyWindowVanishes`.

## Model

| member | source | states |
|---|---|---|
| PipelineTheorems.EmbeddedPointMatchesRow | services/panoptic_caption_embed_worker/executor.py:70-141 | in every reachable state, an image marked embedded is captioned and its Qdrant point carries exactly the row's caption, whatever stale workers upserted |
| PipelineTheorems.CaptionIsWriteOnce | services/panoptic_image_caption_worker/executor.py:81-151 | a successful caption keeps its status and text in every continuation of every run |
| PipelineTheorems.CaptionedImagesAreChained | services/panoptic_image_caption_worker/worker.py:125-208 | a captioned image always has both its caption_embed and its image_embed job row |
| PipelineTheorems.ReceivedImagesHaveJobs | services/trailer_webhook/app.py:280-413 | in every run a stored image has its caption job row, and an event_produce row exists exactly for the stored alert and anomaly images |
| PipelineTheorems.DurableBeforeVisible | services/panoptic_image_caption_worker/worker.py:184-262 | every key on a job stream has a committed row, every key on a DLQ a committed failed_terminal transition, and a worker has ACKed only what it has released and committed |
| PipelineTheorems.LostLeaseIsSilent | services/panoptic_image_caption_worker/worker.py:184-208 | a worker without its lease writes nothing to Postgres, streams, DLQ or ACKs, in any interleaving, until its next claim |
| PipelineTheorems.TerminalChangesOnlyByStaleReclaim | shared/utils/leases.py:519-600 | any action changes the state of a finished job if and only if it is a reclaimer row selected earlier with another target state |
| PipelineTheorems.FinishedJobCanReopen | shared/utils/leases.py:519-600 | a concrete run in which a succeeded job becomes pending again |
| PipelineFlow.CaptionComesFromReply | services/panoptic_image_caption_worker/executor.py:98-148 | in every run, the text of a captioned image is one that a reply gave to a worker on that image's caption job: the parsed caption, or the stripped raw text when the JSON was unusable and there was any |
| PipelineFlow.JobsReachStreams | services/panoptic_image_caption_worker/worker.py:184-243 | in every run, a job row whose key is neither on its stream nor awaiting its XADD was lost by a crash before that XADD or by its failure |
| PipelineFlow.FailuresReachDlq | services/panoptic_image_caption_worker/worker.py:244-262 | the same for terminal failures and the DLQ, the reclaimer's included |
| PipelineFlow.AttemptsAreClaims | shared/utils/leases.py:115-178 | in every run, a job has been claimed as often as its attempts say, whatever releases and reclaims came between; the limit is three |
| PipelineFlow.ReceiveStores | services/trailer_webhook/app.py:280-413 | a new image comes in pending, one that is there is left alone |
| PipelineFlow.ScanSelects | shared/utils/leases.py:519-536 | the select takes exactly the expired leased and waiting jobs, each with whether its attempts are used up |
| PipelineFlow.ReclaimReleases | shared/utils/leases.py:536-616 | a selected job becomes pending, or fails when its attempts are used up, is freed of its owner, logged, and announced on its stream or on the DLQ; nothing else changes |
| PipelineProofs.StepKeeps | services/panoptic_image_caption_worker/worker.py:62-268 | every action of every actor keeps the invariant of tables, points, buffered writes and program counters, and never removes a row or changes a caption |
| PipelineWorkers.Cluster.ProcessMessage | services/panoptic_image_caption_worker/worker.py:62-264 | one message among arbitrary steps of the others and with a crash possible between any two calls: a pending job is claimed and the worker does load, executor, release, enqueues, DLQ and ACK in that order, or a beginning of it; the executor's operations are those for the state at its first operation, and the enqueues are one for each job row that its own commit inserted; enqueues, DLQ and ACK come only after the committed release, and without a commit it leaves no release and no ACK; the released outcome is the one the executor's table gives, every enqueue that succeeds is on its stream and a failure on the DLQ |
| PipelineWorkers.Cluster.RunImageCaptionJob | services/panoptic_image_caption_worker/executor.py:45-151 | the branches written out, and their results as a table: exception, missing row, captioned row, missing file, parsed caption, empty and other raw text, each with its outcome and buffered write, whatever the others do meanwhile |
| PipelineWorkers.Cluster.RunCaptionEmbedJob | services/panoptic_caption_embed_worker/executor.py:32-147 | the same as a table of its own, with the Qdrant upsert always before the row update |
| PipelineWorkers.Cluster.RunOtherJob | services/panoptic_image_embed_worker/worker.py:80-110 | an exception or the outcome the executor returns, with nothing buffered |
| PipelineWorkers.Cluster.LoadJobRow | services/panoptic_image_caption_worker/worker.py:86-112 | the job is at its last attempt exactly when its attempts have reached the maximum |
| PipelineWorkers.Cluster.UpsertPoint | services/panoptic_caption_embed_worker/executor.py:99-123 | the point of the image gets the caption as fetched, no other point changes |
| PipelineWorkers.Cluster.ReleaseJob | shared/utils/leases.py:256-357 | commits outcome, buffered write and chained jobs together exactly for the owner with a live heartbeat; otherwise rolls everything back |
| PipelineWorkers.Cluster.CommitRelease | services/panoptic_image_caption_worker/worker.py:125-208 | field by field: the image row with the buffered write, the missing downstream jobs fresh, the job with its outcome and without owner, the history row, and all else as it was |
| PipelineWorkers.Cluster.ClaimJob | shared/utils/leases.py:115-178 | a pending job is leased to exactly this worker with one attempt more, any other is left alone |
| PipelineWorkers.Cluster.EnqueueAfterCommit | services/panoptic_image_caption_worker/worker.py:210-243 | one enqueue per job row the transaction inserted, each with its own outcome; every one that succeeds is on its stream |
| PipelineWorkers.Cluster.HandleException | services/panoptic_image_caption_worker/worker.py:113-123 | an exception of the executor buffers nothing and goes terminal exactly when the attempts are used up |
| PipelineWorkers.Cluster.FinishMessage | services/panoptic_image_caption_worker/worker.py:210-264 | after the commit: enqueues, the DLQ entry of a terminal failure, then the ACK, or a beginning of these, each with its effect |
| ReportTheorems.ReportAgreesWithJobExactly | services/panoptic_report_generator/executor.py:78-179 | in every run a report is success exactly when its job is succeeded, if and only if no reclaimer update of that run overwrote the succeeded job |
| ReportTheorems.SucceededJobHasReport | services/panoptic_report_generator/worker.py:99-123 | in every run, races included, a succeeded job has a successful report |
| ReportTheorems.SuccessIsForever | services/search_api/reports.py:134-190 | a successful report stays successful in every continuation |
| ReportTheorems.LostLeaseLeavesReportUnsuccessful | services/panoptic_report_generator/worker.py:99-123 | after a lost lease and a failed job no worker can make the report a success until it is enqueued again |
| ReportTheorems.StrandedForever | services/search_api/reports.py:98-144 | a pending or running report that nobody serves stays so in every run, enqueue requests included |
| ReportTheorems.SettlesIffServed | services/search_api/reports.py:98-144 | a pending or running report can still leave these states, in some run, exactly when its job is pending or a worker that may write it is at work, owning the lease if it is about to commit |
| ReportTheorems.ReportAndJobCanDisagree | shared/utils/leases.py:519-600 | a concrete run that ends with a successful report and a failed job |
| ReportTheorems.ReportsCanBeStranded | services/search_api/reports.py:98-144 | runs that strand a report: a crash while the job is leased, the same after the reclaimer failed the job, and a lease lost just before the commit |
| ReportTheorems.StepKeeps | services/panoptic_report_generator/worker.py:48-141 | every action keeps the joint invariant of report rows, job rows and workers |
| ReportWorkers.ReportStore.ProcessMessage | services/panoptic_report_generator/worker.py:48-123 | one message up to its commit, among arbitrary steps of the others and possible crashes: a pending job is claimed and the worker does executor and release in that order, or a beginning, the executor's operations being those for the state at its first operation; a commit leaves the job finished and the report in agreement, without one the worker has touched no job after its claim and made no report a success; the committed state is the one the executor's table gives |
| ReportWorkers.ReportStore.RunReportGenerateJob | services/panoptic_report_generator/executor.py:78-179 | the branches written out, and their results as a table: a success is buffered, anything that raises is terminal, a report that succeeded before is left; status marks at once on their own connection |
| ReportWorkers.MarksTable | services/panoptic_report_generator/executor.py:96-178 | running is written before generation and failed when it raises, each to this report alone |
| ReportWorkers.ReportStore.Commit | services/panoptic_report_generator/worker.py:99-123 | report and job are written together exactly for the owner with a live heartbeat: the job with its outcome and without owner, the report with the buffered success |
| ReportWorkers.ReportStore.EnqueueReport | services/search_api/reports.py:105-190 | success, running and pending are reused untouched; otherwise both rows are reset together |
| IntakeTheorems.FragmentsAreConserved | shared/clients/trailer_intake.py:62-209 | in every reachable state, failed finalizations included, an accepted fragment was superseded by a later one of its window and type, or is in the hash until the window is finished, or was passed to ingest_bucket; in both places only where a marker write or deletion failed |
| IntakeTheorems.PassedIffNotInternal | shared/clients/trailer_intake.py:170-177 | of a finished window, an unsuperseded fragment reached ingest_bucket exactly when its object type does not start with an underscore |
| IntakeTheorems.InternalNeverPassed | shared/clients/trailer_intake.py:170-177 | in no reachable state has a fragment whose object type starts with an underscore reached ingest_bucket |
| IntakeTheorems.InternalOnlyWindowVanishes | shared/clients/trailer_intake.py:179-183 | a window with only such a fragment is cleaned up without ingest and without done marker |
| IntakeTheorems.OneIngestPerWindow | shared/clients/trailer_intake.py:179-209 | if a window is ingested twice, the first of the two failed to write its marker or to delete its hash |
| IntakeTheorems.IngestedAgainIff | shared/clients/trailer_intake.py:133-145 | an ingest is followed by another of its window, or its hash still waits for one, exactly when its marker write or its deletion failed |
| IntakeTheorems.MarkFailureRepeats | shared/clients/trailer_intake.py:202-209 | a reachable state in which one window was ingested twice, the second time with a newer fragment |
| IntakeTheorems.IngestNamesSenderIff | shared/clients/trailer_intake.py:161-166 | the ingest call names the sending trailer and camera exactly when their names hold no colon |
| IntakeTheorems.ColonsCanMixCameras | shared/clients/trailer_intake.py:54-60 | two different cameras that share one window |
| IntakeTheorems.CamerasShareWindowIff | shared/clients/trailer_intake.py:54-60 | two cameras share the window of one start time exactly when they are the same, or have serial x and camera t:y, and serial x:t and camera y, for some x, y and t |
| IntakeKeys.ParseIff | shared/clients/trailer_intake.py:54-60 | splitting an aggregation key gives back its parts exactly when serial and camera hold no colon |
| IntakeKeys.ParsedDoneKey | shared/clients/trailer_intake.py:202-204 | whatever the names contain, finalizing sets the very marker that storing looks up |
| Intake.Aggregator.ReceiveBucket | services/trailer_webhook/app.py:138-192 | duplicate, late or stored, with the exact new hash, active set and seen set |
| Intake.Aggregator.StoreFragment | shared/clients/trailer_intake.py:62-100 | the done marker is checked before any write; otherwise the fragment replaces the one of its type |
| Intake.ReadFragments | shared/clients/trailer_intake.py:167-178 | the fragments of a hash, each once, without the fields that start with an underscore |
| Intake.Aggregator.ScanAndFinalize | shared/clients/trailer_intake.py:107-147 | in any order of the active set, exactly the windows whose last fragment is thirty seconds old or more go as far as their calls succeed: ingested, with just what the hash held, unless that raises, the hash deleted and the key removed only at the end; the count is of the complete ones and the rest is untouched |
| Intake.Aggregator.FinalizeOne | shared/clients/trailer_intake.py:150-209 | ingest of exactly the fragments of the hash, done marker, deletion, removal, ending at the first that raises; without fragments only the cleanup |
| Intake.StoreKeeps | shared/clients/trailer_intake.py:62-100 | storing keeps the invariant that an unfinished hash holds the last accepted fragment of each type |
| Intake.IngestKeeps | shared/clients/trailer_intake.py:150-209 | finalizing keeps it wherever it ends, and the fragments ingested are exactly the last accepted ones |
| Canonical.RecordForgetsOrder | shared/clients/trailer_intake.py:216-327 | for distinct object types and one window, every order of the fragments gives the same bucket id, detection hash, counts, components, change time and completeness |
| Canonical.PeakTimeForgetsOrderIff | shared/clients/trailer_intake.py:261-270 | the peak time is the same for all orders exactly when all fragments that tie for the peak agree on it |
| Canonical.DetectionHashIff | shared/clients/trailer_intake.py:339-358 | detection hashes are equal exactly when the fragments agree on every field covered |
| Canonical.ChildSetHashIff | shared/utils/hashing.py:16-28 | child-set hashes are equal exactly for equal multisets of ids |
| CanonicalFields.SumFields | shared/clients/trailer_intake.py:226-257 | total detections, number of object types and c1, by sums over the fragments |
| CanonicalFields.ExtremeFields | shared/clients/trailer_intake.py:238-257 | variance, c2 and c3, by the largest deviation and duty cycle, rounded half to even |
| CanonicalFields.TimeFields | shared/clients/trailer_intake.py:258-289 | baseline, peak of the first fragment with the largest count, earliest first detection |
| CanonicalFields.CompletenessFields | shared/clients/trailer_intake.py:293-307 | the largest duty cycle cut to the unit interval, and the whole seconds it leaves out |
| CanonicalFields.CountFields | shared/clients/trailer_intake.py:231-231 | the trackers of the last fragment of each type |
| CanonicalFields.HashFields | shared/clients/trailer_intake.py:309-323 | the detection hash covers the entries of all fragments sorted by type, and the bucket id that hash |
| CanonicalFields.LexIff | shared/utils/hashing.py:16-28 | the order is by the first difference, a text before its continuations |
| Folds.FoldForgetsOrder | shared/clients/trailer_intake.py:233-253 | sums, maxima and minima over fragments do not depend on their order |
| Json.ListTextInjective | shared/utils/hashing.py:26-28 | different lists of strings have different JSON texts |
| Json.QuotedInjective | shared/events/build.py:115-116 | an escaped string can be cut off the front of a JSON text in one way only |
| IngestTheorems.RowClosedForm | shared/clients/cognia.py:234-277 | the stored bucket comes from the last late_finalized committed submission if there was one and otherwise from the first |
| IngestTheorems.SummaryJobsIff | shared/clients/cognia.py:279-307 | a (bucket, profile, prompt) triple has its summary job row exactly when a submission for the bucket was committed whose pair reads the same |
| IngestTheorems.EventJobsIff | shared/clients/cognia.py:309-341 | the one event_produce row of a bucket exists exactly when a submission that wrote the bucket carried markers |
| IngestTheorems.QueuedAreDurable | shared/clients/cognia.py:343-383 | only committed job rows are enqueued, each at most once, however calls fail |
| IngestTheorems.StreamIff | shared/clients/cognia.py:351-383 | in every run, a job key is on the stream exactly when the call that inserted its row got that enqueue through |
| IngestTheorems.ReplyIff | shared/clients/cognia.py:270-284 | in every run, a call is told Inserted exactly for the first committed submission of its bucket, of later ones LateUpdate exactly for late_finalized ones, and that its job is a duplicate exactly when one that reads the same was committed |
| IngestTheorems.MergeMeaning | shared/clients/cognia.py:215-232 | history markers already present are skipped, the missing ones are appended once |
| IngestTheorems.MergeOrder | shared/clients/cognia.py:215-232 | the appended markers come in the order of the history |
| IngestTheorems.MergeIsIdempotent | shared/clients/cognia.py:215-232 | merging the same history again changes nothing |
| IngestTheorems.SameSummaryKeyIff | shared/schemas/job.py:50-51 | two triples have the same key exactly when the bucket is the same and so are profile and prompt, or they are x and t:y, and x:t and y, for some x, y and t |
| IngestTheorems.ProfilesCanShareIff | shared/schemas/job.py:50-51 | two profiles can share a key, for some prompts, exactly when they are equal or one starts the other up to a colon |
| Ingest.Store.IngestBucket | shared/clients/cognia.py:150-396 | id mismatch and failure change nothing; otherwise the reported action by what was there, the row written with its fields or left alone, the job rows, and on the stream exactly the new rows whose enqueue succeeds |
| SummaryTheorems.LatestIff | services/panoptic_summary_agent/summary_db.py:54-150 | never two latest rows in a scope, and one exactly when the scope's last submission was not stale |
| SummaryTheorems.AlwaysLatestIff | services/panoptic_summary_agent/summary_db.py:54-150 | every submitted scope has a latest row at every point of a run exactly when the run contains no stale submission |
| SummaryTheorems.TableIsChains | services/panoptic_summary_agent/summary_db.py:45-52 | without stale submissions each scope is one chain: ids in order of first submission, versions 1 to n, each superseded by the next, the last one latest |
| SummaryTheorems.StaleSubmissionLosesLatest | services/panoptic_summary_agent/summary_db.py:130-140 | submitting a, b, a leaves no latest row, and the next id restarts at version 1 |
| Summaries.SummaryStore.UpsertSummary | services/panoptic_summary_agent/summary_db.py:39-150 | the table of the run, and was_new exactly when the id was not the latest of its scope |
| Summaries.SummaryStore.Publish | services/panoptic_summary_agent/executor.py:290-300 | every summary row has its embedding job, and a job is new exactly when its summary id is |
| Summaries.SummaryStore.InsertEmbeddingJob | services/panoptic_summary_agent/summary_db.py:157-204 | a job row per summary id, new exactly when there was none |
| Replay.SafeIff | shared/auth/hmac_auth.py:159-236 | no run accepts the same serial, timestamp and signature twice, if and only if the cache outlives twice the skew plus the delay, and one second more unless the clock shows whole seconds |
| Replay.DefaultsAreTight | shared/auth/hmac_auth.py:42-43 | 300 and 600 seconds suffice for a whole-second clock and fall short by up to a second otherwise |
| Replay.VerifyRequest | shared/auth/hmac_auth.py:177-256 | accepted exactly when the headers are readable, the clock's whole seconds within the skew, the cache up and without a live mark, the serial known and the signature genuine; each refusal exactly when its own check fails and the earlier ones hold; the cache is that of the run |
| Replay.AcceptedIff | shared/auth/hmac_auth.py:177-256 | over every run: a call is accepted exactly when all that holds and no call with the same serial, timestamp and signature beginning set its mark within the cache lifetime before |
| Replay.LiveIff | shared/auth/hmac_auth.py:166-169 | a mark is live exactly when a call set it at most the lifetime before |
| Replay.KeyIff | shared/auth/hmac_auth.py:168-168 | equal keys mean equal serial, timestamp text and first sixteen signature characters, colons in the serial included |
| Replay.IntReads | shared/auth/hmac_auth.py:210-213 | int() of a decimal number with a sign and whitespace around it |
| Replay.ReplayCache.Observe | shared/auth/hmac_auth.py:166-169 | new exactly when no live mark exists, which is then set with its expiry |
| RateLimit.AtMostMaxPerMinute | services/panoptic_agent/app.py:100-115 | no closed 60-second interval anywhere in the history holds more than max admitted calls |
| RateLimit.AdmitsIff | services/search_api/pull_frame.py:347-359 | a call is refused exactly when max admitted calls of the whole log lie in its last 60 seconds |
| RateLimit.DequeIsRecentLog | services/panoptic_agent/app.py:106-115 | the trimmed deque is exactly the recent part of the full log |
| RateLimit.SlidingWindow.Allow | services/panoptic_agent/app.py:106-115 | the popleft loop and the append keep the deque of the whole call history |
| EventTheorems.SameEventsIff | scripts/backfill_events.py:83-218 | two runs of live production and backfill, in any order, repetition and with any aliases, end with the same event ids exactly when they worked on the same sources |
| EventTheorems.EventsAreSources | services/panoptic_event_producer/executor.py:94-231 | every event of a run is one of the sources worked on, under its own id |
| EventTheorems.IdsAreInjective | shared/events/build.py:75-116 | an event id stands for one image or one (bucket, marker key, timestamp) |
| EventTheorems.MarkerSourcesIff | services/panoptic_event_producer/executor.py:203-214 | a marker yields an event exactly when its key is known, it has a timestamp, and no known marker before it lacks one |
| EventTheorems.ImageSourcesIff | scripts/backfill_events.py:83-134 | alerts and anomalies that have an id yield an event |
| Events.BuildersIff | shared/events/build.py:124-250 | trailer, camera by its alias, public event type and source of an event, and when the builders raise |
| Events.EventStore.ProduceFromImage | services/panoptic_event_producer/executor.py:94-152 | adds exactly the image's event if the work is kept, with its columns; old rows unchanged |
| Events.EventStore.ProduceFromBucket | services/panoptic_event_producer/executor.py:160-220 | adds exactly the bucket's events if the work is kept, with their columns; old rows unchanged |
| Events.EventStore.BackfillImages | scripts/backfill_events.py:83-146 | adds exactly the images' events when applied, with their columns, and counts the rows it inserted |
| Events.EventStore.BackfillBuckets | scripts/backfill_events.py:149-209 | adds exactly the buckets' events when applied, with their columns, counts the rows it inserted and the markers it looked at |
| Events.EventStore.InsertEvent | scripts/backfill_events.py:212-218 | inserts once per id and reports whether it did |
| Dedup.DedupImages | shared/report/synthesis.py:227-257 | the loop over the stably sorted images computes the specified selection |
| DedupTheorems.DedupSelects | shared/report/synthesis.py:227-257 | the kept images of a trigger are five minutes apart, every image lies less than five minutes after a kept one, images without a time all stay, and the result is in display order |
| DedupTheorems.DedupShows | shared/report/synthesis.py:248-256 | alerts come before anomalies, these before baselines, these before the rest, each newest first |
| DedupTheorems.DedupKeepsFirst | shared/report/synthesis.py:231-247 | of several images of one trigger and one time, the one that came first in the input is kept |
| DedupTheorems.DedupIsOptimal | shared/report/synthesis.py:227-248 | no five-minute-separated choice among a trigger's images is larger |
| DedupTheorems.DedupIsIdempotent | shared/report/synthesis.py:229-257 | applied to its own result it returns that list unchanged, ties included |
| Sorting.SortStable | shared/report/synthesis.py:229-257 | sorting keeps the order inside every class of equal elements |
| Sorting.SortKeepsFirst | shared/report/synthesis.py:229-257 | of two elements that compare equal, the one that came first stays first |
| Sorting.SortedUnique | shared/report/synthesis.py:229-257 | order and classes determine the sorted list |
| Merge.MergeImageHitsById | services/search_api/executor.py:78-88 | the dictionary loop and the sort compute the specified merge |
| MergeTheorems.MergedIsUnionOfBest | services/search_api/executor.py:78-88 | each image id once, with a best-scoring hit of its own, in descending score order |
| MergeTheorems.TiesKeepOrder | services/search_api/executor.py:78-88 | an image is represented by the first of its best-scoring hits, captions before images, and images of equal score come in the order in which they were first seen |
| MergeTheorems.TruncatedMergeIsExact | services/search_api/executor.py:147-153 | with each branch asked for top_k, the merged list cut to top_k has the scores of merging the complete rankings |
| RerankTheorems.ImagesConserveIff | services/search_api/rerank.py:106-177 | in VL mode and every combination of failures, the result is a permutation of the hits when each reply that is used names every document once, and, where hits can be told apart, only then |
| RerankTheorems.TextConservesIff | services/search_api/rerank.py:71-84 | the same for text mode |
| RerankTheorems.SameNumberIff | services/search_api/rerank.py:87-181 | in either mode, for every reply, failure and cap: as many hits come back as were received exactly under a stated condition on query, hits, cap and the number of pairs in range |
| RerankTheorems.CountShowsLoss | services/search_api/rerank.py:106-177 | where no reply names a document twice, never more hits come back than were received, and as many exactly when every reply that is used names every document |
| RerankTheorems.RepeatHidesLoss | services/search_api/rerank.py:103-103 | a ranking that names one of two documents twice returns two hits, both the same |
| RerankTheorems.ImagesFirst | services/search_api/rerank.py:112-181 | image-backed hits precede all others, whatever the replies and the cap |
| RerankTheorems.ShortRankingDropsHits | services/search_api/rerank.py:103-103 | a ranking of one of two documents returns one hit |
| Rerank.RerankImages | services/search_api/rerank.py:87-181 | in VL mode: the first eight image-backed hits in the order of the pairs in range, with their scores and the model, or in their own order when both rerankers fail; the other image-backed hits as they were; the rest in the order of its pairs, unscored; all cut at the cap |
| Rerank.RerankText | services/search_api/rerank.py:51-84 | unchanged without query, hits or reply; otherwise, for the increasing positions of the pairs in range, the hit and the score of each |
| Citations.RewriteText | services/panoptic_agent/citations.py:97-127 | the leftmost longest hex runs of 6 to 70, each with its id in brackets if the resolver knows it, then the six substitutions in their order, each leftmost and longest for its expression |
| Citations.PiecesAreSearch | services/panoptic_agent/citations.py:39-40 | the pieces all citation results speak of are what the search for hex runs cuts the text into |
| Citations.CollapseCleansUp | services/panoptic_agent/citations.py:130-155 | the six passes are the substitutions of their regular expressions |
| Search.SearchIsUnique | services/panoptic_agent/citations.py:107-125 | a leftmost, longest, non-overlapping search has one result |
| CitationTheorems.RewriteKeepsCitations | services/panoptic_agent/citations.py:97-155 | through all six collapse steps, every resolved run ends up as its full id in its own brackets, in order, and the text between two of them is the input's up to brackets, commas and whitespace |
| CitationTheorems.RewriteKeepsText | services/panoptic_agent/citations.py:97-155 | without brackets, commas and whitespace, output and input with expanded runs are the same text |
| CitationTheorems.RewriteAddsNoBracket | services/panoptic_agent/citations.py:97-155 | the output has no more brackets than the input and the two around each resolved run |
| CitationTheorems.SubstituteKeepsWeave | services/panoptic_agent/citations.py:130-155 | each of the substitutions leaves every bracketed id alone and changes the text between only by brackets, commas and whitespace |
| CitationTheorems.ResolveIffUnique | services/panoptic_agent/citations.py:74-90 | a marker resolves to an id exactly when it is the one known id the marker abbreviates or extends |
| CitationVerifier.VerifyCitations | services/panoptic_agent/citations.py:176-272 | every text rewritten, bullets that are not strings included though not scanned; the artifact's id and url completed; the runs of narrative and string bullets in order: ids of those that resolve cited, the artifact's last, the others unverified, each once; an answer that is not an object comes back as it is |
| CitationVerifier.CollectedIff | services/panoptic_agent/citations.py:49-71 | an id is harvested exactly when the search for 64 hex characters finds it, lower-cased, in a text at some path of the trace |
| CitationVerifier.CollectedAreIds | services/panoptic_agent/citations.py:49-71 | everything harvested from a trace is a lower-case 64-hex id |
| CitationVerifier.FirstSeenMeaning | services/panoptic_agent/citations.py:205-217 | the same elements, each once, ordered by first occurrence |
| CitationVerifier.EachRunOnce | services/panoptic_agent/citations.py:240-252 | scanning each distinct run once finds the same ids in the same order as scanning all |

## Left out

- Job ids: a job stands under its job_key, which is unique; the random id used on streams and in history rows is not part of the model.
- Lease timing: expiry and heartbeats are nondeterministic; a lease may be taken from a worker at any moment, which covers every timing.
- The running state and renew_lease: a leased job stands for both, since every query treats them alike.
- PipelineWorkers.Cluster.RunOtherJob: the image_embed and event_produce executors are any outcome they can return, or an exception; vectors are not modelled, and events are modelled apart from the machine, in `Events.dfy`.
- PipelineWorkers.Cluster.ReleaseJob: the release, the chained inserts and the commit are one step, since the row lock of the release keeps others off the job until the commit.
- Stale PEL cleanup, DLQ replay, pruning, re-embedding and synthetic data: operator actions that reset what is proved here.
- ReportWorkers.ReportStore.ProcessMessage: the stream, DLQ and ACK of reports are not repeated; they work as in the image pipeline.
- Report generation: the content of a report is opaque; only that it succeeds, raises or is cut short matters.
- Intake.Aggregator.ReceiveBucket: a Redis failure between its own writes is not modelled, nor is the expiry of hashes, done markers and seen event ids, so the results hold while these live; Redis keys of different kinds are separate maps.
- Canonical.RecordForgetsOrder: reals instead of floats; event markers come from shared/signals/derive.py and are not part of the record here; SHA-256 is taken as injective.
- Ingest.Store.IngestBucket: schema validation, activity score and history lookups are inputs; equal instants spelled differently count as different marker timestamps.
- Rollups: the child query compares scope_id with a bare camera id while the writer stores serial and camera, so nothing could be claimed of them.
- Events.EventStore.InsertEvent: a database error of one insert, as for a marker timestamp that Postgres cannot read, is not an outcome; live it would abort the whole transaction, in the backfill only end that bucket.
- Novelty events: the builder maps them, but producer, webhook and backfill skip them.
- Replay.VerifyRequest: the limit that int() puts on the number of digits, and digits outside ASCII, which HTTP headers cannot carry; the registry and the signature comparison are answers given with the call; the switch that turns authentication off is not modelled.
- Postgres isolation: transactions are serial; the replay cache and the deque are each updated in one step.
- Summaries.SummaryStore.UpsertSummary: the columns besides scope, version, latest and successor are opaque.
- Merge.MergeImageHitsById: with a time filter the branches are asked for three times top_k and filtered afterwards; nothing is claimed of that case.
- Rerank.RerankImages: whether an image file exists is an attribute of the hit; the rerankers' answers are inputs.
- CitationVerifier.VerifyCitations: a narrative that is not a string and bullets that are not a list are not modelled; str() of other bullets is given; a trace object counts as the list of its values.
- Dedup.DedupImages: times are instants that parse_iso has read, or none; parsing is not modelled.
- HTTP clients, VLM, embedding and Qdrant queries, operator UI, templates, health probes and dashboards: input and output only.
