# Verified models of the Lightweight engine host

Lightweight runs local language models: a catalog of model files, a backend that
keeps one engine process resident, a gateway that re-emits the engine's stream to
OpenAI-compatible clients, a benchmark that calibrates the memory estimator, and a
desktop shell that supervises the Gateway and Router processes. This project models
the parts of it whose correctness is a statement about whole runs, and proves those
statements for every input and every run.

| file | what it models |
|---|---|
| `Wrappers.dfy`, `Numbers.dfy` | the result shapes and integer bounds the rest share |
| `Regression.dfy` | the least-squares fit of `lightweight-bench`, in exact reals |
| `Calibration.dfy`, `BudgetTightness.dfy` | samples to fits, fits to coefficients, coefficients to bytes; how tight the result is |
| `Names.dfy`, `Catalog.dfy`, `CatalogStore.dfy` | the catalog's name space, the store that keeps it, the file it is saved to |
| `Translation.dfy`, `TranslationLaws.dfy`, `ToolCalls.dfy` | the engine's stream, pulled through a queue, and its tool calls on their way to the client |
| `Processes.dfy`, `RouterProtocol.dfy`, `GatewayProtocol.dfy` | the desktop shell's process ownership, with events arriving at every await |
| `RouterOperations.dfy`, `GatewayOperations.dfy` | what each of their operations does, from start to end |
| `Backend.dfy`, `BackendOperations.dfy`, `Window.dfy` | the single-resident backend and the context window it advertises |
| `PromptSizer.dfy`, `Links.dfy`, `Archive.dfy` | prompt sizing, link parsing and printing, archive unpacking |

`dafny verify dfyconfig.toml` checks all of it.

## What the proofs found

Where the code does less than its comments promise, the model keeps the code's
behaviour, a lemma exhibits the input or the run, and another gives the exact condition.

- A calibrated estimate can be one byte short of a peak its own fit was made from
  (`BudgetTightness.OneByteUnderIsReachable`): the baseline is rounded to nearest and the compute
  term truncated. Every peak of every run is covered outright exactly when the base
  model charges the host at least one byte (`BudgetTightness.CoveredOutrightIffHostOverhead`), as both
  shipped base models do.
- The comment on `floor_raised_by` (`crates/lightweight-bench/src/apply.rs:177-179`)
  expects no raise for most fits. A least-squares line always has a point above it
  unless it passes through all of them, so the intercept stays exactly when the
  score is exactly 1 (`Calibration.NoShortfallIffExact`;
  `BudgetTightness.MeasuredShortfall` is a fit that scores above 0.99 and is raised).
- A file named `default.gguf` is installed under an id no request can name. It is
  the only such id (`Catalog.EveryModelIsFoundByIdButDefault`).
- The link parser refuses an empty repository, but its test never fires: the two
  segments are joined by a slash first, so `/` is accepted as one
  (`Links.NamelessRepoIsAccepted`). An accepted link names both an owner and a
  repository exactly when its repo neither starts nor ends with a slash
  (`Links.OwnerAndNameGivenIff`).
- The translator's drain loop does not look at `finished`, so what follows `[DONE]`
  in the same read gets through, and in the next read does not. The item that says
  how the stream ended is the last one pulled exactly when every frame delivered
  after the first terminal one is silent, for every body
  (`TranslationLaws.EndingIsLastIff`).
- `tool_call` is documented to send the id and the name at most once per index
  (`crates/lightweight-api/src/stream.rs:203`). The id is; a name given before the id
  goes out each time it is given, twice in `ToolCalls.NameGoesOutTwice`. At most one
  goes out exactly when at most one delta up to the first id carries one
  (`ToolCalls.NameGoesOutOnceIff`). The whole documented shape of a call, first delta
  and later ones (`crates/lightweight-api/src/stream.rs:11-13`), is on the wire exactly
  when the engine's first delta of each call carries both
  (`ToolCalls.DocumentedShapeIff`).
- A tool call whose id comes after its first delta is split in two
  (`ToolCalls.LateIdSplitsTheCall`), and a name that comes after the id is lost
  (`ToolCalls.LateNameIsLost`). The client ends with the engine's calls exactly when
  no id is late and no call's last name after its id differs from the last one by then
  (`ToolCalls.ClientRebuildsCallsIff`).
- The first delta of a call is meant to give the client a slot for its arguments, but
  one that carries an id and nothing else gives none (`ToolCalls.IdAloneGivesNoSlot`;
  `ToolCalls.ChunkBuilder.ToolCall` has the exact condition).
- A `discover` that overlaps a `start` ends `attached` to the Router the shell owns.
  An answered look keeps `attached` to Routers of others exactly when it found none
  or nothing is owned by then (`RouterProtocol.DiscoverKeepsAttachedIff`).
- A killed child's exit that arrives after the next spawn leaves the new child alive,
  unsignalled and untracked, in both supervisors; `ExitKeepsOwnershipIff` and
  `ExitKeepsTrackIff` say when the handlers do no harm. Two starts at once leave the
  first child so; `SpawnKeepsTrackIff` says when a spawn loses none. A Gateway asked
  to attach while it owns one does the same (`GatewayProtocol.AttachDisownsIff`).
- `running` can outlive its child, even when operations do not overlap and exits are
  on time: a Router that answers while being stopped, a Gateway whose child exits
  during the last poll. In both, along every such run, `running` names the tracked
  child exactly while that child's exit is to come and no stop has killed it and
  finished (the last clauses of the two `EveryReachableState`).
- The advertised slot count, documented as 1 when nothing is resident
  (`crates/lightweight-backend-llamacpp/src/backend.rs:80`), need not be: it
  outlives an engine found dead, an unload that is dropped, and a model evicted by a
  load that then fails (`Backend.SlotsOutliveTheResident`). Along every run it is 1
  exactly when nothing was ever published or the last store was a completed unload or
  one slot (`Backend.AdvertisesOneIff`).

- The comment on `engine_context`
  (`crates/lightweight-backend-llamacpp/src/supervisor.rs:573-575`) says the engine
  never rounds down. It does once the total saturates, as for two slots of the largest
  window (`Window.SaturatedTotalIsRounded`), unless the slots divide what it saturates
  to (`Window.NeverRoundedIff`).

## Model

| member | source | states |
|---|---|---|
| Regression.Peaks | crates/lightweight-bench/src/fit.rs:296-300 | the loop that keeps each batch size's largest residual computes `PeakMap` |
| Regression.PeakMapIsLargestResidual | crates/lightweight-bench/src/fit.rs:285-300 | a batch size is in the map exactly when it was measured, and its entry is an upper bound of its residuals that one of them attains |
| Regression.SameEnvelopeSamePeaks | crates/lightweight-bench/src/fit.rs:268-300 | two lists give the same points to fit if and only if each dominates the other: order, repeats and dominated samples change nothing, and nothing else is ignored |
| Regression.LineDependsOnlyOnPeaks | crates/lightweight-bench/src/fit.rs:268-350 | lists with the same upper envelope get the same line and score |
| Regression.Entries | crates/lightweight-bench/src/fit.rs:310-314 | the map's walk visits every entry once, in strictly increasing batch size |
| Regression.Moments | crates/lightweight-bench/src/fit.rs:308-314 | the accumulating loop ends with the centred second moments of the entries |
| Regression.Regress | crates/lightweight-bench/src/fit.rs:295-350 | the whole imperative fit returns the line the optimality results below are about |
| Regression.LineExists | crates/lightweight-bench/src/fit.rs:292-317 | a line is returned if and only if two distinct batch sizes were measured |
| Regression.VariancePositive | crates/lightweight-bench/src/fit.rs:315-317 | with two batch sizes the variance is positive, so the second refusal never fires |
| Regression.ErrorExpands | crates/lightweight-bench/src/fit.rs:321-327 | the squared error of any line, expanded in the centred moments |
| Regression.ExcessError | crates/lightweight-bench/src/fit.rs:318-327 | by exactly how much any line misses the one through the means that solves the normal equation |
| Regression.NormalEquation | crates/lightweight-bench/src/fit.rs:318-319 | the returned slope solves the normal equation and the line passes through the means |
| Regression.Optimal | crates/lightweight-bench/src/fit.rs:268-350 | no line has a smaller squared error over the peaks, and only the returned one attains it |
| Regression.GoodnessOfFit | crates/lightweight-bench/src/fit.rs:321-343 | R squared lies between 0 and 1 and is 1 exactly when every peak is on the line |
| Regression.ScoreIsTheShareExplained | crates/lightweight-bench/src/fit.rs:321-343 | what the score leaves of the spread is the squared error, for good fits, poor ones and flat ones |
| Regression.TwoBatchSizesScoreOne | crates/lightweight-bench/src/apply.rs:229-231 | two batch sizes always score 1, which is why `apply` counts batch sizes first |
| Calibration.FitRun | crates/lightweight-bench/src/fit.rs:205-260 | one fit per bucket that kept a sample, of exactly the samples kept in it in the order taken |
| Calibration.KeptSampleIsAPoint | crates/lightweight-bench/src/fit.rs:208-241 | every sample with a prediction, a peak and no underflow is a point of its own bucket |
| Calibration.SampleKeptIff | crates/lightweight-bench/src/fit.rs:208-236 | a sample is kept if and only if it has a prediction and a peak not below the exact part the peak contains; part and residual add up to the peak |
| Calibration.SameBucketIff | crates/lightweight-bench/src/fit.rs:224-231 | two samples share a bucket if and only if labels, context, slots and cache types agree |
| Calibration.PointsSplit | crates/lightweight-bench/src/fit.rs:205-237 | a bucket gets each kept sample of its own once and in order, and nothing else |
| Calibration.AcceptedIff | crates/lightweight-bench/src/apply.rs:224-276 | a fit is accepted if and only if it has three batch sizes, slope, intercept and a score of 0.95, no negative term, a known and positive shape, and a slope that covers the logits |
| Calibration.VerdictSays | crates/lightweight-bench/src/apply.rs:224-276 | each refusal is given exactly when its condition is the first to fail |
| Calibration.ShortfallIsLargest | crates/lightweight-bench/src/apply.rs:277-281 | the fold is the largest distance of a point above the line, or zero, and is attained when positive |
| Calibration.SmallestRaise | crates/lightweight-bench/src/apply.rs:272-281 | a raise of the intercept covers every point if and only if it is at least the shortfall |
| Calibration.ApplySpendsTheSlope | crates/lightweight-bench/src/apply.rs:263-300 | the calibrated model's slope is the measured slope, the two coefficients keep their shipped ratio, and the host overhead is untouched |
| Calibration.CalibratedCompute | crates/lightweight-memory/src/estimator.rs:308-335 | the estimator, given the calibrated coefficients, charges the measured slope at every batch size |
| Calibration.FloorRaisedIff | crates/lightweight-bench/src/apply.rs:175-178 | the reported raise is positive exactly when some observation lies at least half a byte above the line |
| Calibration.ErrorsCancel | crates/lightweight-bench/src/fit.rs:318-327 | the errors of the returned line over the peaks sum to zero |
| Calibration.NoShortfallIffExact | crates/lightweight-bench/src/apply.rs:272-281 | the line of a run needs no raise if and only if it scores exactly 1, that is, every batch size's peak lies on it |
| Calibration.MaxResidualIsLargest | crates/lightweight-bench/src/fit.rs:252-256 | the recorded maximum bounds every residual of the bucket and is one of them |
| Calibration.RunFitsAreNeverSlopeless | crates/lightweight-bench/src/apply.rs:239-248 | a fit of a run is never refused for a missing slope or score, and a score that is refused is a real one, from 0 up to 0.95 |
| Calibration.CoversToHalfAByte | crates/lightweight-bench/src/apply.rs:272-300 | compute plus the rounded baseline is within half a byte of every observation the fit rests on |
| Calibration.NeverUnderByMoreThanAByte | crates/lightweight-bench/src/apply.rs:383-391 | in whole saturating bytes the estimate is at most one byte under any observation of the fit |
| Calibration.EstimateIsTheRaisedLine | crates/lightweight-memory/src/estimator.rs:137-147 | the estimate is the exact part plus the measured line raised by its shortfall, at most half a byte above it and, unless saturated, a byte and a half below |
| Calibration.NeverUnderBudget | crates/lightweight-bench/src/fit.rs:205-260 | for every run and every sample kept, the estimate under the run's own accepted fit is at least the recorded peak less one byte |
| Calibration.CoveredOutrightWithHostOverhead | crates/lightweight-memory/src/estimator.rs:137-147 | with any host overhead at all the whole estimate covers the recorded peak |
| Calibration.AcceptedFitIsLeastSquares | crates/lightweight-bench/src/apply.rs:224-252 | a fit of a run that is accepted is the least-squares line over at least three batch sizes |
| Calibration.UbatchValuesAreKeys | crates/lightweight-bench/src/apply.rs:232-238 | the batch sizes `apply` counts are exactly the points `regress` fitted |
| Calibration.DescribesIsSameKey | crates/lightweight-bench/src/record.rs:93-136 | the fingerprint and bucket comparison is equality of a key that leaves out the memory size |
| Calibration.DescribesIff | crates/lightweight-bench/src/record.rs:93-136 | a fit describes hardware, engine and bucket if and only if every compared field agrees; the memory size is not one |
| Calibration.InsertKeepsOrder | crates/lightweight-bench/src/fit.rs:184-191 | retaining keeps the order and the new fit goes last |
| Calibration.CalibrationFile.Insert | crates/lightweight-bench/src/fit.rs:184-191 | the list afterwards is the old one without that key, then the new fit; one fit per key is kept |
| Calibration.WithoutIsFilter | crates/lightweight-bench/src/fit.rs:185-189 | retaining keeps exactly the fits under other keys, and keeps one per key |
| Calibration.InsertKeepsOnePerKey | crates/lightweight-bench/src/fit.rs:182-191 | inserting never leaves two fits under one key |
| Calibration.InsertIsUpdate | crates/lightweight-bench/src/fit.rs:171-191 | one insertion is one map update as `find` sees it |
| Calibration.CalibrationRefinesMap | crates/lightweight-bench/src/fit.rs:171-191 | after any history of insertions there is at most one fit per key and `find` returns the last one inserted |
| Calibration.LoadBucketIff | crates/lightweight-bench/src/apply.rs:188-197 | the bucket a load asks for is a sample's if and only if labels and parameters agree |
| Calibration.NoFitIff | crates/lightweight-bench/src/apply.rs:205-219 | a load is told there is no fit if and only if none was ever inserted for its hardware, engine and bucket |
| Calibration.LoadReadsTheRunsFit | crates/lightweight-bench/src/apply.rs:205-219 | a run's fit, filed last, is what a load of its model on its hardware reads, whatever else the file holds and however much memory there is |
| Calibration.CalibratedLoadCoversItsRun | crates/lightweight-bench/src/apply.rs:188-219 | end to end: any history whose latest fit for the bucket is the run's, looked up on matching hardware of any memory size, covers every sample of that run to within a byte |
| BudgetTightness.OneByteUnderIsReachable | crates/lightweight-bench/src/apply.rs:383-391 | a run whose own accepted fit prices one of its samples a byte short |
| BudgetTightness.CoveredOutrightIffHostOverhead | crates/lightweight-memory/src/estimator.rs:137-147 | all kept samples of all runs are covered outright if and only if the base model charges the host at least one byte |
| Names.TrimDropsOnlyBlanks | crates/lightweight-catalog/src/alias.rs:66-95 | trimming takes blanks off the two ends and nothing else |
| Names.SameNameIff | crates/lightweight-catalog/src/alias.rs:83-95 | two names are the same if and only if, trimmed, they agree letter by letter in any casing |
| Names.ParseKeepsKey | crates/lightweight-catalog/src/alias.rs:65-95 | a name is read as a selector exactly when its key is neither empty nor `default`, and parsing loses only the blanks around it |
| Names.ValidAliasIsFixed | crates/lightweight-catalog/src/alias.rs:136-157 | an accepted alias is the trimmed input and is accepted again unchanged |
| Names.ValidAliasIff | crates/lightweight-catalog/src/alias.rs:136-157 | an alias is accepted if and only if, trimmed, it has 1 to 64 characters, is not `default`, `.` or `..`, and has no slash, backslash, at sign or control character |
| Names.AliasRefusalSays | crates/lightweight-catalog/src/alias.rs:136-157 | each refusal holds of the name, and a refused character is the first of its kind |
| Names.DecimalReads | crates/lightweight-catalog/src/store.rs:286-289 | a suffix reads back as its number, without leading zeros |
| Names.DecimalInjective | crates/lightweight-catalog/src/store.rs:286-289 | different suffix numbers are written differently |
| Names.CandidateKey | crates/lightweight-catalog/src/store.rs:286-289 | a suffixed id's key is its folded base followed by the suffix as written |
| Names.CandidatesDiffer | crates/lightweight-catalog/src/store.rs:286-289 | two suffixed ids are the same name, in any casing, only if their numbers are equal |
| Names.Slug | crates/lightweight-catalog/src/record.rs:210-231 | an id is never empty, uses only the slug characters and has no dash at either end |
| Names.SlugWritesTheStem | crates/lightweight-catalog/src/record.rs:204-231 | an id is the stem written character by character, capitals in lower case, with the dashes taken off its ends; only a stem with nothing else becomes `model` |
| Names.SlugIsItsOwnKey | crates/lightweight-catalog/src/record.rs:204-231 | an id of slug characters is trimmed and is the form names are compared in |
| Catalog.FreeSuffixExists | crates/lightweight-catalog/src/store.rs:282-290 | pigeonhole: one of the first `2 * models + 1` suffixes is free, so the fallback is unreachable |
| Catalog.FirstFreeSuffixExists | crates/lightweight-catalog/src/store.rs:286-288 | the first free suffix exists and is within the bound |
| Catalog.FreeIdIsFree | crates/lightweight-catalog/src/store.rs:273-290 | the chosen id is neither an id nor an alias in any casing, and there is one answer |
| Catalog.CommitKeepsNames | crates/lightweight-catalog/src/install.rs:287-342 | a commit, import or download, keeps one name meaning one model |
| Catalog.SetAliasKeepsNames | crates/lightweight-catalog/src/store.rs:148-232 | setting, changing or clearing an alias keeps one name meaning one model |
| Catalog.StepKeepsNames | crates/lightweight-catalog/src/store.rs:212-271 | every operation keeps it |
| Catalog.RunKeepsNames | crates/lightweight-catalog/src/store.rs:140-271 | every sequence of operations keeps it |
| Catalog.EveryReachableCatalogIsUnambiguous | crates/lightweight-catalog/src/alias.rs:17-28 | from the empty catalog, along every run: keys are ids, aliases are valid and trimmed, no two are equal ignoring case, and none is any model's id ignoring case |
| Catalog.ResolvesToOneModel | crates/lightweight-catalog/src/store.rs:123-138 | in every reachable catalog no name resolves to two models, whatever order they are walked in |
| Catalog.ResolveById | crates/lightweight-catalog/src/store.rs:123-128 | a model's id resolves to it if and only if the id is trimmed, non-empty and not reserved |
| Catalog.DefaultFileIsUnreachableById | crates/lightweight-catalog/src/record.rs:210-231 | a run that installs a model no name resolves to |
| Catalog.EveryModelIsFoundByIdButDefault | crates/lightweight-catalog/src/store.rs:112-128 | along every run with slug-shaped download ids, each model is found under its own id exactly when that id is not `default` |
| Catalog.ResolveByAlias | crates/lightweight-catalog/src/store.rs:123-138 | an alias resolves to its model in any casing and with blanks around it |
| Catalog.ResolvesIff | crates/lightweight-catalog/src/store.rs:123-138 | a name resolves to a model if and only if it is neither empty nor `default` and is its alias in any casing or, trimmed, its id |
| Catalog.AliasAcceptedIff | crates/lightweight-catalog/src/store.rs:148-175 | an alias may be given to a model if and only if it is valid, no model's id is the same name and no other model's alias is |
| Catalog.SetAliasAnswers | crates/lightweight-catalog/src/store.rs:212-232 | an accepted alias is stored trimmed and resolves to the model as it was typed; none clears it; a refusal changes nothing; no other record or field is touched |
| Catalog.RemoveAndMarkAnswer | crates/lightweight-catalog/src/store.rs:267-271 | removing takes away one record and no other |
| Catalog.DownloadAnswers | crates/lightweight-catalog/src/install.rs:300-331 | a download is refused if and only if its id is another model's alias; otherwise it replaces that record alone, keeping the alias |
| Catalog.ImportAnswers | crates/lightweight-catalog/src/install.rs:291-331 | an import of known bytes changes nothing; any other adds one record, under the slug when free and else under the slug with the first free number from 2 |
| Catalog.RetiredAliasStopsResolving | crates/lightweight-catalog/src/store.rs:212-232 | after an alias is set, changed or cleared, the old one resolves to its model exactly when the new one is the same name, and never to another |
| Catalog.RemovedNamesStopResolving | crates/lightweight-catalog/src/store.rs:267-271 | a removed model's id and alias resolve to nothing |
| Catalog.RedownloadKeepsAlias | crates/lightweight-catalog/src/install.rs:324-329 | new bytes under a known id replace the digest, keep the alias, and change no other record |
| Catalog.CommitKeepsBytesIff | crates/lightweight-catalog/src/install.rs:291-311 | a commit keeps one model per file if and only if it is an import, is refused, or brings bytes no other model has |
| Catalog.DownloadsCanDuplicate | crates/lightweight-catalog/src/install.rs:291-311 | any two ids can be downloaded with the same bytes, which are then two models |
| Catalog.ImportsNeverDuplicate | crates/lightweight-catalog/src/install.rs:291-298 | along every run without downloads no two models have the same bytes, ignoring the case of the digest |
| CatalogStore.Store.CheckAlias | crates/lightweight-catalog/src/store.rs:148-175 | accepts exactly the aliases the name space allows, and an error names a model that is really in the way |
| CatalogStore.Store.EnsureIdUnaliased | crates/lightweight-catalog/src/store.rs:186-203 | refuses exactly the ids another model holds as its alias, and names that model |
| CatalogStore.Store.SetAlias | crates/lightweight-catalog/src/store.rs:212-232 | changes the alias and nothing else when accepted, nothing at all when refused, and keeps the invariant |
| CatalogStore.Store.FindFreeId | crates/lightweight-catalog/src/store.rs:282-290 | the suffix loop terminates without its fallback, at the first free suffix |
| CatalogStore.Store.Insert | crates/lightweight-catalog/src/store.rs:251-257 | refuses exactly the ids already present |
| CatalogStore.Store.Replace | crates/lightweight-catalog/src/store.rs:263-265 | overwrites one record and hands back the previous one |
| CatalogStore.Store.Remove | crates/lightweight-catalog/src/store.rs:267-271 | removes one record, reports a missing one, keeps the invariant |
| CatalogStore.Store.Commit | crates/lightweight-catalog/src/install.rs:287-342 | performs the run's commit step, is refused exactly when the given id is another model's alias, answers known bytes with their record, and otherwise never meets a duplicate |
| CatalogStore.Store.Resolve | crates/lightweight-catalog/src/store.rs:123-138 | finds a model if and only if the name may resolve to one |
| CatalogStore.ListingExists | crates/lightweight-catalog/src/store.rs:308-311 | every catalog whose keys are its ids has a listing of its records, each once |
| CatalogStore.CollectHolds | crates/lightweight-catalog/src/store.rs:68-76 | every record with a distinct id survives being collected by id |
| CatalogStore.CollectOnly | crates/lightweight-catalog/src/store.rs:68-76 | collecting invents no record and files each under its id |
| CatalogStore.OpenRefusesIff | crates/lightweight-catalog/src/store.rs:40-77 | opening is refused exactly for a file that does not parse, and an empty catalog opens only from a missing file or an empty document |
| CatalogStore.OpenAfterSave | crates/lightweight-catalog/src/store.rs:45-77 | opening a completed save is the identity on every catalog whose keys are its ids |
| CatalogStore.CrashLeavesOldOrNew | crates/lightweight-catalog/src/store.rs:292-325 | stopped at any point of a save, reopening yields the old catalog or the new one |
| CatalogStore.ReopenedCatalogIsUnambiguous | crates/lightweight-catalog/src/store.rs:45-77 | a catalog reached by any run, saved and reopened, is the same catalog and still unambiguous |
| Translation.Translator.AbsorbDelta | crates/lightweight-backend-llamacpp/src/upstream.rs:705-758 | a delta queues its content, then one spelling of reasoning, then its tool calls, dropping empty strings |
| Translation.Translator.PushCalls | crates/lightweight-backend-llamacpp/src/upstream.rs:728-757 | the loop queues one event per call, in order |
| Translation.Translator.AbsorbChoice | crates/lightweight-backend-llamacpp/src/upstream.rs:674-700 | a choice queues its delta and its text and records its finish reason |
| Translation.Translator.AbsorbChunk | crates/lightweight-backend-llamacpp/src/upstream.rs:653-700 | a chunk queues the start once, its timings and its choice, and records usage |
| Translation.Translator.Absorb | crates/lightweight-backend-llamacpp/src/upstream.rs:628-701 | one frame moves the flags and appends to the queue as the fold's step says |
| Translation.Translator.AbsorbRead | crates/lightweight-backend-llamacpp/src/upstream.rs:603-605 | draining one read is the fold over its frames, terminal or not |
| Translation.Translator.Poll | crates/lightweight-backend-llamacpp/src/upstream.rs:588-620 | one poll of the body moves items to the queue and loses none of what remains |
| Translation.Translator.Next | crates/lightweight-backend-llamacpp/src/upstream.rs:574-624 | the queue-and-pull loop terminates and yields exactly the next item of `Output`, or none exactly when nothing remains |
| TranslationLaws.OutputIsFold | crates/lightweight-backend-llamacpp/src/upstream.rs:574-624 | for every body and grouping, the stream is the pure fold over the frames up to the end of the read with the first terminal frame, or up to the failure |
| TranslationLaws.GroupingDoesNotMatter | crates/lightweight-backend-llamacpp/src/upstream.rs:561-625 | for an engine that stops at its terminal frame the stream is the fold over its frames, however they were grouped |
| TranslationLaws.SaysNothingIff | crates/lightweight-backend-llamacpp/src/upstream.rs:674-758 | a choice queues nothing exactly when its text, content and both reasoning spellings are empty and it calls no tool |
| TranslationLaws.NothingFollowsIffSilent | crates/lightweight-backend-llamacpp/src/upstream.rs:603-605 | once the stream is reported over, nothing more is queued if and only if every later frame of the read is silent, as read off its fields |
| TranslationLaws.EndingIsLastIff | crates/lightweight-backend-llamacpp/src/upstream.rs:574-651 | for every body, the item saying how the stream ended is the only one and the last one pulled if and only if every frame delivered after the first terminal one is silent |
| TranslationLaws.TextAfterDoneGetsThrough | crates/lightweight-backend-llamacpp/src/upstream.rs:603-636 | text after `[DONE]` gets through in the same read and not in the next |
| TranslationLaws.EveryBodyIsOrderly | crates/lightweight-backend-llamacpp/src/upstream.rs:574-770 | for every body and every moment of cancellation: at most one `Started`, at most one `Finished`, every delta and timing after `Started` |
| TranslationLaws.DrainedBodySaysHowItEnded | crates/lightweight-backend-llamacpp/src/upstream.rs:612-620 | a body drained without cancellation always yields a `Finished` or an error |
| TranslationLaws.EndingIsLastAndOnly | crates/lightweight-backend-llamacpp/src/upstream.rs:628-651 | from an engine that stops at its terminal frame exactly one item says how it ended, and it is the last |
| TranslationLaws.FlagsRemember | crates/lightweight-backend-llamacpp/src/upstream.rs:660-700 | after any frames the translator knows the last finish reason and the last usage they gave |
| TranslationLaws.FinishTellsTheLast | crates/lightweight-backend-llamacpp/src/upstream.rs:612-636 | for every body, a first terminal `[DONE]`, or the end of a body that neither ended nor broke off, is reported with the last reason and usage before it, or as the budget running out |
| TranslationLaws.ReasonsByTheirWord | crates/lightweight-backend-llamacpp/src/upstream.rs:695-701 | the three finish reasons, on the engine's word |
| TranslationLaws.ErrorSays | crates/lightweight-backend-llamacpp/src/upstream.rs:512-545 | an error is an overlong prompt if and only if it says so with a positive context, with both numbers cut to 32 bits; otherwise its message or a stock one |
| TranslationLaws.StrayLinesChangeNothing | crates/lightweight-backend-llamacpp/src/upstream.rs:638-642 | lines that are not JSON, anywhere in any body, change nothing a consumer sees, whenever it is cancelled |
| TranslationLaws.CancelledRunIsPrefix | crates/lightweight-backend-llamacpp/src/upstream.rs:583-592 | a run cancelled earlier yields a prefix of one cancelled later or never |
| TranslationLaws.CancelledIsTheFirstReads | crates/lightweight-backend-llamacpp/src/upstream.rs:583-620 | a cancelled run yields exactly what the reads up to then brought, and no closing item |
| TranslationLaws.ContentPreserved | crates/lightweight-backend-llamacpp/src/upstream.rs:678-716 | for every body, broken off or not, the text a consumer assembles is the text of the delivered frames, in order |
| TranslationLaws.ReasoningAndTimingsPreserved | crates/lightweight-backend-llamacpp/src/upstream.rs:663-726 | for every body, the reasoning text and the timings a consumer gets are those of the delivered frames, in order |
| TranslationLaws.OneChunkInOrder | crates/lightweight-backend-llamacpp/src/upstream.rs:653-701 | a chunk that says everything is told as start, timings, content, reasoning, calls, completion text |
| ToolCalls.ChunkBuilder.ToolCall | crates/lightweight-api/src/stream.rs:209-242 | emits the call and the announced indexes the wire is built from; an id only at an index not announced; with an id, the client gets an argument slot exactly when a name or arguments came with it |
| ToolCalls.WirePerIndex | crates/lightweight-api/src/stream.rs:203-242 | for every stream and index: the id goes out once and is the first given, argument text is preserved by concatenation, the names that go out are those given up to the id and the client ends with the last of them |
| ToolCalls.NameGoesOutOnceIff | crates/lightweight-api/src/stream.rs:203-224 | a name goes out at most once for an index if and only if at most one delta up to the first id carries one |
| ToolCalls.NameGoesOutTwice | crates/lightweight-api/src/stream.rs:203-224 | a name given before the id and again with it goes out twice |
| ToolCalls.DocumentedShapeIff | crates/lightweight-api/src/stream.rs:11-13 | every call's first delta on the wire has id, kind, name and an argument string and its later ones only arguments, if and only if the engine's first delta of each call carries an id and a name |
| ToolCalls.NameSurvivesIff | crates/lightweight-api/src/stream.rs:216-224 | the client's name is the engine's last one exactly when no name followed the id or the last that did equals the last one by then |
| ToolCalls.IdAloneGivesNoSlot | crates/lightweight-api/src/stream.rs:226-231 | a first delta with an id and nothing else gives the client no argument string |
| ToolCalls.LateNameIsLost | crates/lightweight-api/src/stream.rs:216-224 | a name that arrives after its id is dropped |
| ToolCalls.LateIdSplitsTheCall | crates/lightweight-api/src/stream.rs:205-208 | an id after its call's first delta leaves the client with two calls for the engine's one |
| ToolCalls.ClientRebuildsCallsIff | crates/lightweight-api/src/stream.rs:203-242 | the client's accumulator ends with exactly the engine's calls if and only if no id comes after its index's first delta and no index's last name after its id differs from its last by then |
| ToolCalls.CallEventSays | crates/lightweight-backend-llamacpp/src/upstream.rs:728-757 | the event of a call carries the JSON's own id and name when they say anything, its arguments, and its index cut to 32 bits or 0 |
| ToolCalls.EngineCallsReachTheClient | crates/lightweight-backend-llamacpp/src/upstream.rs:728-757 | the same from the JSON fields of the engine's delivered frames, through the translator, for every body, however grouped and however it breaks off |
| RouterProtocol.StepKeepsInv | apps/desktop/src/router.ts:441-639 | every disciplined step, operation segment or child event, keeps ownership and tracking |
| RouterProtocol.StepKeepsRunning | apps/desktop/src/router.ts:441-639 | every disciplined step keeps what `running` says about its child |
| RouterProtocol.RunKeepsInv | apps/desktop/src/router.ts:441-639 | every disciplined run keeps both |
| RouterProtocol.EveryReachableState | apps/desktop/src/router.ts:441-639 | owned exactly when there is a child, attached never owned, only spawned processes are signalled, every live child is tracked or killed, and `running` names the tracked child if and only if its exit is to come and no finished stop has killed it |
| RouterProtocol.ExitKeepsOwnershipIff | apps/desktop/src/router.ts:526-528 | the exit handler keeps ownership tied to the child exactly when there is none or it is the one that exited |
| RouterProtocol.DiscoverKeepsAttachedIff | apps/desktop/src/router.ts:441-448 | an answered look keeps `attached` unowned exactly when it found no Router or nothing is owned by then |
| RouterProtocol.SpawnKeepsTrackIff | apps/desktop/src/router.ts:500-512 | a spawn loses no child exactly when there is none tracked, or it is reaped or killed |
| RouterProtocol.OverlappingDiscoverMisattributes | apps/desktop/src/router.ts:441-448 | a run, with every exit on time, that ends attached to an owned Router |
| RouterProtocol.TwoStartsOrphanTheFirst | apps/desktop/src/router.ts:459-513 | two starts at once leave the first child alive, unsignalled and untracked |
| RouterProtocol.StartSpawns | apps/desktop/src/router.ts:459-513 | a start on a free port with a good file reaches its first poll |
| RouterProtocol.AnswersWhileStopping | apps/desktop/src/router.ts:586-622 | in a disciplined run, a Router may answer its first poll while a stop waits for it |
| RouterProtocol.StopCanEndRunning | apps/desktop/src/router.ts:586-622 | that run goes on to leave `running` behind a finished stop |
| RouterProtocol.StopGivesUp | apps/desktop/src/router.ts:603-622 | a stop may end with the killed child's exit still to come |
| RouterProtocol.SpawnOvertakesExit | apps/desktop/src/router.ts:459-513 | the next start may spawn before that exit is delivered |
| RouterProtocol.LateExitOrphansTheNextChild | apps/desktop/src/router.ts:526-528 | the late exit disowns the new child, and a stop leaves it alive, unsignalled and untracked |
| RouterOperations.DiscoverReports | apps/desktop/src/router.ts:441-448 | a look at the port reports what it found and changes nothing else |
| RouterOperations.StartAttaches | apps/desktop/src/router.ts:477-482 | a Router on the port is attached and nothing is spawned |
| RouterOperations.StartReportsAConflict | apps/desktop/src/router.ts:483-486 | a port held by anything else is reported and nothing is spawned |
| RouterOperations.StartNeedsConfig | apps/desktop/src/router.ts:488-498 | a bad file is reported and nothing is spawned |
| RouterOperations.SpawnThatThrows | apps/desktop/src/router.ts:548-557 | a spawn that throws is a failure, or a conflict when its words say so |
| RouterOperations.StartSpawnsOne | apps/desktop/src/router.ts:500-512 | a free port and a good file give one process, tracked and owned |
| RouterOperations.AnswerIsRunning | apps/desktop/src/router.ts:546-547 | its answer is reported running |
| RouterOperations.TimeoutIsReported | apps/desktop/src/router.ts:587-591 | silence past the deadline is reported; the process stays tracked and owned |
| RouterOperations.StillPolling | apps/desktop/src/router.ts:580-593 | until then it is asked again |
| RouterOperations.ExitWhileStarting | apps/desktop/src/router.ts:580-584 | an exit first ends the start with that report, and nothing is owned |
| RouterOperations.StopEndsInAKill | apps/desktop/src/router.ts:612-622 | a stop signals the owned Router, kills it when it has not gone in time, and lets it go |
| RouterOperations.StopEndsInAnExit | apps/desktop/src/router.ts:612-622 | one that goes in time is signalled and not killed |
| RouterOperations.RestartAfterAKill | apps/desktop/src/router.ts:632-639 | a restart stops it, killing it when it must, and goes on to one more start |
| RouterOperations.RestartAfterAnExit | apps/desktop/src/router.ts:632-639 | so it does after one that goes in time |
| RouterOperations.RestartStartsAgain | apps/desktop/src/router.ts:632-639 | for every disciplined run that ends with an owned Router and nothing under way |
| GatewayProtocol.StepKeepsInv | apps/desktop/src/gateway.ts:266-415 | every disciplined step keeps ownership and tracking |
| GatewayProtocol.StepKeepsRunning | apps/desktop/src/gateway.ts:266-415 | every disciplined step keeps what `running` says about its child |
| GatewayProtocol.RunKeepsInv | apps/desktop/src/gateway.ts:266-415 | every disciplined run keeps both |
| GatewayProtocol.EveryReachableState | apps/desktop/src/gateway.ts:266-415 | owned exactly when there is a child, attached never owned, only spawned processes are signalled, every live child is tracked or killed, and `running` names the tracked child if and only if its exit is to come and it has not been killed |
| GatewayProtocol.ExitKeepsTrackIff | apps/desktop/src/gateway.ts:303-305 | the exit handler loses no living child exactly when there is none to lose |
| GatewayProtocol.AttachDisownsIff | apps/desktop/src/gateway.ts:272-276 | attaching keeps ownership tied to the child exactly when there is no child |
| GatewayProtocol.SpawnKeepsTrackIff | apps/desktop/src/gateway.ts:279-293 | a spawn loses no child exactly when there is none tracked, or it is reaped or killed |
| GatewayProtocol.TwoStartsOrphanTheFirst | apps/desktop/src/gateway.ts:266-293 | two starts at once leave the first child alive, unsignalled and untracked |
| GatewayProtocol.StartServes | apps/desktop/src/gateway.ts:266-327 | a start on a free port reaches `running` with its child owned |
| GatewayProtocol.AttachThenStopOrphans | apps/desktop/src/gateway.ts:270-276 | a second attach to the shell's own gateway, then a stop, leaves it alive, unsignalled and untracked |
| GatewayProtocol.SpawnOvertakesExit | apps/desktop/src/gateway.ts:388-415 | a restart may spawn before the killed child's exit is delivered |
| GatewayProtocol.LateExitOrphansTheNextChild | apps/desktop/src/gateway.ts:303-305 | the late exit untracks the new child, alive and never signalled |
| GatewayProtocol.ExitDuringPollEndsRunning | apps/desktop/src/gateway.ts:322-327 | in a disciplined run, an exit during the last poll still ends `running` |
| GatewayOperations.StartAttaches | apps/desktop/src/gateway.ts:271-276 | a gateway that answers is attached and nothing is spawned |
| GatewayOperations.SpawnThatThrows | apps/desktop/src/gateway.ts:328-333 | a spawn that throws is a failure |
| GatewayOperations.StartSpawnsOne | apps/desktop/src/gateway.ts:278-292 | when nothing answers, one process is spawned, tracked and owned |
| GatewayOperations.AnswerIsRunning | apps/desktop/src/gateway.ts:322-327 | its answer is reported running |
| GatewayOperations.TimeoutIsReported | apps/desktop/src/gateway.ts:360-366 | silence past the deadline is a failure; the process stays tracked and owned |
| GatewayOperations.StillPolling | apps/desktop/src/gateway.ts:353-368 | until then it is asked again |
| GatewayOperations.ExitWhileStarting | apps/desktop/src/gateway.ts:353-358 | an exit between polls ends the start in a failure, and nothing is owned |
| GatewayOperations.StopEndsInAKill | apps/desktop/src/gateway.ts:389-396 | a stop signals the owned gateway, kills it when it has not gone in time, and lets it go |
| GatewayOperations.StopEndsInAnExit | apps/desktop/src/gateway.ts:389-396 | one that goes in time is signalled and not killed |
| GatewayOperations.RestartAfterAKill | apps/desktop/src/gateway.ts:408-415 | a restart stops it, killing it when it must, and goes on to one more start |
| GatewayOperations.RestartAfterAnExit | apps/desktop/src/gateway.ts:408-415 | so it does after one that goes in time |
| GatewayOperations.RestartStartsAgain | apps/desktop/src/gateway.ts:408-415 | for every disciplined run that ends with an owned gateway and nothing under way |
| Window.ReportCountsIff | crates/lightweight-backend-llamacpp/src/upstream.rs:79-92 | the engine's report counts if and only if both numbers are there, positive and of 32 bits |
| Window.ReconciledIsTheSmaller | crates/lightweight-backend-llamacpp/src/backend.rs:475-499 | what is advertised is the smaller of request and report in both numbers, and the request itself otherwise |
| Window.ReconciledNeverPromisesMore | crates/lightweight-backend-llamacpp/src/backend.rs:475-499 | never more than was asked for nor than the engine reported, and reconciling twice changes nothing |
| Window.WindowHonouredIffTotalFits | crates/lightweight-backend-llamacpp/src/supervisor.rs:579-581 | a positive window is honoured if and only if the total over the slots fits 32 bits; otherwise each slot gets its share of the saturated total |
| Window.NeverRoundedIff | crates/lightweight-backend-llamacpp/src/supervisor.rs:573-581 | for all parameters the engine's division leaves no remainder if and only if the total fits 32 bits or the slots divide the saturated total; unsaturated, each share is the request |
| Window.SaturatedTotalIsRounded | crates/lightweight-backend-llamacpp/src/supervisor.rs:573-581 | two slots of the largest window leave a remainder |
| Backend.StepKeepsInv | crates/lightweight-backend-llamacpp/src/backend.rs:220-434 | every step, between awaits, of a load, unload, health check, shutdown or request keeps the backend's invariant |
| Backend.RunKeepsInv | crates/lightweight-backend-llamacpp/src/backend.rs:220-434 | every run with loads serialised keeps it |
| Backend.EveryReachableState | crates/lightweight-backend-llamacpp/src/backend.rs:220-434 | at most one engine is alive, a resident model's slot count is the advertised one, and every client handed out reaches the engine launched for the instance asked for |
| Backend.ResidentNeverPromisesMore | crates/lightweight-backend-llamacpp/src/backend.rs:285-308 | a resident model's window and the advertised slots never exceed the request or the engine's report |
| Backend.AdvertisedIsLastStore | crates/lightweight-backend-llamacpp/src/backend.rs:80-87 | along every run, serialised or not, the advertised count is the last value a published load or a completed unload stored |
| Backend.AdvertisesOneIff | crates/lightweight-backend-llamacpp/src/backend.rs:80-87 | the count is 1 if and only if nothing was ever stored or the last store was a completed unload or the publication of one slot |
| Backend.WaysOut | crates/lightweight-backend-llamacpp/src/backend.rs:236-377 | from every reachable state with a resident and a free lock, each of four ways out is open and ends with nothing resident; the count is then 1 exactly when the unload completed or there was one slot |
| Backend.TwoSlotsResident | crates/lightweight-backend-llamacpp/src/backend.rs:220-308 | a load of a two-slot model on an idle backend ends with it resident and two slots advertised |
| Backend.SlotsOutliveTheResident | crates/lightweight-backend-llamacpp/src/backend.rs:236-377 | runs that end with nothing resident and two slots advertised: an engine found dead, a dropped unload, an eviction for a load that fails |
| Backend.TwoLoadsTwoEngines | crates/lightweight-backend-llamacpp/src/backend.rs:233-268 | two loads at once leave two engines alive, so loads have to be serialised |
| BackendOperations.RequestServedIff | crates/lightweight-backend-llamacpp/src/backend.rs:427-434 | a request gets the resident's client if and only if it names the resident's instance, and changes nothing else |
| BackendOperations.RequestReachesItsEngine | crates/lightweight-backend-llamacpp/src/backend.rs:427-434 | after every run with loads serialised, what is handed out reaches the engine launched for that instance, and otherwise nothing is |
| BackendOperations.HeldLockMakesOthersWait | crates/lightweight-backend-llamacpp/src/backend.rs:318-418 | while the lock is held everything that needs it waits |
| BackendOperations.StaleUnloadIsIgnored | crates/lightweight-backend-llamacpp/src/backend.rs:318-327 | an unload for another instance, or with none resident, touches nothing |
| BackendOperations.UnloadEndsTheEngine | crates/lightweight-backend-llamacpp/src/backend.rs:328-335 | an unload of the resident ends its engine and advertises one slot |
| BackendOperations.ShutdownEndsTheEngine | crates/lightweight-backend-llamacpp/src/backend.rs:411-418 | so does a shutdown |
| BackendOperations.HealthClearsIff | crates/lightweight-backend-llamacpp/src/backend.rs:362-377 | a health check clears the resident if and only if its engine is dead, and changes nothing else |
| BackendOperations.LoadOnIdle | crates/lightweight-backend-llamacpp/src/backend.rs:220-316 | a load with nothing resident ends with the model resident under a new instance, its engine the only one alive, its slots advertised |
| BackendOperations.LoadReplaces | crates/lightweight-backend-llamacpp/src/backend.rs:233-316 | a load with a model resident ends that engine first and ends the same |
| PromptSizer.Size | crates/lightweight-bench/src/runner.rs:371-434 | for every tokenizer: at most eight questions, each within the ceiling and scaled from the last answer, asked only while there was something to gain; the verdict is on the first closest text, accepted exactly within 20% with that text's own count |
| PromptSizer.SizedMeans | crates/lightweight-bench/src/runner.rs:371-434 | in numbers: at most eight questions of at most `max(4 * target, 16)` words, accepted if and only if within a fifth, stopping short only within a twentieth, on a repeated count or with nothing new to ask |
| PromptSizer.NextWordsIsNearest | crates/lightweight-bench/src/runner.rs:407-411 | the next word count is a nearest whole number to words times target over count, between 1 and the ceiling |
| PromptSizer.PromptIsTheFiller | crates/lightweight-bench/src/runner.rs:387 | a prompt is the nine-word filler said one more time than nines go into its words |
| PromptSizer.AskOnce | crates/lightweight-bench/src/runner.rs:387-418 | one more question keeps the trace steered |
| PromptSizer.CloserReplaces | crates/lightweight-bench/src/runner.rs:391-396 | replacing only on a strictly smaller distance keeps the first closest |
| PromptSizer.PromptsAreBounded | crates/lightweight-bench/src/runner.rs:373-388 | no prompt built is longer than the ceiling allows, whatever the tokenizer answers |
| Links.ParsePrintIff | crates/lightweight-catalog/src/manifest.rs:56-61 | parsing a printed link gives it back if and only if the link is well formed |
| Links.PrintParsed | crates/lightweight-catalog/src/hf.rs:33-63 | printing an accepted link gives the URL cut at its first `?` or `#` with the host in lower case, and the link is well formed |
| Links.PrintedText | crates/lightweight-catalog/src/manifest.rs:56-61 | the printed link, piece by piece |
| Links.EveryWritingIsAccepted | crates/lightweight-catalog/src/hf.rs:33-63 | every writing of a well-formed link, in any casing of the host and with any query or fragment, parses to it |
| Links.OwnerAndNameGivenIff | crates/lightweight-catalog/src/hf.rs:46-58 | an accepted link's repo is never empty, and names both an owner and a repository if and only if it neither starts nor ends with a slash |
| Links.NamelessRepoIsAccepted | crates/lightweight-catalog/src/hf.rs:46-58 | a link with neither is accepted |
| Archive.CommonPrefix | crates/lightweight-backend-llamacpp/src/acquire.rs:334-358 | returns a directory exactly when every entry lies inside it; nothing is stripped otherwise |
| Archive.PrefixFoundIff | crates/lightweight-backend-llamacpp/src/acquire.rs:334-358 | a directory is found if and only if one name begins every entry and is none of them alone without a slash |
| Archive.CommonPrefixIsUnique | crates/lightweight-backend-llamacpp/src/acquire.rs:329-358 | a listing has exactly one answer to that question |
| Archive.SafeJoin | crates/lightweight-backend-llamacpp/src/acquire.rs:374-389 | accepts exactly the paths of normal and `.` components with at least one normal one, and the target is the root followed by those |
| Archive.Unpack | crates/lightweight-backend-llamacpp/src/acquire.rs:213-258 | places every entry, or reports the first that cannot be placed |
| Archive.StripTakesOnlyThePrefix | crates/lightweight-backend-llamacpp/src/acquire.rs:361-366 | stripping removes the shared directory from an entry's named parts and nothing else |
| Archive.DifferentEntriesDifferentTargets | crates/lightweight-backend-llamacpp/src/acquire.rs:328-389 | two entries land on one target if and only if they are equal after dropping `.`, and every target lies strictly under the install directory |
| Archive.OnlyTheWrapperIsSkipped | crates/lightweight-backend-llamacpp/src/acquire.rs:233-237 | a skipped entry is the wrapping directory itself |

## Left out

- Regression.Regress: floating-point rounding; the sums, means and quotients are exact reals.
- Calibration.FitRun: the bucket order of the returned list; the fits are returned as a map by bucket.
- Calibration.NeverUnderBudget: charges the exact part the peak contains, as the fit subtracted it; the whole estimate also charges the weights of a footprint peak, so it is no smaller.
- Names.CandidateKey: lower-casing is ASCII, where the code folds all of Unicode; trimming and control characters do follow Unicode.
- Catalog.FreeSuffixExists: suffixes are unbounded numbers, where the code counts in 32 bits; the bound shows when that matters.
- CatalogStore.Store.CheckAlias: which of several models in the way is named; any of them is allowed, where the code names the first in id order.
- CatalogStore.Store.EnsureIdUnaliased: which of several holders is named; any of them is allowed, where the code names the first in id order.
- CatalogStore.Store.Commit: the save at its end and that save's failure; saving is modelled on its own by its crash points.
- PromptSizer.Size: floating-point rounding and the saturating multiplication of the ceiling; exact arithmetic instead.
- Archive.CommonPrefix: how the text of a path becomes components, and text that ends in a slash, are inputs.
- ToolCalls.EngineCallsReachTheClient: the client's accumulator is not in the repository; it is the strict one the comments of `tool_call` describe, where an id at a known index opens another call.
- Links.ParsePrintIff: the printer's revision is a parameter; the code always prints `main`.
- RouterProtocol.EveryReachableState: the supervisors are state machines over values, one step per segment between awaits, rather than classes; `error` events stand for spawns that failed only; starts may be under way at once, but a second discover or stop is not begun while one is; exit events already delivered may end a grace wait, which adds runs the code does not have.
- GatewayProtocol.EveryReachableState: as for the Router; it also assumes that nothing is attached or started while a child is owned, which `AttachThenStopOrphans` shows is needed.
- Backend.EveryReachableState: the backend is a state machine over values in the same form; an engine whose handle is dropped dies at once, and reports of process memory and counters are not modelled.
- Window.WindowHonouredIffTotalFits: the engine itself; it is taken to divide its total over its slots rounding down.
- Server-sent-event framing and JSON decoding: the translator starts from decoded frames, and a failed decode is one kind of read.
- HTTP, spawning, signals, log pumps, timers and downloads: present only as the answers and events they deliver.
- The estimator's weight and cache sizes, its margin and verdicts, the gateway's scheduler, router selection and the GGUF reader: not modelled.
- The startup retry loop's classification of errors: any failed attempt may be retried.
- Request conversion, model rows, error bodies, command line and user interface: shapes with little to prove.
