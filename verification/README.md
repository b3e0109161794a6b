# A model of the download layer, and what is proved of it

The repository moves large artifacts: a job record in a shared store says what is wanted, an owner
under a lease fetches it over HTTP with one or several connections, or hands it to an outside
delegate, and whatever happens on the way the next owner must be able to carry on from bytes that
are really there. This project models the parts of it where that is hard to see from any one
function, and proves what they are for.

| file | what it models |
|---|---|
| Ranges.dfy | the range set a checkpoint is written in, and the facts everything else leans on |
| ResumePlan.dfy, Checkpoints.dfy | what a resumed transfer keeps and asks for, and how a checkpoint is stored |
| RangePlan.dfy | where an artifact may be cut for several connections |
| StreamTransfer.dfy, StreamOrder.dfy | one stream filling gaps, with restarts, reports, syncs and crashes, as a step machine |
| ParallelTransfer.dfy, ParallelOrder.dfy, RangeCopy.dfy | several connections, the timer and the store interleaving; one range copied and failed over |
| Delivery.dfy | hashing while writing or afterwards, and the end of an attempt |
| Validators.dfy | which version a response is of and which bytes, as two readers of its headers see it |
| Handoff.dfy, HandoffOrder.dfy, HandoffRuns.dfy, Observation.dfy, Tiers.dfy | the delegation protocol, what each of its effects leads to, stale answers, and who is believed |
| RemoteDelegate.dfy | one delegate that is a Locator: another job service |
| Keeper.dfy | the lease keeper |
| SliceReader.dfy | the read-ahead window over a remote artifact |
| Utf8.dfy, JsonNumber.dfy, JsonString.dfy, JsonRecords.dfy, JsonRoundTrip.dfy, JsonDecode.dfy, JsonLayout.dfy, JsonReader.dfy, JsonWriter.dfy | the record codec, and its text told apart from it |
| DBusWire.dfy, DBusLayout.dfy, DBusRoundTrip.dfy, DBusMessage.dfy, DBusCodec.dfy | the D-Bus marshaller, and its bytes told apart from it |
| Bytes.dfy, Text.dfy, Options.dfy, Numbers.dfy, Jobs.dfy, Runs.dfy | shared vocabulary |

Protocols that crash or interleave (`Handoff`, `StreamTransfer`, `ParallelTransfer`) are relations
on states, one action for each effect the code has, so that anything may fall between two effects.
Code that changes an object in place is a class whose methods are proved against functions of the
old state; what the source promises is then proved of those functions. So that a codec or a
machine is not held only to itself, `JsonDecode`, `JsonLayout` and `DBusLayout` say what text and
bytes mean in their own terms, and `HandoffOrder`, `StreamOrder` and `ParallelOrder` say what each
effect leads to and leaves behind without naming the points of the code. `dafny verify
dfyconfig.toml` checks everything.

## What is assumed

- The store: `Claim` is refused while a record is held or finished and raises the epoch by exactly
  one; `Update`, `Renew` and `Release` are refused for a stale epoch or a lapsed lease; a refused
  write changes nothing.
- A delegate in `Handoff` is a Locator that keeps its contract: a definite answer from `Locate` is
  true and settles the request it is about, submissions still in flight included; Failed and Gone
  are said only of work that has stopped; an `Abandon` that reports no error stops the work, and one
  that reports an error may or may not.
  `RemoteDelegate` says when the one such delegate written here keeps the first part. One supervisor
  runs at a time there; `Observation` is about several.
- The server in `StreamTransfer` follows sections 13.1.5, 14.2 and 15.3.7 of RFC 9110 and gives each
  version its own strong entity tag on every response. Nothing of the kind is assumed in
  `ParallelTransfer`.
- The range operations of the job layer live in another repository. They are written and proved
  here over canonical lists.
- SHA-256 is any function of the contents. A file system keeps synced bytes; what was not synced may
  be lost, or found, in any mixture.

## Where the code does less than it says

Each of these is stated with the exact condition and, where it fails, a run or a value that shows it.

- The streaming path splices versions when it keeps bytes that do not start at zero and has no
  usable size: the one gap starts at zero and is open, so the request carries neither Range nor
  If-Range (`StreamTransfer.UnconditionalSplices`, `StreamTransfer.UnconditionalHappens`).
- A restart whose record write is refused does not end the attempt: the next source writes under a
  record that still claims the old version's bytes (`StreamTransfer.RefusedClearSplices`,
  `StreamTransfer.RefusedClearHappens`). A plan left unwritten over a shortened file is passed over
  too, and needs no refusal: a delegate's report overwrites `Done`, and the plan is written only
  where `Done` differs from its count (`StreamTransfer.UnwrittenPlanLosesSync`,
  `StreamTransfer.UnwrittenPlanHappens`, `StreamTransfer.CountedPlanIsWritten`). And a set recorded
  without validators, as a first attempt by several connections leaves it, is put to whatever version
  answers the next request: a plan splices so exactly when validators are absent, something is kept
  and something is asked for (`StreamTransfer.UnnamedSplices`, `StreamTransfer.UnnamedIsUnsafe`,
  `StreamTransfer.UnnamedHappens`). Outside these four, which are the conditions of
  `StreamTransfer.Guarded`, it never splices and never claims what no sync covered
  (`StreamTransfer.NoRunSplices`).
- The parallel path does not write the clipped set down before it starts. If the file is shorter
  than the record says, as after a mismatch whose cleanup was cut short, a sparse write can make the
  file long enough for the stale claims to be believed. `ParallelTransfer.Guarded` and
  `ParallelTransfer.ExposedIsLost` give the condition from both sides, and `ParallelTransfer.ExposedHappens` a run.
- After a failed parallel run the number of proven bytes is recorded as a prefix. The comment above
  `keepProven` says it is safe for a plan that filled holes because the record already counts as
  much; when an earlier record write failed for a reason that fences nobody, it does not
  (`ParallelTransfer.HoledCountLies`, `ParallelTransfer.KeptCountIsProvenExactly`).
- A delegate whose report refutes it is told to stop, and the job is taken back whether it did or
  not. Wherever that is written while its work goes on, the same pass may begin a second transfer
  (`HandoffRuns.RefusedAbandonIsUnsafe`, `HandoffRuns.RefusedAbandonHappens`); in every run in which
  it is not, which are those of `Handoff.IsSoundRun`, there is never a second
  (`Handoff.NoSecondTransfer`).
- A delegate's delivery replaces the checkpoint by the delivered length, which drops proven bytes
  when the delivery is shorter and no digest was asked for (`Handoff.HandoffKeepsProven`,
  `HandoffRuns.ShortDeliveryDrops`).
- An empty Locate answer is bound to an epoch and a handoff, not to the moment of the Start it
  missed. Applied by a claim that stands, it leaves live work exactly when a Start that was open when
  it was given, or that the holder of that epoch opened since, was accepted and not stopped
  (`Observation.MisappliedExactly`), and over every interleaving it is safe exactly when the
  loaded record was free and no owner's Start to that system was still open when it was asked for
  (`Observation.SafeToAskExactly`); `resolve` tests neither. `Observation.SameEpochIsNotEnough` is a
  run of it.
- The remote job delegate remembers a refusal by the request alone and takes it for certainty without
  asking. A request refused once and submitted again, the reply lost this time, is reported as never
  taken while the remote service holds it, which is the answer `Handoff` assumes a delegate never
  gives (`RemoteDelegate.RefusedThenTaken`). Another family is a history epoch that moved on
  (`RemoteDelegate.TakenThenMoved`). What its owner can see
  decides it: the answer is right in every run that looks the same to the owner exactly when it heard
  of no acceptance, and is missing no reply, that the refusal or the epoch would pass over
  (`RemoteDelegate.AskableExactly`).
- The two readers of Content-Range disagree: the streaming path takes the unit in any case and needs
  one, the parallel path takes only "bytes" and can do without (`Validators.ReadersDiffer`).
- The grid loop's addition overflows 64 bits for sizes above 2^63 - 2^54
  (`RangePlan.GridFitsWordExactly`).
- A lease of two milliseconds or less is lost to one failed renewal (`Keeper.ShortLeaseLapses`).
- The D-Bus encoder bounds neither nesting nor size; the decoder takes 65 nested values and 2^24
  bytes (`DBusMessage.MessageRoundTrip`).

## Model

| member | source | states |
|---|---|---|
| `Ranges.Add` | go/resumepoint.go:130-158 | Adding a byte interval to a canonical set covers exactly the old bytes and the new ones, in canonical form, and an empty interval changes nothing (the job layer's operation as this layer relies on it) |
| `Ranges.Missing` | go/parallel.go:153-168 | What a set lacks of an interval: exactly the uncovered bytes, in canonical form |
| `Ranges.CanonicalRanges` | go/ranges.go:36-44 | A list has a canonical form with the same bytes exactly when no range in it ends before it starts or starts below zero |
| `Ranges.SameBytesSameList` | go/ranges.go:54-58 | Canonical form spells each set of bytes once |
| `Ranges.SameCountSameSet` | go/parallel.go:541-551 | A set that grew without its count moving did not grow, which is why an unchanged count may skip a record write |
| `Ranges.CountIsPrefixExactly` | go/ranges.go:46-58 | The count of a set is the length of a proven prefix for prefix-shaped sets and no others |
| `Ranges.PrefixIsLeadingRun` | go/resumepoint.go:49-62 | The verified prefix is the longest run of proven bytes from zero |
| `Ranges.TotalCounts` | go/parallel.go:170-176 | The total of a canonical set is the number of bytes it covers |
| `ResumePlan.Proven` | go/ranges.go:36-44 | A checkpoint proves the union of its prefix and its ranges |
| `ResumePlan.Clip` | go/resumepoint.go:204-216 | Clipping keeps exactly the proven bytes below the file's length |
| `ResumePlan.GapsFor` | go/resumepoint.go:227-250 | Gaps are the canonical complement of the set in [0, size), open only at the end; with no usable size, one open gap from the verified prefix |
| `ResumePlan.PlanResume` | go/resumepoint.go:158-195 | When planning refuses, and otherwise everything a plan promises: what is kept, where the file is cut, what is asked for, which validators go along |
| `ResumePlan.PlanPartitions` | go/resumepoint.go:158-250 | Kept bytes and gaps are disjoint, cover exactly [0, size), add up to the size, and only the last gap is open |
| `ResumePlan.FromIsVerifiedPrefix` | go/resumepoint.go:57-62 | The next request starts at the verified prefix whatever holes there are |
| `ResumePlan.OneStreamExactly` | go/resumepoint.go:64-76 | Hashing while writing is chosen exactly for a prefix that is not yet the whole artifact |
| `ResumePlan.ClipIsIdentityWithin` | go/resumepoint.go:197-216 | Clipping keeps the set as it was exactly when it fits the file |
| `Checkpoints.Record.SetCheckpoint` | go/ranges.go:78-116 | Writing a checkpoint and reading it back gives the canonical set and the validators, and the record declares the ranges feature exactly when there is a hole; a bad set writes nothing |
| `Checkpoints.Record.WithdrawRanges` | go/ranges.go:118-134 | Withdrawing the feature removes every mention of it and nothing else |
| `RangePlan.RangeFloor` | go/parallel.go:56-67 | The loop computes the floor function |
| `RangePlan.FloorIsLeast` | go/parallel.go:56-67 | The floor is the least doubling of 16 MiB that leaves at most 512 ranges |
| `RangePlan.GridPlan` | go/parallel.go:69-77 | Grid cuts are exactly the multiples of the floor below the size |
| `RangePlan.GridsNest` | go/parallel.go:46-77 | The cuts of a larger artifact that lie inside a smaller one are all cuts of the smaller |
| `RangePlan.GridFitsWordExactly` | go/parallel.go:69-77 | The addition in the grid loop stays in 64 bits exactly for sizes up to 2^63 - 2^54 |
| `RangePlan.PublishedPlan` | go/parallel.go:79-112 | A published partition is taken exactly when every boundary is usable, and its cuts are the source's, ascending and inside the artifact |
| `RangePlan.Coarsened` | go/parallel.go:114-132 | Merging keeps only declared cuts, spaced at least the floor apart from each other and from both ends, and drops a cut only for being too near |
| `RangePlan.AtMost512` | go/parallel.go:114-132 | Coarsened cuts make at most 512 ranges |
| `RangePlan.RangesOf` | go/parallel.go:134-151 | A gap is tiled in order with nothing over, no range crosses a cut, and every boundary is a cut or an end of the gap |
| `RangePlan.WholePlanBound` | go/parallel.go:114-151 | A whole artifact cut at coarsened places has no range below the floor and at most 512 of them |
| `RangePlan.Gaps` | go/parallel.go:153-168 | What is left to fetch is the artifact minus the proven set; a set that makes no sense counts as nothing proven |
| `Handoff.NoSecondTransfer` | go/delegator.go:774-886 | In every run of sweeps, crashes, lapsed leases, lost answers, late acceptances and refused stops, a job is never transferred twice at once, and a transfer begins only when none is going on, as long as nothing is taken back from a refuted delegate that goes on working |
| `Handoff.NothingIsLost` | go/delegator.go:813-886 | In every state such a run reaches the record names the system of each live work, by its handle or by a request Locate answers for |
| `Handoff.StepKeeps` | go/serve/pass.go:25-55 | Every effect of every sweep but that one keeps what the code at each point relies on, and takes up a transfer only when none is going on |
| `Handoff.HandoffKeepsProven` | go/delegator.go:1252-1327 | No delegation step changes the sources; only a mismatch empties the checkpoint, and a delivery keeps every proven byte exactly when it is at least as long as the set reaches |
| `Handoff.SourcesNeverChange` | go/delegator.go:904-944 | The sources a job was submitted with survive every run |
| `Handoff.SettlingBegins` | go/delegator.go:916-971 | In every run, the claim made for a located answer goes on to settle exactly when the record is free, unfinished and as it was loaded, and the write that follows is then in order |
| `Handoff.SettlingIsRight` | go/delegator.go:904-944 | In every run, whatever falls between the answer, the claim and the write, settling does nothing where the store refuses it, gives the job back where nobody holds it, or records the handle of the one work its system really holds; proven bytes and sources untouched |
| `HandoffOrder.InOrder` | go/delegator.go:991-1215 | In every run each effect of the supervisor is one of those the code makes after the last |
| `HandoffOrder.InOrderAfterRelease` | go/serve/pass.go:25-55 | A lease let go leads on to the sweep after the one that took it: reconcile, delegate, adopt, deliver |
| `HandoffOrder.LoadDecides` | go/delegator.go:991-1062 | What a loaded record leads to, by its delegation, its end and what is wanted of it, each way exactly |
| `HandoffOrder.StopIsHonoured` | go/delegator.go:1603-1668 | A pause, or a cancel the delegate does not obey, leaves record and works as they were; a cancel it obeys ends just the work the record named when it was claimed |
| `HandoffOrder.StopIsRecorded` | go/delegator.go:1603-1668 | An obeyed cancel leaves the job cancelled with no delegation, an obeyed pause lets the lease go, and a stop that was refused writes nothing |
| `HandoffOrder.RunIsWanted` | go/runner.go:236-241 | A job claimed to be run here runs only if running was wanted when it was claimed; one wanted cancelled is cancelled and nothing else is changed |
| `HandoffOrder.InterruptIsRecorded` | go/runner.go:311-329 | A run that sees the intent change stops, and a cancel and what was proven are recorded |
| `HandoffOrder.CancelledOnlyIfAsked` | go/runner.go:662-698 | In every run a job is cancelled by its supervisor only because somebody wanted it so when it was claimed, or when the run looked again, under that same claim |
| `HandoffOrder.CompletedWasTransferred` | go/runner.go:1265-1324 | A job becomes complete only from transferred, and in nothing but that |
| `HandoffOrder.StepIsLawful` | go/delegator.go:991-1215 | Only a claim raises the epoch, by one and from a free record; only somebody's wish changes the intent; a finished record changes no more; and each state has its own effects that bring it about |
| `HandoffOrder.WritesUnderItsClaim` | go/runner.go:149-227 | Whatever the supervisor changes in a record it changes holding the lease, at the epoch it raised that record to itself, in the same process, before the record is finished |
| `HandoffOrder.AnswerDecides` | go/delegator.go:1062-1180 | What a delegate's report leads to, by the record loaded before it was asked and what was wanted when the job was claimed to act on it |
| `HandoffOrder.AnswerIsRecorded` | go/delegator.go:1127-1173 | A report that work goes on writes nothing; one that it failed or is gone gives the job back with sources and proven bytes as they were |
| `HandoffOrder.RefutedIsTakenBack` | go/delegator.go:1341-1365 | A refuted delegate is told to stop the work the record named, and the job is taken back whether it did or not |
| `HandoffOrder.DeliveryIsRecorded` | go/delegator.go:1175-1327 | A delivery is taken from the work the record named, and then one thing is written: nothing, the job given back or ended with nothing proven, or that it is transferred and delivered with all its bytes |
| `HandoffOrder.OffersOnlyFree` | go/delegator.go:708-727 | A job is claimed to be handed over exactly when it was free and some delegate is bound, and offered only if the claim found it handed to nobody |
| `HandoffOrder.WrittenBeforeStart` | go/delegator.go:794-825 | A delegate is asked to start only once the record says it may have been, by the request; where the store refuses that, nobody is asked |
| `HandoffOrder.StartDecides` | go/delegator.go:825-855 | What a start leaves outside, and what its answer, or its loss, leads to |
| `HandoffOrder.HandleIsRecorded` | go/delegator.go:855-877 | A handle takes the place of the request in the record; where the store refuses it, that work is told to stop |
| `HandoffOrder.OthersAreStopped` | go/delegator.go:846-853 | A delegate that answers a start with the request itself, and one whose job has ended, is told to stop just that work; these, and a delivery that fails, change nothing in the record |
| `HandoffOrder.UnhandedIsOfferedOn` | go/delegator.go:826-914 | A handoff certainly not accepted is taken out of the record and the job offered on |
| `HandoffOrder.TakesUpOnlyFree` | go/runner.go:1062-1131 | A job is run here, or closed, only if it was free, or transferred with nothing awaited, and its lease was free at the claim |
| `HandoffOrder.RunIsRecorded` | go/runner.go:329-429 | A run here records what it has proven as it goes, and at its end that the bytes are there, or a failure that ends the job only when it is for good |
| `HandoffRuns.ShortDeliveryDrops` | go/delegator.go:1252-1327 | From a job nobody has touched, a run in which a delegate's shorter delivery drops proven bytes |
| `HandoffRuns.RefusedAbandonIsUnsafe` | go/delegator.go:1341-1365 | From every such step of every run, whatever is wanted and whoever is bound then, a second transfer may follow within seven more |
| `HandoffRuns.RefusedAbandonHappens` | go/delegator.go:1341-1365 | A run of it, from a job nobody has touched, to two transfers at once |
| `Observation.BoundToWhatWasSeen` | go/delegator.go:946-971 | claimDelegation stands exactly when nobody claimed the record since it was loaded, it is free, and it still carries the observed handoff, over any interleaving of other owners; one that does not stand costs an epoch and nothing else |
| `Observation.MisappliedExactly` | go/delegator.go:820-971 | Over every interleaving, a claim that stands applies a true empty answer over live work exactly when a Start to that system open at the question, or opened since by the holder of the observed epoch, was accepted and not stopped; no Start of another epoch can have come in between |
| `Observation.SafeToAskExactly` | go/delegator.go:916-971 | The empty answer can be applied without losing work, whatever others do, exactly when the loaded record was free and no Start to that system was open |
| `Observation.SameEpochIsNotEnough` | go/delegator.go:820-944 | A run of the protocol, from a job nobody has touched, in which a truthful empty answer is applied over live work |
| `Observation.ClaimObserved` | go/delegator.go:950-971 | The method on a store does what the function says, leaving the lease held only when the claim stands |
| `Observation.Resolve` | go/delegator.go:916-944 | The record resolve leaves, for every reply and every record it may find |
| `Observation.ResolveIsTheMachine` | go/delegator.go:916-944 | That record is the one the protocol's three settling steps reach |
| `Tiers.Registry.Disbelieve` | go/tiers.go:172-179 | One capability of one system is doubted from then on, and nothing else |
| `Tiers.Registry.UnregisterTier` | go/tiers.go:140-151 | Removing a tier forgets every doubt about it and no other, and says whether there was one |
| `Tiers.Registry.RegisterTier` | go/tiers.go:117-129 | Registering puts a tier in the place of one of the same name or behind its equals, keeps every other pair in order, and forgives nothing |
| `Tiers.Registry.Believed` | go/delegator.go:559-574 | A delegate is believed in exactly the capabilities it declares and is not doubted in |
| `Tiers.Registry.ForSpec` | go/delegator.go:491-505 | The first delegate of the chain that is eligible, and none only when none is |
| `Tiers.Registry.WhyNot` | go/delegator.go:507-539 | Exactly the delegates of the scheme that are passed over are named, in chain order, each with the first reason that holds of it |
| `Tiers.Registry.Choose` | go/delegator.go:744-760 | The first delegate of the chain that suits the job, and nobody only when none does: where bytes are proven, one that declares resume and is not doubted in it, and otherwise resume is not asked for |
| `Tiers.Registry.Observe` | go/delegator.go:1341-1365 | A delegate is doubted exactly when it reports progress strictly between zero and the prefix it was handed |
| `Tiers.CaughtForGood` | go/tiers.go:153-185 | After that no sequence of polls, rebinds and registrations lets it have a job with proven bytes until its tier is unregistered |
| `Tiers.Replay` | go/tiers.go:140-185 | The registry's methods keep step with the memory those statements are about |
| `Tiers.Offered` | go/delegator.go:541-568 | The registry chooses the first bound delegate that memory allows, and nobody only where it allows none |
| `RemoteDelegate.HandleReadsBack` | go/serve/remote_delegation.go:61-71 | A handle is understood again exactly when neither part is empty or has a slash in it |
| `RemoteDelegate.RemoteRequest` | go/serve/remote_delegation.go:73-92 | The request carries the sources in order and nothing of the caller's; it is refused exactly when a source has headers, and asks for credentials exactly when one is named |
| `RemoteDelegate.RemoteJob.StartJob` | go/serve/remote_delegation.go:94-125 | What Start answers and remembers, for every decision of the service and every way a reply can go |
| `RemoteDelegate.RemoteJob.LocateJob` | go/serve/remote_delegation.go:153-178 | What Locate answers, sealing an absent identity unless a refusal is remembered |
| `RemoteDelegate.DefiniteIsTrue` | go/delegator.go:220-233 | In every run of starts, lost replies, late arrivals, restarts and moved histories, a definite answer asked for askably is true and final: nothing was or will be accepted, or the handle is that of the one thing that was |
| `RemoteDelegate.StaysUntaken` | go/delegator.go:222-231 | What was settled as never taken stays so in every run without a new Start of the same request |
| `RemoteDelegate.AskableExactly` | go/delegator.go:220-233 | Over all runs the owner cannot tell apart, the service's answer is right exactly when what the owner heard of and had no answer about allows the question |
| `RemoteDelegate.RefusedThenTaken` | go/serve/remote_delegation.go:113-160 | A run to a false answer: refused, then taken with the reply lost, then located as never taken |
| `RemoteDelegate.TakenThenMoved` | go/serve/remote_delegation.go:161-178 | The other kind: taken with the reply lost, then the history moves on |
| `RemoteDelegate.Finalize` | go/serve/remote_delegation.go:215-257 | It succeeds exactly when the replies end the result; against a service that answers reads honestly, what is written is always a prefix of it, and all of it on success |
| `Validators.ContentRangeReads` | go/validators.go:198-257 | From a written Content-Range the start and the full length are read back, for a unit that is "bytes" in any case and numbers of 64 bits |
| `Validators.NamesRangeExactly` | go/fetchers.go:414-432 | The parallel path's check passes exactly the range that was asked for, in exactly the usual unit |
| `Validators.ReadersDiffer` | go/validators.go:169-227 | The two paths' checks disagree exactly on the unit's spelling and on a range without one |
| `Validators.ParsesSigned` | go/validators.go:198-257 | A sign or none, zeros or none, and digits are read as that number exactly when it is one of 64 bits |
| `Validators.PartsMissing` | go/validators.go:205-257 | A header without a slash, a dash or a blank names no range, start or length, each where the code asks for it |
| `Validators.AnswersExactly` | go/validators.go:159-182 | An answer in parts, its type in any case and padded, is no answer to one range; any other type leaves it to the Content-Range |
| `Text.TrimTakesBlanks` | go/validators.go:54-81 | What is trimmed is exactly the blanks at either end |
| `Text.LowerExactly` | go/spec.go:580-604 | Folding case turns the twenty-six capitals into the small letters and changes nothing else |
| `Validators.StrongTagExactly` | go/validators.go:145-157 | What is acted on begins and ends with quotes of its own; of the entity tags of section 8.8.3 of RFC 9110 that is exactly those not marked weak |
| `Validators.StrongValidators` | go/validators.go:54-81 | What is kept of a response is its strong tag, trimmed, or when there is none its date; each is kept exactly when it is one |
| `Validators.MonthExactly` | go/validators.go:140-143 | The search in the twelve names run together accepts months and nothing else |
| `Validators.HttpDateExactly` | go/validators.go:83-143 | What passes for a date is exactly the three layouts of section 5.6.7 of RFC 9110, written out piece by piece, with the name of a month where it stands |
| `Validators.Shaped` | go/validators.go:109-138 | The layout loop decides the layout |
| `StreamTransfer.StepKeeps` | go/runner.go:728-1010 | Every step of a stream - plan, request, restart, byte, report, sync, close, crash - keeps the record behind the disk and of one version |
| `StreamTransfer.NoRunSplices` | go/runner.go:476-602 | Over every guarded run from any true record, with holes or without, naming a version or none, no record ever proves a byte of a version other than the one its validators name, or one no sync covered |
| `StreamTransfer.AfterAnyCrash` | go/runner.go:850-945 | Whatever a crash leaves of the file, every recorded byte inside its length is there, of the recorded version if one is named |
| `StreamTransfer.HoledIsFilled` | go/runner.go:563-580 | A set with a hole before it and an end missing meets the start of those runs, and its two gaps filled in turn prove the whole artifact, synced and of the recorded version |
| `StreamTransfer.UnconditionalSplices` | go/fetchers.go:78-121 | A plan that keeps bytes and sends neither Range nor If-Range does splice, with the first byte of any new version |
| `StreamTransfer.UnconditionalHappens` | go/resumepoint.go:227-250 | A record with such a plan, and the run that splices it |
| `StreamTransfer.RefusedClearSplices` | go/runner.go:770-794 | A restart whose record write is refused leaves the next source splicing under the old claims |
| `StreamTransfer.RefusedClearHappens` | go/runner.go:770-794 | A run of it from an empty record |
| `StreamTransfer.UnwrittenPlanLosesSync` | go/runner.go:499-515 | Any plan that fetches, left unwritten over a claim it does not keep, leads to that claim covered by bytes never synced, whatever gaps come first |
| `StreamTransfer.UnwrittenPlanHappens` | go/runner.go:499-515 | A run of it from an empty record, with a refusal of the store and without |
| `StreamTransfer.CountedPlanIsWritten` | go/runner.go:499-515 | Where Done counts the recorded set, a plan skipped because the count agrees had nothing to take back |
| `StreamTransfer.UnnamedSplices` | go/fetchers.go:86-110 | Any plan that keeps bytes of no named version and fetches more: the first answer of a version one of them is not of names it for all of them |
| `StreamTransfer.UnnamedIsUnsafe` | go/fetchers.go:86-110 | So from every such plan some run splices |
| `StreamTransfer.UnnamedHappens` | go/parallel.go:603-627 | A record as a first attempt by several connections leaves it, and the run |
| `StreamTransfer.RecordsKeeps` | go/runner.go:850-940 | A report writes down only what was chosen before a sync, with the validators in hand |
| `StreamTransfer.ClosesKeeps` | go/runner.go:339-429 | What is kept after a failure, a stop or a wrong length was synced and is of one version, even where a prefix replaces a holed set |
| `StreamOrder.PlanDecides` | go/runner.go:490-580 | A plan cuts the file to what it keeps, is written down unless it is refused or counted already, and leads to its first gap or to the end |
| `StreamOrder.AnswerDecides` | go/fetchers.go:123-268 | What an answer leads to: bytes read as the version it names, the next source, or a restart with the file emptied |
| `StreamOrder.RestartDecides` | go/runner.go:770-806 | A restart clears the record as far as the store takes it and begins at the first byte, out of the answer in hand or of another |
| `StreamOrder.AgainDecides` | go/fetchers.go:123-268 | Asked again, only a whole artifact is read |
| `StreamOrder.ReportSays` | go/runner.go:850-945 | A byte lands at the next offset; a report takes an offset that has arrived, syncs, and writes just the proven bytes and those, with their version and count |
| `StreamOrder.EndDecides` | go/runner.go:970-1009 | What the end of an answer leads to: the next gap, the next source, or the end, by what it filled and what has arrived |
| `StreamOrder.EndIsRecorded` | go/runner.go:339-429 | What each ending writes down after the sync: all that is proven, its leading run, or nothing |
| `StreamOrder.FailedSyncEnds` | go/runner.go:563-602 | A sync that fails writes nothing down |
| `StreamOrder.GiveUpDecides` | go/runner.go:985-1009 | With no source left the stream ends as stopped or as failed, with nothing changed |
| `ParallelTransfer.RangesToFetch` | go/parallel.go:356-359 | The planned ranges are ordered, disjoint, inside the artifact, and cover exactly what the starting set lacks |
| `ParallelTransfer.StepKeeps` | go/parallel.go:303-427 | Every interleaving step of workers, timer and store keeps the proven set synced and every byte accounted for |
| `ParallelTransfer.RunsAreCrashSafe` | go/parallel.go:483-627 | Over every guarded run from any true record the record never names a byte inside the file that was not written and synced before |
| `ParallelTransfer.ClippedAfterAnyCrash` | go/parallel.go:263-288 | The record cut to whatever file a crash leaves names only bytes that are there |
| `ParallelTransfer.NoErrorMeansWhole` | go/parallel.go:303-427 | A return without error means the proven set is exactly [0, size), counted and synced |
| `ParallelTransfer.WritesStayInRange` | go/fetchers.go:464-495 | Each byte is written inside its own worker's planned range, which no other worker has or will have |
| `ParallelTransfer.SkippedTickLosesNothing` | go/parallel.go:541-551 | A timer tick that leaves the record alone had nothing to add |
| `ParallelTransfer.ExposedIsLost` | go/parallel.go:270-288 | If a claim past the end of the file lies before the end of the first ranges handed out, some run leaves the record claiming bytes no sync covered |
| `ParallelTransfer.ExposedHappens` | go/parallel.go:263-288 | A run of it from an empty record |
| `ParallelTransfer.KeptCountIsProvenExactly` | go/runner.go:405-429 | Keeping a failed run's count as a prefix claims only proven bytes exactly when the set is one prefix or the record already counts as much |
| `ParallelTransfer.HoledCountLies` | go/runner.go:405-429 | A run that shows the other case: the record ends up proving byte zero, which was never written |
| `ParallelOrder.WorkerSays` | go/parallel.go:356-480 | What a worker does: takes the first planned range, writes the next byte of it, says how far it has landed, goes on with the next source from there; nothing else is touched |
| `ParallelOrder.RangeIsProven` | go/parallel.go:584-627 | A range that has arrived is synced and only then proven and written down; a refusal ends the worker |
| `ParallelOrder.TickSays` | go/parallel.go:522-582 | A tick chooses all that has landed and nothing else, syncs, and proves just that |
| `ParallelOrder.EndSays` | go/runner.go:339-429 | The run ends well only with every range fed and no worker failed; what each end writes down |
| `RangeCopy.RangeWriter.Write` | go/fetchers.go:464-495 | A write lands wholly inside the range or not at all, and reports how far it got |
| `RangeCopy.CopyRange` | go/fetchers.go:448-462 | The body is laid down no further than the range, and just as far as the chunks that were taken go; complete, short and too long are told apart exactly |
| `RangeCopy.FetchRange` | go/parallel.go:429-480 | The range is down exactly when some source fills what those before it left, each asked only for the rest; the failure is permanent exactly when every source refused for good |
| `RangeCopy.AskedForTheRest` | go/parallel.go:429-480 | What each source is asked for: the rest after one that served a part, the same after one that refused or ran over |
| `RangeCopy.OneSureSource` | go/parallel.go:429-480 | A source that fills whatever it is asked for is enough, wherever it stands |
| `Delivery.Stream.constructor` | go/runner.go:490-545 | A one-stream plan starts with the file cut to its prefix and the hash fed with exactly that |
| `Delivery.Stream.Write` | go/runner.go:603-615 | A chunk reaches the hash only when the file took all of it |
| `Delivery.Stream.Fetch` | go/runner.go:770-985 | One source succeeds exactly when all its chunks are taken and it ends well, and says what it left in the file; hash and file agree then, through a restart too |
| `Delivery.Stream.FetchAny` | go/runner.go:808-1009 | It succeeds exactly when some source delivers while every earlier one left nothing in the file; the file is then the kept prefix, or nothing after a restart, and that source's chunks, and the hash was fed just that |
| `Delivery.SucceedsExactly` | go/runner.go:603-615 | A source succeeds exactly when it ends well and the file took the last of its chunks whole |
| `Delivery.HashFile` | go/runner.go:1133-1181 | The second pass feeds the whole file |
| `Delivery.Job.Conclude` | go/runner.go:339-403 | A record is transferred exactly when length and digest match and both the move and the write succeed; what the record and the partial are after each other end, failures for good told from the rest |
| `Delivery.Job.RunOneStream` | go/runner.go:439-468 | A streamed download reaches transferred exactly when a source delivers and the end is good, and then only with contents that hash to the wanted digest; every other outcome is told |
| `Delivery.Job.RunFilled` | go/runner.go:439-468 | Any other plan reaches transferred exactly when what it filled the file with has the length and digest wanted and the move and the write succeed |
| `Delivery.Job.VerifyDelegated` | go/delegator.go:1252-1327 | A delegate's delivery counts exactly when it has the wanted digest and the write succeeds; a mismatch clears the checkpoint and goes back or ends |
| `Delivery.OwnSpelling` | go/spec.go:580-604 | A digest spelled here matches a wanted one exactly when that is the same hex under some label |
| `Delivery.SpellingsMatch` | go/spec.go:580-604 | Two spellings of digests match exactly when they spell the same hash, with a label or without and in any case |
| `Delivery.OtherTextMatchesNone` | go/spec.go:580-604 | Text without a label that is not 64 hexadecimal digits matches nothing |
| `Delivery.DeliveredIsWanted` | go/runner.go:355-387 | With a hash that tells the two apart, what is delivered is what the digest was made from |
| `Keeper.Hold.TickAt` | go/keeper.go:136-185 | One turn of the renewal loop: fenced, silent too long, renewed, refused or left for the next tick |
| `Keeper.TickRenews` | go/keeper.go:136-258 | When a tick is due the lease is renewed by its whole length, or for which reason not, in every run; the first reason is the one that stays |
| `Keeper.Hold.BeatAt` | go/keeper.go:187-191 | A report moves the last time heard of and nothing else |
| `Keeper.Hold.RefusedAt` | go/keeper.go:190-230 | Only a fencing refusal is remembered, and the first one stays |
| `Keeper.Hold.StopAt` | go/keeper.go:253-258 | Stopping ends the renewals and hands back the fence, if any |
| `Keeper.ExpiryBound` | go/keeper.go:134-185 | The lease expires no later than the last report plus the silence budget plus one lease |
| `Keeper.NeverRenewedAfterFence` | go/keeper.go:134-258 | After a fence or a stop nothing moves the lease again |
| `Keeper.NeverLapses` | go/keeper.go:203-215 | While the work reports within the budget and no two renewals running fail, the lease never lapses |
| `Keeper.EveryIsOften` | go/keeper.go:203-215 | Turns are a third of the lease apart and at least a millisecond, so two fit inside it exactly when it is longer than two milliseconds |
| `Keeper.ShortLeaseLapses` | go/keeper.go:203-215 | A shorter lease is lost to a single failed renewal |
| `SliceReader.Slice.Read` | go/slice.go:95-116 | One range, exactly its bytes, counted once |
| `SliceReader.WriteAt` | go/slice.go:287-298 | A write inside the window lands where it says and one outside changes nothing |
| `SliceReader.Prefix.Grow` | go/slice.go:155-192 | The first n bytes, with only those not already held fetched |
| `SliceReader.SliceAt.Fill` | go/slice.go:269-285 | Bytes in hand cost nothing; otherwise one request, its window doubled when reading on and smallest when not |
| `SliceReader.SliceAt.ReadAt` | go/slice.go:246-267 | Any read returns the artifact's own bytes at that offset, and says when it ran past the end |
| `SliceReader.ReadThrough` | go/slice.go:225-285 | A pass in chunks that divide 64 KiB reads the artifact in at most 7 + ceil(size / 4 MiB) requests, the length probe among them |
| `SliceReader.WindowsNeeded` | go/slice.go:225-235 | How many windows an artifact can take |
| `Utf8.ValidUTF8` | go/abstraction/download/request/rec.go:626-659 | Accepts exactly the byte sequences of section 4 of RFC 3629 |
| `Utf8.PassesExactly` | go/abstraction/download/request/rec.go:626-659 | The code's arithmetic on one character agrees with the grammar's byte ranges |
| `Utf8.RuneReadsBack` | go/abstraction/download/request/rec.go:614-624 | Every scalar value is written as one character of the grammar that carries it |
| `Utf8.CharacterIsRune` | go/abstraction/download/request/rec.go:614-624 | Every character of the grammar is the one spelling of its scalar value |
| `JsonNumber.WriteNum` | go/abstraction/download/request/rec.go:31-50 | The digits of any 64-bit integer, its negative taken as an unsigned word |
| `JsonNumber.ReadsExactlyTheSpellings` | go/abstraction/download/request/rec.go:662-709 | The reader accepts exactly the canonical spellings of the 64-bit integers, each as its value |
| `JsonNumber.PythonReadsTheSame` | py/abstraction/download/request/_codec.py:440-466 | The Python reader, with integers of any size, accepts the same inputs with the same values and refuses the others for the same reason |
| `JsonNumber.ReadDigits` | go/abstraction/download/request/rec.go:676-687 | The accumulator never leaves 64 bits |
| `JsonNumber.PythonReadInteger` | py/abstraction/download/request/_codec.py:440-466 | The Python method computes its specification |
| `JsonNumber.NumInjective` | go/abstraction/download/request/rec.go:31-50 | Two integers never share a spelling |
| `JsonString.WriteEsc` | go/abstraction/download/request/rec.go:182-188 | A string's text, byte by byte |
| `JsonString.StringReadsBack` | go/abstraction/download/request/rec.go:513-543 | A written string reads back as itself exactly when it is UTF-8, and is refused as bad otherwise |
| `JsonString.EscapeReadsScalar` | go/abstraction/download/request/rec.go:545-612 | Every scalar value, from one escape or from a surrogate pair, gives the character that carries it |
| `JsonRecords.Record` | go/abstraction/download/request/rec.go:978-1265 | Reading a record moves forward, gives the kind asked for, and gives only UTF-8 strings, 64-bit sizes and known networks; what value it gives is `JsonDecode.DecodeMeans` |
| `JsonRoundTrip.RequestRoundTrip` | go/abstraction/download/request/rec.go:435-463 | Every request that has a text comes back as it was exactly when its strings are UTF-8 and its size fits |
| `JsonRoundTrip.FailureRoundTrip` | go/rec/rec.go:204-238 | The same for every failure |
| `JsonRoundTrip.AcceptedIsStable` | go/abstraction/download/request/rec.go:1267-1279 | The value of any accepted input, however spelled, is written and read back the same |
| `JsonRoundTrip.SourcesRead` | go/abstraction/download/request/rec.go:945-976 | A written list of sources reads back as those sources |
| `JsonDecode.DecodeMeans` | go/abstraction/download/request/rec.go:945-1279 | For every text, however its strings, numbers and white space are spelled and its members ordered, the decoder gives the record that text stands for or refuses it with the reason it deserves: duplicate, unknown and missing fields, wrong types, bad strings and numbers, depth |
| `JsonDecode.StringSays` | go/abstraction/download/request/rec.go:513-612 | A string reads as what its pieces say, each escape in any spelling, and is refused where they say nothing |
| `JsonDecode.NumberMeans` | go/abstraction/download/request/rec.go:662-709 | A number reads as its decimal value exactly where it is canonical and of 64 bits |
| `JsonDecode.BooleanMeans` | go/rec/rec.go:485-501 | True stands for true, false for false, and no other text is a boolean |
| `JsonDecode.RecordMeans` | go/abstraction/download/request/rec.go:978-1265 | The same for one record wherever it stands |
| `JsonDecode.SourcesMean` | go/abstraction/download/request/rec.go:945-976 | And for a list of sources |
| `JsonDecode.TrailingMeans` | go/abstraction/download/request/rec.go:1267-1279 | Whatever is left after a record is refused as trailing bytes |
| `JsonDecode.TooDeepMeans` | go/abstraction/download/request/rec.go:505-511 | A record below the sixty-fourth level is refused whatever it is |
| `JsonDecode.PermanentEitherWay` | go/rec/rec.go:719-810 | A failure says that it is permanent or that it is not, before its reason or after it, and is read so |
| `JsonLayout.EscapesAsWritten` | go/abstraction/download/request/rec.go:7-29 | How each byte of a string is written, by its code |
| `JsonLayout.FailureLaidOut` | go/rec/rec.go:204-238 | A failure's text, line by line |
| `JsonLayout.RequestLaidOut` | go/abstraction/download/request/rec.go:357-463 | A request's text, line by line |
| `JsonReader.Reader.ReadStr` | go/abstraction/download/request/rec.go:513-543 | The string loop gives what the specification gives and stands where it ends |
| `JsonReader.Reader.ReadUnicode` | go/abstraction/download/request/rec.go:568-588 | A lone surrogate is refused and a pair is joined |
| `JsonReader.Reader.ReadInteger` | go/abstraction/download/request/rec.go:662-709 | The integer method gives what the specification gives, word and offset included |
| `JsonReader.Reader.ReadRecord` | go/abstraction/download/request/rec.go:978-1265 | The generated object loops, one for all kinds: same value or same refusal at the same offset, and the depth put back on acceptance |
| `JsonReader.Reader.ReadSources` | go/abstraction/download/request/rec.go:945-976 | The list loop, likewise |
| `JsonReader.DecodeInput` | go/abstraction/download/request/rec.go:1267-1279 | Decoding ends on every input with what the specification says |
| `JsonWriter.EncodedRequest` | go/abstraction/download/request/rec.go:435-463 | The encoder's appends add up to the request's text |
| `JsonWriter.EncodedFailure` | go/rec/rec.go:204-238 | The encoder's appends add up to the failure's text |
| `JsonWriter.Writer.EncSources` | go/abstraction/download/request/rec.go:190-205 | The list encoder's loop adds exactly the list's text |
| `DBusWire.Value` | go/netcost/dbus.go:298-423 | For any bytes, byte order and signature: a value that never moves backwards or past the bytes, a refusal, a loop without end, or a panic |
| `DBusRoundTrip.ValueReads` | go/netcost/dbus.go:111-150 | A written value, at any offset and depth and in either byte order, reads back as itself exactly when it nests no deeper than the decoder goes |
| `DBusMessage.MessageRoundTrip` | go/netcost/dbus.go:152-206 | Every message that can be sent, in either byte order, arrives with its header fields and body, whatever follows it, exactly when it is at most 2^24 bytes and nests no deeper than the decoder goes |
| `DBusMessage.AnyOrder` | go/netcost/dbus.go:134-144 | A map comes back the same whatever order its entries went out in |
| `DBusMessage.HeaderReads` | go/netcost/dbus.go:450-482 | The array of coded fields reads back field by field |
| `DBusMessage.BodyReads` | go/netcost/dbus.go:483-494 | A body reads back value by value by its signature |
| `DBusLayout.MessageOnTheWire` | go/netcost/dbus.go:152-206 | A message's bytes one by one: its mark, kind, version and three words, each byte by its weight in the order the mark says, then fields, zero padding and body |
| `DBusLayout.StreamIsTaken` | go/netcost/dbus.go:425-495 | How any stream is taken: its lengths and serial weighed from its bytes by its mark, refused beyond 2^24, and used up to the end of the body |
| `DBusLayout.NoOrder` | go/netcost/dbus.go:425-437 | A stream without sixteen bytes or without a byte order is no message |
| `DBusLayout.FieldsByCode` | go/netcost/dbus.go:152-206 | The header fields by their codes, each there exactly when it says something |
| `DBusLayout.FieldWritten` | go/netcost/dbus.go:152-206 | A header field's bytes: zero padding, code, type, value |
| `DBusLayout.TextWritten` | go/netcost/dbus.go:80-84 | A string's bytes |
| `DBusLayout.SignatureWritten` | go/netcost/dbus.go:85-88 | A signature's bytes |
| `DBusLayout.ListWritten` | go/netcost/dbus.go:111-133 | An array's bytes, its length not counting itself |
| `DBusLayout.MapWritten` | go/netcost/dbus.go:134-144 | A map's bytes, its length counting neither itself nor the padding, which is zero |
| `DBusLayout.FixedOnTheWire` | go/netcost/dbus.go:217-327 | Every fixed type, the ones never written too: its alignment, its width, its bytes weighed in either order |
| `DBusLayout.TextOnTheWire` | go/netcost/dbus.go:328-347 | Strings, paths and signatures, whatever their bytes |
| `DBusLayout.ArrayOnTheWire` | go/netcost/dbus.go:359-396 | Arrays: the padding after the length by the element, the elements to the last byte of it |
| `DBusLayout.StructOnTheWire` | go/netcost/dbus.go:397-419 | Structs and dict entries, at multiples of eight |
| `DBusLayout.OtherTypes` | go/netcost/dbus.go:298-423 | No other type is read, and none below the sixty-fourth level |
| `DBusLayout.TypeEnds` | go/netcost/dbus.go:256-283 | The first complete type of a signature ends where it ends, whatever follows |
| `DBusCodec.Encoder.PutValue` | go/netcost/dbus.go:111-150 | The encoder appends exactly the value's bytes, array lengths patched in afterwards |
| `DBusCodec.EncodeMessage` | go/netcost/dbus.go:152-206 | The message encoder writes exactly the message's bytes |
| `DBusCodec.Decoder.ReadValue` | go/netcost/dbus.go:298-423 | The decoder gives what the specification gives and puts its depth back however it ends |
| `DBusCodec.ReadMessage` | go/netcost/dbus.go:425-495 | The message reader gives what the specification gives |

## Left out

- Store, watch, configuration, identity and storage packages: only the claim, epoch, lease and
  update behaviour above is represented.
- Sockets, TLS, redirects, credentials, host refusals, firewall scripts, file-system paths and their
  containment: library behaviour and policy. Sinks are taken as resolved paths.
- Validators.HttpDate: as in the code, no weekday and no number in a date is looked into; blank space
  and letter case are ASCII only.
- RemoteDelegate.RemoteJob: the shape of a credential reason in a refusal, Poll's mapping of states
  and cancellation are not modelled; the service's own rules (an identity decided once, an absent one
  sealed by reconciling) are assumptions.
- BITS, NAS and the other delegates: represented by their contract.
- Handoff.Step: failure notes, progress numbers and retry backoff are not kept, so that a delegate that
  has no pause leaves the same record as one that was paused.
- Delegates that are not Locators: they have no handoff written down before Start, so the
  single-transfer claim does not cover them, and the code does not say it does.
- The opaque-value readers (`skipValue`, `rawMap`, `strList`) and the re-formatters: no record here
  holds an opaque value.
- The generated copies of the codec in C++ and Rust, and all of the Python copy but its integer
  reader: the same algorithm again.
- Throttling of reports and of checkpoints by bytes and by time: any report may be written in the
  machines here, which includes the ones the thresholds let through.
- StreamTransfer.Truncated: one truncation may or may not have reached the disk at a crash; the
  machine for several connections takes it as durable at once.
- ParallelTransfer.Guarded: a starting set that runs past the artifact is outside the claim, as it
  is outside what the planner hands to the workers.
- ParallelTransfer.RunsAreCrashSafe: which version the bytes came from is not followed on this path,
  since the code does not send validators it has learned there.
- JsonReader.Reader.ReadRecord: one method for the five generated decoders, which differ only in
  their fields; a field mask is a set of names.
- JsonRecords.Record: the enum check after a record's last brace cannot fail, since only known words
  are ever stored, and is not repeated.
- DBusMessage.Read: how a header field of a type other than text is printed is a parameter, as
  fmt.Sprint is not modelled.
- DBusWire.Value: the integer types are kept as raw numbers with their letter; how a signed or a
  floating one is printed is not modelled.
- SliceReader.Slice.Size: a source that will not serve ranges is one that does not answer.
- Keeper.Hold.TickAt: store calls take no time, and renewals made elsewhere while bytes land are not
  counted.
- Delivery.Job.Conclude: a rename and a copy across volumes are one move that succeeds or does not.
- Client waiting loops, display text, drop folders and command drivers: plumbing or prose.
