# Watches Clank: a verified model

A Dafny model of the parts of the repository whose job is to keep promises over time: the Horology Sentinel
(novelty detection and alerting), the Discovery proposal store, catalogue traversal under a budget, the
qualification gate and the local collection controller. `dafny verify dfyconfig.toml` checks everything.

**How it is laid out.** Each component has a specification in functions over plain values, classes or methods
with the source's own loops and branches that are proved to compute it, and theorems about the specification over
whole runs. What the outside world answers (feeds, the chat provider, locks, clocks, file failures) is a
parameter, so every theorem holds for all answers.

- `Text`, `References`, `Identity`: string rules and the identity key of a product.
- `Database`: the Sentinel's tables as one session object. `Delivery`, `Receipts`, `Guarded`, `Alerting`: posting
  with retries, durable receipts, the guard that makes an alert of any kind at-most-once, and the sighting's alert.
- `SentinelStore`, `SentinelRunner`: admission, bookkeeping and the sweep, in place over the session.
  `SentinelTheorems`, `SentinelRuns`, `SentinelAccounts`, `SentinelCadence`, `SentinelScope`, `SentinelBaseline`,
  `SentinelPosts`, `SentinelSeen`: what any sweep and any sequence of sweeps does, each under its own configuration, stated against a
  definition of novelty that mentions neither snapshots nor branches.
  `SentinelProtocol`: several processes interleaved step by step, each with a stale snapshot; `SentinelBridge`:
  a sweep of the runner is one of its runs.
- `Adapters`, `Selection`, `InitialFill`: polling, unseen-first selection over many runs, the fill window.
  `CitizenSearch`, `BraceScan`: paging a search listing, and cutting an embedded object out of a page.
- `Proposals`, `ProposalHistory`, `ProposalIntake`: the proposal database, the append-only inbox it refines, the
  validation pass. `ProposalStore`, `ProposalProtocol`, `ProposalAttempts`: the generation store on disk with a
  failure or kill at any step, the same as a protocol with readers, and the bridge between the two.
  `ProposalReading`: what readers and exports show, from the lines of an export to the reader.
- `Qualification`, `Controller`: the fail-closed delivery gate; the dashboard's job controller and its threads.

**What the proofs found in the code.** Where a member is named, it states the fact, with the exact
condition where there is one.

- A failed delivery always reports three attempts, also when the first post was refused for good
  (`Delivery.AttemptCountIsPostsExactly`, `Delivery.NotFoundReportsThree`).
- `record` overwrites an acceptance; only the check in `send` protects it (`Receipts.RecordingHistory`,
  `Alerting.DeliveredIsFinal`).
- A new sighting reads SENT, the column's default, until its alert is settled (`app/models/sentinel.py:138-140`).
- Casio normalisation is not idempotent, nor is address canonicalisation on paths of slashes only
  (`References.CasioIdempotentExactly`, `Identity.CanonicalUrlIdempotentExactly`).
- A candidate ceiling below one would still let one candidate through (`Adapters.PollShopify`); no source has one,
  the ceilings in use being 5000 and 25000 (`app/sentinel/config.py:72`, `148`).
- The brace scanner counts braces inside strings (`BraceScan.ExtractsWholeObjectExactly`).
- A blob torn by a kill blocks every later import that owns the same bytes (`ProposalAttempts.TornBlobBlocks`).
- A controller thread that dies leaves `running` true for good (`Controller.BusyMeansWorkerExactly`,
  `Controller.LostThreadLocks`).
- A batch that names a collector twice would end with fewer results than completed jobs (`Controller.BatchAccounts`,
  `Controller.DoubledJobCountsTwice`); the one caller passes the registry's ids, which are distinct
  (`app/main.py:1142`).
- The store's docstring (`app/sentinel/store.py:3-8`) speaks of a commit for each source; the runner commits only
  at the start and the end of a sweep (`app/sentinel/runner.py:301`, `327`). The model follows the code.

## Model

| member | source | states |
|---|---|---|
| `References.CasioRemovesAtMostOneSuffix` | app/normalization/references.py:126-142 | The Casio canonical form is the stripped reference, or that without exactly one allowlisted two-letter suffix; a removal never leaves an empty or hyphen-terminated reference. |
| `References.CasioIdempotentExactly` | app/normalization/references.py:126-142 | A second normalisation changes nothing if and only if no further suffix (or white space) stands behind the one removed; the if-and-only-if form of an idempotence that is false as such. |
| `References.CasioNotIdempotent` | app/normalization/references.py:126-142 | Concrete reference with a doubled suffix that a second pass strips again. |
| `Identity.IdentityAlwaysExists` | app/sentinel/identity.py:99-139 | For every input `build_identity` yields an identity: the normalisers' empty-reference error cannot be reached from it. |
| `Identity.ReferencesMergeExactly` | app/sentinel/identity.py:64-139 | Two references of one manufacturer share a key if and only if, lower-cased and stripped, both are spellings of one base: the base itself, its regional form, or (Casio) its Japan-market form, given independently of the normalising code. |
| `Identity.CosmeticsDoNotMatter` | app/sentinel/identity.py:115-139 | Surrounding white space and letter case never change the key, for every manufacturer. |
| `Identity.IdentityTells` | app/sentinel/identity.py:99-139 | What an identity keeps beside its key: stripped brand and reference, and as canonical form the beginning of the stripped reference that the key spells, in capitals unless the brand has a rule of its own; nothing without a reference. |
| `Identity.RegionalSuffixMerges` | app/sentinel/identity.py:64-81 | Appending UK to an unhyphenated stock number ending in a digit does not change the key. |
| `Identity.PassThroughMergesExactly` | app/sentinel/identity.py:64-139 | Citizen, Seiko, Timex: one key if and only if the collapsed references are equal in lower case. |
| `Identity.ReferenceMeetsUrlExactly` | app/sentinel/identity.py:99-139 | Exactly when a reference key is an address key, for any manufacturers: both split one text at a colon; for colon-free brands, one brand and a base that itself spells `url:` and the digest. |
| `Identity.ColonFreeReferenceNeverMeetsUrl` | app/sentinel/identity.py:99-139 | A reference without a colon meets an address key if and only if its brand runs on, over a colon, into that key; so never for a brand without a colon. |
| `Identity.BrandsNeverMeet` | app/sentinel/identity.py:115-139 | Products of two brands without colons never share a key, with or without references. |
| `Identity.UrlsMergeExactly` | app/sentinel/identity.py:84-139 | With an injective digest two products without a reference merge if and only if scheme and host agree up to case and the paths up to trailing slashes; a path of slashes only is one with the empty path if it is one slash, and another page if it is more. |
| `Identity.CanonicalUrlIdempotentExactly` | app/sentinel/identity.py:84-96 | Canonicalising twice equals once if and only if the path is not two or more slashes and nothing else. |
| `Identity.TwoSlashesChangeTwice` | app/sentinel/identity.py:84-96 | Concrete path of two slashes that a second pass changes again. |
| `Text.DecimalInjective` | app/services/delivery_receipts.py:36-37 | Distinct row ids print differently. |
| `Delivery.PostDetailed` | app/services/discord_notify.py:142-201 | The retry loop: the log of at most three posts, no post after an acceptance or a final refusal, the pauses between, and an attempt that shows, on acceptance, the ids and status of the last response, otherwise no ids, the latest status and the last failure text. |
| `Delivery.PauseMeaning` | app/services/discord_notify.py:142-201 | Each pause: what the provider asks for, at most five seconds and one where it asks for nothing; the number of posts so far after an exception or a negative wish. |
| `Delivery.AcceptedExactly` | app/services/discord_notify.py:142-201 | Accepted if and only if some post within three is accepted and every earlier one was retryable. |
| `Delivery.AttemptCountIsPostsExactly` | app/services/discord_notify.py:142-201 | The reported count differs from the posts made if and only if some post before the third is refused for good after retryable ones only; then that post was the last and three are reported. |
| `Delivery.NotFoundReportsThree` | app/services/discord_notify.py:142-201 | A first post answered 404: one post, three attempts reported. |
| `Receipts.KeysTellDeliveriesApart` | app/services/delivery_receipts.py:36-37 | For types and purposes without a colon, as all callers pass them, keys are injective in type, id and purpose, whatever the id. |
| `Receipts.KeysTellIdsApart` | app/services/delivery_receipts.py:36-37 | Within one kind of delivery, whatever its texts, the key tells the ids apart. |
| `Receipts.KeysCollideExactly` | app/services/delivery_receipts.py:36-37 | Some ids of two kinds of delivery share a key if and only if one type with its colon begins the other and one purpose with its colon ends the other. |
| `Receipts.KnownKindsNeverCollide` | app/services/delivery_receipts.py:25-37 | Among the types and purposes that callers pass, no two different kinds ever collide. |
| `Receipts.ColonsConfuseKeys` | app/services/delivery_receipts.py:36-37 | A pair that meets the condition of KeysCollideExactly; its type, with a colon, is none that a caller passes. |
| `Receipts.SightingKeysDiffer` | app/sentinel/alerting.py:75-117 | Different sightings have different receipt keys. |
| `Receipts.SightingKeyIs` | app/services/delivery_receipts.py:25-37 | The receipt key of a sighting, spelled out. |
| `Receipts.DeliveryReceiptService.HasDelivered` | app/services/delivery_receipts.py:51-64 | Answers exactly whether the stored state is one of the accepted ones. |
| `Receipts.DeliveryReceiptService.Record` | app/services/delivery_receipts.py:66-118 | The whole new receipt table after one record: insert or overwrite, count plus one, proved message id kept. |
| `Receipts.RecordingHistory` | app/services/delivery_receipts.py:66-118 | Over any number of records: outcome, status, error and last time are those of the last attempt alone, so `record` by itself does overwrite an acceptance; message id, channel id and alias are the latest non-empty ones, never erased; the count is the old one plus every attempt's own, each at least one; the first time stays. |
| `Alerting.SentinelAlerter.Send` | app/sentinel/alerting.py:75-117 | The database and the posts of one send: nothing is posted for a delivered sighting; otherwise the attempt is recorded and the sighting says disabled, failed with the notifier's or the last response's error, or sent exactly if the last post was accepted. |
| `Alerting.SendSays` | app/sentinel/alerting.py:75-124 | What any send leaves in the alert fields, told from what was posted. |
| `Alerting.SendIsLocal` | app/sentinel/alerting.py:75-124 | A send changes the alert state and error of its own sighting; its other columns, identities, bookkeeping and every other sighting stay. |
| `Alerting.SendFrames` | app/sentinel/alerting.py:75-117 | A send never changes whether another sighting counts as delivered. |
| `Guarded.Deliver` | app/services/specialist_leads.py:60-83 | The delivery of a lead, and in the same shape of an event: the receipt is asked first; otherwise the posts, the receipt table and the answer, true exactly if the receipt then shows acceptance. |
| `Guarded.DisabledSays` | app/sentinel/alerting.py:125-128 | A switched-off notifier leaves a receipt that says so and keeps everything proved before. |
| `Guarded.AcceptedOnceInAnyMix` | app/services/pipeline.py:167-206 | Over any mix of events, leads (two purposes each) and sightings sharing one receipt table, the accepted posts for one entity and purpose number exactly the change of its own delivered mark: at most one, none once delivered, and no alert silences another. |
| `Alerting.AcceptedExactlyOnce` | app/sentinel/alerting.py:75-117 | Over any sequence of sends and provider outcomes the accepted posts for a sighting number exactly the change of its delivered mark: at most one, none once delivered. |
| `Alerting.DeliveredIsFinal` | app/sentinel/alerting.py:75-117 | Once accepted, the receipt and the sighting never change again, although recording alone would overwrite. |
| `SentinelStore.SentinelStore.Admit` | app/sentinel/store.py:48-97 | Insert under a unique key; created exactly when the key was absent, the first row stays. |
| `SentinelStore.SentinelStore.RefreshLastSeen` | app/sentinel/store.py:99-118 | One touch of a known key, as a row update; what any number of them amount to is SentinelSeen.SweepRows and the two rows after it. |
| `SentinelSeen.SweepRows` | app/sentinel/store.py:99-118 | In one sweep, however many candidates carry a key, its row adopts a title if and only if it had none, the first one offered; it is noted as seen, at the sweep's time and for the first source that met it, if and only if it was met and the threshold has passed; nothing else changes. |
| `SentinelSeen.TitlesStay` | app/sentinel/store.py:99-118 | Over any run a stored title is never replaced, and how, when and by which source a key was first seen stays. |
| `SentinelSeen.WritesKeepApart` | app/sentinel/store.py:108-118 | Over any run two writes of a key's last-seen time are at least the refresh threshold apart. |
| `SentinelStore.SentinelStore.RecordSighting` | app/sentinel/store.py:120-147 | One new sighting at the end of the table, its id the position, its alert state the column's default SENT until the alert is settled. |
| `SentinelStore.SentinelStore.MarkPoll` | app/sentinel/store.py:163-174 | Only an ok poll moves the success time, only the first arms, failures touch neither. |
| `SentinelStore.SentinelStore.SourcesDue` | app/sentinel/store.py:176-186 | Returns exactly the sources never successful or whose cadence has elapsed. |
| `SentinelRunner.SentinelRunner.RunSweep` | app/sentinel/runner.py:65-302 | The whole sweep equals the specification: refused sweeps change nothing; otherwise database, per-source entries, totals, status and the posts made are those of `Swept`. |
| `SentinelRunner.SentinelRunner.RunSources` | app/sentinel/runner.py:131-261 | The loop over the sources computes the specification of all of them in order. |
| `SentinelRunner.SentinelRunner.VisitSource` | app/sentinel/runner.py:131-261 | One source: not due, raised, refused, or processed and marked. |
| `SentinelRunner.SentinelRunner.SweepCandidates` | app/sentinel/runner.py:171-239 | The candidate loop with its counters and growing set of known keys. |
| `SentinelRunner.SentinelRunner.VisitCandidate` | app/sentinel/runner.py:171-239 | One candidate through every branch: suppressed, silently admitted, lost race, sighted and capped or sent. |
| `SentinelRunner.SentinelRunner.AlertNewest` | app/sentinel/runner.py:229-239 | Cap test on sent plus failed, then the send and its counter. |
| `SentinelTheorems.CandidatesTrack` | app/sentinel/runner.py:167-239 | Processing any list of candidates adds exactly the sightings of its fresh keys, where fresh is defined without the snapshot or the store's branches. |
| `SentinelTheorems.SourcesTrack` | app/sentinel/runner.py:131-261 | The same for all sources of a sweep, across sources. |
| `SentinelRuns.SweepTracks` | app/sentinel/runner.py:96-302 | One sweep sights exactly the fresh keys of everything it processes, each row with the source, title, reference and time of its visit, and admits each new key with the origin of its first visit. |
| `SentinelRuns.RunTracks` | app/sentinel/runner.py:96-302 | The same over any sequence of sweeps, each under its own configuration: the added sightings are the fresh visits of the whole run, in order, with their contents, and every new identity has the origin of the first visit to its key. |
| `SentinelRuns.OneSightingPerKey` | app/sentinel/runner.py:167-239 | Over whole runs: no key is sighted twice, a key admitted silently is never sighted, and how a key was admitted never changes. |
| `SentinelRuns.ReplaySilence` | app/sentinel/runner.py:167-259 | After any run, later sweeps meeting only keys already processed, from any source or region, leave the sighting table exactly as it was. |
| `SentinelRuns.BaselineIsSilent` | app/sentinel/runner.py:167-211 | Any sweep sights only for sources that were armed before it, whatever the others are, and a forced baseline sights nothing. |
| `SentinelRuns.SightingsFromArmed` | app/sentinel/runner.py:167-239 | Over any run every new sighting belongs to one sweep, before which its source was armed. |
| `SentinelCadence.SightedAfterSuccess` | app/sentinel/runner.py:12-16 | A source never polled at the start gets its sightings only in sweeps after its first SUCCESS poll, whatever other sources do. |
| `SentinelBaseline.PollStorefront` | app/sentinel/adapters.py:61-99 | A storefront's answer as the sweep takes it: SUCCESS exactly with candidates, each with its reference, address and title. |
| `SentinelBaseline.PollListing` | app/sentinel/adapters.py:113-158 | The same for a sitemap, whose candidates carry no title. |
| `SentinelBaseline.ArmedExactly` | app/sentinel/runner.py:246-259 | Given that SUCCESS comes exactly with candidates, as the adapters' answers do: over any run a source never polled at the start is armed if and only if some sweep has processed a candidate of it; empty, failed and blocked polls never arm. |
| `SentinelBaseline.EmptySuccessReplays` | app/sentinel/runner.py:246-253 | Why that is needed: an empty poll reported as SUCCESS would arm, and the catalogue of the next poll would be sighted. |
| `SentinelBaseline.KeysMetUnarmedStaySilent` | app/sentinel/runner.py:167-211 | No key that a new source shows in a sweep not preceded by a SUCCESS poll of it is in any row that the whole run adds for that source. |
| `SentinelBaseline.FirstCatalogueIsSilent` | app/sentinel/runner.py:12-16 | A new source does not replay its catalogue: no key of the first sweep that processes candidates of it is ever sighted for it, by that sweep or any later one, however often it is polled and whatever the others do. |
| `SentinelRuns.RegionalCopyIsSilent` | app/sentinel/identity.py:64-81 | One visit: a stock number met in one region keeps another region silent when only the regional suffix differs. |
| `SentinelRuns.EitherFormSightedOnce` | app/sentinel/identity.py:64-81 | Over any run a stock number and its regional form have one key under every source, configuration and address, at most one sighting between them, and a new one if and only if the key was unknown and the first visit to it, of either form, comes from an armed source. |
| `SentinelRuns.AlertsStayTruthful` | app/sentinel/runner.py:219-239 | Over any run a sighting says sent if and only if its receipt shows acceptance. |
| `SentinelPosts.AlertedSays` | app/sentinel/runner.py:229-239 | The alert of a new sighting: capped, without a post, exactly once sent and failed alerts have reached the ceiling; otherwise it says what its posts brought. |
| `SentinelPosts.RunSettled` | app/sentinel/runner.py:219-239 | Over any run: exactly one accepted post for each new sighting that says sent, none for any other sighting, old or new. |
| `SentinelPosts.OneAcceptedPostPerKey` | app/sentinel/runner.py:167-239 | At most one accepted post an identity key over a whole run: one if and only if the run sighted the key and the sighting says sent, none for a key known at the start. |
| `SentinelAccounts.SweepConserves` | app/sentinel/runner.py:126-302 | Every sweep: exactly one balanced entry a source (candidates = unseen + suppressed where armed), unseen = new sightings = sent + failed + capped + disabled, sent + failed at most the cap, totals are sums over the entries. |
| `SentinelAccounts.StatusMeaning` | app/sentinel/runner.py:284-295 | The final status in terms of which sources succeeded, failed or were blocked. |
| `SentinelCadence.SweepFollows` | app/sentinel/runner.py:131-261 | A source's bookkeeping after a sweep is determined by its entry; every chosen source has one. |
| `SentinelCadence.StateTellsHistory` | app/sentinel/store.py:163-174 | Over any run a source is armed at its first SUCCESS poll, for good, and its success time is that of the latest. |
| `SentinelCadence.PolledExactlyWhenDue` | app/sentinel/runner.py:112-137 | An unforced sweep polls an enabled source if and only if it never succeeded or its cadence has passed since its last SUCCESS poll over the whole history. |
| `SentinelScope.RefusedExactly` | app/sentinel/runner.py:76-111 | A sweep is refused if and only if the lock is not granted or no source has the name asked for, and then reports and changes nothing. |
| `SentinelScope.ScopeExactly` | app/sentinel/runner.py:105-129 | A sweep reports an entry for every source in its scope, the named one or all enabled ones, and for no other; the bookkeeping of sources outside it stays. |
| `SentinelScope.NamedSweepPollsIt` | app/sentinel/runner.py:105-120 | A sweep for one source polls that source, due or not, and leaves the bookkeeping of all others alone. |
| `SentinelScope.ForcedSweepPollsAll` | app/sentinel/runner.py:116-120 | A forced sweep polls every enabled source, due or not, and no other. |
| `SentinelScope.LastPollTold` | app/sentinel/store.py:163-174 | Over any run the bookkeeping shows the time and status of the source's latest poll, whatever came of it. |
| `SentinelCadence.UnforcedPollsKeepTheirDistance` | app/sentinel/store.py:176-186 | With a clock that never goes back an unforced poll is at least the cadence later than every earlier SUCCESS poll. |
| `SentinelProtocol.StepKeepsInv` | app/sentinel/runner.py:167-239 | Every atomic step of every process keeps the invariant. |
| `SentinelProtocol.CreatedOnce` | app/sentinel/store.py:48-97 | Under every interleaving of processes with stale snapshots at most one insert wins a key. |
| `SentinelProtocol.RowsAreCreated` | app/sentinel/store.py:48-97 | A key has a row in a state if and only if it had one at the start or an insert has won it before; so with CreatedOnce a new row has exactly one creator. |
| `SentinelProtocol.CreatedKeyStaysTaken` | app/sentinel/store.py:48-97 | A created key is never created again. |
| `SentinelProtocol.NoDoubleAlert` | app/sentinel/runner.py:167-239 | In every reachable state: at most one sighting a key and only for live rows, none for silently admitted keys, at most one accepted alert a key. |
| `SentinelProtocol.QuiescentSightingsExact` | app/sentinel/runner.py:190-239 | Once all processes are idle the sighted keys are exactly the keys created live: nothing is lost. |
| `SentinelProtocol.NobodyIsStuck` | app/sentinel/runner.py:131-239 | Whatever the others have done, every process has a way on, and which of suppress, find, miss, win and lose is possible is decided by its snapshot and the rows. |
| `SentinelProtocol.LostRaceIsSilent` | app/sentinel/store.py:62-97 | Two processes that both missed a key: the second insert is refused and that process sights nothing. |
| `SentinelBridge.CandidateIsRun` | app/sentinel/runner.py:171-239 | Every branch of the candidate loop has the effect of a run of that protocol by one process. |
| `SentinelBridge.SweepIsRun` | app/sentinel/runner.py:96-302 | Refinement: an undisturbed sweep of the runner, whatever is polled and answered, is a run of the protocol from idle to idle ending with the same identities, sightings, sent marks and exactly the same armed sources. |
| `SentinelBridge.RunIsExecution` | app/sentinel/runner.py:65-302 | Any sequence of sweeps from empty tables, by whatever processes one after the other, is an execution of the protocol that ends idle in a state agreeing with the run's tables. |
| `SentinelBridge.RunnerAlertsOnce` | app/sentinel/runner.py:167-239 | Drawn from the protocol for the runner's own tables: one sighting a key at most, and the sighted keys are those admitted as sightings. |
| `Adapters.PollShopify` | app/sentinel/adapters.py:61-99 | SUCCESS exactly when something qualified; the candidates are the first qualifying products up to the ceiling, and a ceiling below one still lets one through. |
| `Adapters.FirstVariantSkuExactly` | app/sentinel/adapters.py:199-206 | The reference is the stripped stock number at the first position whose stock number is not blank, empty only where all are blank. |
| `Adapters.QualifiedExactly` | app/sentinel/adapters.py:74-96 | The candidates of a page are the wanted products, each once, at ascending positions, with their own handle and title and their first stock number; none is left out. |
| `Adapters.PageExactly` | app/sentinel/adapters.py:74-96 | Under a ceiling the same, and a wanted product is missing only behind a full ceiling. |
| `Adapters.PickChildExactly` | app/sentinel/adapters.py:179-183 | The child followed is the first that matches, and none is followed only where none does. |
| `Adapters.PollSitemap` | app/sentinel/adapters.py:113-158 | At most two requests, a child chosen from an index, the status of every missing document, SUCCESS exactly when candidates came out. |
| `Adapters.DiscoverFromSitemap` | app/collectors/sitemap_family.py:72-94 | The loop with its seen set and ceiling returns the first distinct references of the document. |
| `Adapters.FirstOccurrencesExact` | app/collectors/sitemap_family.py:72-94 | Every item is, as it stands there, the first block of the document that carries its reference; items keep the document's order, no reference or address occurs twice, none is missing. |
| `Selection.SelectionIsStableRearrangement` | app/collectors/sitemap_family.py:132-141 | Selected plus deferred is a stable rearrangement of the discovered list with no known address before an unseen one. |
| `Selection.FamiliesAgreeUnderBudget` | app/collectors/shopify_family.py:160-169 | Under a budget the storefront and Citizen selection equals the sitemap one. |
| `Selection.ShopifyServesBeginning` | app/collectors/shopify_family.py:163-168 | For every budget, also none, a storefront run serves the beginning of a rearrangement of what was discovered, cut at the budget where there is one. |
| `Selection.UnbudgetedServesAll` | app/collectors/shopify_family.py:159-168 | Without a budget nothing is left out, whatever was known: the storefronts serve every address in document order, the sitemaps every one with the unseen ahead and none deferred, and no address is unseen afterwards. |
| `Selection.PureSliceExactly` | app/collectors/shopify_family.py:177-180 | The pure-unseen flag is raised if and only if the run fits into what was still unseen. |
| `Selection.ServesUnseenFirst` | app/collectors/sitemap_family.py:132-141 | A run serves the first unseen addresses, and known ones only after the last of them. |
| `Selection.OneRun` | app/collectors/sitemap_family.py:132-141 | With its selection made known, a run leaves exactly the rest of the unseen addresses, in order. |
| `Selection.UnseenAfterRuns` | app/collectors/sitemap_family.py:132-141 | After k runs exactly the first k budgets of unseen addresses are gone. |
| `Selection.NoStarvation` | app/collectors/sitemap_family.py:132-141 | The unseen address at position j is selected in run j / budget: all of them within the count over the budget, rounded up. |
| `InitialFill.ClosedStaysClosed` | app/services/initial_fill.py:83-114 | A closed window stays closed whatever runs are added, at the end or between earlier ones. |
| `InitialFill.PureAgrees` | app/services/initial_fill.py:99-107 | The window's test on the recorded numbers and the collector's own flag say the same of a run. |
| `InitialFill.WindowLaw` | app/services/initial_fill.py:83-114 | On a catalogue of N > 0 with budget b > 0 each run the window is open after k runs if and only if (k <= 1 or k*b <= N) and, for full budgets, k < 4. |
| `InitialFill.WindowExactly` | app/services/initial_fill.py:55-114 | Over any history: open before the first run that succeeded at least in part, then exactly while every such run served only new items and fewer than four were full passes; a missing or unreadable budget is no full pass. |
| `InitialFill.UnboundedFirstPassCloses` | app/services/initial_fill.py:55-114 | A first pass without a budget selects the whole catalogue and keeps the window open; the next run closes it, whatever its budget. |
| `CitizenSearch.DiscoverViaSearch` | app/collectors/citizen_products.py:138-196 | On every server behaviour it ends within 600 requests a collection and returns every admitted reference once, none twice. |
| `CitizenSearch.SearchCollection` | app/collectors/citizen_products.py:155-195 | The `while True` paging loop with its termination measure, against the recursive statement of its stopping rules. |
| `CitizenSearch.DedupExact` | app/collectors/citizen_products.py:138-196 | The result holds each admitted reference exactly once. |
| `CitizenSearch.HonestServerServed` | app/collectors/citizen_products.py:138-196 | Against an honest server each collection contributes exactly its first min(T, 624) hits, with or without a reported total. |
| `CitizenSearch.HonestRequests` | app/collectors/citizen_products.py:155-195 | An honest server is asked for no page more than it takes: with a reported total the pages that hold hits, without one up to the first short page, thirteen at most. |
| `CitizenSearch.HonestSearch` | app/collectors/citizen_products.py:138-196 | Both collections in turn: the first min(T, 624) hits of the one and then of the other. |
| `BraceScan.ExtractBalanced` | app/collectors/citizen_products.py:74-92 | The scanning loop cuts exactly what the scan specification says, and None where that finds no end. |
| `BraceScan.ScanExact` | app/parsers/citizen_products.py:39-62 | The scan stops at position e if and only if e is the first position where the braces balance, never at an inner object; None if and only if they never do. |
| `BraceScan.ExtractsWholeObjectExactly` | app/collectors/citizen_products.py:74-92 | The wrapped object comes back whole if and only if the braces inside it balance, quoted ones counted. |
| `BraceScan.PrintExtractRoundTrip` | app/collectors/citizen_products.py:74-92 | Any nested object printed without braces inside its texts, followed by anything, comes back exactly. |
| `BraceScan.TextBraceEndsScan` | app/collectors/citizen_products.py:74-92 | A closing brace inside a text ends the scan there, whatever follows, when only brace-free text stands before it. |
| `BraceScan.QuotedBraceCutsShort` | app/parsers/citizen_products.py:30-62 | A product whose name holds a quoted closing brace is cut off inside the name (concrete text after the anchor). |
| `ProposalIntake.Prepare` | app/discovery.py:188-281 | The loop over the lines: record limit, duplicate leads, byte budget, digests, exclusions, in the source's order, equals the line-by-line specification; the first problem decides. |
| `ProposalIntake.PrepareExactly` | app/discovery.py:199-281 | An export passes if and only if no line has a problem of its own, no lead repeats and the evidence fits the budget; parsed = accepted + excluded. |
| `ProposalIntake.FirstProblemDecides` | app/discovery.py:199-270 | A refused export reports the first check that fails, in the source's order and words, of the first line that fails one. |
| `ProposalIntake.ItemsAreLines` | app/discovery.py:199-280 | An accepted export's items are its admitted lines, one for one and in order: lead, payload, and the bytes of each file that was there, which have the claimed digest. |
| `ProposalIntake.LinesPermuted` | app/discovery.py:199-281 | Permuting the lines changes neither acceptance nor any count, nor the inbox that the import gives, observation ids aside. |
| `Proposals.ImportRefines` | app/discovery.py:343-357 | What an import does to the database is what the abstract inbox (append when the content differs from the last) says. |
| `Proposals.ReviewRefines` | app/discovery.py:392-397 | A review relabels one entry and appends one label. |
| `Proposals.ImportAllSound` | app/discovery.py:343-357 | Imports keep: current observation is the last, neighbours differ in fingerprint, review is the last label. |
| `Proposals.ReviewSound` | app/discovery.py:392-397 | So do reviews. |
| `ProposalHistory.OpsRefine` | app/discovery.py:338-402 | After any sequence of imports and reviews the database is sound and stands for the abstract inbox after the same sequence. |
| `ProposalHistory.HistoriesAppendOnly` | app/discovery.py:338-402 | Every earlier history, of observations and of labels, is a prefix of every later one. |
| `ProposalHistory.ImportGrows` | app/discovery.py:345-356 | No import changes a review or a label. |
| `ProposalHistory.TallyMeaning` | app/discovery.py:343-356 | inserted + changed + unchanged = accepted; inserted counts new proposals, inserted + changed new observations. |
| `ProposalHistory.ReimportIsSilent` | app/discovery.py:343-356 | Importing the same prepared export again reports all unchanged and writes no row. |
| `ProposalHistory.ImportPermuted` | app/discovery.py:343-356 | Permuting the accepted proposals gives the same counts and the same inbox. |
| `ProposalStore.Store.NewGeneration` | app/discovery.py:302-311 | A new directory with a copy of the current database; a failure leaves what the plan says, and an existing name raises. |
| `ProposalStore.Store.CopyBlob` | app/discovery.py:325-335 | Write once under the digest, accept identical bytes, raise on others; a failing write may leave a partial file. |
| `ProposalStore.Store.Publish` | app/discovery.py:314-322 | Commit, export, pointer, each a possible point of failure. |
| `ProposalStore.Store.CopyAndApply` | app/discovery.py:343-356 | The import loop: blobs to disk at once, rows into the uncommitted transaction, counters. |
| `ProposalStore.Store.ImportExport` | app/discovery.py:338-362 | For every fault the disk is `Outcome`; success is reported exactly when the pointer was swapped; the counts are the specified ones; a rejected export changes nothing. |
| `ProposalStore.Store.SetReview` | app/discovery.py:385-402 | The same for a review; unknown lead, unknown label and the disabled store change nothing. |
| `ProposalProtocol.StepKeepsInv` | app/discovery.py:302-402 | Every step of the writer, of a failure and of any reader keeps the store invariant. |
| `ProposalProtocol.CurrentIsComplete` | app/discovery.py:314-322 | In every reachable state CURRENT names a complete generation: the database of the committed operations, with the export that matches it. |
| `ProposalProtocol.ReadersSeeCommittedStates` | app/discovery.py:365-382 | Every finished read is the state after a prefix of the committed operations: those committed when the pointer was read. |
| `ProposalProtocol.ReadIsOfItsMoment` | app/discovery.py:365-382 | A read shows exactly what was committed when its pointer was read, whatever the writer does before the answer. |
| `ProposalReading.ReadMirrorsInbox` | app/discovery.py:365-378 | After any operations a reader gets exactly the leads of the abstract inbox, each with its review, its whole history and its labels, and the last of the history as current. |
| `ProposalReading.ReadersSeeTheInbox` | app/discovery.py:365-382 | An answered reader of the protocol holds the abstract inbox of the operations committed when it looked at the pointer. |
| `ProposalReading.ExportMirrorsInbox` | app/discovery.py:314-322 | At every moment the export of the generation named by CURRENT shows the abstract inbox of the committed operations. |
| `ProposalReading.ImportShows` | app/discovery.py:343-357 | After an import each of its items reads as current, with its own payload and the digests of its own files, verified exactly if both were there, under the review it had or `unreviewed`. |
| `ProposalReading.OthersReadAsBefore` | app/discovery.py:343-357 | A lead that an import does not name reads exactly as before. |
| `ProposalReading.LineReachesReader` | app/discovery.py:199-377 | From a line of an export to the reader: payload, and each file that was there under the digest the line claimed. |
| `ProposalReading.ReviewShows` | app/discovery.py:385-402 | A review under one of the four labels shows at once, as review and newest label, and changes nothing else of the lead; any other changes nothing. |
| `ProposalProtocol.EvidenceNeverDangles` | app/discovery.py:275-335 | In every generation ever published, at every later moment, every blob name of every observation resolves to the whole blob with that digest. |
| `ProposalProtocol.BlobsAreWriteOnce` | app/discovery.py:325-335 | No step changes or removes a blob. |
| `ProposalProtocol.WorkIsOnACopy` | app/discovery.py:302-311 | Until its commit an operation's directory is empty or holds a copy of the committed database, and CURRENT does not name it. |
| `ProposalProtocol.FailureCleansUp` | app/discovery.py:338-362 | A failure leaves the pointer and every other directory as they were; the operation's own directory is removed if and only if the process lived and the copy had been made. |
| `ProposalProtocol.LookingAnswers` | app/discovery.py:365-382 | A reader that looks at the database is answered with what the pointer it holds leads to. |
| `ProposalProtocol.NobodyIsStuck` | app/discovery.py:302-402 | An idle writer can begin whatever is accepted, a working one can fail at every step and otherwise goes on unless the disk refuses, and readers can always look. |
| `ProposalAttempts.AttemptIsRun` | app/discovery.py:338-402 | A call of the store, whatever fails in it, is a run of the protocol. |
| `ProposalAttempts.AttemptIsAtomic` | app/discovery.py:338-402 | All or nothing: the inbox afterwards is the one before or, exactly when the call published, what the abstract operation makes of it. |
| `ProposalAttempts.PublishesExactly` | app/discovery.py:302-362 | An accepted operation publishes if and only if the directory name is new, no blob collides with other bytes, and nothing fails at any step. |
| `ProposalAttempts.TornBlobBlocks` | app/discovery.py:325-335 | After a blob write that failed or was killed part way, at every later state of every run no import that owns the same bytes, as text or capture, publishes. |
| `Qualification.QualificationService.RecordExecution` | app/services/qualification.py:32-59 | Appends one terminal record for an execution, none if there is one, and rejects unknown provenance. |
| `Qualification.QualificationService.PrepareEpochForRun` | app/services/qualification.py:61-83 | The rows after a reset request, as the function whose writing condition and content ResetExactly and WritesExactly give from the calls alone. |
| `Qualification.QualificationService.DeliveryAllowed` | app/services/qualification.py:85-116 | The answer and the row it may append. |
| `Qualification.QualificationService.RecordOperatorPromotion` | app/services/qualification.py:118-131 | Appends the promotion, or rejects an experimental collector. |
| `Qualification.WritesExactly` | app/services/qualification.py:32-131 | Over every history of calls, when a call leaves a record and what it says, told from the calls alone: the first known execution, the first reset of a run whose collector changed, a question under another maturity set, a promotion of a collector that is not experimental; otherwise the rows stay. |
| `Qualification.ResetExactly` | app/services/qualification.py:61-83 | A run is reset if and only if its authority is known, it has not been reset, and its collector's latest execution or reset was under another revision, version or maturity set; a reset refuses delivery under every configuration. |
| `Qualification.NewRevisionResets` | app/services/qualification.py:71-83 | Concrete history: executed under one revision, prepared under the next, refused. |
| `Qualification.AllowedExactly` | app/services/qualification.py:32-131 | Over every history of calls under any configurations: allowed if and only if the collector is not experimental and the newest writer of its records was a scheduled execution or a promotion under the present maturity set. |
| `Qualification.RefusalStands` | app/services/qualification.py:85-116 | A refusal stands until a scheduled execution or promotion of that collector. |
| `Qualification.ResetBlocks` | app/services/qualification.py:61-112 | Every reset, for changed code or a changed maturity set, refuses delivery at once under every configuration. |
| `Qualification.AskingTwice` | app/services/qualification.py:94-112 | A changed maturity set is recorded once. |
| `Qualification.OneRecordPerExecution` | app/services/qualification.py:42-70 | At most one terminal record and one code-change reset for an execution, over every history. |
| `Controller.LocalCollectionController.Start` | app/main.py:1016-1025 | Granted exactly when nothing runs; a refused start changes nothing. |
| `Controller.LocalCollectionController.StartAll` | app/main.py:1027-1037 | The same for a batch. |
| `Controller.LocalCollectionController.FinishSingle` | app/main.py:1061-1065 | The end of a single run: not running, with the status of its last recorded run. |
| `Controller.LocalCollectionController.RunAll` | app/main.py:1067-1081 | The batch loop computes the jobs' results one after the other and closes; what that amounts to is BatchMeaning. |
| `Controller.BatchMeaning` | app/main.py:1067-1081 | RunAll's result: every job counted, a result for each collector and no other, that of its latest run, the good ones counted, and as many results as jobs if and only if no collector ran twice. |
| `Controller.BatchIsRun` | app/main.py:1027-1081 | RunAll is a run of the thread protocol: from any reachable state in which nothing runs, one launched batch thread ends in exactly its final state with no thread left. |
| `Controller.RunningExactly` | app/main.py:1004-1081 | Under every interleaving at most one thread is pending or live, it works on the job shown, and `running` is true exactly while there is one or after one was lost. |
| `Controller.BusyMeansWorkerExactly` | app/main.py:1016-1081 | `running` means a worker if and only if no thread was ever lost to an exception or a failed launch. |
| `Controller.LostIsFinal` | app/main.py:1016-1065 | After one lost thread the state never changes and every start is refused. |
| `Controller.NobodyIsStuck` | app/main.py:1016-1065 | Anything may be asked at any moment; a granted start is pending until launched or lost; only a launched thread works. |
| `Controller.LostThreadLocks` | app/main.py:1016-1065 | A thread that dies right after its start: nothing runs, `running` is true, both starts are refused. |
| `Controller.BatchAccounts` | app/main.py:1067-1081 | During a batch completed <= total, and completed equals the number of results if and only if no collector ran twice. |
| `Controller.DoubledJobCountsTwice` | app/main.py:1067-1081 | A batch naming one collector twice ends with two completed and one result, the second run's. |
| `Controller.BatchEndsComplete` | app/main.py:1077-1081 | The step that ends a batch leaves completed = total, a result for each collector, and the good ones counted. |
| `Controller.SingleEndsWithItsResult` | app/main.py:1061-1065 | The step that ends a single run leaves its collector shown with the result, under the result's own status, and no thread. |

## Left out

Idealisations that the theorems rest on:

- Text is ASCII where case mapping and white space matter; splitting an address into parts, HTML and feed parsing,
  regular expressions and JSON decoding are taken as given, their results being parameters.
- Digests: the address digest is an arbitrary function, injective only where a lemma says so; SHA-256 of evidence
  and of observation contents, the maturity epoch and the material identity are treated as determining what they
  digest. Directory names need not be fresh: a name that exists raises, as in the source.
- Missing texts of the Sentinel are empty strings (both read as false there); region, address and run id columns of
  identities and sightings, alert texts and display names are not modelled.
- HTTP, SQLAlchemy, the chat provider, the run lock and threads appear as outcomes or atomic steps.
- A sweep runs to completion: a process that dies inside one loses its rows while the alerts it posted stay
  posted, and exactly-once delivery across that is not claimed. An exception raised after the provider accepted a
  post is seen as a failure of that post.
- The class `SentinelStore` is sequential, so its `Admit` never loses a race; races are in `SentinelProtocol`,
  whose steps are snapshot, look-up, insert, record, alert and arming; titles, times and receipts are not in it.

Not modelled:

- `Delivery.PostDetailed`: a retry-after that is not a number (NaN) is not represented; pauses are real numbers.
- `Guarded.Deliver`: what the event or lead itself keeps of the delivery, and a notifier that answers with a bare boolean and leaves no attempt behind, are not modelled.
- `ProposalIntake.Prepare`: checks that concern one line alone (structure, producer metadata, path safety, literal passage, routing) are given by their outcomes; reading the export and authenticating the producer come before it.
- `ProposalStore.Store.ImportExport`: an interrupt that arrives after the pointer swap, which would make the handler delete the published directory, is not a possible fault; nor is a second writer, against which the source has no lock.
- `ProposalProtocol.ReadersSeeCommittedStates`: rows are a map by lead; the order of the inbox is not stated.
- `Selection.NoStarvation`: assumes a fixed catalogue without repeated addresses, and that a processed address is known to the next run.
- `InitialFill.WindowLaw`: assumes that a run's new-watch count is the number of unseen addresses it processed and that every run succeeds.
- `CitizenSearch.HonestServerServed`: the server's pages hold 48 hits; availability look-ups for new items are not modelled.
- `Controller.LocalCollectionController.Snapshot`: returns a value; the source's copy is one level deep, so a caller that renders it later may see results newer than its counters.
- The ceiling of 3000 inside the reused Casio collectors (`app/collectors/casio_jp_sitemap.py:82-83`), which holds whatever the Sentinel's own ceiling says.
- The pipeline, quality control, editorial scoring, parsers, dashboards, health labels, the health ping on a capped
  sweep, run rows, migrations and scripts: single-branch logic or output.
- Refresh of the Discovery producer (`app/discovery.py:405-451`): process control around `import_export`.
