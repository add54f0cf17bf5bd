# Verified model of the CMDB synchroniser

The program keeps a remote configuration database (CMDB) in step with the inventory of several clouds.
For one business system it lists hosts, clusters, middleware, EIPs and load balancers, makes sure that
every system node has its item, upserts an item per resource, deletes items that left the cloud, and
carries the domains of the web application firewall (WAF) to EIPs and nodes. Listings can come from a
snapshot cache in a database instead of the live API, system ids come from a counter file, and bills
are aggregated into one item per category.

The remote CMDB is a class with a store of items, ids that are never reused, exact-match queries, pages
that shift when items are deleted, and a fault oracle that lets any call work, be refused, or work with
its reply lost. Every pass is a method over that class; it produces a ghost log of the writes that took
effect. A log is *legal* when each write happens in a state in which the code would make it. Safety
results are about all legal logs, so they hold for any sequence of passes, any cloud lists and any
failures; results about convergence say what an error-free pass leaves. Passes are free of errors as
long as no call fails, every listed resource can be identified and the system has its item with upper
levels (`SystemSync.SyncSystem`).

What a run is for is stated from the cloud lists to the CMDB's items, without the steps in between: after
an error-free run every listed host, cluster, middleware instance, EIP and load balancer has an item that
shows its node and its columns (`Presence.SettledIsShown`), wherever a firewall row meets an EIP the EIP
shows the row's host and its node has a domain item for it (`SystemSync.BoundIsShown`), and what the lists
drop is left over for reconciliation (`Presence.LeftoverAre`, `Presence.Retires`).

| files | content |
|---|---|
| `common`, `text`, `decimal`, `values`, `rows` | shared notions, string helpers, numerals, field values, the merge that keeps non-empty values |
| `remote`, `ids`, `names`, `records`, `events` | the CMDB, identifiers, node names, cloud records, the writes |
| `safety`, `identity`, `twins`, `upsert`, `sweep`, `stats` | run invariants, when identities stay unambiguous and resources keep one item, idempotence, deletion while paging, counters |
| `passes`, `nodes`, `inventory`, `presence`, `converge` | the loops against the CMDB, what each listed resource gets and loses, repeated reconciliation |
| `codec`, `domains`, `domain_sync`, `domain_theory`, `domain_runs`, `patch`, `apply` | domain lists, domain items, EIP columns |
| `origins`, `group`, `bind`, `bind_laws` | the WAF binding |
| `system` | one whole run, and two in a row |
| `allocator` | the system id counter |
| `snapshot`, `pull`, `load` | the snapshot cache |
| `billing`, `billing_sync`, `metrics`, `tags` | bills, metric series, tags |

What the proofs say about the code that its documentation does not:

- Deleting while paging can leave orphans behind. One error-free run at least halves them, and exactly
  half can remain. Where the listed items stand for different resources and are of the reconciled types,
  one run is sure to clear them exactly when the kind's listing fits a page (`Sweep.RunHalves`,
  `Sweep.HalfRemains`, `Converge.OneRunClearsIff`).
- The instance-id-first lookup of middleware can make two items share a uuid. The stores from which no
  run ever gets there are exactly those in which no uuid, instance id or node name is shared and every
  middleware item that a lookup can find carries the uuid derived from its instance id
  (`Identity.StaysClearIffUnique`; in general `Identity.StaysClearIff`).
- A resource can get a second item, which no reconciliation removes: the lookup by text misses an item
  that spells the uuid otherwise (`Twins.OddSpellingDoubles`). The stores from which no run ever gets
  there are exactly those without such a pair in which every uuid that parses is spelled canonically
  and, for middleware, every findable item carries its derived uuid (`Twins.StaysSingleIff`).
- A cloud list that repeats a uuid is harmless exactly when the repetitions agree, as long as no record
  wants the text a stored list prints as and, for middleware, items are unambiguous
  (`Upsert.PassSettlesIff`). A list with a contradiction finds something to write on every pass
  (`Upsert.DisagreementNeverSettles`).
- Whatever the store was like, a run leaves an item without its node that had one exactly when an upsert
  names a node that is not there by then and that its item did not name before; the pass goes ahead
  after a failed node step, when this can happen (`Safety.StraysIff`, `Safety.GroundIsNeeded`).
- A billing category that should have no item loses one item per run, so duplicates outlive the run
  (`BillingSync.SettlesIff`, `BillingSync.ZeroCounts`).
- An EIP whose bound domains contain "," or "、" is rewritten on every run (`Patch.PatchTwice`), and one
  whose domains come in another order is rewritten once more (`Patch.PatchSeesOrder`).
- A bare IPv6 origin whose last group is decimal loses that group (`Origins.BareAddress`).
- Certificate jobs are wrong as soon as a matched account name contains "|" (`BindLaws.CertJobsExact`).
- The overflow entry of a failure list always says that one failure is missing, which is right only as
  long as there are 101 (`Stats.OverflowEntry`).
- Rounding an amount of minus one and a half cents or less a second time moves it by another cent
  (`Billing.RoundTwice`).
- When a database row holds the last 64-bit number, each allocation returns the same id
  (`Allocator.WrapRepeats`).

## Model

| member | source | states |
|---|---|---|
| Values.EncodeKeepsContent | internal/cmdb/client.go:204-225 | encoding a value that is not empty in the sense of the sync rules never yields an empty one |
| Values.EncodeList | internal/cmdb/client.go:204-225 | the encoding loop yields the trimmed non-blank elements joined by commas |
| Values.NumbersTold | internal/cmdb/metrics_cmp.go:11-38 | change detection tells different integers apart, different hundredths too, and takes an integer and a decimal for the same exactly when they are equal; no number compares as blank |
| Values.TextsTold | internal/cmdb/metrics_cmp.go:11-38 | texts compare equal iff they are equal up to outer white space; a missing column compares like a blank one |
| Rows.MergePreserveNonEmpty | internal/cmdb/sync_preserve.go:43-63 | the merge loop keeps the wanted columns and lets a CMDB value win exactly over an empty cloud value; nil arguments as in the source |
| Rows.CiChanged | internal/cmdb/sync.go:1551-1558 | true iff some wanted column differs from the row under the comparison projection |
| Rows.WrittenKeepsContent | internal/cmdb/sync_preserve.go:6-63 | a column that holds something still does after an update with the merge of any wanted row |
| Rows.WrittenIsSettled | internal/cmdb/sync_preserve.go:43-63 | merging the same wanted row with the row just written asks for no further change |
| Remote.FirstHeads | internal/cmdb/client.go:89-125 | the first-item lookup and the head of the paged listing are the same item |
| Remote.ListingWithout | internal/cmdb/sync.go:552-605 | deleting items removes them from every listing and keeps the order of the others, so later pages shift |
| Remote.Cmdb.GetCi | internal/cmdb/client.go:70-87 | a page of the items a query hits, in id order, from the state at the time of the call |
| Remote.Cmdb.AddCi | internal/cmdb/client.go:199-202 | a new item under a fresh id, or nothing; success implies it took effect, failure does not imply it did not |
| Remote.Cmdb.UpdateCi | internal/cmdb/client.go:257-268 | the given columns are overwritten, or nothing happens |
| Remote.Cmdb.DeleteCi | internal/cmdb/client.go:270-287 | the item is removed, or nothing happens |
| Ids.MiddlewareUuid | internal/cmdb/sync.go:471-483 | defined exactly on non-blank ids, canonical, and equal to the parsed uuid where there is one |
| Ids.CanonRoundTrip | internal/cmdb/sync.go:455-483 | a canonical uuid written and read back denotes itself |
| Names.EffectiveFacts | internal/cmdb/sync.go:609-632 | a node name is trimmed, never blank and starts with its cloud and region |
| Names.TagKept | internal/cmdb/sync.go:609-632 | for every cloud, region and tag the name ends in the trimmed tag |
| Names.TagsTold | internal/cmdb/sync.go:609-632 | two tags that do not start with cloud and region give the same name iff they are equal once trimmed |
| Names.CloudLeads | internal/cmdb/sync.go:609-632 | what stands before the first dash of a name is the cloud's label, exactly unless the region is blank and the tag runs on from the cloud |
| Names.CloudsTold | internal/cmdb/sync.go:609-632 | so nodes of different named clouds have different names |
| Names.EffectiveIdempotent | internal/cmdb/sync.go:609-632 | a finished node name used as tag is kept |
| Names.FormatIsEffective | internal/envtags/node_display.go:26-45 | the display string of the list view is already the node name |
| Names.SplitOfEffective | internal/cmdb/sync.go:634-661 | splitting a node name with its region as hint returns cloud and region exactly unless the tag runs on from them without a dash |
| Names.SplitWithoutRegion | internal/cmdb/sync.go:634-661 | without a region the split shows the tag in its place |
| Records.NodeOf | internal/resourcecache/keys.go:53-83 | no resource has a blank node name |
| Records.TenantCloud | internal/cmdb/sync.go:1510-1538 | the node of an EIP or load balancer starts with the cloud its provider text names, whatever its case and outer white space; other texts read as Huawei |
| Records.LocatedShows | internal/cmdb/sync.go:1219-1221 | hosts and clusters show their cloud and region, exactly unless the tag runs on |
| Records.HostSound | internal/cmdb/sync.go:1202-1326 | a host record that is upserted has a canonical uuid, its system, a node name and columns that survive the wire |
| Records.ClusterSound | internal/cmdb/sync.go:1121-1200 | the same for clusters |
| Records.MiddlewareSound | internal/cmdb/sync.go:1328-1481 | the same for middleware, with the uuid derived from the instance id |
| Records.EipSound | internal/cmdb/sync.go:1585-1663 | the same for EIPs, nil and blank entries ignored |
| Records.ElbSound | internal/cmdb/sync.go:1665-1740 | the same for load balancers |
| Records.MergeNodeKeys | internal/cmdb/sync.go:411-453 | the node map gets exactly the node names of the listed resources, each with the region of one of them |
| Records.UuidSet | internal/cmdb/sync.go:485-539 | the set of live uuids holds exactly the canonical uuids of the listed ids that have one |
| Presence.HostsRecorded | internal/cmdb/sync.go:1202-1326 | each listed host with an address and a uuid gets a record with that uuid, its node, its attributes and its cloud and region; no other host gets one |
| Presence.ClustersRecorded | internal/cmdb/sync.go:1121-1200 | the same for clusters with a name and a uuid, with the cluster's own uuid column |
| Presence.MiddlewareRecorded | internal/cmdb/sync.go:1328-1481 | the same for middleware with a name and an instance id, with cloud and region in each other's columns, the trimmed instance id and the resource type |
| Presence.EipsRecorded | internal/cmdb/sync.go:1585-1663 | the same for EIPs whose id is a uuid |
| Presence.ElbsRecorded | internal/cmdb/sync.go:1665-1740 | the same for load balancers whose id is a uuid |
| Presence.SettledIsShown | internal/cmdb/sync.go:1121-1740 | once all records are settled, every listed resource that gets one has an item of its kind and system that shows its uuid, its node and each filled column, up to change detection |
| Presence.NoneRejectedIff | internal/cmdb/sync.go:1138-1740 | a pass turns no listed resource down iff each that has the address, name or id its kind asks for also has a uuid (middleware: an instance id) |
| Presence.KeptAre | internal/cmdb/sync.go:485-539 | reconciliation keeps exactly the uuids of the listed resources, those without a record included |
| Presence.LeftoverAre | internal/cmdb/sync.go:541-607 | what a list leaves over are exactly the items of its kind and system whose uuid parses and is that of no listed resource; of middleware exactly those of the three types that the middleware lists carry |
| Presence.Retires | internal/cmdb/sync.go:285-327 | the item of a resource that was shown, of middleware with its resource type, is left over as soon as the lists drop the uuid |
| Events.RunAppend | internal/cmdb/sync.go:281-328 | passes in sequence are one run, legal if each part is |
| Safety.UniqueRun | internal/cmdb/sync.go:1355-1405 | over every legal run no two items of a kind and system share a uuid or a middleware instance id, and the uuids of findable middleware items stay derived from their instance ids |
| Safety.ClearStep | internal/cmdb/sync.go:1355-1405 | from a store without ambiguous items, a write makes two items ambiguous iff it is an update that gives its item a uuid another item shows |
| Identity.StaysClearIff | internal/cmdb/sync.go:1355-1405 | all legal runs keep identities unambiguous iff they are unambiguous now and, for each findable middleware item without its derived uuid, no other item shows that uuid and no other instance id leads to it |
| Identity.StaysClearIffUnique | internal/cmdb/sync.go:455-483 | where every uuid has a second spelling, as in RFC 4122, this holds iff nothing is ambiguous now and every findable middleware item carries its derived uuid |
| Identity.StrayClashes | internal/cmdb/sync.go:1355-1405 | a store of two unambiguous items that some legal run makes ambiguous |
| Twins.StaysSingleIff | internal/cmdb/sync.go:1202-1481 | all legal runs leave each resource of a kind with at most one item iff none has two now, every item of a system whose uuid parses spells it canonically and, for middleware, every findable item carries its derived uuid; for middleware where every uuid has a second spelling |
| Twins.FitRun | internal/cmdb/sync.go:1202-1481 | that condition is kept by every legal run, for every parser |
| Twins.OddSpellingDoubles | internal/cmdb/sync.go:1202-1326 | a store with one item in another spelling: the upsert of its resource creates a second item, and reconciliation over the same list deletes neither |
| Safety.IsolationRun | internal/cmdb/sync.go:541-607 | a run of one system leaves every item of other systems as it was |
| Safety.NoRebirth | internal/cmdb/sync.go:541-607 | a deleted item never comes back under its id |
| Safety.ContentRun | internal/cmdb/sync_preserve.go:6-63 | over every legal run a non-empty column of an item stays non-empty as long as the item exists, domain_name included |
| Safety.NodeRun | internal/cmdb/sync.go:1007-1118 | no step of any run removes or renames a system node |
| Safety.StrayStepIff | internal/cmdb/sync.go:274-329 | from any store, a write leaves no item without its node that was not so before iff it names a node that is there, or the one its item names already |
| Safety.StraysIff | internal/cmdb/sync.go:274-329 | from any store, no state of a legal run has an item without its node that the state before had not, iff each upsert is such a write when it is made |
| Safety.StraysRun | internal/cmdb/sync.go:274-329 | over such a run every item has its node, or lacked it at the start and was left in its place |
| Safety.GroundIsNeeded | internal/cmdb/sync.go:281-296 | the concrete case: in an empty CMDB, the upsert that follows a failed node step leaves an item without node |
| Upsert.UpsertedSettles | internal/cmdb/sync.go:1202-1326 | after an error-free turn the record's item is found and needs no change |
| Upsert.SettledStable | internal/cmdb/sync.go:1328-1481 | upserting a record leaves records with other uuids settled, whatever lookup each uses |
| Upsert.PassSettles | internal/cmdb/sync.go:1202-1326 | after an error-free pass over a list whose repetitions agree every record is settled; with repetitions, no record may want the printed form of a stored list |
| Upsert.PassIdempotent | internal/cmdb/sync.go:1202-1326 | a second error-free pass over such a list leaves the store alone |
| Upsert.PassSettlesIff | internal/cmdb/sync.go:1202-1481 | after an error-free pass nothing is left to write iff any two records of one uuid agree, up to change detection, in every column that both fill; for middleware over unambiguous items, and with no record that wants the printed form of a stored list |
| Upsert.DisagreementNeverSettles | internal/cmdb/sync.go:1202-1481 | a list with a disagreement has something to write in every state, so on every pass |
| Upsert.SettledNotOrphan | internal/cmdb/sync.go:541-607 | the item of a settled record is no orphan of a reconciliation that keeps its uuid |
| Upsert.OtherKinds | internal/cmdb/sync.go:281-328 | writes to one kind leave the items of every other kind unchanged |
| Sweep.RunHalves | internal/cmdb/sync.go:552-605 | when no call fails a run removes at least half of the orphans it starts with, keeps all other items in order, and removes one if there is one |
| Sweep.RunsHalve | internal/cmdb/sync.go:552-605 | n error-free runs leave at most a 2^n-th of the orphans |
| Sweep.RunsConverge | internal/cmdb/sync.go:552-605 | as many runs as the orphan count has binary digits leave none |
| Sweep.OneRunIff | internal/cmdb/sync.go:552-605 | one error-free run clears a listing of whatever is bad in it iff the listing fits a page |
| Sweep.HalfRemains | internal/cmdb/sync.go:552-605 | with two full pages of orphans one run leaves exactly the second page, so the bound is tight |
| Sweep.AllBadIff | internal/cmdb/sync.go:552-605 | a listing of orphans only is cleared iff it fits a page |
| Sweep.FrozenPagesClear | internal/cmdb/sync.go:552-605 | one run would suffice if pages did not shift |
| Converge.ReconcileOnce | internal/cmdb/sync.go:541-607 | an error-free reconciliation is such a run, and it deletes something whenever there is an orphan |
| Converge.OrphansHalve | internal/cmdb/sync.go:541-607 | in terms of the store: at most half of the orphans remain and every other item is as it was |
| Converge.OneRunClearsIff | internal/cmdb/sync.go:541-607 | in a store whose listed items stand for different resources and are of the reconciled types, one error-free run leaves no orphan, whatever the cloud lists, iff the kind's listing fits a page |
| Converge.CrowdCleared | internal/cmdb/sync.go:541-607 | a store with n items of a resource that left the cloud is rid of them after one run iff n is at most the page size |
| Converge.OrphansRun | internal/cmdb/sync.go:541-607 | no legal run makes an orphan as long as the records it upserts are kept |
| Converge.OrphansVanish | internal/cmdb/sync.go:541-607 | after n error-free reconciliations at most a 2^n-th of the orphans is left in the store |
| Passes.Syncer.UpsertOne | internal/cmdb/sync.go:1202-1326 | one turn makes at most one write, the one the code would make; error-free it yields the upserted store, and nothing on a settled record; added counts the records without item, updated those whose item had to change, skipped the settled ones, and an error is listed under the resource's id; without failing call there is none |
| Passes.Syncer.UpsertPass | internal/cmdb/sync.go:1138-1481 | the loop over any kind: a legal run, counters that add up to the eligible records, the fold of upserts when error-free; no write when all is settled, and an error-free pass without write only then; without failing call it is error-free iff no resource is turned down |
| Passes.Syncer.DropOne | internal/cmdb/sync.go:567-603 | an item goes only if its type is listed, its uuid parses and is outside the cloud set |
| Passes.Syncer.Reconcile | internal/cmdb/sync.go:541-607 | whatever fails only orphans go, nothing happens on an empty cloud set or blank system, deletions and errors are counted, and error-free the listing is what one sweep leaves; the loop terminates, without error if no call fails |
| Nodes.AddSystemNodes | internal/cmdb/sync.go:1007-1118 | error-free every node of the map has its CI and the CI shows the administrator; a second pass writes nothing; one counter per node; without failing call it is error-free if the system has its item with upper levels |
| Nodes.AddNode | internal/cmdb/sync.go:1007-1118 | one turn writes at most that node's CI; a created one shows the split of its name, the system's name, the administrator and the product, product line and business domain above its system, and none is created without them; without failing call there is an error iff the node is missing and these are too |
| Nodes.ReadLevels | internal/cmdb/sync.go:1066-1081 | of several upper levels of one type the last reported one counts |
| Nodes.StandingIs | internal/cmdb/sync.go:1066-1081 | product, product line and business domain are the printed names of the last reported level of each type, empty where there is none |
| Nodes.NodeShowsPlace | internal/cmdb/sync.go:1007-1118 | a created node shows the cloud and region it was collected from, exactly unless the tag runs on |
| Stats.ComponentStats.NoteError | internal/cmdb/sync_failures.go:28-50 | one more error and nothing else counted; all earlier entries kept; the id recorded iff not blank; the failure listed under its trimmed id with a non-blank reason while there are fewer than 100, at most one entry later; never more entries than errors |
| Stats.FailuresBounded | internal/cmdb/sync_failures.go:28-61 | under any mix of errors and merges failed ids and failures are at most as many as errors, and there is a failure iff there is an error |
| Stats.OverflowEntry | internal/cmdb/sync_failures.go:28-50 | before merges the list has one entry more than 100 once there are more errors, and that entry states the number of unlisted failures iff there are 101 errors |
| Stats.OverflowCountsOne | internal/cmdb/sync_failures.go:28-50 | before merges the list is complete up to 100 errors, and the entry after them always counts one |
| Stats.TotalErrors | internal/cmdb/sync_log.go:82-89 | the sum over the components plus the sum over the middleware types, in whatever order the map is walked; zero iff none has an error |
| Stats.StatusOf | internal/cmdb/sync_log.go:34-50 | failed iff some component has an error, although middleware is counted twice |
| Stats.TypesWithinNoted | internal/cmdb/sync.go:1328-1345 | noting a middleware error raises the component and the sum over the types by one each, so the sum never exceeds the component |
| Codec.DomainNames | internal/cmdb/waf_sync.go:167-183 | the loop keeps the trimmed non-blank domains, each once, in order of appearance |
| Text.CleanListGrows | internal/cmdb/waf_sync.go:167-183 | what follows in a list only adds to its clean form, so each domain stands where it first appears |
| Codec.RoundTripIff | internal/cmdb/waf_sync.go:185-234 | a clean list survives writing and reading, in order, iff no domain contains a separator |
| Codec.EnumRoundTrip | internal/cmdb/waf_sync.go:211-234 | a list of several domains separated by enumeration commas is read back, ASCII commas inside its elements included |
| Codec.ParsedIsClean | internal/cmdb/waf_sync.go:185-234 | whatever is stored, the parsed list is trimmed, non-blank and distinct |
| Domains.ListDomains | internal/cmdb/domain_sync.go:17-58 | reading page by page yields the map of the whole listing |
| Domains.ListedTexts | internal/cmdb/domain_sync.go:17-58 | the map has exactly the non-blank texts in use, each with the highest of its items |
| Domains.Plan | internal/cmdb/domain_sync.go:60-76 | additions are the wanted texts without item, in order; deletions the mapped texts that are not wanted, each once |
| Domains.MissingMembers | internal/cmdb/domain_sync.go:60-76 | a text is added iff it is wanted and has no item, and once |
| Domains.MissingGrows | internal/cmdb/domain_sync.go:60-76 | additions keep the wanted order |
| DomainSync.AddDomains | internal/cmdb/domain_sync.go:118-133 | error-free the store gains one item per text, in order, under the node, and nothing else changes |
| DomainSync.DropDomains | internal/cmdb/domain_sync.go:135-149 | error-free exactly the mapped items of the texts are gone |
| DomainTheory.RunSyncs | internal/cmdb/domain_sync.go:79-151 | additions and deletions by plan give every wanted text an item and take one item from every unwanted text; items that stay keep every column, blank ones stay, new ones are the node's and carry a wanted text that had none |
| DomainRuns.ReconcileNodeDomains | internal/cmdb/domain_sync.go:79-151 | nothing changes without the node's CI, or when no domain is wanted while the node shows some; otherwise an error-free run leaves an item for every wanted text, the items it had if there were any, and one item less for every other text; nothing changes once converged; without failing call there is no error |
| DomainRuns.RunConverges | internal/cmdb/domain_sync.go:79-151 | from unique texts one run leaves exactly the wanted set, still unique |
| DomainRuns.RunLeavesOthers | internal/cmdb/domain_sync.go:79-151 | other nodes, systems and kinds keep their items |
| DomainRuns.UnwantedCounts | internal/cmdb/domain_sync.go:79-151 | a text with m items has m - n left after n runs |
| DomainRuns.WantedStays | internal/cmdb/domain_sync.go:79-151 | a wanted text has items after the first run and keeps them |
| DomainRuns.ChainConverges | internal/cmdb/domain_sync.go:79-151 | n runs converge iff no unwanted text had more than n items |
| Patch.PatchDomainName | internal/cmdb/waf_sync.go:295-350 | one legal patch or none; never with an empty list; a skip when the item already says so |
| Patch.PatchTwice | internal/cmdb/waf_sync.go:295-350 | the second patch is a skip iff the first was, or no domain contains a separator |
| Patch.PatchSeesOrder | internal/cmdb/waf_sync.go:236-248 | after writing one list another is skipped only if it is the same sequence |
| Patch.PatchEips | internal/cmdb/waf_sync.go:266-289 | the loop patches each key once, counts once per key, and writes nothing when no item would change |
| Patch.PatchedSays | internal/cmdb/waf_sync.go:266-289 | after an error-free loop the item of each listed EIP reads back exactly the domains bound to its key, unless one of them contains a separator |
| Patch.UnboundStays | internal/cmdb/waf_sync.go:266-289 | the item of a key without bound domains is left as it was |
| Patch.PatchesSettle | internal/cmdb/waf_sync.go:266-350 | a second loop writes nothing iff every list that was written is free of separators |
| Patch.PatchesAgree | internal/cmdb/waf_sync.go:337-341 | patches change no column but domain_name |
| Apply.SyncNodes | internal/cmdb/domain_sync.go:153-178 | error-free every listed EIP's node is done and all other nodes look as before |
| Apply.QuietAfter | internal/cmdb/domain_sync.go:153-178 | a node needs no further write iff it was left alone or no unwanted text had two items |
| Apply.ApplyBindings | internal/cmdb/waf_sync.go:266-293 | error-free, from the two row lists alone: the item of each listed EIP reads back the domains gathered under its key, in order, unless one contains a separator, and stays as it was when there are none; the node of each listed EIP, if it has its CI, has an item for every domain gathered under it and one item less for every other text, and stays as it was without domains or CI; a second application writes nothing when all is quiet; without failing call there is no error |
| Origins.ParseOriginIps | internal/wafbind/bind.go:176-192 | the loop keeps the distinct non-blank addresses of the comma-separated servers, in order |
| Origins.OriginListed | internal/wafbind/bind.go:176-192 | an address is listed iff some server entry parses to it |
| Origins.PortRoundTrip | internal/wafbind/bind.go:162-174 | an address printed with a port parses back to the address |
| Origins.BareAddress | internal/wafbind/bind.go:162-174 | an address without port is kept iff its last colon is not followed by an integer |
| Group.AppendUnique | internal/wafbind/bind.go:203-223 | both loops together append exactly the new trimmed non-blank strings |
| Group.AppendedIsClean | internal/wafbind/bind.go:203-223 | appending goes on with the clean list where the base ends |
| Group.FilledHolds | internal/wafbind/bind.go:128-133 | under each key the table lists exactly what was entered under it, once |
| Group.FilledGrows | internal/wafbind/bind.go:128-133 | more entries only add to a list, so texts stand in the order in which they were entered |
| Group.RowsOf | internal/wafbind/bind.go:137-147 | turning a table into rows and gathering them again gives the table, in whatever order the map is walked |
| Group.MapOf | internal/cmdb/waf_sync.go:254-264 | the rows gathered into a map of clean lists |
| Bind.PairsMembers | internal/wafbind/bind.go:94-122 | the nested loops visit exactly the relational join of allowed rows and EIPs on the public address |
| Bind.BuildIsJoin | internal/wafbind/bind.go:81-160 | under each EIP key, node or certificate key are exactly the trimmed hosts of the named rows of allowed accounts for which some listed server parses to the public address of a listed EIP filed under that key, each once; other keys are absent |
| Bind.BoundGrows | internal/wafbind/bind.go:94-135 | more rows only add to a list, so hosts stand in the order of their rows |
| Bind.EipTableNode | internal/wafbind/bind.go:123-128 | an EIP row carries its key and the node of the first match |
| Bind.Build | internal/wafbind/bind.go:85-135 | the loops fill the three tables from the join |
| BindLaws.OrderDoesNotMatter | internal/resourcecache/waf_snapshot.go:142-161 | any order of the same rows gives the same keys and the same domains per key |
| BindLaws.FilterRows | internal/wafbind/filter.go:23-40 | the filter loop keeps the rows of the trimmed account names, or nothing when none is left |
| BindLaws.LiveAgreesWithSnapshot | internal/resourcecache/waf_snapshot.go:120-129 | for configured accounts, binding the filtered rows equals binding all rows |
| BindLaws.FilterAgreesIff | internal/wafbind/filter.go:12-40 | the two paths agree on all rows and EIPs iff there is an account and the list holds each name's trimmed form |
| BindLaws.CertKeyRoundTrip | internal/wafbind/bind.go:148-158 | the joined certificate key splits back into account and name iff the account has no bar |
| BindLaws.CertJobs | internal/wafbind/bind.go:148-158 | a job per table entry, under the account and name its key splits into |
| BindLaws.CertJobsExact | internal/wafbind/bind.go:130-158 | the jobs name exactly the matched accounts, certificates and domains iff no matched account contains a bar |
| BindLaws.CertKeysCollide | internal/wafbind/bind.go:130-133 | two different certificates with one key |
| Inventories.CandUuid | internal/cmdb/sync.go:485-539 | the uuid a pass writes is the one reconciliation computes from the same id |
| Inventories.CandNode | internal/cmdb/sync.go:411-453 | the node a record names is in the collected map |
| Inventories.KeepCovers | internal/cmdb/sync.go:485-539 | reconciliation keeps the uuid of every record the pass upserts |
| Inventories.SyncKind | internal/cmdb/sync.go:285-304 | pass and reconciliation of one kind: settled after an error-free step over agreeing lists; what the list leaves over never grows and halves in an error-free step; over settled records only that goes |
| Inventories.NothingLeftOver | internal/cmdb/sync.go:541-607 | the resource of every settled record has an item, and no orphan is left iff all resources that items of the reconciled types stand for are listed |
| SystemSync.EipCutQuiet | internal/cmdb/sync.go:300-322 | deleting orphan EIPs does not make the WAF step write, unless an EIP id is cut right behind a space |
| SystemSync.WafSettles | internal/cmdb/waf_sync.go:266-293 | where an error-free WAF step ends, another one writes nothing iff the step wrote no list with a separator and no node it brought in line had two items for an unwanted domain |
| SystemSync.WafStep | internal/cmdb/waf_sync.go:43-56 | bind and apply: legal, within the system, integrity kept, inventory left settled; error-free, wherever a row meets an EIP the EIP shows exactly the hosts that meet its key, as long as no host name holds a separator, and its node has a domain item for each of its hosts and one item less for every other text |
| SystemSync.BoundIsShown | internal/cmdb/waf_sync.go:43-56 | from the binding tables to the rows and EIPs themselves: what the applied tables hold is what the meeting rows say |
| SystemSync.SyncSystem | internal/cmdb/sync.go:274-329 | a whole run is legal and within its system and keeps identities unique; after a clean node step every item has its node or lacked it before and stayed in place, and every node shows the administrator; what each kind's list leaves over never grows, and halves when error-free; error-free over agreeing lists every listed resource that can be identified has an item with its node and its columns, and the node exists; error-free, the hosts of the firewall rows are shown as in the firewall step; without failing call, and with the system's item and its levels in place, a run is error-free iff every listed resource can be identified; the run is finished iff the lists agree and the WAF step fitted the store in which it began; a finished store only loses orphans |
| SystemSync.SyncTwice | internal/cmdb/sync.go:274-329 | after an error-free run the second run adds and updates nothing, whatever its calls do |
| Allocator.MaxSuffixInUse | internal/configstore/store.go:517-563 | the loop returns the largest 64-bit suffix among the ids with the prefix, 0 if there is none |
| Allocator.SuffixOfFormat | internal/systemidseq/store.go:79-80 | the database parser reads back what the printer wrote, for every 64-bit number |
| Allocator.FormatSpelled | internal/systemidseq/store.go:52-80 | an id is the kind asked for, trimmed and in upper case, a dash and the number, in exactly six digits below one million and at least six otherwise |
| Allocator.ContentOfLine | internal/systemidseq/store.go:87-107 | the counter file reads back what was written |
| Allocator.Store.Next | internal/systemidseq/store.go:45-85 | with failing, partial and interrupted calls and a database that changes between them, the counter is replaced by the next number or kept, and an id is returned only once it is on disk, spelled with the kind asked for and that number; when no call fails, an id is returned iff the kind is known and the counter readable |
| Allocator.FreshIff | internal/systemidseq/store.go:75-80 | the next number exceeds the counter and is absent from the database iff the running maximum is below 2^64 - 1 |
| Allocator.CounterStep | internal/systemidseq/store.go:45-85 | a call never lowers a counter, and what it returns is new to file and database |
| Allocator.NeverReissued | internal/systemidseq/store.go:45-117 | over every run numbers strictly increase per series and no id is returned twice, deleted systems, crashes and restarts included |
| Allocator.WrapRepeats | internal/systemidseq/store.go:75-80 | at the last 64-bit number the same id is returned again and again |
| Snapshot.Database.Replace | internal/resourcecache/replace.go:31-58 | the section becomes exactly the new rows or nothing changes; empty input, duplicate keys and failed statements change nothing; it succeeds when nothing fails and keys are distinct |
| Snapshot.Database.ReplaceDomains | internal/resourcecache/waf_snapshot.go:80-118 | both sections are replaced together or not at all |
| Snapshot.ReplacedSections | internal/resourcecache/replace.go:46-57 | a committed replacement leaves exactly the new rows there and every other section untouched |
| Snapshot.LastGood | internal/resourcecache/replace.go:31-58 | over every run, domain replacements in between included, a section holds its last committed replacement, or what it began with |
| Snapshot.NeverEmptied | internal/resourcecache/replace.go:37-39 | a section that held rows never becomes empty, unless it is a domain section |
| Snapshot.DomainsMayEmpty | internal/resourcecache/waf_snapshot.go:92-117 | the WAF domain sections take any result, the empty one included |
| Pulls.KeyIsCmdbUuid | internal/resourcecache/keys.go:75-100 | snapshot keys are the uuids that the CMDB passes write; what is no uuid is keyed by its trimmed text, cut at 128 characters, unless it is middleware |
| Pulls.BuildRows | internal/snapshotrun/pull.go:41-60 | a row is made iff some listed entry has that key, not blank, and that payload |
| Pulls.RowsAre | internal/snapshotrun/pull.go:41-60 | the rows of a listing are exactly the keys and payloads of its keyed, marshallable entries |
| Pulls.PullOneSystem | internal/snapshotrun/pull.go:32-284 | for each of the seven tables: a successful pull leaves exactly the listed keys and payloads in the system's section, and an unsuccessful one either that or what was there; a failed listing, or one without keyed and marshallable entries, changes nothing; no other section changes; it succeeds when nothing fails and keys are distinct |
| Load.LoadSection | internal/resourcecache/load.go:20-41 | the rows of the section by ascending key; read whenever no statement fails |
| Load.LeDecides | internal/resourcecache/load.go:23-23 | the first character that differs decides the order, and a key comes before its continuations |
| Load.LoadsBack | internal/resourcecache/load.go:20-41 | what is read is the last committed list, each row once |
| Load.OrderedUnique | internal/resourcecache/load.go:23-23 | the key order determines the sequence that is read |
| Billing.RoundBound | internal/billingagg/category.go:186-189 | rounding errs by at most half a cent from zero up and raises negative amounts by less than one and a half |
| Billing.RoundTwice | internal/billingagg/category.go:186-189 | rounding twice is rounding once iff the amount is above minus one and a half cents |
| Billing.Aggregate | internal/billingagg/category.go:191-256 | one row per category with lines, display order first, with its rounded sum and line count; before rounding the sums add up to the total and the counts to the lines present |
| Billing.DisplayedInOrder | internal/billingagg/category.go:220-234 | of two categories with lines the one shown first is the one that stands first in the display order |
| Billing.PartsAddUp | internal/billingagg/category.go:201-216 | sums and counts add up over parts of a bill, and a line counts once, with its fee, in its own category |
| Billing.Conservation | internal/billingagg/category.go:201-216 | category sums add up to the raw total and counts to the number of lines |
| Billing.RoundingDrift | internal/billingagg/category.go:221-255 | with k categories of non-negative sums the rounded total is within (k + 1) / 2 cents of the rounded rows |
| BillingSync.WriteBills | internal/cmdb/sync.go:1755-1879 | over any ledger: error-free, each category with a non-zero amount gets its first item right and keeps the others, each other category loses its first item, and it writes nothing iff all was as wanted; items of other keys stay; counters add up to the rows; without failing call there is no error |
| BillingSync.BillsShown | internal/cmdb/sync.go:1761-1860 | after an error-free pass the first item under the system, month, account and category of each row that does not round to zero shows the printed number of lines and the amount, and where it was written the row's currency, else the bill's, else CNY |
| BillingSync.ZeroGoes | internal/cmdb/sync.go:1761-1860 | under the key of each row that rounds to zero there is one item less |
| BillingSync.SettlesIff | internal/cmdb/sync.go:1755-1879 | after an error-free pass everything is as wanted iff no category whose amount rounds to zero had more than one item |
| BillingSync.ZeroCounts | internal/cmdb/sync.go:1755-1879 | such a category with m items has m - n left after n error-free passes |
| Metrics.ChunkIds | internal/huaweices/ces.go:186-204 | batches give the ids back in order and stay within the metric budget when one instance does; no batch before the last has room for another instance |
| Metrics.KeyInjective | internal/huaweices/ces.go:62-68 | without NUL a query key determines dimension values and metric |
| Metrics.KeysAgree | internal/huaweices/ces.go:114-125 | a response is filed under its query's key iff no dimension value is blank, one empty value excepted |
| Metrics.BatchQuery | internal/huaweices/ces.go:70-128 | all batches together collect the series of all queries under their response keys, in as many calls as ten queries a call need; it succeeds iff every call made does |
| Metrics.SeriesOfQuery | internal/huaweices/ces.go:62-128 | with distinct queries free of NUL and blank values each query finds exactly its own series under its key |
| Metrics.UsableAre | internal/huaweices/ces.go:138-172 | the usable points are the present values, each as often as it occurs |
| Metrics.SumAppend | internal/huaweices/ces.go:138-172 | the sum adds up over parts and over one value is that value |
| Metrics.PeakAvgMin | internal/huaweices/ces.go:138-172 | minimum and peak are attained bounds of the points that have a value, the average is their mean and lies between; it fails iff no point has one |
| Tags.MergePreferPrimary | internal/huaweitags/display.go:103-126 | the two loops compute the first-wins merge |
| Tags.MergeAssociative | internal/huaweitags/display.go:103-126 | merging is associative |
| Tags.MergeIdempotent | internal/huaweitags/display.go:103-126 | a merged list merged with itself or nothing is unchanged |
| Tags.MergeDistinct | internal/huaweitags/display.go:103-126 | keys of a merge are distinct, ignoring case |
| Tags.LookupOfMerge | internal/envtags/lookup.go:5-20 | looking a non-blank key up in a merge is looking it up in the first list that has it |
| Tags.MergeRds | internal/huaweitags/display.go:61-82 | the merge of user tags with the listed tags outside the system keys |
| Tags.NoSystemTags | internal/huaweitags/display.go:61-82 | a key is shown iff a user tag has it, or a listed tag has it and no system tag does |

## Left out

- HTTP, request signing, JSON and protobuf encoding, logging, environment variables, timers and the daily schedule: plumbing around the logic modelled here. Listings, marshalled payloads and service answers are inputs.
- Cloud SDK calls: their results are arbitrary lists or failures.
- UUID parsing (section 3 of RFC 4122) is a function onto canonical forms, undefined on texts longer than the URN form; name-based uuids (section 4.3 of RFC 4122) are a function into them; the library that computes them is not part of this model. Random uuids are an input.
- SQL text, collations and migrations: a table is a map from its key, a transaction works on a copy. Keys are compared and ordered character by character.
- Certificates: certificate items, their validity dates and date layouts are not modelled; the binding of domains to certificates is.
- Errors of the calls that list WAF rows for single accounts: the rows are an input of the binding step.
- Billing items are synchronised in a store of their own, not in the run of `SystemSync.SyncSystem`; the check of the month's format is left out.
- The order in which the maps are walked is arbitrary in the model, as in Go.
- Numbers print as in decimal notation; floats are hundredths or exact reals. NaN, infinities and the rounding of IEEE arithmetic are not modelled.
- Case folding covers ASCII letters; lengths and cuts count characters where Go counts bytes.
- The loops run one after the other; the program holds no lock against a second run.
- Columns that describe a resource are a map of attributes without fixed names; how each is computed from the cloud record is left out, except for node, cloud, location and the identifying columns.
- `hostBelongsK8S`, utilisation texts, disk and security group texts, region tables, name-based inference of environments, tenant store, export file names and run summaries: small pure members that would add only easy rows.
- The comparisons `serverResourceChanged`, `middlewareResourceChanged` and `k8sResourceChanged` are not used by the passes.
- Categories of single bill lines are a parameter of the aggregation; the count of lines is not limited to 32 bits.
- Allocator.Store.Next: a crash stops the process; loss of written data in a power failure is not modelled, because the code does not ask the disk to sync.
- Allocator.NeverReissued: asks for room below 2^64 in every call, as Allocator.WrapRepeats shows it must.
- Remote.Cmdb.UpdateCi: the type of an item never changes; the type column that updates carry is taken to be the item's own.
- Remote.Cmdb.GetCi: queries match exactly, ids are numbers in increasing order, and the listing is in id order.
- Stats.StatusOf: the reason texts of skipped and cut-short systems are left out.
- SystemSync.SyncSystem: system ids are trimmed and not blank, as the store of systems keeps them; certificates and billing follow the modelled steps.
- SystemSync.WafStep: certificates and the errors of listing single WAF accounts are left out, as said above; what an EIP shows is stated for host names without separators, and Patch.PatchTwice says what happens otherwise.
- SystemSync.SyncTwice: asks for lists whose repeated uuids agree, a WAF step that writes no list with a separator and meets at most one item per unwanted domain, and EIP ids that are not cut right behind a space; Upsert.DisagreementNeverSettles and SystemSync.WafSettles show what happens otherwise.
- SystemSync.EipCutQuiet: an EIP id of more than 128 characters whose 128th is a space is cut to a text that reads as another uuid once it is trimmed; such ids are excluded.
- Pulls.PullOneSystem: the node column, the retry of a listing, the map of hosts to clusters and the WAF part of the EIP table are left out; billing is a section per month under the same replacement.
- BillingSync.WriteBills: all cost columns are non-blank, so the merge with the present item is the identity; what a pass does to each category is stated for summaries with one row per category, as Billing.Aggregate yields them.
- Metrics.BatchQuery: the service is taken to answer every metric of a batch and to echo its dimensions.
- Upsert.PassSettlesIff: asks that no record wants the text that a list held by an item prints as, such as "[a b]", because lists change their text when they are written back; no cloud column is built like that.
- Identity.StaysClearIffUnique: names exactly the stores that stay unambiguous where every uuid has a second spelling; for other parsers Identity.StaysClearIff does.
- Passes.Syncer.UpsertPass: the second set of counters that middleware keeps by type is modelled in `Stats` only.
