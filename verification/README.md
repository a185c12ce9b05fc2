# A verified model of the set keeper

The keeper holds named sets of values (addresses, numbers, texts) that expire. Writes are
planned ahead of the store: `Plan` predicts the state after a batch on an overlay, several
plans are in flight, `Commit` replays them in order once Redis has taken them, and `Abort`
throws all speculation away. Mirrors follow by a snapshot object and numbered packages, and
compare an XOR of keyed hashes with the one announced.

This project models that core in Dafny and proves, over all inputs and all interleavings:

* the pipeline is safe: every commit gives exactly the number and hash its plan predicted, and
  never disturbs what the planner sees (`pipeline.dfy`, on `setmodel.dfy`, `setlaws.dfy` and
  the class in `dataset.dfy`); the limit holds throughout (`limits.dfy`);
* the expiry index misses nothing, on a real array heap (`expheap.dfy`, `expiry.dfy`), and a
  sweep removes nothing that was extended (`sweep.dfy`);
* decoding undoes encoding and the other way round, each exactly where it does (`codec.dfy`,
  `packing.dfy`, `packgrammar.dfy`, `packorder.dfy`, `littleendian.dfy`);
* memory and store agree, through crashes at any step (`store.dfy`, `metatext.dfy`,
  `float64.dfy`, `durable.dfy`, `crash.dfy`);
* a mirror holds what the keeper holds, and can verify it, also across crashes (`canon.dfy`,
  `replication.dfy`, `mirror.dfy`), reading packages from the store (`publish.dfy`);
* planner and committer admit all of a job or none and answer it truthfully, once
  (`admission.dfy`, `exactadmission.dfy`, `keeper.dfy`, `answers.dfy`, `promises.dfy`, `jobflow.dfy`);
* a snapshot reference outlives neither its object nor the packages after it (`snapcache.dfy`);
* what clients send meets the conditions of all this (`submit.dfy`, `netprefix.dfy`), and the
  hash is SipHash-2-4 (`siphash.dfy`, `sipvector.dfy`, `xorfold.dfy`, `hashvalues.dfy`).

Code that changes fields or arrays in place is a class or an array method proved against a
function on values; the protocols are step relations over those functions. Go strings are
byte strings, so all text is `seq<u8>`. The set is generic in its keyed hash: `siphash.dfy`
shows what the program plugs in.

Several promises hold only under a condition. Each is stated with its exact condition, proved in
both directions, or with the failing case and the condition that avoids it:

* the push rule of `Commit` overlooks entries with a negative expiry (`Expiry.PushRuleExact`);
  such an expiry arises from a lifetime above about 292 years (`Submit.ExpiryExactly`,
  `Submit.HugeTTLIsNegative`);
* packing needs lengths below 65536, which the encoder does not check (`Codec.RoundTripExactly`);
* re-packing reproduces the input except for impossible prefix lengths (`Codec.RepackExactly`);
* the store loses an origin that contains U+001F and expiries float64 cannot hold
  (`Store.StoredExactly`);
* a removal may be answered before the removal it relies on is stored
  (`Answers.RemovalAnsweredEarly`; exactly when it is safe: `Answers.RemovalSafeExactly`);
* an Abort between the size check and Plan can split a job (`Answers.AbortSplitsJob`; exactly
  when a job stays whole: `Admission.JobWholeExactly`);
* an IPv4 prefix and the IPv4-mapped prefix of the same addresses are two values with one hash
  (`Submit.MappedCollides`); no other two are, and mirrors can follow exactly the sets without
  such a pair (`Submit.AddressesCollideExactly`, `Submit.MirrorsFollowExactly`);
* packages outlast snapshot objects only if store writes are fast enough
  (`SnapCache.FollowableExactly`), and lifetimes are announced honestly only if packing takes no
  time or the delay disappears in the rounding (`SnapCache.HonestExactly`).

## Model

| member | source | states |
|---|---|---|
| `SetLaws.ReplayHashIsXor` | internal/set/set.go:328-354 | Commit's running hash, fed with the hashes deltas carry, ends as the XOR of the stored hashes of the entries it leaves, for every list of deltas that fits the entries. |
| `SetLaws.ReplayIsView` | internal/set/set.go:194-202 | Replaying deltas onto the entries is the same as looking through the overlay those deltas leave. |
| `SetLaws.PlanStepMeaning` | internal/set/set.go:262-304 | Every branch of Plan's loop does to the overlaid view exactly what the request asks (add unless full, overwrite, remove), and keeps the running size and hash those of the view. |
| `SetLaws.PlanDraftMeaning` | internal/set/set.go:231-304 | Plan's whole loop refines applying the requests one after another to a plain map; the predicted size and hash are those of the result. |
| `SetLaws.AfterPlanMeaning` | internal/set/set.go:306-318 | After Plan the view shows the requests, pendHash is its XOR and pendSize its count. |
| `Pipeline.OverlayIsView` | internal/set/set.go:306-315 | Entries overlaid with what the plans in flight left in pend equal the entries with those plans replayed in order. |
| `Pipeline.OverlayNums` | internal/set/set.go:358-360 | pend is empty exactly when no plan is in flight, so the reset in Commit changes nothing. |
| `Pipeline.DropOwnHead` | internal/set/set.go:351-353 | Dropping the overlay entries with the committed plan's number leaves exactly the overlay of the plans behind it. |
| `Pipeline.PlanKeepsSet` | internal/set/set.go:231-318 | Plan extends the chain of plans in flight by one plan with the next number and the hash of the state it leads to, or changes nothing. |
| `Pipeline.CommitMatchesPlan` | internal/set/set.go:320-363 | Committing the head of any chain yields exactly its number and predicted hash, and leaves the view a later Plan sees unchanged. |
| `Pipeline.StepKeeps` | internal/keeper/keeper.go:708-746 | Each atomic step (Plan, commit of the head, failed commit with Abort, refusal of a stale head, sweep) keeps the invariant: hash is the XOR of the entries, pendHash and pendSize are those of the view, live plans form a chain. |
| `Pipeline.RunKeeps` | internal/keeper/keeper.go:708-746 | The invariant holds in every state of every interleaving of those steps. |
| `Pipeline.RunIsSafe` | internal/keeper/keeper.go:741-746 | In every run a commit of a live head moves the number by one to the plan's number and gives the plan's hash: the branch that logs a difference is never taken. |
| `Limits.RequestsWithin` | internal/set/set.go:270-278 | Requests applied in order never take a map within a bound past it, if the bound is at least the limit. |
| `Limits.LimitHolds` | internal/set/set.go:270-371 | In every run, committed entries and planned view stay within a positive limit after every step if they start within it; started above it, they never grow past the start. |
| `Dataset.Set.constructor` | internal/set/set.go:87-100 | A new set is empty with all counters at their starts. |
| `Dataset.Set.LoadRecords` | internal/set/set.go:122-164 | The load loop gives the loaded state: hash of the first and fields of the last record of a value, XOR of all entry hashes, one heap item per expiring record, nothing planned. |
| `Dataset.Set.Resume` | internal/set/set.go:129-135 | The same with the stored epoch, key and number. |
| `Dataset.Set.Fresh` | internal/set/set.go:204-221 | Counts the listed values neither seen before nor present in the view. |
| `Dataset.Set.DraftDelta` | internal/set/set.go:262-304 | One round of Plan's loop over the local overlay, size, hash, applied and rejected lists. |
| `Dataset.Set.PlanDeltas` | internal/set/set.go:231-318 | Plan, in place: the plan returned and the whole new state. |
| `Dataset.Set.ApplyDeltas` | internal/set/set.go:328-354 | The loop of Commit over entries, hash, heap and overlay. |
| `Dataset.Set.Commit` | internal/set/set.go:320-363 | Commit, in place: the whole new state and the change reported. |
| `Dataset.Set.Abort` | internal/set/set.go:365-371 | Abort forgets all speculation and moves gen on. |
| `Dataset.Set.Expired` | internal/set/set.go:373-419 | The sweep pops exactly the due items in order, puts back what it must and reports by the rule of the loop. |
| `Dataset.Set.Snapshot` | internal/set/set.go:439-449 | The records listed are each entry once, with the number, hash and key of the same state. |
| `ExpiryHeap.TopIsLeast` | internal/set/set.go:451-469 | In a heap-ordered array the first item is the least. |
| `ExpiryHeap.ExpHeap.Init` | internal/set/set.go:158 | heap.Init orders any array, keeping its items. |
| `ExpiryHeap.ExpHeap.Push` | internal/set/set.go:340-342 | Sift up restores the order, keeping the items and the new one. |
| `ExpiryHeap.ExpHeap.Pop` | internal/set/set.go:390 | Takes out the first item; sift down restores the order of the rest. |
| `Expiry.PushRuleExact` | internal/set/set.go:340-342 | The push rule keeps every right index right if and only if it is not an expiring add over an entry with a negative expiry. |
| `Expiry.PushNeededExactly` | internal/set/set.go:340-342 | Outside that case it pushes exactly when some right index would otherwise become wrong. |
| `Expiry.LoadIndexes` | internal/set/set.go:137-159 | After load every expiring entry has an item no later than its expiry. |
| `Expiry.SweepReports` | internal/set/set.go:384-412 | A sweep reports exactly the unplanned values with an item due now that equals their expiry. |
| `Expiry.SweepFixes` | internal/set/set.go:392-416 | A sweep keeps the index, and afterwards every entry due now has an item with exactly its expiry. |
| `Expiry.SecondSweepComplete` | internal/set/set.go:373-419 | With nothing changed in between, a second sweep reports every unplanned entry with 0 < expiry <= now, and only those, stale items or not. |
| `Expiry.RunIndexed` | internal/set/set.go:320-419 | In every run of plans without negative expiries the index covers every expiring entry, through adds, shortenings, extensions, removals, aborts and sweeps. |
| `Sweeping.SweepNeverEarly` | internal/keeper/keeper.go:484-500 | However long a sweep's report is worked off, after whatever commits and Aborts: when the removal of a reported value is planned, the value is gone or still due, committed and in the view, so no extended entry is removed. |
| `Sweeping.SweepRemoves` | internal/keeper/keeper.go:492-499 | Planning one cut of a sweep takes exactly its values out of the view; whatever is planned is a removal of one of them, saying EXPIRED and the keeper's name. |
| `Sweeping.SweepSendable` | internal/keeper/keeper.go:492-498 | The removals a sweep asks for meet the conditions of the crash and mirror results. |
| `Codec.RecordBytesLength` | internal/wire/pack.go:139-175 | The size computed ahead is the number of bytes appended, for both record shapes. |
| `LittleEndian.DigitAt` | internal/wire/pack.go:86-112 | Byte i of a number written is its digit of 256 to the i. |
| `Codec.HeadLayout` | internal/wire/pack.go:95-106 | Where each field of the header is and how it is written. |
| `Codec.RecordLayout` | internal/wire/pack.go:156-175 | Where each field of either record shape is and how it is written. |
| `Codec.RoundTripExactly` | internal/wire/pack.go:86-290 | Unpacking what was packed gives the header with the true count and the records, cleared of fields their type does not carry, if and only if every record fits: lengths below 65536, prefixes of a valid kind, count below 2^32. |
| `Codec.RepackExactly` | internal/wire/pack.go:177-290 | Packing what was unpacked takes exactly the bytes consumed, and gives them back byte for byte if and only if each prefix length byte is one its family allows, or 255. |
| `Packing.AppendRecord` | internal/wire/pack.go:156-175 | Appends the bytes of one record. |
| `Packing.Pack` | internal/wire/pack.go:86-112 | In place over the array it sorts for snapshots: the bytes of the header and the records in the order left, and their length computed ahead. |
| `Packing.UnpackPrefix` | internal/wire/pack.go:211-246 | A prefix record is read in bounds, or refused as short or of an unknown family. |
| `Packing.UnpackText` | internal/wire/pack.go:248-284 | A text record is read in bounds, with or without its reason, or refused as short. |
| `Packing.UnpackRecord` | internal/wire/pack.go:204-286 | One round of the decoder: both shapes, every bounds check, every error. |
| `PackGrammar.UnpackAcceptsExactly` | internal/wire/pack.go:177-290 | Unpack accepts a byte string if and only if it is a version 1 header followed by as many well-formed records as it counts, whatever their fields hold and whatever follows; wrong magic and version are reported exactly. |
| `PackGrammar.ReadErrors` | internal/wire/pack.go:177-290 | Records are refused only for missing bytes, for a family byte present that is neither 4 nor 6, or for a set type that is neither of the two. |
| `Packing.Unpack` | internal/wire/pack.go:177-290 | Every byte string gives a result, all reads in bounds; the whole decoder agrees with the recursive reading of the format. |
| `Packing.SnapshotBytesCanonical` | internal/wire/pack.go:86-129 | Any two orders of the same records, such as two iterations over one map, pack to the same snapshot bytes. |
| `Packing.RepackSnapshotExactly` | internal/wire/pack.go:86-290 | Unpacking a sorted snapshot with distinct records and packing it again reproduces it exactly under the same condition on length bytes, whatever the sort does. |
| `PackOrder.LessTotal` | internal/wire/pack.go:114-137 | less is irreflexive, asymmetric and decides any two records that do not share their key. |
| `PackOrder.LessTransitive` | internal/wire/pack.go:114-137 | less is transitive. |
| `PackOrder.TextLessExactly` | internal/wire/pack.go:128 | Texts are in byte order: up to the first difference, a proper prefix first. |
| `PackOrder.LessExactly` | internal/wire/pack.go:114-137 | Records are in byte order of their texts, or of family, length and address. |
| `PackOrder.SortedUnique` | internal/wire/pack.go:89-93 | Records with distinct keys have one sorted arrangement. |
| `PackOrder.SortRecords` | internal/wire/pack.go:89-93 | Sorting in place: sorted and a permutation. |
| `MetaText.MetaBack` | internal/state/state.go:192-238 | parseMeta undoes metaFields for every meta. |
| `MetaText.PrintForm` | internal/state/state.go:176-198 | Numbers are written in the digits of their base, without leading zeros, and a hexadecimal one in no more digits than it needs. |
| `MetaText.Hex16Form` | internal/state/state.go:176-199 | Epoch and hash are written as exactly sixteen lower-case hexadecimal digits. |
| `MetaText.CommittedMeta` | internal/state/state.go:176-176 | After a commit overwrote number and hash in the hash of fields, parseMeta gives the old meta with just those two changed. |
| `Float64.ScoreExactly` | internal/state/state.go:110-153 | An expiry kept as a float64 score comes back if and only if float64 holds it exactly, converted as amd64 does out of range; it does up to 2^53. |
| `Float64.UlpIs` | internal/state/state.go:153 | The spacing of scores is the least power of two by which 2^53 steps reach the number. |
| `Float64.RoundNearest` | internal/state/state.go:153 | A score is a nearest multiple of the spacing, the even one between two. |
| `Float64.SaturatingExactly` | internal/state/state.go:110-153 | On processors that saturate, the greatest int64 comes back as well, and nothing else. |
| `Store.AddRun` | internal/state/state.go:148-161 | ZADD and HSET over a run of adds leave what adding one by one leaves, repeated values resolved last-wins. |
| `Store.RemoveRun` | internal/state/state.go:163-172 | ZREM and HDEL over a run of removals leave what removing one by one leaves. |
| `Store.CutJoined` | internal/state/state.go:112-154 | Origin and reason are recovered from their joined form if and only if the origin has no U+001F. |
| `Store.StoredExactly` | internal/state/state.go:75-120 | A record is given back unchanged if and only if its expiry is exact and its origin has no separator. |
| `Store.CommitKeepsWhys` | internal/state/state.go:122-182 | Commits and resets keep exactly one reason for each member and none for others. |
| `Store.Redis.Commit` | internal/state/state.go:136-182 | The grouping loop partitions the deltas into maximal runs, terminates, and its one transaction leaves members, scores, reasons, package and meta as applying the deltas one at a time, or nothing when it fails. |
| `Store.Redis.Load` | internal/state/state.go:75-120 | The meta and every member once, with its reason. |
| `Store.Redis.Reset` | internal/state/state.go:122-134 | Clears the contents unless kept and writes the meta, in one transaction. |
| `Durable.CommitAgrees` | internal/keeper/keeper.go:729-741 | A store commit followed by the memory commit of the same plan keeps members, expiries, origins, reasons and the meta's number and hash in agreement. |
| `Durable.LoadsListed` | internal/set/set.go:142-150 | After load the values listed are there and no others. |
| `Durable.FirstGivesHash` | internal/set/set.go:143-147 | Of the records with one value, the first one listed gives the entry its hash. |
| `Durable.LastGivesFields` | internal/set/set.go:149-150 | And the last one listed gives its expiry, origin and reason. |
| `Durable.LoadedEntries` | internal/set/set.go:137-159 | Distinct stored records load to themselves, in any order. |
| `Durable.MountAgrees` | internal/keeper/keeper.go:167-215 | In every branch of mount, whatever the store held, memory and store agree afterwards. |
| `Durable.MountKeepsExactly` | internal/keeper/keeper.go:174-215 | mount keeps the contents, in memory and in the store, if there is a meta that cannot be read or is of the same id and type; otherwise it leaves nothing of them. |
| `Durable.MountNamesExactly` | internal/keeper/keeper.go:181-206 | mount takes epoch, key and number from a meta of the same definition whose hash is that of the contents under its key, unless a new epoch was asked for; otherwise freshly drawn ones. |
| `Durable.HashNumBack` | internal/state/state.go:192-201 | A hash is read back from the number it is written as. |
| `Durable.EpochKeptExactly` | internal/keeper/keeper.go:181-206 | The stored epoch survives mount if and only if id and type are the definition's, no new epoch was asked for, and the recomputed hash is the meta's. |
| `Durable.MountResumes` | internal/keeper/keeper.go:181-206 | If the store agrees with a state, mount gives back that state's epoch, key, number, entries and hash, with a complete expiry index. |
| `Durable.MountSet` | internal/keeper/keeper.go:167-215 | mount over the store: kept, failed without effect on the store, or mounted with the state of the branch taken. |
| `Crash.CrashResumes` | internal/keeper/keeper.go:167-215 | A crash at any step, also between the store's and memory's commit, followed by mount resumes epoch and key with exactly the number and contents last stored. |
| `Crash.HistoryAgrees` | internal/keeper/keeper.go:708-746 | Through any history of plans, sweeps, store commits, memory commits, failures, refusals, crashes and mounts, store and memory agree or the store is ahead by exactly the plan about to be committed. |
| `Crash.MountStarts` | internal/keeper/keeper.go:167-215 | mount establishes that invariant from an arbitrary store. |
| `Canon.DraftCanon` | internal/set/set.go:231-304 | Deltas planned from records whose prefix belongs to their text, over a view whose hashes are those of its texts, carry the hash of their value's text. |
| `Canon.DraftMadeFrom` | internal/set/set.go:287-302 | Every delta planned is one of the requests, removals without their expiry, and there are no more deltas than requests. |
| `Replication.PackPlan` | internal/keeper/keeper.go:669-693 | pack gives the package of the plan: operations, records and header. |
| `Replication.PackSnapshot` | internal/keeper/keeper.go:879-897 | The snapshot object of the current state: its records sorted, its number, hash and count. |
| `Replication.PackageUnpacks` | internal/keeper/keeper.go:669-693 | A package of a plan whose records fit unpacks to the plan's number and hash and its deltas in order. |
| `Replication.PackageTells` | internal/keeper/keeper.go:669-693 | A package, read back, announces kind 2, epoch, key, number, hash and count of the plan, and tells its deltas in order: added or removed, expiry, and the prefix or the text with its reason. |
| `Replication.SnapshotUnpacks` | internal/keeper/keeper.go:879-905 | A snapshot unpacks to the state's number and hash and one record per entry. |
| `Replication.SnapshotTells` | internal/keeper/keeper.go:879-905 | A snapshot, read back, announces kind 1, epoch, key, number, hash and count of the state, and tells each of its entries and nothing else. |
| `Replication.DeltasMirror` | internal/wire/pack.go:72-84 | Applying a plan's records to a mirror of some entries gives a mirror of the entries with the plan replayed. |
| `Replication.SnapshotMirrors` | internal/set/set.go:439-449 | Applying a snapshot's records to an empty mirror gives a mirror of the entries. |
| `Replication.PackagesMirror` | internal/keeper/keeper.go:669-693 | Reading the packages of consecutive plans takes a mirror of the entries before to one of the entries after. |
| `Replication.MirrorHashIs` | internal/wire/pack.go:292-298 | The XOR of keyed hashes over the material of a mirror's records is the XOR the keeper keeps. |
| `Replication.SeparableExactly` | internal/wire/pack.go:72-84 | Over values that parse, every mirror follows every delta that can be sent if and only if no two of the values are the same on the wire. |
| `Replication.SnapshotThenPackages` | internal/keeper/keeper.go:669-693 | Reading the snapshot of some entries and then the packages of any plans over them gives a mirror of the entries with those plans replayed, and the XOR over its records' material is theirs. |
| `Replication.LastPackageHead` | internal/keeper/keeper.go:669-693 | The last header read carries the epoch, the key, the number and the hash of that state. |
| `Mirroring.PlannedSendable` | internal/set/set.go:231-318 | A plan made of requests a package can carry can itself be carried. |
| `Mirroring.StepLinks` | internal/keeper/keeper.go:708-746 | Every step of planner and committer either commits nothing or one plan that fits the committed entries, carries canonical hashes and can be sent. |
| `Mirroring.MirrorFollows` | internal/keeper/keeper.go:669-693 | In every run, with conditions only on what the planner is asked: a mirror that reads a snapshot taken in any state and then the packages committed since holds exactly the keeper's values and expiries, finds the keeper's hash over its own records under the key read from the snapshot's header, and reads that hash and number in the last header. |
| `Mirroring.MirrorSurvivesCrashes` | internal/keeper/keeper.go:167-215 | The same across any number of crashes and mounts, also between the store's commit and memory's: the packages before and after them continue one another. |
| `Publishing.DiffKeyInjective` | internal/state/state.go:46-48 | Different numbers have different package keys. |
| `Publishing.AllPublishedAlong` | internal/state/state.go:136-182 | If every transaction carries its plan's package under its number, then the store holds the package of every plan taken, across crashes. |
| `Publishing.MirrorReadsStore` | internal/keeper/keeper.go:669-741 | A mirror that has read a snapshot and then reads the store number by number up to the keeper's finds every object and ends with the keeper's contents and hash, across crashes. |
| `Replication.SnapshotUnique` | internal/keeper/keeper.go:879-897 | Two snapshots of the same state have the same bytes. |
| `Admission.RoomyRefusesNothing` | internal/set/set.go:270-274 | If the view with every value to be added stays within the limit, removals not credited, Plan rejects no record of any mix of requests. |
| `Admission.AdmitBounded` | internal/keeper/keeper.go:560-607 | The running size bounds view plus accepted values, whatever commits happen between two jobs. |
| `ExactAdmission.FreshExactly` | internal/set/set.go:204-221 | Of distinct values Fresh counts exactly those neither the view nor the accepted jobs have. |
| `ExactAdmission.AdmittedExactly` | internal/keeper/keeper.go:574-607 | Over states with one view, for jobs of distinct values: stale exactly if past its deadline; bad exactly if in time and without records; full exactly if it adds under a positive limit and the view with the adds accepted before it and its own values is over the limit; granted otherwise. |
| `Admission.AdmittedIsPlanned` | internal/keeper/keeper.go:560-615 | All or nothing: every record of every accepted job is planned, provided no Abort comes in between. |
| `Admission.QuietStepKeepsView` | internal/keeper/keeper.go:695-741 | Commits, refusals and sweeps leave the view, its size and its hash as they were. |
| `Admission.RejectedExactly` | internal/set/set.go:270-274 | In any state Plan rejects exactly the adds of a new value that find the set full, counting the requests before them. |
| `Admission.JobWholeExactly` | internal/keeper/keeper.go:602-623 | In whatever state Plan runs, after an Abort too, an accepted job is planned whole if and only if none of its records asks for a new value when the set is full. |
| `Admission.DeltaExactly` | internal/set/set.go:267-305 | A request becomes a delta if and only if it changes what the view shows after the requests before it, or adds again, for the first time in this call, a value a plan still in flight adds. |
| `Admission.NoDeltasExactly` | internal/set/set.go:279-293 | Plan yields neither deltas nor rejections if and only if each add equals a committed entry no plan in flight touches and each removal is of a value the view lacks. |
| `Admission.LastRequestWins` | internal/set/set.go:262-304 | With room for all, the last request for a value decides it: there as asked, or gone. |
| `Keeper.AcceptedAreGranted` | internal/keeper/keeper.go:574-607 | accepted lists exactly the jobs without an error. |
| `Keeper.GrantedAreDeltas` | internal/keeper/keeper.go:602-606 | Every record of an accepted job is among the deltas planned. |
| `Keeper.JobsSplit` | internal/keeper/keeper.go:633-645 | Each job goes exactly one way: answered at once or carried in the batch. |
| `Keeper.ResultsAligned` | internal/keeper/keeper.go:636-645 | And with the result computed for it. |
| `Keeper.Holder.AdmitJobs` | internal/keeper/keeper.go:560-607 | plan's first loop with the committer at work between any two looks at the set, commits, refusals and Aborts included. |
| `Keeper.AllOrNothing` | internal/keeper/keeper.go:560-623 | If no Abort came since the size was read, no record of an accepted job is rejected and every accepted job keeps its grant. |
| `Keeper.Holder.NumberResults` | internal/keeper/keeper.go:609-623 | plan's second loop: a job of one rejected record is full, other accepted jobs get the number. |
| `Keeper.PlannedResults` | internal/keeper/keeper.go:609-645 | After planning a refusal stays what it was, a grant gets the plan's number, and a lone record that Plan rejected makes its job full. |
| `Keeper.Holder.Route` | internal/keeper/keeper.go:633-645 | plan's last loop: answers and batch are those of the refused and the carried jobs. |
| `Keeper.Holder.PlanJobs` | internal/keeper/keeper.go:550-652 | plan as a whole, the store taking or refusing batches meanwhile: results, the set's new state, the answers sent, the batch queued with its package; all or nothing for every job unless an Abort came in between. |
| `Keeper.Holder.AnswerBatch` | internal/keeper/keeper.go:712-717 | Answers each job of the batch with the store's verdict. |
| `Keeper.RepliesExactly` | internal/keeper/keeper.go:654-667 | An answer is some job's result with the set's epoch; a job without a reply channel or past its deadline gets none, every other one does. |
| `Keeper.BatchVerdict` | internal/keeper/keeper.go:712-717 | A batch the store took is answered as granted with the committed number; a batch it refused, or of an old generation, as unavailable, every answer of it. |
| `Keeper.Holder.CommitBatch` | internal/keeper/keeper.go:708-777 | commit keeps the invariant and removes the head. If the store took it every answer is granted at the set's new number, otherwise every answer is unavailable; all carry the set's epoch and every job that waits gets one. It never finds the committed hash to differ from the planned one. |
| `Answers.GrantedAtOnce` | internal/keeper/keeper.go:625-631 | A positive answer without a batch: each add already equals a committed entry no plan in flight touches, each removal is of a value the view lacks; the answer names the committed number. |
| `Answers.GrantedInBatch` | internal/keeper/keeper.go:550-652 | After a plan with deltas the view shows each granted record, or a later request of the same batch for the same value. |
| `Answers.CommitShowsPlannedView` | internal/keeper/keeper.go:741-776 | When that plan is committed, whatever was planned and swept meanwhile, the committed entries are the view the planner had produced. |
| `Answers.LineIsView` | internal/keeper/keeper.go:708-776 | The view is the mounted contents with all committed and live plans replayed in order. |
| `Answers.RemovalSafeExactly` | internal/set/set.go:290-293 | A removal that plans nothing is answered at once; its value stays away whatever becomes of the plans in flight if and only if it is neither committed nor left in the set by any one of them, in particular when none of them touches it. |
| `Answers.CommittedIs` | internal/set/set.go:320-363 | Committing the first n plans in flight leaves the entries with those n replayed and the others still in flight. |
| `Answers.RemovalAnsweredEarly` | internal/set/set.go:290-293 | The failing case: a second removal of a value whose removal is in flight is answered at once, though a refusal by the store keeps the value. |
| `Answers.AbortSplitsJob` | internal/keeper/keeper.go:560-623 | A failing case with an Abort between size check and Plan: half of a granted job is rejected; the exact condition is that of Admission.JobWholeExactly. |
| `Promises.AnsweredAtOnceIsStored` | internal/keeper/keeper.go:625-631 | An add answered without a batch is committed in memory as asked and the store gives its record back, even while the store is one commit ahead. |
| `Promises.GenRises` | internal/set/set.go:365-371 | Within one process the generation never falls, and an Abort on the way raises it for good. |
| `Promises.CommittedWasCalm` | internal/keeper/keeper.go:719-741 | A plan that is committed in the end met no Abort between its planning and its commit. |
| `Promises.AnsweredIsStored` | internal/keeper/keeper.go:741-776 | From plan to the commit of its batch, whatever is planned, swept, stored, committed, refused and aborted in that process: for every answer sent then, each record of the job is as asked, or superseded by a later request of the batch, in committed memory, and the store agrees with memory. |
| `JobFlow.CounterKept` | internal/keeper/keeper.go:432-453 | Every move keeps queued equal to the records reserved, in the channel, or received and not yet taken off. |
| `JobFlow.PlacesKept` | internal/keeper/keeper.go:472-652 | Every move keeps each job in exactly one place: reserved, channel, received, gathered, batch, answered, silent or left. |
| `JobFlow.TimelyKept` | internal/keeper/keeper.go:574-580 | Every move keeps this: a job dropped without an answer had no reply channel or was past its deadline when it was planned, and no answered or carried job was. |
| `JobFlow.RunKeepsFlow` | internal/keeper/keeper.go:432-777 | All this holds in every interleaving of clients, planner, sweep and committer. |
| `JobFlow.AnsweredAtMostOnce` | internal/keeper/keeper.go:441-466 | In every interleaving no job is answered twice, so its one-slot channel never blocks, and the counter is exact. |
| `JobFlow.DrainedAnswered` | internal/keeper/keeper.go:550-777 | Once the work has run out, every submitted job that waits and was not given up was planned; past its deadline then, it was dropped once and never answered, otherwise it was answered exactly once. |
| `JobFlow.PlannedWhen` | internal/keeper/keeper.go:550-551 | The time that counts is that of the planning move that had the job in its batch. |
| `JobFlow.WorkShrinks` | internal/keeper/keeper.go:472-652 | Every move that brings no new job brings the jobs at hand closer to their end. |
| `JobFlow.NeverStuck` | internal/keeper/keeper.go:472-706 | As long as there is work some such move is possible; gathered jobs can be planned whatever right results plan comes to. |
| `JobFlow.WorkBounds` | internal/keeper/keeper.go:472-706 | From any reachable flow at most Work moves can be made without a new job. |
| `JobFlow.CanDrain` | internal/keeper/keeper.go:472-777 | And at most so many reach a flow with nothing left to do, with no client giving up. |
| `JobFlow.EveryJobEnds` | internal/keeper/keeper.go:472-777 | So from any reachable flow every job that waits and was not given up can come to its end: answered once, or dropped once as past its deadline when planned. |
| `JobFlow.RepliesAreHeard` | internal/keeper/keeper.go:654-667 | The replies sent go to exactly the jobs the moves list as answered, in order. |
| `JobFlow.RefusedAreHeard` | internal/keeper/keeper.go:633-640 | Also when only the refused ones are answered. |
| `JobFlow.BatchIsHeard` | internal/keeper/keeper.go:712-776 | A batch is answered whole, whether the store took it or not. |
| `JobFlow.PlanIsAMove` | internal/keeper/keeper.go:550-652 | Whatever plan computed is a possible planning move, whose answered jobs are the askers of plan's answers and whose queued batch is plan's batch. |
| `JobFlow.CommitIsAMove` | internal/keeper/keeper.go:708-776 | Whatever the store says, commit's answers go to the jobs its batch's last move lists. |
| `SnapCache.Normal` | internal/keeper/keeper.go:122-128 | New leaves a positive snapshot lifetime and a package lifetime at least twice as long, and keeps sensible options. |
| `SnapCache.Cache.Snapshot` | internal/keeper/keeper.go:839-876 | Repacks when there is no object, one of another epoch or one past its margin; the reference is to the cached object, of the current epoch, and announces its whole seconds left: at least five when the lifetime is at least the margin. A cached object is used again exactly when it is of the epoch and has five seconds left. |
| `SnapCache.RunKeeps` | internal/keeper/keeper.go:826-916 | In every run with a clock that never goes back, each object was read from memory no later than it was put, and covers the packages after it. |
| `SnapCache.ReferencesLast` | internal/keeper/keeper.go:858-875 | A reference handed out has the smaller of 5 s and the snapshot lifetime left, less the time the write took, and promises no more than that allows. |
| `SnapCache.HonestExactly` | internal/keeper/keeper.go:858-875 | All references announce no more than their object has left, in all runs, if and only if packing takes no time, or lifetimes are so short that no object is handed out twice and the delay disappears in the rounding. |
| `SnapCache.FollowableExactly` | internal/keeper/keeper.go:729-905 | Until the object of a reference expires every package after it is still stored, in all runs, if and only if the two write delays together fit between the two lifetimes; with instantaneous writes they always do. |
| `Submit.Records` | internal/keeper/keeper.go:366-430 | One record per distinct value, in order of first appearance, or the error of the first bad text, of forever, or of a missing lifetime. |
| `Submit.RecordsSay` | internal/keeper/keeper.go:386-428 | What the records of an accepted event say: origin and reason of the event, the canonical text or its digest, its prefix, and for an add the expiry by the event's ttl, or the set's if it has none. |
| `Submit.AcceptedExactly` | internal/set/canon.go:32-76 | Which texts are values of a set and what is kept of them: not empty and at most 255 bytes after trimming, and parsed as the type demands. |
| `Submit.ExpiryExactly` | internal/keeper/keeper.go:423 | The expiry is ttl seconds ahead if and only if that many nanoseconds fit an int64; it is then positive and exact in float64. |
| `Submit.HugeTTLIsNegative` | internal/keeper/keeper.go:423 | A larger ttl can give a negative expiry, the kind the push rule overlooks. |
| `Submit.TextKeepsPrefix` | internal/set/canon.go:57-76 | The prefix kept with a record is the one its text parses to after a restart, if and only if the value is not the digest of an address. |
| `Submit.JobPlannable` | internal/keeper/keeper.go:386-441 | Every accepted event gives requests that meet the conditions of the crash, expiry and mirror results: prefixes, expiries, lengths. |
| `Submit.AddressesCollideExactly` | internal/set/canon.go:57-76 | Two accepted addresses are kept as one value if and only if they are the same prefix, and are one value on the wire if and only if they are kept as one or one is the IPv4 form of the other, an IPv4-mapped prefix of at least 96 bits. |
| `Submit.MirrorsFollowExactly` | internal/set/canon.go:57-76 | Mirrors can follow a set of accepted addresses, whatever is done to it, if and only if none of its addresses is the IPv4 form of another. |
| `Submit.MappedCollides` | internal/set/canon.go:57-76 | For every IPv4 prefix the IPv4-mapped prefix of the same addresses is kept as a second value with the same material, and no mirror holds both if they expire at different times; a bare IPv4-mapped address is unmapped and is no such case. |
| `NetPrefix.MaterialPrefixCanonical` | internal/set/material.go:29-37 | The result is masked and is not an unmappable IPv4 prefix. |
| `NetPrefix.MaterialPrefixFixes` | internal/set/material.go:29-37 | It changes nothing if and only if the prefix is already of that form. |
| `NetPrefix.MaterialPrefixIdempotent` | internal/set/material.go:29-37 | Applying it twice is applying it once. |
| `NetPrefix.MaterialPrefixCommutesWithMasked` | internal/set/material.go:29-37 | It commutes with masking, also for IPv4-mapped addresses at both sides of /96. |
| `NetPrefix.MaskOctetBounds` | internal/set/material.go:36 | A masked octet is the greatest multiple of the place of its last kept bit not above the octet. |
| `NetPrefix.MaskedKeeps` | internal/set/material.go:36 | Masking keeps family and length and exactly the first bits of the address, and clears the rest. |
| `NetPrefix.MaterialKeeps` | internal/set/material.go:29-37 | Material keeps of an IPv4-mapped prefix of at least 96 bits the IPv4 part under the rest of its length, and of any other its mask. |
| `NetPrefix.MaterialLayout` | internal/set/material.go:39-49 | What is hashed for a prefix is its IP version, its length and its address octets, in this order. |
| `NetPrefix.PrefixMaterialInjective` | internal/set/material.go:39-49 | Different canonical prefixes have different material. |
| `NetPrefix.MaterialCollidesExactly` | internal/set/material.go:29-49 | Two masked prefixes have one material if and only if they are the same or one is the IPv4 form of the other. |
| `NetPrefix.MappedForm` | internal/set/material.go:29-37 | Every masked IPv4 prefix has such an IPv4-mapped form, and it is masked too. |
| `NetPrefix.ReloadKeepsMaterial` | internal/set/canon.go:57-76 | A live record's prefix is the one its stored text yields, for every text canonCIDR accepts, and it accepts exactly what ParsePrefix does. |
| `HashValues.HashValues` | internal/set/material.go:55-62 | The loop gives the XOR over all listed positions. |
| `HashValues.ListedHash` | internal/set/material.go:51-62 | Over any listing of the entries, in any order, that is the hash the set keeps. |
| `XorFold.XorRemove` | internal/set/set.go:334-348 | The XOR of a family does not depend on the order its members are taken in. |
| `XorFold.XorRename` | internal/set/material.go:55-62 | Nor on how they are named. |
| `SipHash.RoundBijective` | internal/set/siphash.go:9-24 | sipRound is a bijection on the four words, with its inverse given. |
| `SipVector.PaperVector` | internal/set/siphash.go:9-63 | For the key and message of the paper's test vector the definition gives the paper's hash. |
| `SipHash.SipState.SipRound` | internal/set/siphash.go:9-24 | The in-place round is the two-layer round of the paper. |
| `SipHash.LastWord` | internal/set/siphash.go:46-50 | The last word built by shifting and or-ing is the little-endian word of the tail, zeros and the length mod 256. |
| `SipHash.SipHashBytes` | internal/set/siphash.go:26-63 | For every key and byte string the loop computes SipHash-2-4 as defined over the padded sequence of words in section 2 of "SipHash: a fast short-input PRF". |

## Left out

- Store.StoredExactly: takes an out-of-range score back as amd64 converts it; `Float64.SaturatingExactly` gives the other processors.
- Submit.JobPlannable: leaves out digests of addresses, whose prefix does not survive a restart (`Submit.TextKeepsPrefix`).
- SnapCache.HonestExactly: compares with the lifetime of the object's own put; a later snapshot of the same number only lengthens it.
- Sequence numbers and generations are unbounded: the wrap of uint64 counters is not modelled, and where a number is encoded the model asks that it fits (`Unwrapped`). Numbers start near 2^45, so a wrap is out of reach.
- A store transaction that fails has no effect. A timeout after which Redis still applied the commands is not modelled.
- `mount` while an old holder of the same name still commits, renamed sets, `Drop`, `Define` and `Reload`: mounting is one step with no old holder at work.
- Keeper.Holder.PlanJobs: lets the batch count as queued from the moment Plan returns, though the program packs it first; only the planner appends to that queue. The path on which the holder stops and drops the batch is not modelled.
- Answers.GrantedAtOnce: says of a removal only that the planned view lacks the value, because that is all the code checks.
- Mirroring.MirrorFollows: needs values that are distinct on the wire, which `Replication.SeparableExactly` and `Submit.MirrorsFollowExactly` show to be necessary, and requests whose texts fit the length fields of the packages that carry them. The mirror itself is not in the repository; its rule for applying a record is inferred from the package format.
- Mirroring.MirrorSurvivesCrashes: needs in addition what the store needs to give records back, since a crash reads them from there.
- Publishing.MirrorReadsStore: takes the package of each transaction as `Keeper.Holder.PlanJobs` packs it, and leaves out lifetimes, which are those of `snapcache.dfy`.
- Crash.HistoryAgrees: needs records whose origin has no U+001F and whose expiry float64 holds; `Submit.JobPlannable` derives all but the first from what Submit accepts.
- Packing.Unpack: does not model allocation. The program sets aside room for as many records as the header announces before it reads any, so a short input can ask for a great deal of memory.
- Submit.Records: starts from the list of values; the one-line checks before it (ready, known set, operation, origin, empty list excepted) and the overload check after it are left out.
- Parsing and printing inside `net/netip`, TrimSpace, ParseInt and MD5 are functions given as parameters, constrained only by netip reading back what it printed and a digest parsing to no address. Epochs and keys are arbitrary values instead of random draws; clocks are integers passed in.
- PackOrder.SortRecords: stands for sort.Slice and promises sorted and a permutation, which is all the other results use; the algorithm of the library is not modelled.
- Redis keys are reduced to one set's members, reasons, meta and objects; the order in which members are listed is arbitrary. Lifetimes of objects are modelled in `snapcache.dfy` only.
- JobFlow.DrainedAnswered: supposes the holder keeps running; at shutdown waiting jobs stay unanswered. The race between the check of the queue bound and the reservation is left as it is: the counter is exact, the bound is not claimed.
- NATS, JSON frames, the HTTP API, ticks, presence, configuration, PostgreSQL, statistics and logging: plumbing that would add only easy members.
