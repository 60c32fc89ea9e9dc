# Remote-list reconciliation of Duplicati's file-list processor

This project models the reconciliation in Duplicati's
`FilelistProcessor`. Before Duplicati trusts a backup, it compares the
remote store with the local database's tracked remote volumes.

- `RemoteListAnalysis` lists the remote names and parses them. Names the
  volume-name parser rejects are dropped. The volumes under the configured
  backup prefix go into a name-to-volume lookup.
- It then walks the tracked volumes in the database's enumeration order:
  - it skips `Deleted` records;
  - it removes `Temporary` records;
  - it removes unmatched `Uploading`/`Deleting` records;
  - it reports other unmatched records as missing;
  - it promotes matched records to `Verified`;
  - it takes the name of every record that is neither `Deleted` nor
    `Temporary` out of the lookup.
- Whatever stays in the lookup is reported as extra.
- `VerifyRemoteList` runs the analysis and counts extra and missing
  volumes. It succeeds when both counts are zero and fails otherwise.
  Extra volumes take precedence. A missing-files failure carries the backup
  prefixes seen in the listing only when at least one prefix was seen and
  the configured prefix is not among them.

Modules:

- `Volumes` (volumes.dfy): the parsed-volume descriptor (prefix, name,
  declared size), the remote volume states and the tracked remote volume
  entry.
- `Database` (database.dfy): the local database as a class
  `LocalDatabase`. Its fields are the records keyed by name and the
  enumeration order. Its methods are `GetRemoteVolumes`,
  `RemoveRemoteVolume` and `UpdateRemoteVolume`. Each state change is
  stated through a value view `Store` (`Remove`, `Update`).
- `FilelistProcessor` (filelist_processor.dfy):
  - the parse-and-filter query `ParseFileList`;
  - the `BackupPrefixes` getter (`DistinctPrefixes`);
  - the lookup `BuildLookup`;
  - the analysis method `RemoteListAnalysis`, which mutates the database in
    place. It is proved against `Analyze`, a left fold (`Run`) of one loop
    iteration (`Visit`);
  - the policy: `JudgeAnalysis`, its promise `Judged`, and
    `VerifyRemoteList`.
- `Reconciliation` (reconciliation.dfy) gives the pass in closed form:
  `Settled` for the database, `Claimed` for what is drained from the
  lookup, `MissingOf` for the missing list. `AnalyzeIsSettled` proves it
  equal to the fold. On this form it proves what happens to each tracked
  record, what is reported, and that a second pass is a fixed point.
- `Scenarios` (scenarios.dfy): concrete one-volume runs of the analysis and
  the verdict.

The collaborators are given values:

- the volume-name parser is a function parameter
  `parse: string -> Option<Descriptor>`;
- the backend listing is a `seq<string>`;
- the database is the `LocalDatabase` object.

Two facts of the code are modelled as written:

- The size clause of the removal condition
  (FilelistProcessor.cs line 112) sits on the branch where the dictionary
  lookup failed, so `r` is always null there. The clause never fires
  (`SizeClauseNeverFires`). A matched volume whose declared size differs
  from the tracked size is therefore not removed. It is promoted to
  `Verified` like any other match (`MatchedRecordVerified`,
  `SizeMismatchAnalysis`). Reading that line as a size check on matched
  volumes does not describe the code, and the model follows the code.
- The `Verified` update (line 122) writes the record's own size and hash,
  not the size the listing declares.

The lookup is drained only in the branch for records that are not
`Temporary` (line 125). So a listed name whose record is `Temporary` or
`Deleted` is still reported extra (`UnclaimedMatchReportedExtra`). Also, a
second analysis over the same listing does not come back clean when the
first one reported extra or missing volumes: neither kind is repaired. What
does hold is that the second pass changes nothing and reports the same
result (`AnalysisIsStable`).

## Model

| member | source | states |
|---|---|---|
| `Database.Store.Entries` | Duplicati/Library/Main/Operation/FilelistProcessor.cs:95 | the enumeration has one entry per tracked name, in enumeration order, each the record filed under that name |
| `Database.Store.Remove` | Duplicati/Library/Main/Operation/FilelistProcessor.cs:105 | removing a volume drops exactly that name from the records. On a well-formed database the enumeration afterwards is the old one with that name dropped, the other names in their old order, and the database stays well formed |
| `Database.Store.Update` | Duplicati/Library/Main/Operation/FilelistProcessor.cs:122 | updating a volume overwrites state, size and hash of that name only; names and order are unchanged; an untracked name changes nothing |
| `Database.LocalDatabase.GetRemoteVolumes` | Duplicati/Library/Main/Operation/FilelistProcessor.cs:95 | the method returns the database's enumeration of tracked volumes |
| `Database.LocalDatabase.RemoveRemoteVolume` | Duplicati/Library/Main/Operation/FilelistProcessor.cs:115 | the database object afterwards is the old one with that volume removed |
| `Database.LocalDatabase.UpdateRemoteVolume` | Duplicati/Library/Main/Operation/FilelistProcessor.cs:122 | the database object afterwards is the old one with that volume updated |
| `FilelistProcessor.ParseFileList` | Duplicati/Library/Main/Operation/FilelistProcessor.cs:139-142 | the parsed volumes are no more than the listed names, and every accepted name's descriptor is among them (the query of line 89 is the same) |
| `FilelistProcessor.ParseFileListOne` | Duplicati/Library/Main/Operation/FilelistProcessor.cs:139-142 | a single listed name parses to its descriptor when the parser accepts it and to nothing when it returns null |
| `FilelistProcessor.ParseFileListAppend` | Duplicati/Library/Main/Operation/FilelistProcessor.cs:139-142 | parsing a split listing gives the concatenation of the parts, so the parsed list keeps listing order with one entry per accepted name |
| `FilelistProcessor.ParseAround` | Duplicati/Library/Main/Operation/FilelistProcessor.cs:139-142 | around any listed name, the parsed list is the parse of the names before it, then that name's result, then the parse of the names after it |
| `FilelistProcessor.ParsedFromListing` | Duplicati/Library/Main/Operation/FilelistProcessor.cs:139-142 | every parsed volume is the parser's result for some listed name |
| `FilelistProcessor.DistinctPrefixes` | Duplicati/Library/Main/Operation/FilelistProcessor.cs:74 | the backup prefixes have no duplicates and are exactly the prefixes of the parsed volumes |
| `FilelistProcessor.BuildLookup` | Duplicati/Library/Main/Operation/FilelistProcessor.cs:90-92 | the lookup has a key for every parsed volume under the configured prefix; each entry is a parsed volume under that prefix filed under its own name |
| `FilelistProcessor.LookupKeepsLast` | Duplicati/Library/Main/Operation/FilelistProcessor.cs:92 | of several volumes listed under the prefix with the same name, the lookup keeps the last one |
| `FilelistProcessor.LookupKeepsLastListed` | Duplicati/Library/Main/Operation/FilelistProcessor.cs:89-92 | in terms of the listing: when no later listed name parses to a volume of the same name under the prefix, the lookup holds that listed name's volume |
| `FilelistProcessor.FillLookup` | Duplicati/Library/Main/Operation/FilelistProcessor.cs:90-92 | the loop that fills the dictionary builds exactly that lookup |
| `FilelistProcessor.RemoteListAnalysis` | Duplicati/Library/Main/Operation/FilelistProcessor.cs:84-130 | the in-place pass returns the analysis result and leaves the database in the state given by the specification of the pass |
| `FilelistProcessor.JudgeAnalysis` | Duplicati/Library/Main/Operation/FilelistProcessor.cs:37-65 | success iff no extra and no missing volumes. Extra volumes fail with their count even if volumes are also missing. Missing volumes fail with their count only when nothing is extra. The failure carries the backup prefixes exactly when they are non-empty and lack the configured prefix |
| `FilelistProcessor.VerifyRemoteList` | Duplicati/Library/Main/Operation/FilelistProcessor.cs:34-66 | the database's repairs persist whatever the verdict, and the verdict on the analysis is the one the policy promises |
| `Reconciliation.RunSettles` | Duplicati/Library/Main/Operation/FilelistProcessor.cs:96-127 | after any prefix of the enumeration, the pass has settled exactly those records, removed exactly their claimed names from the lookup, and collected exactly their missing records in order |
| `Reconciliation.VisitSettles` | Duplicati/Library/Main/Operation/FilelistProcessor.cs:98-126 | one loop iteration on an unprocessed record moves it to the settled part |
| `Reconciliation.AnalyzeIsSettled` | Duplicati/Library/Main/Operation/FilelistProcessor.cs:84-130 | the whole analysis equals its closed form: settled database, lookup minus claimed names, missing records in enumeration order |
| `Reconciliation.MissingCount` | Duplicati/Library/Main/Operation/FilelistProcessor.cs:118 | a tracked name occurs in the missing list once if its record is missing and not at all otherwise |
| `Reconciliation.DeletedRecordUntouched` | Duplicati/Library/Main/Operation/FilelistProcessor.cs:98-100 | a Deleted record is left exactly as it was and never appears among the missing volumes |
| `Reconciliation.TemporaryRecordRemoved` | Duplicati/Library/Main/Operation/FilelistProcessor.cs:102-106 | a Temporary record is gone from the database after the pass, whatever the listing, and is not missing |
| `Reconciliation.UnmatchedRecordResolved` | Duplicati/Library/Main/Operation/FilelistProcessor.cs:110-119 | an unmatched record that takes part in matching is removed if Uploading or Deleting. Otherwise it is kept unchanged and appears exactly once among the missing volumes. Sizes play no part |
| `Reconciliation.SizeClauseNeverFires` | Duplicati/Library/Main/Operation/FilelistProcessor.cs:112 | on the not-found branch the size clause of the removal condition is false |
| `Reconciliation.MatchedRecordVerified` | Duplicati/Library/Main/Operation/FilelistProcessor.cs:120-123 | a matched record ends Verified with its own prior size and hash, whatever size is listed. An already Verified record is unchanged. A matched record is never missing |
| `Reconciliation.ParsedVolumesExact` | Duplicati/Library/Main/Operation/FilelistProcessor.cs:89 | the reported parsed volumes are the descriptors of the names the parser accepts, under any prefix, one per accepted name in listing order: around every listed name they split into the parse before it, its own result, and the parse after it |
| `Reconciliation.ExtraVolumesExact` | Duplicati/Library/Main/Operation/FilelistProcessor.cs:90-129 | a name is extra iff it is in the prefix-filtered lookup and no record that takes part in matching is tracked under it. Each extra volume is filed once under its own name, carries the configured prefix and is one of the parsed volumes |
| `Reconciliation.UnclaimedMatchReportedExtra` | Duplicati/Library/Main/Operation/FilelistProcessor.cs:99-125 | a listed name under the prefix whose record is Temporary or Deleted is still reported extra |
| `Reconciliation.StoreAfterAnalysis` | Duplicati/Library/Main/Operation/FilelistProcessor.cs:96-127 | the pass creates no record and leaves no Temporary record. The survivors keep their enumeration order. A surviving record is unchanged or only promoted to Verified |
| `Reconciliation.AnalysisIsStable` | Duplicati/Library/Main/Operation/FilelistProcessor.cs:96-127 | a second analysis over the same listing leaves the database as the first left it and reports the same parsed, extra and missing volumes |
| `Scenarios.VerifiedAndListedAnalysis` | Duplicati/Library/Main/Operation/FilelistProcessor.cs:120-125 | a verified record whose volume is listed is left as it is; nothing is extra or missing |
| `Scenarios.VerifiedAndListedSucceeds` | Duplicati/Library/Main/Operation/FilelistProcessor.cs:56-65 | that run passes verification |
| `Scenarios.UnfinishedUploadAnalysis` | Duplicati/Library/Main/Operation/FilelistProcessor.cs:112-115 | an Uploading record with nothing listed is removed; nothing is extra or missing |
| `Scenarios.UnfinishedUploadSucceeds` | Duplicati/Library/Main/Operation/FilelistProcessor.cs:56-65 | that repair is no failure |
| `Scenarios.VerifiedButGoneAnalysis` | Duplicati/Library/Main/Operation/FilelistProcessor.cs:117-118 | a verified record with nothing listed stays and is the one missing volume |
| `Scenarios.VerifiedButGoneIsMissing` | Duplicati/Library/Main/Operation/FilelistProcessor.cs:59-64 | that run fails as one missing file without a prefix list |
| `Scenarios.UntrackedVolumeIsExtra` | Duplicati/Library/Main/Operation/FilelistProcessor.cs:56-57 | a listed volume under the prefix that the empty database does not track fails as one extra file |
| `Scenarios.WrongPrefixAnalysis` | Duplicati/Library/Main/Operation/FilelistProcessor.cs:89-92 | a volume of another prefix is parsed but not looked up, so the tracked record is missing and nothing is extra |
| `Scenarios.WrongPrefixHinted` | Duplicati/Library/Main/Operation/FilelistProcessor.cs:61-62 | that run fails as one missing file carrying the prefix list ["other"] |
| `Scenarios.SizeMismatchAnalysis` | Duplicati/Library/Main/Operation/FilelistProcessor.cs:110-123 | a listed volume declaring 50 bytes for a record of 100 bytes promotes the record to Verified with its size 100 kept; nothing is removed, extra or missing |
| `Scenarios.SizeMismatchSucceeds` | Duplicati/Library/Main/Operation/FilelistProcessor.cs:56-65 | that run passes verification |

## Left out

- Logging: `stat.LogMessage`, `stat.LogWarning` and `database.LogMessage` are not modelled. Neither are the `QuietConsole` split between console and warning or the exception message texts. A failure is a `Verdict` carrying the counts and the optional prefix list.
- Failures of the backend listing or of the database are not modelled: the model has no transport or index errors, and nothing propagates them.
- `ParseFileList`'s lifecycle is not modelled: opening and disposing the `LocalDatabase` and `BackendManager` handles, and `WaitForComplete` (FilelistProcessor.cs lines 134-146). The model has only its parse-and-filter query.
- `BackendManager.List` is not part of this model; the listing is a given sequence of names.
- `VolumeBase.ParseFilename` and the file-name scheme are not part of this model; the parser is a function parameter.
- `LocalDatabase` storage and SQL are not part of this model. `GetRemoteVolumes` is a snapshot of the enumeration taken before the pass. The source enumerates while the pass mutates, but each row is changed only while it is being visited, so both give the same records.
- The definition of `RemoteVolumeState` is not part of this model. The states are Temporary, Uploading, Uploaded, Verified, Deleting and Deleted; `Uploaded` stands for every state the pass treats as "awaiting verification".
- The order of `ExtraVolumes` is not modelled. It is a .NET dictionary's value enumeration; the model keeps the leftover lookup as a map from name to volume.
- `FilelistProcessor.JudgeAnalysis`: the counts are unbounded naturals, so the 64-bit `long` counters and their overflow are not modelled, because no listing reaches that many volumes.
- LINQ's lazy re-evaluation of the parsed listing is not modelled. The parser is a pure function, so it cannot be observed.
- `Duplicati/Server/webroot/scripts/folderbrowser.js` (browser UI) is not modelled.
