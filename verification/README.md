# Durable protocols of the runtime agent

A Dafny model of the protocols by which the runtime agent (`apps/runtime-agent/src`)
keeps durable state through crashes, retries, concurrent runs and many writers, with
proofs of what those protocols guarantee. `dafny verify dfyconfig.toml` checks everything.

How it is modelled:

- A file system is a map or a set of paths. A crash is stopping after any durable step;
  a rename and an atomic write are one step, a recursive removal passes through a state in
  which an arbitrary part is gone.
- Operations that change files or fields are methods with the source's loops and branches,
  most of them in classes. Their contracts tie the new state, and often the list of all
  states passed through, to a function of the old state; the properties are lemmas about
  those functions, over every input, every run or every crash point.
- SHA-256 is a one-constructor datatype or, for skill archives, an arbitrary function.
  Clocks, fetched archives, HTTP answers, directory listings and I/O outcomes are inputs.

| module | source | subject |
|---|---|---|
| `DottedKeys`, `Json`, `ConfigTree`, `ProviderConfig`, `ConfigView` | `provider_native_config.rs` | dotted keys applied to and read from JSON trees |
| `Toml`, `CodexConfig`, `ConfigFile` | `provider_native_config.rs` | the TOML profile, and the hash-guarded file write |
| `McpSession` | `mcp_config.rs` | write-ahead undo log of MCP injection |
| `SkillFingerprint`, `SkillStore`, `SkillConvergence`, `SkillHome`, `SkillCrashes` | `skills_convergence.rs`, `skills.rs` | convergence of a skills directory |
| `RawLog` | `raw_log.rs` | segmented transcript upload |
| `RuntimeAuth` | `runtime_auth.rs`, `daemon.rs` | session credentials and their supervisor |
| `Recency`, `Janitor`, `JanitorPaths` | `workspace_cleanup.rs`, `project_workspace.rs` | retention sweeps and what they can reach |
| `Collect` | `artifacts.rs` | capped newest-first collection |
| `RunStore` | `runs.rs` | run statuses, event sequences, event log |
| `WritebackQueue` | `writeback_queue.rs` | the on-disk retry queue |
| `ProjectSession` | `project_session.rs`, `project_workspace.rs` | installing and unloading a command's capabilities |
| `Excerpt` | `events.rs` | cutting UTF-8 text |

Natural statements that the code does not meet, each with a witness and the exact
condition under which it does or does not:

- The hash guards a write only as long as no other call writes between its comparison and
  its write: commands run on tasks of their own and take no lock, so two calls with one hash
  can both succeed and one update is lost (`ConfigFile.UpdateLost`,
  `ConfigFile.OverwritesWhatItNames`).
- An error from `write_config` leaves the file as it was, except when the in-place write
  itself fails, or goes through and cannot be read back (`ConfigFile.TornWriteLosesFile`,
  `ConfigFile.UnreadWriteReportsError`, `ConfigFile.FailureChangesFileIff`).
- Keys applied in any order give the same document exactly when overlapping keys are all
  removed, for values that are no objects (`ProviderConfig.OverlappingKeysDependOnOrder`,
  `ProviderConfig.OrdersAgreeIff`).
- JSON to TOML and back is the identity exactly when all integers fit 64 bits
  (`Toml.BigIntegerChanges`, `Toml.JsonRoundTrip`).
- A fingerprint identifies a manifest for keys without line breaks; the key check admits
  line breaks, and then two manifests can collide (`SkillFingerprint.LineBreakInKeyCollides`).
- A repeated convergence hits the stamp exactly when no key is listed with two checksums
  (`SkillConvergence.TwiceListedNeverHits`, `SkillConvergence.RepeatHitsIffConsistent`), and
  a stamp hit agrees with the full pass exactly when the listed entries are real directories:
  a hit reads markers through a symbolic link, the full pass rejects the link
  (`SkillConvergence.LinkHitsButFails`, `SkillConvergence.CurrentMarkersNeedNoWork`).
- A stamp hit leaves a stale skill behind exactly when some call added it, as one that may
  not prune can, and no later call removed it (`SkillConvergence.GuardedCallLeavesStaleSkill`,
  `SkillConvergence.StaleAfterHitIff`).
- A marker is honest except for a skill whose pruning was interrupted: it can lose files and
  keep its marker, and is then reused without a fetch (`SkillCrashes.TornSkillIsReused`,
  `SkillCrashes.RunHonestIff`).
- A PUT that was reported failed and arrives late can damage a transcript exactly when the
  index of its segment was used again with other bytes (`RawLog.LateDeliveryDamagesIncomplete`,
  `RawLog.LateDeliveryDamagesIff`).
- A reauthentication report that lands before the supervisor reads its mark back is absorbed
  (`RuntimeAuth.ReportAbsorbedInWindow`, `RuntimeAuth.ReportAbsorbedIff`).
- Project directories called `workspaces` or `chat` are within the janitor's reach, and no
  others are (`JanitorPaths.ExposedNames`).
- Files growing while they are collected can push the total past its cap, by at most one
  file (`Collect.GrowthOvershoots`).
- A renewal puts back the session it was asked with, even over a newer one that was installed
  while it waited (`RuntimeAuth.RenewalKeepsSession`).
- A JSON file of nothing but white space can be written to but not read
  (`ConfigFile.LegibleOrOnlySpace`).
- A completed run becomes failed exactly when an error is recorded for it
  (`RunStore.CompletedStaysIff`). Records may reach the log out of order or share a line, and
  do exactly when appends overlap (`RunStore.AppendsMayOvertake`, `RunStore.OrderedIff`,
  `RunStore.LinedIff`).
- A clock set back makes every pending writeback too old (`WritebackQueue.AgeExceededIff`);
  a result enqueued while its file is being replayed can be lost
  (`WritebackQueue.ResultLostInFlight`, `WritebackQueue.LostInFlightIff`); an attempt with an empty id is never replayed
  (`WritebackQueue.DrainedIff`).
- A failed installation unlinks whatever link stands at a requested key, and no other that
  was not residue (`ProjectSession.FailedInstallLeaves`); a successful one leaves a link of
  another home in place on unloading (`ProjectSession.ForeignLinkStays`). Output and native
  files are safe from every command but one that looked before they were put there, or
  failed to look (`ProjectSession.FailedLookLosesOutput`, `ProjectSession.OutputLostIff`,
  `ProjectSession.NativeLostIff`).

## Model

| member | source | states |
|---|---|---|
| `DottedKeys.JoinOfSplit` | apps/runtime-agent/src/provider_native_config.rs:804 | joining the segments of any split key gives the key back |
| `DottedKeys.SplitOfJoin` | apps/runtime-agent/src/provider_native_config.rs:804 | splitting a joined path gives the path back when its segments hold no dot |
| `DottedKeys.SplitOnceThenSplit` | apps/runtime-agent/src/provider_native_config.rs:826-837 | splitting off the head and then splitting the rest walks the same path as splitting the whole key |
| `ConfigTree.WriteAtSucceedsIffUnblocked` | apps/runtime-agent/src/provider_native_config.rs:798-824 | a nested write succeeds exactly when no proper ancestor of its path holds a non-object |
| `ConfigTree.WriteAtFrame` | apps/runtime-agent/src/provider_native_config.rs:798-824 | a path that is neither above nor below the written one keeps its whole subtree |
| `ConfigTree.WriteAtEffect` | apps/runtime-agent/src/provider_native_config.rs:790-824 | at the written path stands exactly the value, or nothing for null |
| `ConfigTree.WriteAtLeaves` | apps/runtime-agent/src/provider_native_config.rs:798-824 | the leaf at every path of the document after one write, changed or not |
| `ConfigTree.WriteEnvLeaves` | apps/runtime-agent/src/provider_native_config.rs:727-743 | an `env` write has the leaves of a nested write, and never leaves an empty `env` object |
| `ProviderConfig.ApplyJsonValues` | apps/runtime-agent/src/provider_native_config.rs:705-777 | the write loop computes the fold of single writes, stopping at the first error |
| `ProviderConfig.ApplyOneSucceeds` | apps/runtime-agent/src/provider_native_config.rs:722-777 | one write succeeds exactly for an allowlisted key whose path is not blocked |
| `ProviderConfig.ApplyOneLeaves` | apps/runtime-agent/src/provider_native_config.rs:722-777 | whichever branch is taken, exactly the leaves at and below the split key change |
| `ProviderConfig.ApplyAllSucceeds` | apps/runtime-agent/src/provider_native_config.rs:705-777 | a prefix-free batch succeeds exactly when each key is accepted and unblocked in the original document |
| `ProviderConfig.ApplyAllLeaves` | apps/runtime-agent/src/provider_native_config.rs:705-777 | after a prefix-free batch, leaves below a written path are the written value's and all others are untouched |
| `ProviderConfig.ApplyOrderIrrelevant` | apps/runtime-agent/src/provider_native_config.rs:705-777 | any two orders of a prefix-free batch agree on success and on every leaf |
| `ProviderConfig.OrdersAgreeIff` | apps/runtime-agent/src/provider_native_config.rs:705-777 | for keys that could each be written on their own and values that are no objects: all orders agree on success and leaves exactly when overlapping keys are all removed |
| `ProviderConfig.PlainOrdersAgreeIff` | apps/runtime-agent/src/provider_native_config.rs:705-777 | without removals that is prefix-freeness; and a key that could not be written on its own fails the batch in every order |
| `ProviderConfig.OpencodeKeyShapes` | apps/runtime-agent/src/provider_native_config.rs:454-483 | a key below `provider` is allowed exactly if what follows the provider's name is `name`, something below `options`, a model's `name`, or something below a model's `limit` |
| `ProviderConfig.CodeLoadingRefused` | apps/runtime-agent/src/provider_native_config.rs:454-459 | so a whole provider, its `npm` package and everything below a model's own `provider` are refused |
| `ProviderConfig.AuthKeysAllowed` | apps/runtime-agent/src/provider_native_config.rs:512-515 | a key of a credentials file is allowed exactly if it is not empty, not rooted, and has no empty segment between two others |
| `ConfigView.FlattenPrefix` | apps/runtime-agent/src/provider_native_config.rs:595-612 | every leaf is listed under its dotted name and nothing is listed that is not such a leaf |
| `ConfigView.NamedIsLeaf` | apps/runtime-agent/src/provider_native_config.rs:595-612 | in a document without dotted names, a dotted name is owned by exactly the leaf it spells |
| `ConfigView.ExtractOpencode` | apps/runtime-agent/src/provider_native_config.rs:567-583 | the plain settings, and below `provider` exactly allowlisted leaves, none of them lost |
| `ConfigView.ExtractJsonManaged` | apps/runtime-agent/src/provider_native_config.rs:540-593 | the extracted map is the managed view of the document, key by key |
| `ConfigView.ViewAfterOne` | apps/runtime-agent/src/provider_native_config.rs:705-777 | one write shows its value, hides the keys below it and changes no other managed key |
| `ConfigView.ViewAfterAll` | apps/runtime-agent/src/provider_native_config.rs:705-777 | the managed view of every key after a prefix-free batch |
| `ConfigView.WriteThenRead` | apps/runtime-agent/src/provider_native_config.rs:540-777 | extracting after a batch gives the old view with exactly the written keys overwritten or deleted, in any order |
| `ConfigView.CleanBatchSucceeds` | apps/runtime-agent/src/provider_native_config.rs:705-777 | such a batch succeeds exactly when no written path runs through a leaf |
| `Toml.FromJsonDefined` | apps/runtime-agent/src/provider_native_config.rs:906-937 | a JSON value converts exactly when it holds no null at any depth |
| `Toml.JsonRoundTrip` | apps/runtime-agent/src/provider_native_config.rs:667-688 | converting to TOML and back is the identity exactly when all integers fit 64 bits |
| `Toml.BigIntegerChanges` | apps/runtime-agent/src/provider_native_config.rs:912-920 | an integer beyond 64 bits comes back as a float |
| `Toml.TomlRoundTrip` | apps/runtime-agent/src/provider_native_config.rs:667-688 | the other way round, for TOML values without datetimes and non-finite floats |
| `Toml.ShowsIff` | apps/runtime-agent/src/provider_native_config.rs:667-688 | a TOML value shows exactly unless it is, or holds in an array, a datetime or a float that is not finite; an inline table shows exactly the members that do |
| `Toml.TableShowsAsInline` | apps/runtime-agent/src/provider_native_config.rs:651-665 | a table shows what the inline table with the same content shows |
| `CodexConfig.ApplyTomlValues` | apps/runtime-agent/src/provider_native_config.rs:839-904 | the write loop computes the fold of single writes, stopping at the first error |
| `CodexConfig.ApplyOneEffect` | apps/runtime-agent/src/provider_native_config.rs:859-902 | a write stores the converted value in the place the key is read from, and keeps all items apart from it |
| `CodexConfig.ExtractTomlManaged` | apps/runtime-agent/src/provider_native_config.rs:614-649 | the extracted map is the managed view of any document, dotted provider names included |
| `CodexConfig.ViewAfterAll` | apps/runtime-agent/src/provider_native_config.rs:839-904 | after a batch each written key shows its value and every other key what it showed before |
| `CodexConfig.UnmanagedItemsSurvive` | apps/runtime-agent/src/provider_native_config.rs:839-904 | items apart from all written places survive a batch |
| `CodexConfig.ApplyAllSucceeds` | apps/runtime-agent/src/provider_native_config.rs:859-902 | a batch succeeds exactly when each key is allowlisted, its value converts, and nothing above its place in the original document is other than a table |
| `CodexConfig.ApplyOrderIrrelevant` | apps/runtime-agent/src/provider_native_config.rs:859-902 | any two orders of a batch agree on success, on the managed view and on every item apart from the written places |
| `ConfigFile.ConfigSurface.WriteConfig` | apps/runtime-agent/src/provider_native_config.rs:399-437 | compares, writes and reads back in three steps, whatever happens to the file in between: an error before the write left the file alone; a whole write leaves what was prepared from the content the hash names, and succeeds exactly when the file can then be read and parsed, with its managed view as the result |
| `ConfigFile.PrepareSucceeds` | apps/runtime-agent/src/provider_native_config.rs:400-426 | a request whose keys do not overlap goes through exactly when its surface is manageable, its keys are allowlisted, its hash is the current one, and no written path runs through something that is no object or table |
| `ConfigFile.ErrorsTell` | apps/runtime-agent/src/provider_native_config.rs:399-417 | which error a call gets: an unmanageable surface before a foreign key, a foreign key before an unreadable file, and a conflict with the hash of the content it found exactly when the hash is the only thing wrong |
| `ConfigFile.TomlWriteMeans` | apps/runtime-agent/src/provider_native_config.rs:839-904 | read off the texts before and after a TOML write: written keys show their converted values, all others what they showed; items apart from them, and the layout, are kept |
| `ConfigFile.JsonWriteMeans` | apps/runtime-agent/src/provider_native_config.rs:705-788 | after a JSON write, below a written path stand the leaves of the value, elsewhere those of the old document |
| `ConfigFile.LegibleOrOnlySpace` | apps/runtime-agent/src/provider_native_config.rs:378-382 | what can be read can be written to and conversely, but for a JSON file of nothing but white space: empty for a write, malformed for a read |
| `ConfigFile.WritesWhatItPrepared` | apps/runtime-agent/src/provider_native_config.rs:413-431 | in every interleaving a write that went through left what had been prepared from the content its hash names |
| `ConfigFile.OverwritesWhatItNames` | apps/runtime-agent/src/provider_native_config.rs:413-431 | it overwrote that very content exactly when the last foreign write between comparison and write, if there was one, had put the same content |
| `ConfigFile.OneWinnerPerHash` | apps/runtime-agent/src/provider_native_config.rs:413-431 | of two writes with one expected hash, the first of which left another content: the second call compared before the first one wrote, or some step brought the content back before that comparison |
| `ConfigFile.ReadBackFailsIff` | apps/runtime-agent/src/provider_native_config.rs:433 | in every interleaving a whole write is reported as an error exactly when the read fails on a file that is there, or the last foreign write since put a text that cannot be parsed |
| `ConfigFile.OverlappingCallsBothSucceed` | apps/runtime-agent/src/provider_native_config.rs:413-436 | any two acceptable requests for one content can overlap: both report success, and the first leaves no trace |
| `ConfigFile.UpdateLost` | apps/runtime-agent/src/provider_native_config.rs:413-431 | two keys set in a fresh credentials file by overlapping calls, both reported as set, one of them gone |
| `ConfigFile.FailureChangesFileIff` | apps/runtime-agent/src/provider_native_config.rs:399-436 | a call that nothing overlaps reports an error and yet changes the file exactly when the request was acceptable for the file, as above, and its in-place write was torn to something new, or was whole, made a difference and could not be read back |
| `ConfigFile.UnreadWriteReportsError` | apps/runtime-agent/src/provider_native_config.rs:433 | for instance a key that is set in a fresh credentials file, by a call that reports an error |
| `ConfigFile.TornWriteLosesFile` | apps/runtime-agent/src/provider_native_config.rs:431 | such a call can empty a credentials file |
| `ConfigFile.ReportedView` | apps/runtime-agent/src/provider_native_config.rs:433-436 | the view a successful JSON write reports is the old view with the written keys overwritten or deleted |
| `McpSession.RollbackRestartable` | apps/runtime-agent/src/mcp_config.rs:141-166 | a rollback after an interrupted rollback gives what the first would have given |
| `McpSession.RecordedFileIsFree` | apps/runtime-agent/src/mcp_config.rs:150-162 | whatever was done to a recorded file is undone with it |
| `McpSession.StepKeepsBaseline` | apps/runtime-agent/src/mcp_config.rs:101-166 | an injection or rollback stopped after any durable step keeps what a rollback would restore; an edit of a configuration file moves it exactly when no manifest records the file |
| `McpSession.RunKeepsBaseline` | apps/runtime-agent/src/mcp_config.rs:101-166 | over every sequence of injections, rollbacks, crashes inside either and edits at any time, a rollback would restore the first files with the edits made outside any injection |
| `McpSession.RollbackRestores` | apps/runtime-agent/src/mcp_config.rs:141-166 | after any such run one completed rollback leaves no manifest and those files; if files were edited only while injected, exactly the first disk |
| `McpSession.RollbackIdempotent` | apps/runtime-agent/src/mcp_config.rs:141-145 | a rollback after a completed one, however far it gets, changes nothing |
| `McpSession.Home.RollbackSession` | apps/runtime-agent/src/mcp_config.rs:141-166 | passes through exactly the modelled durable states and ends at the baseline without manifest |
| `McpSession.Home.InjectSession` | apps/runtime-agent/src/mcp_config.rs:101-136 | rolls back, logs and then writes, through exactly the modelled durable states, and succeeds exactly when modelled |
| `SkillFingerprint.FingerprintBuffer` | apps/runtime-agent/src/skills_convergence.rs:86-105 | the loop fills the buffer with the sorted entries, one line each |
| `SkillFingerprint.FingerprintOrderFree` | apps/runtime-agent/src/skills_convergence.rs:86-105 | manifests with the same entries in any order have the same text |
| `SkillFingerprint.FingerprintIdentifies` | apps/runtime-agent/src/skills_convergence.rs:86-105 | for keys without line breaks and hex checksums, texts are equal exactly when the multisets of entries are |
| `SkillFingerprint.LineBreakInKeyCollides` | apps/runtime-agent/src/skills_convergence.rs:86-105 | any two entries in order share a text with a single one whose key holds a line break |
| `SkillStore.MaterializeSafe` | apps/runtime-agent/src/skills.rs:90-193 | at every durable step the target is the complete old entry, absent, or a complete genuine new one, and no other skill is touched |
| `SkillStore.MaterializeEnds` | apps/runtime-agent/src/skills.rs:90-193 | success leaves the listed checksum, failure the old entry or none, and the temporary directory is gone |
| `SkillStore.MaterializeSucceeds` | apps/runtime-agent/src/skills.rs:90-193 | succeeds exactly for a valid key over nothing or a directory, with a current marker or with a matching, unpackable archive, free names and a working rename; then the archive stands there, sealed |
| `SkillStore.FailureKeepsOldIff` | apps/runtime-agent/src/skills.rs:410-437 | after a failure the old entry stands, and it is gone exactly if there was one and both the installing and the restoring rename failed |
| `SkillStore.BackupLeftIff` | apps/runtime-agent/src/skills.rs:410-437 | a backup is left exactly if the call swapped over an old directory and could not put it back, where it is whole, or could not remove it; no other entry changes |
| `SkillStore.SwapPassesAbsence` | apps/runtime-agent/src/skills.rs:417-423 | a swap over an old directory passes through a point where the skill is there only as its backup |
| `SkillStore.FilesOfMeans` | apps/runtime-agent/src/skills.rs:156-174 | a path holds the data of the last file entry with that path |
| `SkillStore.UnpacksIff` | apps/runtime-agent/src/skills.rs:134-178 | an archive unpacks exactly if it is a zip within the limit, with safe paths only and at least one file |
| `SkillStore.EqIgnoreCaseMeans` | apps/runtime-agent/src/skills.rs:123-124 | digests are compared letter by letter, upper or lower case |
| `SkillStore.MaterializeHonest` | apps/runtime-agent/src/skills.rs:90-193 | stopped anywhere, a marker still implies the complete unpacking of an archive with that digest |
| `SkillStore.HalfHonestIff` | apps/runtime-agent/src/skills.rs:208-215 | a half-removed skill that kept its marker is honest exactly when it lost nothing |
| `SkillHome.SkillsRoot.Unpack` | apps/runtime-agent/src/skills.rs:134-178 | the unpack loop passes through the modelled states and succeeds exactly for a sane, non-empty archive |
| `SkillHome.SkillsRoot.AtomicReplace` | apps/runtime-agent/src/skills.rs:410-437 | the renames pass through exactly the modelled states, with both failure paths |
| `SkillHome.SkillsRoot.MaterializeSkill` | apps/runtime-agent/src/skills.rs:90-193 | materialization passes through exactly the modelled states |
| `SkillHome.SkillsRoot.PruneUnlisted` | apps/runtime-agent/src/skills_convergence.rs:229-268 | the prune loop passes through exactly the modelled states |
| `SkillHome.SkillsRoot.ConvergeSkills` | apps/runtime-agent/src/skills_convergence.rs:114-180 | a convergence hits, or passes through exactly the states of materialization, pruning and stamping |
| `SkillConvergence.PrunedSuccess` | apps/runtime-agent/src/skills_convergence.rs:138-177 | a pruned success leaves exactly the visible manifest keys, each a directory at its listed checksum, and a matching stamp |
| `SkillConvergence.RepeatHits` | apps/runtime-agent/src/skills_convergence.rs:126-136 | repeating it with the manifest in any order hits the stamp, with no fetch and no change |
| `SkillConvergence.RepeatHitsIffConsistent` | apps/runtime-agent/src/skills_convergence.rs:126-136 | the repeat hits exactly when no key is listed with two checksums |
| `SkillConvergence.TwiceListedNeverHits` | apps/runtime-agent/src/skills_convergence.rs:126-177 | a key listed with two checksums converges on an empty disk, stamp and all, and the repetition does not hit |
| `SkillConvergence.CurrentMarkersNeedNoWork` | apps/runtime-agent/src/skills_convergence.rs:140-150 | with all markers current the loop does nothing, and succeeds exactly when the entries are real directories under valid keys |
| `SkillConvergence.LinkHitsButFails` | apps/runtime-agent/src/skills_convergence.rs:210-225 | a skill that is a link to a marked directory hits, and the full pass over it fails |
| `SkillConvergence.OldStampMisses` | apps/runtime-agent/src/skills_convergence.rs:126-136 | a stamp of another version never hits, whatever it says |
| `SkillConvergence.HiddenStays` | apps/runtime-agent/src/skills_convergence.rs:246-249 | an unlisted entry whose name starts with a dot is never touched |
| `SkillConvergence.HitAgreesWithFullPass` | apps/runtime-agent/src/skills_convergence.rs:126-180 | on a hit the full pass would keep every listed skill, and everything if nothing is stale |
| `SkillConvergence.CleanRunTidy` | apps/runtime-agent/src/skills_convergence.rs:154-177 | over every run of pruned successes and hits the stamp lists every visible entry |
| `SkillConvergence.StaleAfterHitIff` | apps/runtime-agent/src/skills_convergence.rs:126-177 | over every run of calls from a tidy disk, pruned, guarded or failed, a hit leaves the entry under a key stale exactly when it is visible, not listed, was added by some call and removed by none since |
| `SkillConvergence.HitLeavesNothingStale` | apps/runtime-agent/src/skills_convergence.rs:126-136 | after such a run a hit skips no pruning |
| `SkillConvergence.GuardedCallLeavesStaleSkill` | apps/runtime-agent/src/skills_convergence.rs:154-177 | a success that may not prune adds a skill which the older manifest's hit leaves behind |
| `SkillCrashes.ConvergeHonest` | apps/runtime-agent/src/skills_convergence.rs:114-180 | at every crash point of a convergence, markers under listed or hidden keys stay honest |
| `SkillCrashes.SuccessHonest` | apps/runtime-agent/src/skills_convergence.rs:114-180 | a convergence that succeeds leaves every marker honest, pruned keys included |
| `SkillCrashes.CrashHonestIff` | apps/runtime-agent/src/skills_convergence.rs:229-268 | at every crash point of a convergence from an honest disk, the marker under a key lies exactly when that skill is half removed with its marker left and a file gone |
| `SkillCrashes.StopHonestIff` | apps/runtime-agent/src/skills_convergence.rs:114-180 | and from a disk with torn skills, exactly when this happens or the entry was torn before and is still the same |
| `SkillCrashes.RunHonestIff` | apps/runtime-agent/src/skills_convergence.rs:114-180 | over every run of convergences stopped anywhere, a marker lies in the end exactly when some call was stopped half-way through removing that skill, its marker left and a file gone, and nothing touched the entry since |
| `SkillCrashes.TornSkillIsReused` | apps/runtime-agent/src/skills.rs:99-109 | from any disk with a genuine skill, a pruning call stopped after its first step leaves such a skill, and the next call that lists it takes it without a fetch |
| `RawLog.CompleteIffSizesAddUp` | apps/runtime-agent/src/raw_log.rs:304-342 | nothing was lost exactly when the part sizes add up to the whole, and then the parts concatenate to it |
| `RawLog.RunFacts` | apps/runtime-agent/src/raw_log.rs:288-363 | for every run and all upload outcomes: the transcript is parts and lost segments in order, `complete` means sizes add up, and each part's key stores its bytes |
| `RawLog.CompleteIffAllAccepted` | apps/runtime-agent/src/raw_log.rs:304-393 | a run is complete exactly when every segment that was cut off had an accepted attempt among its first three |
| `RawLog.LateDeliveryDamagesIff` | apps/runtime-agent/src/raw_log.rs:304-393 | deliveries of failed PUTs after the end can damage an upload exactly when some given-up segment was followed by an uploaded one that took its index with other bytes |
| `RawLog.LateDeliveriesHarmless` | apps/runtime-agent/src/raw_log.rs:365-393 | so they never damage a complete upload |
| `RawLog.LateDeliveryDamagesIncomplete` | apps/runtime-agent/src/raw_log.rs:365-393 | a given-up segment arriving late overwrites the part that reused its index |
| `RawLog.UploadMeans` | apps/runtime-agent/src/raw_log.rs:368-393 | an upload succeeds exactly if one of the first three attempts is accepted; its key holds the body exactly if it did before or an attempt up to the first accepted one was accepted or landed; no other key changes |
| `RawLog.Writer.UploadSegment` | apps/runtime-agent/src/raw_log.rs:368-393 | the retry loop comes to exactly this |
| `RawLog.Writer.Run` | apps/runtime-agent/src/raw_log.rs:288-363 | the manifest has one part for each uploaded segment, in order, with size and digest, the total of the transcript, and `complete` exactly when the sizes add up, and exactly when every segment had an accepted attempt |
| `RuntimeAuth.RunGrows` | apps/runtime-agent/src/daemon.rs:189-268 | over every interleaving both counters and the mark only grow, the mark never passes the reauth counter, and session fields are present together exactly from the first session on |
| `RuntimeAuth.StaleReportIgnored` | apps/runtime-agent/src/runtime_auth.rs:144-151 | a failure reported with an older generation changes nothing |
| `RuntimeAuth.ReauthNeedsFreshReport` | apps/runtime-agent/src/daemon.rs:251-256 | after the mark was read back the reauth branch runs again only after a report naming no generation or the then-current one |
| `RuntimeAuth.ReauthAfterSuccess` | apps/runtime-agent/src/daemon.rs:238-256 | from any successful renewal or enrolment to the next reauth branch, the mark is read back and then such a report comes in |
| `RuntimeAuth.ReauthGoesOn` | apps/runtime-agent/src/daemon.rs:251-265 | once woken, the reauth branch goes on through refusals and errors until the mark is read back |
| `RuntimeAuth.RefreshEnds` | apps/runtime-agent/src/daemon.rs:199-250 | a renewal refused for authentication leads to an enrolment and nothing else, and only reading back moves the mark |
| `RuntimeAuth.RenewalKeepsSession` | apps/runtime-agent/src/daemon.rs:199-209 | a renewal installs the session id and token it was asked with; another session installed while it waited is taken back exactly if it had another id or token |
| `RuntimeAuth.ReportAbsorbedIff` | apps/runtime-agent/src/daemon.rs:238-256 | a counting report has been passed by the mark exactly when the mark was read back since; until then it keeps the reauth branch enabled |
| `RuntimeAuth.ReportAbsorbedInWindow` | apps/runtime-agent/src/daemon.rs:253-256 | a report between setting the session and reading the mark is absorbed, and the status stays reauthenticating |
| `RuntimeAuth.ReadyNeverErrs` | apps/runtime-agent/src/runtime_auth.rs:153-165 | in every reachable state a ready look yields credentials that outlive now plus the safety window |
| `RuntimeAuth.WaitForBusinessCredentials` | apps/runtime-agent/src/runtime_auth.rs:153-174 | returns the session of the first snapshot that is connected or refreshing with an expiry beyond now plus the window, or nothing at a shutdown before that |
| `RuntimeAuth.ServedWhen` | apps/runtime-agent/src/runtime_auth.rs:153-165 | a new session with time to spare serves at once and through refreshes and failed renewals; after a counting report, at the start of an enrolment and without approval callers wait |
| `RuntimeAuth.AuthState.SetSessionChecked` | apps/runtime-agent/src/runtime_auth.rs:113-136 | installs all session fields with the next generation, or changes nothing when the expiry does not parse |
| `RuntimeAuth.AuthState.ReportAuthFailure` | apps/runtime-agent/src/runtime_auth.rs:144-151 | counts a failure that names no generation or the current one, and ignores any other |
| `Recency.SortFacts` | apps/runtime-agent/src/workspace_cleanup.rs:148 | sorting is a permutation that keeps every rank |
| `Recency.SortIsStable` | apps/runtime-agent/src/workspace_cleanup.rs:148 | later activity comes first, and of equal activity whatever was listed first |
| `Recency.RankIsPosition` | apps/runtime-agent/src/workspace_cleanup.rs:148-150 | in a sorted listing the rank of an item, the number of items ahead of it, is its position |
| `Recency.RanksAreTaken` | apps/runtime-agent/src/workspace_cleanup.rs:148-150 | each rank below the length is taken by exactly one item |
| `Janitor.KeepsTheMostRecent` | apps/runtime-agent/src/workspace_cleanup.rs:148-157 | nothing removed for its rank is more recent than anything within the cap |
| `Janitor.DoomedMeans` | apps/runtime-agent/src/workspace_cleanup.rs:138-186 | who goes, said of the newest items: what is neither spared nor among the newest of the cap, and what has been idle for the time to live |
| `Janitor.SecondSweepRemovesNothing` | apps/runtime-agent/src/workspace_cleanup.rs:121-127 | a second sweep over what was kept, in the same order, dooms nothing |
| `Janitor.BaseDir.SweepTasks` | apps/runtime-agent/src/workspace_cleanup.rs:129-160 | removes exactly the inactive attempts past the cap; every entry gone lies in one of them or is an emptied task directory |
| `Janitor.BaseDir.SweepChats` | apps/runtime-agent/src/workspace_cleanup.rs:162-189 | removes exactly the inactive threads that are expired or past the cap |
| `Janitor.BaseDir.SweepSessions` | apps/runtime-agent/src/workspace_cleanup.rs:238-260 | removes exactly the session trees past the cap, none while the workspace is active |
| `Janitor.BaseDir.PruneEmptyParent` | apps/runtime-agent/src/workspace_cleanup.rs:279-289 | drops the parent exactly when it is empty and not the project directory |
| `JanitorPaths.ReachIntoProject` | apps/runtime-agent/src/workspace_cleanup.rs:195-236 | inside a directory not named like the janitor's own trees only session outputs are reachable |
| `JanitorPaths.ExposedNames` | apps/runtime-agent/src/workspace_cleanup.rs:129-236 | other content of a directory is reachable exactly for the names `workspaces` and `chat` |
| `JanitorPaths.ValidNames` | apps/runtime-agent/src/project_workspace.rs:1094-1121 | a valid project name is swept as a project exactly when it is unreserved, and all reserved names are valid |
| `JanitorPaths.ListItems` | apps/runtime-agent/src/workspace_cleanup.rs:291-317 | the listing of a group holds exactly its directories among the entries, with activity and place |
| `JanitorPaths.Sweep` | apps/runtime-agent/src/workspace_cleanup.rs:121-127 | each group, listed when its turn comes, loses exactly what its rule dooms, and a safely named project nothing but session outputs |
| `JanitorPaths.SweptMeans` | apps/runtime-agent/src/workspace_cleanup.rs:129-260 | task attempts neither active nor among the newest go, chat threads not active that are old or not among the newest, and session outputs not among the newest of a workspace that is not active |
| `JanitorPaths.SweepTwice` | apps/runtime-agent/src/workspace_cleanup.rs:121-127 | with activity and listing order unchanged, a second sweep of the entries the first one left dooms only what could not be removed, and leaves the entries as they are |
| `JanitorPaths.EndRun` | apps/runtime-agent/src/workspace_cleanup.rs:34-77 | ending a run takes nothing from outside `workspaces`, and its own path exactly when it is a task attempt and the policy says so |
| `Collect.CollectKeeps` | apps/runtime-agent/src/artifacts.rs:263-369 | every candidate is kept or skipped exactly once, all caps hold, and no skipped file would still fit |
| `Collect.BothRoots` | apps/runtime-agent/src/artifacts.rs:379-419 | the same across the session root and the legacy root together |
| `Collect.NewestWinCount` | apps/runtime-agent/src/artifacts.rs:302-313 | whatever a root loses to the count cap is no newer than anything kept from it |
| `Collect.OlderFilesDoNotMatter` | apps/runtime-agent/src/artifacts.rs:302-366 | what is kept of the newer files does not depend on older ones |
| `Collect.GrowthOvershoots` | apps/runtime-agent/src/artifacts.rs:303-346 | two files that grow after they were listed fill the total cap and a whole file cap besides |
| `Collect.CollectRoot` | apps/runtime-agent/src/artifacts.rs:421-518 | screening, sorting and the selection loop with its running total compute such a collection |
| `Collect.CollectDeclared` | apps/runtime-agent/src/artifacts.rs:379-419 | session root first, then legacy root under the same caps; legacy use is noticed exactly when it had candidates |
| `RunStore.Store.StartRun` | apps/runtime-agent/src/runs.rs:187-229 | a fresh run, active at once, with all others unchanged |
| `RunStore.Store.RecordEvent` | apps/runtime-agent/src/runs.rs:244-270 | the record gets the next sequence without gaps, and the status only moves up |
| `RunStore.Store.CancelRun` | apps/runtime-agent/src/runs.rs:284-303 | cancels a running run and leaves any other as it is |
| `RunStore.RunsMoveUp` | apps/runtime-agent/src/runs.rs:244-385 | over every interleaving of recordings, cancels and the two writes of each append: statuses only move up, sequences have no gaps, finish times match, and no record is logged twice |
| `RunStore.OverIsOver` | apps/runtime-agent/src/runs.rs:284-334 | a run that is over is never active again, and failed or cancelled runs keep their status |
| `RunStore.RunOutcome` | apps/runtime-agent/src/runs.rs:244-385 | over every interleaving a run is what the steps since its start say: running until a completion, error or cancel; the first of these decides, with its time; an error after a completion makes it failed, with the last error's time and message; the session is the last one started |
| `RunStore.CompletedStaysIff` | apps/runtime-agent/src/runs.rs:365-385 | over every interleaving a completed run is completed later exactly when no error was recorded for it meanwhile, and failed otherwise |
| `RunStore.OrderedIff` | apps/runtime-agent/src/runs.rs:249-268 | the log of a run is in sequence order exactly when no record was logged while an earlier one was pending that was logged afterwards |
| `RunStore.LinedIff` | apps/runtime-agent/src/runs.rs:349-362 | each line of a log holds one record exactly when no text was written while another had no line break yet |
| `RunStore.AwaitedLogIsGood` | apps/runtime-agent/src/runs.rs:244-270 | a recorder that awaits each append gets a log in order, with whole lines unless a line break failed |
| `RunStore.AppendsMayOvertake` | apps/runtime-agent/src/runs.rs:267 | two that do not can have their records swapped and joined on one line |
| `WritebackQueue.SafeAttemptsHaveOwnFiles` | apps/runtime-agent/src/writeback_queue.rs:58-70 | attempts of letters, digits and dashes share a file exactly when they are equal |
| `WritebackQueue.FileNameIsPlain` | apps/runtime-agent/src/writeback_queue.rs:58-70 | whatever the attempt is called, its file name keeps its safe characters and has underscores for the others |
| `WritebackQueue.DrainedIff` | apps/runtime-agent/src/writeback_queue.rs:116-118 | an attempt's file is looked at exactly when the attempt id is not empty |
| `WritebackQueue.AgeExceededIff` | apps/runtime-agent/src/writeback_queue.rs:206-209 | with the clock not behind, an item is too old exactly when it is strictly older than the limit; with the clock behind its enqueue time it always is |
| `WritebackQueue.DrainRemovals` | apps/runtime-agent/src/writeback_queue.rs:96-189 | a file leaves in a drain exactly when an entry delivered, rejected, found corrupt or outlived it; the rest is unchanged |
| `WritebackQueue.VerdictMeans` | apps/runtime-agent/src/writeback_queue.rs:136-189 | delivered exactly if readable and accepted; kept exactly if readable, refused for the moment and not too old |
| `WritebackQueue.FlushesCount` | apps/runtime-agent/src/writeback_queue.rs:105-127 | a drain reports as many flushes as entries that deliver a readable item |
| `WritebackQueue.Queue.DrainOnce` | apps/runtime-agent/src/writeback_queue.rs:96-128 | the drain loop does this and counts the deliveries |
| `WritebackQueue.RunBalanced` | apps/runtime-agent/src/writeback_queue.rs:73-189 | over every interleaving of enqueues and replays, enqueued items are flushed, discarded, replaced or pending |
| `WritebackQueue.ContentLeaves` | apps/runtime-agent/src/writeback_queue.rs:130-189 | content that is no longer in its file was replaced, left for one of the four reasons, or went with an answer to older content |
| `WritebackQueue.LostInFlightIff` | apps/runtime-agent/src/writeback_queue.rs:130-189 | an answer takes out something other than what was read exactly when the file was last enqueued to, since the read, with something else, the verdict on what was read is not to retain, and the removal works |
| `WritebackQueue.ResultLostInFlight` | apps/runtime-agent/src/writeback_queue.rs:155-162 | for instance a result enqueued over its file in flight, when the older one is delivered |
| `ProjectSession.OutputLostIff` | apps/runtime-agent/src/project_session.rs:215-250 | over every interleaving of commands, providers and users, with looking and removing as two steps: session output is lost exactly by its own command's removal, when it was written after that command had looked and found none, or the look had failed |
| `ProjectSession.FailedLookLosesOutput` | apps/runtime-agent/src/project_session.rs:235-247 | a command alone loses output that was there all the time when its look fails, and not when it works |
| `ProjectSession.NativeLostIff` | apps/runtime-agent/src/project_workspace.rs:653-681 | a native skill path is lost exactly when it is a file that the user put in place of a link after a command had seen the link and before it removed it; directories never are |
| `ProjectSession.OnlyOwnerTouches` | apps/runtime-agent/src/project_session.rs:87-250 | a session directory changes only by its own command or by output written into it |
| `ProjectSession.InterleavingIsSafe` | apps/runtime-agent/src/project_session.rs:87-250 | so among commands alone whose looks work no native path and no output is lost, and a command that takes no part keeps its session directory |
| `ProjectSession.Workspace.Install` | apps/runtime-agent/src/project_session.rs:87-178 | made of such steps only; succeeds exactly when residue unloads and nothing fails; on failure leaves no projection, and of the skill paths exactly those the next row says |
| `ProjectSession.FailedInstallLeaves` | apps/runtime-agent/src/project_session.rs:96-114 | of the links there were, a failed installation leaves exactly those that stand neither at a requested key nor at one the residual manifest lists; it leaves every native path and adds nothing |
| `ProjectSession.Workspace.Unload` | apps/runtime-agent/src/project_session.rs:183-211 | unlinks what the manifest lists and leaves only output that the look finds, or fails without any change |
| `ProjectSession.Workspace.RetainOutput` | apps/runtime-agent/src/project_session.rs:215-250 | leaves the output of a session, if the look for it works, and nothing else |
| `ProjectSession.Workspace.LinkSkills` | apps/runtime-agent/src/project_workspace.rs:591-649 | existing paths win; reports exactly the keys linked to their own source; succeeds exactly when all are materialized |
| `ProjectSession.Workspace.UnlinkSkills` | apps/runtime-agent/src/project_workspace.rs:653-681 | removes exactly the links at the given keys |
| `ProjectSession.Workspace.TakeBack` | apps/runtime-agent/src/project_session.rs:108-114 | removes the projections and exactly the links at requested keys, whoever made them |
| `ProjectSession.InstallThenUnloadIsClean` | apps/runtime-agent/src/project_session.rs:87-250 | whatever state an installation started from, unloading it leaves none of its links and projections, every native path, and its output if the look for it works |
| `ProjectSession.ForeignLinkStays` | apps/runtime-agent/src/project_workspace.rs:616-633 | a link survives that unloading exactly when it points to another source |
| `Excerpt.BoundaryIffSplits` | apps/runtime-agent/src/events.rs:15-18 | in well-formed text the byte test finds exactly the places between characters |
| `Excerpt.BoundaryNearby` | apps/runtime-agent/src/events.rs:15-18 | every four consecutive positions include one |
| `Excerpt.TruncateExcerpt` | apps/runtime-agent/src/events.rs:11-22 | the cut is the greatest boundary at or below the limit, at most three bytes before it, and the excerpt is well-formed |

## Left out

- JSON and TOML text: documents are trees, and everything a parser ignores (spacing, member order, comments) is one abstract `layout`; two texts have equal hashes exactly when tree and layout agree.
- ConfigTree.WriteAtLeaves: `apply_nested_path` walks a mutable cursor; the model rebuilds the tree on the way back, so in-place aliasing of that cursor is not captured.
- Toml.JsonRoundTrip: floats are exact reals, so the rounding of integers beyond 64 bits to a float is not captured.
- ConfigFile.ConfigSurface.WriteConfig: path resolution, the macOS wording of an unmanageable reason, the list of changed keys and the modification time in the result are left out.
- The MCP renderers and merge functions: the merged content is an input of `McpSession.Home.InjectSession`, and so are server validation failures.
- SHA-256, zip decoding, `common_root_prefix` and `normalize_zip_path`: archive entries arrive with normalized paths, unsafe ones marked.
- SkillStore.MaterializeSafe: a failing local write while unpacking is covered as a stop at that point, not as a separate error path; the directory checks above the target reduce to the target being a directory.
- SkillHome.SkillsRoot.ConvergeSkills: the report lists (materialized, reused, pruned) and a failing write of the stamp are left out; the latter leaves the state before it.
- Backup names: a backup is a name of its own kind, as if no skill key could be spelled like one.
- RawLog.Writer.Run: 64-bit overflow of byte totals, backoff delays, the channel and `classify_raw_key`.
- Watch channels: a waiter is modelled by the snapshots it looks at; wake-ups, timers and delays only enable steps.
- JanitorPaths.Sweep: which groups there are is an input, in any order; the walk over project directories that finds them, `git worktree prune` and the summed counts are left out, and activity times are a function of the path.
- Collect.CollectDeclared: the filters that make a file a candidate, the content types, and the note added to the skipped list when the legacy root was used.
- RunStore.Store.StartRun: run ids are the process counter without the timestamp; provider handles and the broadcast of records are left out.
- RunStore.LinedIff: a failing write of a record's text leaves nothing behind in the model; in the file it may leave part of the text.
- WritebackQueue.Queue.Enqueue: the temporary file beside the target, and I/O errors of the enqueue itself.
- ProjectSession.Workspace.Install: git shielding and overlay environment are left out; removals work, and the removal of a session directory that showed no output is one step.
- HTTP, presign, WebSocket and git clients, redaction, configuration, probing and health: foreign effects or easy facts.
- The control plane, the web console and the command-line entry points.
