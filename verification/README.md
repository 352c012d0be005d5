# atty-guard, verified

A Dafny model of the stateful parts of `atty-guard`, the Rust and eBPF sidecar of atty, with
proofs about every run, every interleaving or every input. `dafny verify dfyconfig.toml` checks
the whole project.

| files | what they model | main results |
|---|---|---|
| `Lineage`, `Kernel` | fork, exit and exec hooks over `threat_map` and `watch_pids`, the ancestor walk | refused exactly along lineages of marks; ancestry against propagation |
| `ByteStrings`, `DenyKeys` | the Rust key encoders and the kernel loops that build a basename key | the loops build the encoder's key for any stale buffer; when a rule is exact |
| `ProfileSwitch`, `SwitchSteps`, `CheckExecve` | startup, profile switches, also one map call at a time, deny maps, the whole exec hook | maps follow the profile; an exec is refused, in every mode, if and only if a mark reaches it or (watch lineage, strict, rule) |
| `ThreatMarks` | the SetThreatLevel gate and `ThreatMap`, against PID reuse | marks only own processes; answers only for marked incarnations; eviction spares the living; when a clear hits a foreign mark |
| `WriteLocks`, `TrustProtocol`, `ListProtocol` | the self-pruning lock table and the write protocols | mutual exclusion; no accepted hash, atom or host is lost; caps |
| `Text`, `TrustFiles` | validators, line format, readers and writers | round trips, and exactly which entries do not survive |
| `SessionWrite`, `TrustStore` | `session_write` and the URL operations | partition for any iteration order, exact counts, exactly when the files follow the set algebra and stay disjoint |
| `CivilDate` | timestamp to date, two copies | inverse of the calendar in both directions, no overflow |
| `Spans` | the interval sweep | counts connected components |
| `Sanitize` | the escape stripper on bytes | text of rendered output; fixed points; when UTF-8 survives |
| `Broadcast`, `BroadcastRuns` | registration and bounded fan-out | conservation and reconstruction, each if and only if |
| `Slots` | request counter, guard, subscriber slots | counters equal slots held; each released exactly once |
| `Metrics`, `MetricsClock` | the TTL store, and callers that read the clock before the lock | when sweeping is invisible, if and only if; saturating totals for any order |
| `Sets` | set sizes | |

## How things are modelled

- A protocol is a state machine: one step per atomic operation, locked section or `/proc` read,
  and theorems about all runs. Methods that the source runs in place are Dafny methods and
  classes, tied by their contracts to the functions the machines use.
- Iteration over a Rust hash set or map is an arbitrary choice, so results hold for any order.
- I/O outcomes, clock readings, `/proc` reads and reader activity are parameters or events.
  The corpus fetcher's placeholder test (`validate_atom`), the header comment lines, the
  metadata stamp and the sort order of the writers are parameters too.
- Start times never repeat for a PID. Processes are single-threaded. BPF maps stay below their
  capacity, and marks and watches are placed on live PIDs. BPF map operations succeed, except
  that deleting an absent key is an error.

## Where the code differs from what its comments promise

Each of these has a lemma with the failing input, or the failing case inside an exact condition.

- A full inbox drops the new event, not the oldest (`Broadcast.Send`). A reader that makes room
  between the two sends lets an event overtake its drop notice (`Broadcast.LeapHappens`).
- The stripper can cut a multi-byte character after a bare ESC or a charset selector
  (`Sanitize.EscapeCutsCharacter`, `Sanitize.Utf8KeptIff`).
- Deny rules see 255 bytes of a path and 63 of a basename; a longer name is refused by a rule
  for its prefix (`DenyKeys.ShortNamesMatchExactly`, `DenyKeys.PathLayerExactIff`).
- Armed-rule counts overstate the maps when a rule is listed twice
  (`ProfileSwitch.ReportedCountsExactIff`), and at a strict start also when one is not encodable
  (`ProfileSwitch.StartupCountsExactIff`).
- The validator looks at untrimmed text: an atom such as TAB `#ab` is accepted, read back as
  `#ab` and lost on the next rewrite (`TrustFiles.AtomSurvivesRewrite`).
- `session_write` skips the URL write when both counters are zero, which is wrong for a
  hand-edited file with a host on both lists (`SessionWrite.SkippedWriteOnOverlap`).
- A validated host with outer whitespace can leave its trimmed form on both lists, by a direct
  decision and by a session write (`SessionWrite.AddUrlOnBothLists`,
  `SessionWrite.SessionWriteOnBothLists`).
- A hand-edited `allow` TAB `#x` is read as the host `#x`, and the next rewrite loses it
  (`TrustFiles.HashedHostLost`).
- A mark placed after the fork is seen by the ancestor walk and not by the child's own entry
  (`Kernel.LateMarkOnlyAncestry`).
- An unreadable `/proc` keeps the stored level for a recycled PID
  (`ThreatMarks.UnreadableKeepsStaleLevel`).
- A query that reads the clock just before a sweeping report and locks after it misses a record
  that is fresh at its reading (`MetricsClock.OneMillisecondRun`).
- A commit that is delayed past its gate replaces the mark of whoever holds the recycled PID
  (`ThreatMarks.MarkOverwritten`).
- A Low request can clear the mark of another user's process when the PID is reused between its
  owner read and its eviction (`ThreatMarks.ForeignMarkCleared`).

## Model

| member | source | states |
|---|---|---|
| Lineage.FlaggedIffChain | atty-guard/ebpf/atty_guard.bpf.c:531-593 | a PID carries a fork-inherited flag exactly when a chain of forks, each made while its parent held the flag, leads to it from where the flag was set |
| Kernel.Maps.TraceFork | atty-guard/ebpf/atty_guard.bpf.c:531-568 | both maps after a fork: Critical is copied in propagate mode only, watch in every mode |
| Kernel.Maps.TraceExit | atty-guard/ebpf/atty_guard.bpf.c:578-593 | both maps after an exit, thread and thread-group exits told apart |
| Kernel.Maps.Match | atty-guard/ebpf/atty_guard.bpf.c:265-302 | the bounded pointer loop returns what the mode's specification says |
| Kernel.WalkFindsNearest | atty-guard/ebpf/atty_guard.bpf.c:265-302 | the walk returns the nearest Critical ancestor within its hops and before init, and nothing exactly when there is none |
| Kernel.WalkMonotone | atty-guard/ebpf/atty_guard.bpf.c:265-302 | a deeper walk keeps every match of a shallower one |
| Kernel.AncestryCoversOneLevel | atty-guard/ebpf/atty_guard.bpf.c:265-302 | whatever one_level refuses, ancestry refuses for the same mark exactly when its depth is not zero |
| Kernel.RefusedIffMarkedLineage | atty-guard/ebpf/atty_guard.bpf.c:410-431 | propagate mode, every run: an exec is refused if and only if a chain of forks leads to the process from a Critical mark; reparenting and dead ancestors change nothing |
| Kernel.WatchedIffLineage | atty-guard/ebpf/atty_guard.bpf.c:531-593 | the watch scope spreads exactly along forks after the watch, in every mode |
| Kernel.WalkFindsAny | atty-guard/ebpf/atty_guard.bpf.c:265-302 | the walk finds something exactly when some ancestor within its hops and before init is Critical |
| Kernel.CriticalIffStanding | atty-guard/ebpf/atty_guard.bpf.c:531-593 | without propagation a process is Critical exactly by a mark of its own that was not lowered since and that it has lived through |
| Kernel.RefusedIffMarkedAncestor | atty-guard/ebpf/atty_guard.bpf.c:265-302 | one_level (1 hop) and ancestry (the configured hops, at most 16), every run: an exec is refused if and only if such a mark stands on an ancestor within the hops and before init |
| Kernel.MapsHoldLivePids | atty-guard/ebpf/atty_guard.bpf.c:578-593 | at every point of every run both maps hold only live PIDs |
| Kernel.RecycledPidStartsClean | atty-guard/ebpf/atty_guard.bpf.c:531-593 | a reused PID carries exactly what its new parent hands over at this fork |
| Kernel.ParentDescent | atty-guard/ebpf/atty_guard.bpf.c:265-302 | a live process descends by forks from its current parent, also after reparenting to a subreaper |
| Kernel.AncestryRefusalsPropagate | atty-guard/ebpf/atty_guard.bpf.c:265-302 | an exec ancestry refuses descends by forks from the marked process, and if the mark came before the lineage was forked propagate mode refuses it on the same trace |
| Kernel.LateMarkOnlyAncestry | atty-guard/ebpf/atty_guard.bpf.c:265-302 | a trace where the mark comes after the fork and only ancestry refuses |
| DenyKeys.EncodersInjective | atty-guard/src/ebpf.rs:99-144 | accepted names with equal keys are equal, for both encoders |
| DenyKeys.AcceptedIffMatchable | atty-guard/src/ebpf.rs:99-144 | the encoders take exactly the nonempty rules that some exec can match |
| DenyKeys.FindLastSlash | atty-guard/ebpf/atty_guard.bpf.c:310-333 | the loop returns the index just past the last slash |
| DenyKeys.CopyBasename | atty-guard/ebpf/atty_guard.bpf.c:334-366 | the loop copies up to a NUL, the buffer end or 63 bytes and leaves the other key bytes alone |
| DenyKeys.BasenameIsDenied | atty-guard/ebpf/atty_guard.bpf.c:382-400 | for any stale scratch contents, denied exactly when the zero-padded first 63 bytes after the last slash of the first 255 bytes are a key of the map |
| DenyKeys.NameKeyMatches | atty-guard/src/ebpf.rs:128-144 | that key is in the map exactly when the bytes the kernel sees are a rule the encoder accepts |
| DenyKeys.PathKeyMatches | atty-guard/src/ebpf.rs:99-115 | the same for the full-path key |
| DenyKeys.NameLayerExactIff | atty-guard/ebpf/atty_guard.bpf.c:310-400 | for a path, the basename layer decides as every rule list says if and only if nothing of the basename is cut (or the cut leaves nothing and the basename is too long for any rule) |
| DenyKeys.ShortNamesMatchExactly | atty-guard/ebpf/atty_guard.bpf.c:310-400 | on paths of at most 255 bytes: exact if and only if the basename has at most 63 |
| DenyKeys.PathLayerExactIff | atty-guard/ebpf/atty_guard.bpf.c:473-476 | the path layer is exact if and only if the path has at most 255 bytes |
| ProfileSwitch.ArmAll | atty-guard/src/server.rs:1217-1238 | arming inserts exactly the keys of the encodable rules and counts the encodable entries |
| ProfileSwitch.ClearAll | atty-guard/src/server.rs:1262-1279 | clearing removes exactly those keys and counts the deletions that found nothing |
| ProfileSwitch.Daemon.SetProfile | atty-guard/src/server.rs:1190-1301 | root is always accepted, anyone else if and only if users may switch; the whole new state of a switch, and that a refused one changes nothing |
| ProfileSwitch.Daemon.DenyCheck | atty-guard/ebpf/atty_guard.bpf.c:463-503 | for any stale scratch contents and any filename (null, unreadable, too long), refused exactly when watched and the path key is in deny_bins, or the gate is on and the basename key is in deny_basenames |
| ProfileSwitch.CountIsSizeIff | atty-guard/src/server.rs:1217-1238 | the success count is the number of keys if and only if no encodable rule is listed twice |
| ProfileSwitch.MapsFollowProfile | atty-guard/src/server.rs:1190-1301 | from startup through any requests, the maps are the encodable rules under strict and empty otherwise, and the gate is on exactly when there is a basename to find |
| ProfileSwitch.ReportedCountsExactIff | atty-guard/src/server.rs:1245-1290 | from the first switch into or out of strict on, reported counts are map sizes if and only if no encodable rule is listed twice |
| ProfileSwitch.StartupCountsStand | atty-guard/src/main.rs:1248-1257 | before that the configured lengths are reported, or none |
| ProfileSwitch.StartupCountsExactIff | atty-guard/src/main.rs:1248-1257 | those are the map sizes if and only if the start was not strict, or every rule is encodable and none is listed twice |
| ProfileSwitch.ExecRefusedIffRule | atty-guard/src/main.rs:1033-1068 | from startup through any requests, refused by a rule if and only if watched, strict is active and what the kernel sees of the path or basename is an encodable rule |
| ProfileSwitch.ShortExecRefusedIffListed | atty-guard/ebpf/atty_guard.bpf.c:463-503 | for paths and basenames that fit, refused if and only if watched, strict and listed |
| SwitchSteps.MidwayHolds | atty-guard/src/server.rs:1209-1290 | call by call, the maps in the middle of a switch into or out of strict |
| SwitchSteps.SwitchRunsThrough | atty-guard/src/server.rs:1209-1290 | after any requests, the calls of a switch lead from the maps before it to the maps after it |
| SwitchSteps.RefusedMidwayIff | atty-guard/src/server.rs:1209-1290 | at any point of a switch an execve is refused by a rule if and only if it is watched and matches a rule in force then; basename rules are inert until the gate call of an arm |
| SwitchSteps.NothingElseRefused | atty-guard/src/server.rs:1209-1290 | whatever is refused in the middle is refused under the strict end of the switch |
| CheckExecve.CheckExecve | atty-guard/ebpf/atty_guard.bpf.c:410-503 | the hook refuses for a Critical match or a deny rule |
| CheckExecve.ExecRefusedIff | atty-guard/ebpf/atty_guard.bpf.c:410-503 | end to end in every mode: refused if and only if a Critical mark reaches the process (by forks under propagation, by ancestry otherwise), or a watch lineage leads to it under strict with a matching rule |
| ThreatMarks.ThreatMap.Set | atty-guard/src/threat_map.rs:70-81 | only a readable start time lets a level above Low in, `Low` always evicts, and a failed read changes nothing |
| ThreatMarks.ThreatMap.SetWithStarttime | atty-guard/src/threat_map.rs:89-102 | a commit records the validated start time, never a fresh one |
| ThreatMarks.ThreatMap.Get | atty-guard/src/threat_map.rs:142-168 | undisturbed: a stale entry answers Low and goes, a doubtful read answers the stored level and changes nothing |
| ThreatMarks.ThreatMap.EvictIfStale | atty-guard/src/threat_map.rs:201-220 | only the entry with the expected start time goes |
| ThreatMarks.StepKeepsInv | atty-guard/src/server.rs:1377-1508 | every step keeps that a passed gate saw one incarnation throughout and that an eviction under way aims at one that is over |
| ThreatMarks.MarksOnlyOwnProcesses | atty-guard/src/server.rs:1401-1464 | in every interleaving a non-root commit records exactly the PID and level its own request named, only for the incarnation that the requesting user owned at the owner read of the same call, and touches no other entry |
| ThreatMarks.RootMarksAsAsked | atty-guard/src/server.rs:1488-1508 | the same for root, who needs no owner read |
| ThreatMarks.OwnerIsServed | atty-guard/src/server.rs:1401-1464 | an undisturbed request of the owner with readable /proc is recorded |
| ThreatMarks.ForeignRequestEnds | atty-guard/src/server.rs:1417-1426 | anyone else's request ends at the owner read with every mark as it was |
| ThreatMarks.OtherMarksStay | atty-guard/src/threat_map.rs:97-220 | no step touches the entry of a PID its call is not about |
| ThreatMarks.GetAnswersOnlyMarked | atty-guard/src/threat_map.rs:142-168 | `get` answers the level the incarnation it looked up was itself given if that one is alive at the read or the read failed, and Low otherwise; exactly then it goes on to evict |
| ThreatMarks.LookupAndEviction | atty-guard/src/threat_map.rs:142-220 | what is looked up is the entry there is, and what is evicted is gone |
| ThreatMarks.EvictionSparesLiving | atty-guard/src/threat_map.rs:201-220 | the eviction by `get` never removes the entry of a live process |
| ThreatMarks.ClearsForeignMarkIff | atty-guard/src/server.rs:1465-1487 | in every interleaving a non-root Low request, carried out as it was asked, clears the mark of a live process of another user if and only if the PID changed hands after its owner read |
| ThreatMarks.ForeignMarkCleared | atty-guard/src/server.rs:1465-1487 | a run in which it does |
| ThreatMarks.CommitDestroysMarkIff | atty-guard/src/threat_map.rs:97-102 | in every interleaving a commit, root or not, destroys the mark of a live process if and only if the PID was respawned after the start-time read it relies on |
| ThreatMarks.MarkOverwritten | atty-guard/src/threat_map.rs:97-102 | a run in which it does: a mark of another user's process is replaced by a stale one |
| ThreatMarks.UnreadableKeepsStaleLevel | atty-guard/src/threat_map.rs:161-166 | a run in which a failed read answers Critical for a recycled PID |
| WriteLocks.LockTable.AcquireWriteLock | atty-guard/src/trust_store.rs:189-198 | the table after an acquire and the mutex handed out |
| WriteLocks.MutualExclusion | atty-guard/src/trust_store.rs:189-198 | in no run are two callers inside the same user's critical section |
| WriteLocks.TableBounded | atty-guard/src/trust_store.rs:189-198 | the table stays within the larger of 1025 and the peak number of live handles |
| TrustProtocol.StepLosesNothing | atty-guard/src/trust_store.rs:504-673 | no step takes a hash out of a file, and a session loses only what its file holds |
| TrustProtocol.StepStores | atty-guard/src/trust_store.rs:504-722 | what is to be stored is stored, and a cleanup takes exactly that out of the session |
| TrustProtocol.Choose | atty-guard/src/trust_store.rs:618-650 | what the loop of `session_write` stores is one of the choices the protocol allows |
| TrustProtocol.AcceptedHashNeverLost | atty-guard/src/trust_store.rs:376-389 | over whatever files the daemon starts with, in every interleaving and with failures at any step, an accepted hash is from then on in the session or in the file |
| TrustProtocol.StoredHashNeverLost | atty-guard/src/trust_store.rs:697-722 | a hash once in the file, also from before the start, stays there |
| TrustProtocol.AlwaysCapped | atty-guard/src/trust_store.rs:376-389 | at every point of every run sessions are within their cap, and trust files within the cap or the size they had at the start |
| ListProtocol.SessionEntryKept | atty-guard/src/trust_store.rs:541-600 | atoms and blocked hosts, in every interleaving and with failures at any step: a session entry is from then on in the session or trimmed in the file until that form is removed; only validated entries that are blank or start with `#` once trimmed are excepted |
| ListProtocol.InvalidEntryStays | atty-guard/src/trust_store.rs:541-600 | an entry that does not validate never leaves the session |
| ListProtocol.StepDoes | atty-guard/src/trust_store.rs:438-600 | an added entry is in the file if a file can keep it, a removed one is not, a cleanup takes exactly the valid snapshot out of the session |
| ListProtocol.FileEntryKept | atty-guard/src/trust_store.rs:438-498 | a file entry without a leading `#` stays until it is removed, for atoms and for blocked hosts |
| TrustFiles.ReadAtomsFile | atty-guard/src/trust_store.rs:1005-1017 | the loop returns the nonempty bodies of the lines |
| TrustFiles.ReadTrustFile | atty-guard/src/trust_store.rs:964-985 | ... those that are valid hashes |
| TrustFiles.ReadUrlsFile | atty-guard/src/trust_store.rs:1019-1054 | ... the hosts of each verb |
| TrustFiles.WriteAtomsFile | atty-guard/src/trust_store.rs:1081-1098 | the header and one line per entry in the order given: the text whose reading `TrustFiles.AtomsFileReadsBack` determines |
| TrustFiles.WriteUrlsFile | atty-guard/src/trust_store.rs:1100-1124 | the header, then the allow lines, then the block lines: the text whose reading `TrustFiles.UrlsRoundTrip` determines |
| TrustFiles.BodyOfEntry | atty-guard/src/trust_store.rs:1056-1079 | the body of an entry line is the trimmed entry unless it starts with `#` |
| TrustFiles.BodyOfPlainLine | atty-guard/src/trust_store.rs:1056-1079 | the same for a line without inline metadata; every line is of one kind or the other |
| TrustFiles.ValidHashIffDigest | atty-guard/src/trust_store.rs:855-871 | a trust hash is the lowercase hexadecimal form of 32 bytes, and nothing else is |
| TrustFiles.ValidatorLimits | atty-guard/src/trust_store.rs:814-889 | how long a plain host or atom may be, and what neither may contain |
| TrustFiles.AtomsFileReadsBack | atty-guard/src/trust_store.rs:1081-1098 | what reading gives for any writable entries, validated or not |
| TrustFiles.TrustRoundTrip | atty-guard/src/trust_store.rs:964-1003 | any set of valid hashes comes back exactly |
| TrustFiles.AtomsRoundTrip | atty-guard/src/trust_store.rs:814-853 | validated atoms come back as their nonempty trimmed forms, so as the same set when already trimmed |
| TrustFiles.UrlsRoundTrip | atty-guard/src/trust_store.rs:1019-1124 | validated hosts come back as their nonempty trimmed forms, each list by itself |
| TrustFiles.UrlsFileReadsBack | atty-guard/src/trust_store.rs:1019-1124 | what reading gives for any writable hosts, validated or not: the nonempty trimmed forms of those that do not start with `#` |
| TrustFiles.UrlsRewriteKeeps | atty-guard/src/trust_store.rs:1019-1124 | for any file, reading and rewriting keeps every host except those that start with `#` |
| TrustFiles.HashedHostLost | atty-guard/src/trust_store.rs:1019-1124 | a hand-edited line that is read as the host `#x`, which the next rewrite loses |
| TrustFiles.ValidHostPlain | atty-guard/src/trust_store.rs:873-889 | every validated host fits on a decision line and does not start with `#` |
| TrustFiles.RewriteKeeps | atty-guard/src/trust_store.rs:1005-1098 | reading and rewriting keeps every entry except those that start with `#` |
| TrustFiles.AtomSurvivesRewrite | atty-guard/src/trust_store.rs:814-853 | written among any others, a validated atom survives the next rewrite if and only if its trimmed form does not start with `#` |
| TrustFiles.ValidAtomLostOnRewrite | atty-guard/src/trust_store.rs:814-853 | an accepted atom whose trimmed form starts with `#` |
| SessionWrite.PersistTrust | atty-guard/src/trust_store.rs:618-650 | in any order the hashes split into stored, invalid and blocked without overlap; exactly min(new valid, room) are added and the cap holds |
| SessionWrite.PersistAtoms | atty-guard/src/trust_store.rs:541-563 | in any order, exactly the valid atoms are stored, exactly the others listed once each, and the counter is the number of new ones |
| SessionWrite.PersistUrls | atty-guard/src/trust_store.rs:565-600 | allow = (allow + A) - B and block = (block - A) + B for the valid session hosts; disjoint lists stay disjoint; exact counters |
| SessionWrite.SkippedWriteIsRight | atty-guard/src/trust_store.rs:565-600 | when both counters are zero the skipped write would have changed nothing if and only if no session host is on the other list, which always holds for disjoint lists |
| SessionWrite.SkippedWriteOnOverlap | atty-guard/src/trust_store.rs:565-600 | the overlap on which the skip is wrong |
| SessionWrite.AddUrlOnDisk | atty-guard/src/trust_store.rs:475-498 | after a direct decision the lists on disk are disjoint if and only if the trimmed host is not still on the other list |
| SessionWrite.OthersKeepTheirList | atty-guard/src/trust_store.rs:475-498 | on disk the decided host is on its list, trimmed, and every other host is on each list exactly when it was before and does not start with `#` |
| SessionWrite.AddUrlOnBothLists | atty-guard/src/trust_store.rs:475-498 | a validated host whose direct block leaves its trimmed form on both lists |
| SessionWrite.SessionWriteOnBothLists | atty-guard/src/trust_store.rs:565-600 | the same by a session write |
| SessionWrite.DisjointOnDiskIff | atty-guard/src/trust_store.rs:565-600 | after a write over disjoint lists, for any validated A and B, the lists on disk are disjoint if and only if the trimmed new hosts meet nothing that stays on the other list |
| SessionWrite.ExactOnDiskIff | atty-guard/src/trust_store.rs:565-600 | they are the lists that were written if and only if every new host is trimmed and no host on disk starts with `#` |
| TrustStore.UrlsExactOnDiskIff | atty-guard/src/trust_store.rs:565-600 | for any files with disjoint lists and any validated session hosts, the files end as the set algebra says if and only if nothing was to be written, or every session host is trimmed and no host on disk starts with `#` |
| TrustStore.UrlsDisjointOnDiskIff | atty-guard/src/trust_store.rs:565-600 | for the same inputs, skipped write included, the lists are disjoint on disk if and only if the trimmed new hosts meet nothing that stays on the other list |
| TrustStore.SaveAtoms | atty-guard/src/trust_store.rs:1081-1098 | the text written for a set of atoms is read back as that set without what starts with `#`, trimmed |
| TrustStore.SaveUrls | atty-guard/src/trust_store.rs:1100-1124 | the same for both lists of hosts |
| TrustStore.SaveTrust | atty-guard/src/trust_store.rs:987-1003 | the text written for a set of hashes is read back as that set |
| TrustStore.Move | atty-guard/src/trust_store.rs:504-673 | on the texts of the files and for given I/O outcomes: it succeeds if and only if every phase has nothing to do or can read and, where needed, write, and the reload works; which files are changed after a failure at each step; exactly min(new valid, room) hashes stored; what the session keeps and the report names |
| TrustStore.Store.SessionWrite | atty-guard/src/trust_store.rs:504-673 | the same in place, other users untouched; a user without a session entry is done at once |
| TrustStore.AtomsAfterMove | atty-guard/src/trust_store.rs:541-563 | entry by entry, whatever happens in later phases: when the atoms phase gets through, an atom is in the file afterwards if and only if it was before (and does not start with `#`, or nothing was written) or is the nonempty trimmed form of a valid session atom; otherwise the file is as it was |
| TrustStore.UrlsAfterMove | atty-guard/src/trust_store.rs:564-600 | the same for both lists of hosts |
| TrustStore.SessionAfterMove | atty-guard/src/trust_store.rs:652-672 | exactly the valid entries leave the session, of the hashes those in the file, and only after success |
| TrustStore.MoveSucceeds | atty-guard/src/trust_store.rs:504-673 | with working I/O the write succeeds; a needed read or the reload that fails makes it fail |
| TrustStore.Store.SessionAddTrust | atty-guard/src/trust_store.rs:376-389 | when a hash is accepted and the session then |
| TrustStore.Store.PersistentAddTrust | atty-guard/src/trust_store.rs:697-722 | when a hash is stored and what the file then reads as; a failed reload is an error with the hash stored |
| TrustStore.Store.PersistentAddUrl | atty-guard/src/trust_store.rs:475-498 | what both lists read as after a direct decision, every other host where it was; a failed reload is an error with the decision stored |
| CivilDate.CivilFromDaysCorrect | atty-guard/src/atom_drift.rs:283-296 | every day number becomes a valid date that the calendar counts back to it |
| CivilDate.CivilInvertsCalendar | atty-guard/src/atom_drift.rs:283-296 | and every valid date comes back from its day number |
| CivilDate.DaysFollowCalendar | atty-guard/src/atom_drift.rs:283-296 | day 0 is 1970-01-01 and each day is followed by the next of the calendar |
| CivilDate.StampRoundTrip | atty-guard/src/atom_drift.rs:277-297 | every timestamp gives a valid date and time that stands for exactly that timestamp |
| CivilDate.StampInverse | atty-guard/src/atom_drift.rs:277-297 | and every valid stamp comes back from its timestamp |
| CivilDate.StampsIncrease | atty-guard/src/atom_drift.rs:277-297 | strictly increasing in lexicographic order |
| CivilDate.NoOverflow | atty-guard/src/atom_drift.rs:277-297 | for every i64 no intermediate value leaves its type |
| CivilDate.CopiesAgree | atty-guard/src/trust_store.rs:1311-1323 | the two copies agree if and only if the year fits in i32 |
| Spans.DistinctSpanGroups | atty-guard/src/classifier.rs:357-375 | for nonempty spans in any order, the count is the number of connected components of the overlap graph |
| Spans.SweepUp | atty-guard/src/classifier.rs:364-374 | the loop ends with the group number of the last span, the number that `Spans.ComponentIsGroup` ties to components |
| Spans.ComponentIsGroup | atty-guard/src/classifier.rs:357-375 | each connected component is exactly one sweep group |
| Spans.DisjointSpansCountEach | atty-guard/src/classifier.rs:357-375 | pairwise disjoint spans count one each |
| Sanitize.SanitizeForClassification | atty-guard/src/sanitize.rs:63-118 | the nested loops compute `Strip` for every byte string, the function all results below are about |
| Sanitize.StripRender | atty-guard/src/sanitize.rs:63-118 | for any sequence of clean text, CSI and OSC sequences, charset selectors, other escapes and controls, given by their bytes and possibly breaking off at the end, stripping gives exactly the text |
| Sanitize.EveryInputIsRendered | atty-guard/src/sanitize.rs:63-118 | every input is such a sequence, so the text is determined for every input |
| Sanitize.StripIsCleanSubsequence | atty-guard/src/sanitize.rs:63-118 | for all inputs the result is a subsequence without C0 controls except tab, LF and CR |
| Sanitize.FixedPointIffClean | atty-guard/src/sanitize.rs:63-118 | an input is left alone if and only if it is clean, and stripping twice equals stripping once |
| Sanitize.Utf8KeptIff | atty-guard/src/sanitize.rs:119-124 | valid UTF-8 stays valid if and only if no bare ESC or charset selector stands before a multi-byte character |
| Sanitize.EscapeCutsCharacter | atty-guard/src/sanitize.rs:101-104 | the input on which it does not |
| Broadcast.Registry.Register | atty-guard/src/warn_consumer.rs:75-82 | a fresh id and one more empty subscriber |
| Broadcast.Registry.Deregister | atty-guard/src/warn_consumer.rs:87-92 | exactly that subscriber goes |
| Broadcast.Registry.BroadcastEvent | atty-guard/src/warn_consumer.rs:101-139 | the list after one broadcast, for any reader activity meanwhile |
| Broadcast.FannedKeepsOrder | atty-guard/src/warn_consumer.rs:101-139 | exactly the subscribers not both matched and without a reader are in the list afterwards, in the old order with their ids and roots |
| Broadcast.OfferOne | atty-guard/src/warn_consumer.rs:112-136 | the two sends to one subscriber are the step that the run theorems are about, with any number of messages taken in between |
| Broadcast.FatesFollowMatches | atty-guard/src/warn_consumer.rs:101-139 | every matched event has one fate, in order |
| Broadcast.ConservedIffUnsaturated | atty-guard/src/warn_consumer.rs:112-136 | in every run matched = enqueued + noticed + pending if and only if the counter never had to saturate |
| Broadcast.FewMatchesLoseNothing | atty-guard/src/warn_consumer.rs:112-136 | fewer than 2^32 matched events never saturate it |
| BroadcastRuns.SubscriberPlays | atty-guard/src/warn_consumer.rs:75-139 | after any sequence of registrations, broadcasts, receptions and deregistrations, every subscriber in the list is at the end of its own run, so the run results hold for it |
| BroadcastRuns.ListedIffRegistered | atty-guard/src/warn_consumer.rs:75-139 | after any requests an id is in the list if and only if it was handed out and since then neither deregistered nor found without a reader by an event meant for it |
| Broadcast.ReconstructsIffNoLeap | atty-guard/src/warn_consumer.rs:112-136 | expanding notices into gaps gives the matched stream in order if and only if no event overtook its notice and nothing saturated |
| Broadcast.UndisturbedNeverLeaps | atty-guard/src/warn_consumer.rs:112-136 | without a reader between the two sends nothing overtakes |
| Broadcast.LeapHappens | atty-guard/src/warn_consumer.rs:112-136 | a run of 258 events in which one does |
| Slots.SubscriberSlots.TryAcquire | atty-guard/src/server.rs:312-327 | granted exactly under both caps, and the counts then |
| Slots.SubscriberSlots.Release | atty-guard/src/server.rs:329-338 | the counts after a release, emptied entries removed |
| Slots.ConnGuard.ReleaseNow | atty-guard/src/server.rs:208-213 | the counter drops once and the guard is disarmed |
| Slots.ConnGuard.Drop | atty-guard/src/server.rs:215-221 | the counter drops only if still armed |
| Slots.CountersExact | atty-guard/src/server.rs:156-223 | in every reachable state the request counter is the slots owed, requests stay within the cap, and subscriber total = sum per UID = live slots, at most 16 and 4 |
| Slots.NoSubtractionSaturates | atty-guard/src/server.rs:295-350 | no subtraction wraps or saturates and every release finds its own count |
| Slots.RefusedOnlyWhenFull | atty-guard/src/server.rs:156-174 | a connection or subscriber is turned away exactly when the slots are out |
| Slots.ReleasedExactlyOnce | atty-guard/src/server.rs:445-573 | in every run, panics included, each connection takes each kind of slot at most once and gives it back exactly once by the time it is gone |
| Metrics.MetricsStore.Report | atty-guard/src/metrics.rs:64-98 | the store after a report: swept, then inserted unless over the cap |
| Metrics.MetricsStore.Instances | atty-guard/src/metrics.rs:101-128 | every fresh record of the selected users, once each, in any order |
| Metrics.MetricsStore.Aggregate | atty-guard/src/metrics.rs:131-151 | each field is min(2^64-1, true sum) over exactly those records, and the count is their number, for any order |
| Metrics.AddClamps | atty-guard/src/protocol.rs:308-317 | saturating addition of a clamped sum is the clamped exact sum, in every field |
| Metrics.AggregateFields | atty-guard/src/protocol.rs:308-317 | each of the eight fields of an aggregate is the sum of that field over the view, held at 2^64 - 1 |
| Metrics.FreshForAMinute | atty-guard/src/metrics.rs:25-25 | a record is fresh for 60 seconds after it was received, and before |
| Metrics.SweepingIsInvisible | atty-guard/src/metrics.rs:64-151 | when clock readings reach the store in lock order and do not go back, every query sees what a store that never sweeps would show, cap included |
| Metrics.AnswersAgreeIff | atty-guard/src/metrics.rs:64-151 | with clock readings in any order, as long as both stores took the same reports, it does if and only if no selected record that is fresh at the query was stale at the time of a report after it |
| Metrics.FewPidsSameDecisions | atty-guard/src/metrics.rs:84-88 | users that report at most 1024 PIDs are never turned away by either store |
| Metrics.SameDecisionUnlessOvertaken | atty-guard/src/metrics.rs:84-88 | the two stores first decide differently at the cap only after an overtaken record of the same user |
| Metrics.AlwaysAgreeIff | atty-guard/src/metrics.rs:64-151 | with the cap and any readings: both stores show every reporting user the same at each of its reports if and only if no report comes after an overtaken record of its user |
| Metrics.MonotoneNeverOvertakes | atty-guard/src/metrics.rs:64-151 | readings in lock order meet that condition |
| MetricsClock.QueryAgreesIff | atty-guard/src/metrics.rs:101-103 | the same as `Metrics.AnswersAgreeIff` for every interleaving of calls that read the clock before they take the lock |
| MetricsClock.OneMillisecondRun | atty-guard/src/metrics.rs:101-103 | with a clock that never goes back, a query that reads it one millisecond before a sweeping report and locks after it misses a fresh record |
| Metrics.StoreStaysBounded | atty-guard/src/metrics.rs:64-98 | after every report no bucket is empty, over the cap or holds a stale record |

## Left out

- Regexes, the Aho-Corasick automaton and the ONNX tier: spans are inputs; `combined_confidence` and `combine_hits` (f32 arithmetic and message texts) would only add easy members.
- Sockets, JSON, command line, signals, flock and the text of `/proc` files: their results are inputs.
- Tarball download, YAML extraction, digest checks and OSV queries.
- `RoutingPolicy::decide`, profile encodings and verdict ordering: finite tables.
- `warn_pids`, the warn and observe modes, the ring buffer and the socket tracepoint of the eBPF object.
- Multi-threaded processes, preemption inside one basename scan, and BPF maps at capacity.
- The in-memory persistent trust layer and the write-through from `ThreatMap` to the BPF map: the code updates them outside a common lock.
- `session_clear`. `session_add_atom`, `session_add_url_block`, `persistent_add_atom` and `persistent_remove_atom` are steps of `ListProtocol` and have no methods of their own.
- The retry, temporary file and rename of `write_atomic`: a write succeeds or leaves the file as it was.
- `slice_context_window`, and the replacement characters of the lossy conversion at the end of the stripper.
- Armed-rule counts and registration ids are unbounded numbers here; the code stores the counts as u32 and the ids as u64.
