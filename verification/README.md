# A verified model of keydesk

keydesk keeps a VPN brigade, that is one WireGuard interface and its users, in a JSON file and
keeps a remote endpoint in step with it. This project models the four parts of it that carry state
and proves what they promise.

**Patch and replay.** `cmd/patch` compares a wanted brigade with the stored one and writes the
difference as four delayed flags per user; `ReplayBrigade` carries the flags out call by call, or
wipes the interface and builds it again. Calls go to the API address that the process calculated
from the stored record when it started (`BrigadeStorage.dfy`, `Endpoint.dfy`). The methods
(`PatchBrigade.dfy`, `ReplayBrigade.dfy`) work on user objects, splice the list they walk and may
lose any call or its reply; they are proved against functions (`Patch.dfy`, `Replay.dfy`) that
give the calls made and the record stored. `Peers.dfy` looks at a script of calls one public key
at a time and says, field by field, what a peer holds of its user. `Convergence.dfy` and
`Resume.dfy` hold the results: convergence with its exact condition, agreement of the two replays,
whole runs, resumption, and which keys are disturbed. `Modes.dfy` says what a replay has done in
every combination of its switches.

**Traffic and activity.** `Calendar.dfy` defines civil dates and ISO weeks on day numbers and
proves them. On top of it the bucketed counters (`Counters.dfy`) are compared with the plain log
of samples (`CounterLog.dfy`), the month stack with the unbounded log (`MonthStack.dfy`), the
activity points with the reports (`Activity.dfy`), the quota with what was spent (`Quota.dfy`).
`Stats.dfy` and `MergeStats.dfy` put them together into one merge and prove conservation, and
`Books.dfy` proves it over the whole life of a brigade, patches included.

**Registry.** `Net.dfy` has the prefix arithmetic, `NetBytes.dfy` the same on byte buffers,
`FreeAddress.dfy` the existence of a free address and the searches for one, `Names.dfy` the
display names. `Registry.dfy` says what create, delete, block, unblock and brigadier replacement
ask of the endpoint and store, `RegistryOps.dfy` carries them out on user objects,
`Outcomes.dfy` says on users and peers alone what that comes to, `RegistryRuns.dfy` proves what
every run of them keeps, including runs in which calls and commits fail.

**File database.** `FileDb.dfy` models names, inodes, contents and locks, with a crash possible
between any two file-system steps. `BrigadeStorage.dfy` is the storage as the operations see it;
every session on the files ends as it allows (`SessionLeavesStored`).

`Whole.dfy` puts registry operations and patches into one run. `Brigade.dfy`, `Endpoint.dfy`,
`Strings.dfy` and `Order.dfy` are shared by the parts.

## Assumptions

- `wg_del` that reports success leaves no interface behind, also when it was answered with code 128
  or 146 (vpnapi/wgvpn.go:221-233). `peer_del` of an absent key succeeds; `peer_add` of a present one
  succeeds and leaves the peer alone (reply 151); `wg_add` on an interface that is up changes
  nothing. A call that fails may or may not have taken effect.
- The two ciphertexts of a secret seal the same plain text, and equal ciphertexts seal equal
  secrets. Where this is needed it is a precondition named `Coherent`.
- The private and the public interface key of a record belong together.
- The commands are started without an API address of their own, so they calculate it. (`cmd/patch`
  reads its address option before it parses its options and so always calculates it.)
- UUIDs are numbers and compare like their canonical strings; a random UUID is not the nil one.
- A key pair generated for a new user is known to no user and not to the endpoint.
- The searches for an ID and for addresses end. This is a precondition of a creation, `Ends`. It
  follows for at most 250 users when every possible draw comes up sooner or later and the prefixes
  are of length at most 24 and 112 (`FairSearchesEnd`). Nothing in the repository enforces such
  lengths. Whatever the length, the search for an IPv4 address ends exactly when one is left that is
  not taken and does not end in zero (`SearchEndsExactly`); in a prefix of length 32 none is left for
  the first user (`SingleAddressIsNone`), and in one longer than 24 the limit of 250 users is out of
  reach (`ShortPrefixIsSmall`).
- Decoy domains hold neither blanks nor commas and are not empty, where it is said (`ProperDomains`).
- Traffic sums stay below 2^64. Times are nanoseconds since 1 January of year 1, not before it.
- Locks are `flock` locks, and a process that dies gives them up.

## What turned out

- Patch and the replay that follows it call the address of the record as it was before the patch.
  When the brigade's IPv4 address changes, the old endpoint is rebuilt and the one the new record
  leads to hears nothing (`AddressChangeIsLost`). A cycle from an endpoint in step ends in step
  exactly if that address is unchanged or the other endpoint serves the wanted users already
  (`CycleInStep`), and a run of patches stays in step exactly if every cycle meets this condition
  (`EveryRunStaysInStep`). A replay command run afterwards repairs it (`RetriesEndInStep`).
- Convergence needs an endpoint that serves the stored record. Patch sets the flags of every
  wanted user from scratch, so an action still pending in the stored record is forgotten
  (`PendingCreationIsLost`). `ConvergesIff` gives the exact condition for every start.
- From a settled endpoint a delayed-only replay converges whatever else changed, except that a new
  keydesk address does not reach an unblocked brigadier who stays unmodified (`Convergence`,
  `KeydeskChangeIsMissed`). Patch asks for a full replay then.
- Patch sorts the decoy domains, and that alone does not ask for a full replay. The incremental
  path and the full path therefore agree on the interface parameters exactly when the stored
  domains were sorted (`ParamsAgree`, `UnsortedDecoysDiffer`); they agree on peers and record always.
- When the interface key changes, replay builds the interface under the new key and touches no
  other (`PatchMain`), so the old interface stays up. A change of mode stores the patched record and
  exits for a restart without any replay.
- A replay can be cut off anywhere and run again from the start. This holds for every record,
  every mode and every state of the endpoint, not only for patched records (`Resumed`).
- A commit that fails may leave the old record, no readable record, or the new record in a main
  that the next open empties (`CommitEndings`). A crash leaves a database that nobody can open again
  exactly when it falls between the removal of main and the removal of tmp (`CrashIsRecoverable`,
  with both crashes in `CommitsThatKill`). Before the link main is gone, and the next open empties
  tmp and creates an empty main; after it, main and tmp are one file, which the next open truncates
  before it waits for its own lock. A complete backup is there in every case (`EveryRunIsSafe`).
- The monthly counter holds too much exactly when its month was entered by a jump of one year from
  the month of the same name while the counter was not zero (`MonthlyExact`, `MayIsKept`). The
  previous day's counter is lost between a 31st and the first of a shorter month (`JanuaryIsLost`)
  and kept over a gap of one month (`MarchIsKept`); `PrevDayExact` says exactly when it is right.
- Patch takes the users of its file with the quotas written there and keeps the brigade's own
  counters. The brigade's totals remain the sum of the users' exactly if the file brings the totals
  of the users that stay (`PatchBalancesIff`, `BooksBalanceForEver`); a file made before the last
  merge does not (`PatchForgetsTraffic`).
- An operation of the registry that fails where the endpoint served the users breaks that exactly
  when one of its calls took effect, the drop of a blocked brigadier excepted (`FailureServes`). A
  creation that fails after its `peer_add` took effect leaves a peer behind (`OrphanArises`; it can
  happen to the first user of every brigade, `FirstCreationCanFail`) that no later operation removes
  (`OrphanStays`). The check for a name that exists already never fires for a full name that does
  not start with a digit, because stored names carry a number (`RefusedExactly`).

## Model

| member | source | states |
|---|---|---|
| Endpoint.EndpointApi.Send | vpnapi/wgvpn.go:54-240 | A call that succeeds took effect once, at one interface of one address; one that fails took effect once or not at all, and is counted. |
| Endpoint.APIAddrBytes | vpnapi/vpnapi.go:34-39 | The API address is FD, CC, the four bytes of the brigade's address, nine zero bytes and a three. |
| Endpoint.APIAddrInjective | vpnapi/vpnapi.go:34-39 | Two brigades have the same API address exactly if they have the same IPv4 address. |
| BrigadeStorage.Storage.SelfCheckAndInit | keydesk/storage/db.go:98-126 | The address of all later calls is fixed: the given one, or the one that the record as stored now leads to. |
| BrigadeStorage.Storage.Commit | keydesk/storage/db.go:59-69 | A commit stores the record, or fails with the old record, with none that can be read, or with the new one doomed. |
| Order.SortUsers | cmd/patch/main.go:259-261 | The sort returns a permutation, ordered when IDs differ and there is one brigadier at most. |
| Order.OrderedMeans | keydesk/storage/user.go:221-223 | In such a list nobody but the first is the brigadier and the IDs of the others fall. |
| Order.OrderedUnique | keydesk/storage/user.go:221-223 | Brigadier first, then descending ID: such a list is determined by its members, whatever sorted it. |
| Strings.SortSorts | cmd/patch/main.go:263-264 | Sorting the domains gives a sorted permutation. |
| Strings.LessEqDecides | cmd/patch/main.go:263-264 | The order is that of dictionaries: the first character that differs decides, then the length. |
| Strings.JoinInjective | cmd/patch/main.go:285 | Comparing the joined domains is comparing the lists, for names that are not empty and hold no blank. |
| ReplayBrigade.DeleteDelayed | keydesk/storage/replay.go:66-87 | The splice-and-restart loop ends, deletes one peer per flagged user in order, and leaves the stable filter of the list; a failed call stops it at a prefix. |
| ReplayBrigade.SpliceDeletion | keydesk/storage/replay.go:69-81 | Splicing out the first flagged user keeps the filtered list and drops one call from the front. |
| ReplayBrigade.VisitUser | keydesk/storage/replay.go:89-148 | The flag machine of one user makes the calls and ends with the flags that the function of the record says (`Modes.VisitReaches`, `Modes.RecordReached` say what they come to), or stops at the call that failed. |
| ReplayBrigade.VisitAll | keydesk/storage/replay.go:89-149 | The walk does so for every surviving user in order. |
| ReplayBrigade.ReplayIface | keydesk/storage/replay.go:20-64 | The interface calls are made in order (`Modes.BegunIs` says what they come to in every mode); it fails exactly if one of them does, and stops there. |
| ReplayBrigade.ReplayBrigade | keydesk/storage/replay.go:12-159 | Wherever it stops, the called interface has seen a prefix of the script and no other interface anything; the storage is as before until the whole script was carried out, and then holds the replayed record or what a failed commit leaves. A run that ends well has brought the interface where `Modes.Reached` says, in every mode; a run fails exactly when an open, a call or a commit fails, and stops there. |
| ReplayBrigade.ReplayMain | cmd/replay/main.go:39-57 | The replay command does so at the interface the record as stored now leads to: it ends well with that interface as `Modes.Reached` says, or after exactly one failure of an open, a call or a commit. |
| Modes.ScriptReaches | keydesk/storage/replay.go:12-159 | For every record, every combination of switches and every start: the interface is there, gone, or as it was, with the record's settings if the run set it up; and under every key the peer is dropped, added with its user's contents, or left, as the user's state and the switches call for. |
| Modes.BegunIs | keydesk/storage/replay.go:20-59 | The interface after the calls about it, in every mode: as it was, gone, or up with the record's settings and no peers. |
| Modes.VisitReaches | keydesk/storage/replay.go:89-148 | One visit in any mode, from any peer under the user's key: a pending block or replay drops it when the run acts, and the user is offered if it is unblocked and the mode covers it. |
| Modes.RebuildServes | keydesk/storage/replay.go:20-149 | Where there was no interface, or it was removed first, a run over brigade and users leaves one with the record's settings that serves exactly the unblocked users: those that stay if pending actions are carried out, those with nothing pending if not. The run without switches is one. |
| Modes.BrigadeAlone | keydesk/storage/replay.go:54-63 | A run for the brigade only leaves an interface without peers if there was none or it was removed first, and otherwise changes nothing. |
| Modes.NothingTaken | keydesk/storage/replay.go:95-148 | A run that does not act takes no peer from an interface it does not rebuild, and adds exactly the missing unblocked users with nothing pending. |
| Modes.PendingIsDone | keydesk/storage/replay.go:66-148 | After a run that acts, users waiting for deletion or a block have no peer, users waiting for creation have one, and those waiting for a replay have their own contents there. |
| Modes.RecordReached | keydesk/storage/replay.go:66-156 | A run that acts stores the users not waiting for deletion in their order, all flags cleared but a creation of a blocked user and a replay beside a block; any other run stores nothing new. |
| PatchBrigade.DeletedUsers | cmd/patch/main.go:299-326 | Exactly the stored, unblocked users that are not wanted any more are appended, flagged for deletion only. |
| PatchBrigade.FreshUsers | cmd/patch/main.go:328-377 | Every wanted user that is not itself marked deleted is appended with exactly the flags its difference to the stored user calls for (`Patch.MarkFlags`). |
| PatchBrigade.MarkUser | cmd/patch/main.go:335-373 | The flags of one wanted user are set from scratch from its first match by ID and key, as `Patch.Flagged` says field by field. |
| Patch.MarkFlags | cmd/patch/main.go:340-371 | The flags are those its first match by ID and key calls for; a replay exactly if it was and is unblocked and differs in anything but its name and the ciphertexts for the router. |
| Patch.ModifiedExactly | cmd/patch/main.go:379-423 | Two users with one ID and key count as unmodified exactly if they are equal once the name and the six ciphertexts for the router are. |
| Patch.FullReplayExactly | cmd/patch/main.go:263-293 | A full replay is asked for exactly if the brigades differ once the mode, the three ciphertexts for the router and the list of decoys are made equal, or the sorted, blank-joined decoys differ; for decoys without blanks, if the lists differ as multisets. |
| Patch.PatchedInfoExactly | cmd/patch/main.go:247-264 | The stored brigade is the wanted one but for the order of its decoy domains, which are sorted and all kept. |
| PatchBrigade.PatchBrigadeCommon | cmd/patch/main.go:247-297 | The new record holds the dropped and the marked users in some order, the wanted brigade with sorted domains, and a full replay is asked for exactly when a listed field differs. |
| PatchBrigade.Do | cmd/patch/main.go:182-216 | A run that is not dry and ends well stored a patched record; one fails exactly when the open or the commit fails, and left the storage alone or died in the commit; a change of mode takes precedence over a full replay. |
| PatchBrigade.PatchMain | cmd/patch/main.go:33-116 | Only the interface under the new key at the address of the old record is called, with a prefix of the replay that patch picks. A run with the replay switch that ends well is a patch cycle: the called interface serves exactly the wanted users, and the endpoint of the new record is in step exactly if the address did not change or it served them already. A run fails exactly when an open, a call or a commit fails, and left a prefix and a storage before, between or in one of the two commits; a restart exit and a dry run leave the endpoints alone. |
| Peers.ApplyByKey | vpnapi/wgvpn.go:112-144 | Peer calls keep the interface and act on every key on its own. |
| Peers.PeerHolds | vpnapi/wgvpn.go:70-110 | The peer handed over holds each secret the router opens of the user under its own name, the addresses and the certificate request, the IPsec pair only if both halves are set, the keydesk address only for the brigadier; and no other peer does. |
| Peers.ParamsConfigure | vpnapi/wgvpn.go:164-200 | The settings handed over hold each setting of the brigade in its own place, the certificate only with its key, and the single decoy in front of the list; and no other settings do. |
| Peers.VisitOnKey | keydesk/storage/replay.go:89-149 | With unique keys only the user that owns a key matters to it. |
| Peers.DelayedOnKey | keydesk/storage/replay.go:66-149 | A delayed-only replay treats a key like its deletions followed by the visit of the user that keeps it. |
| Convergence.PatchedKept | cmd/patch/main.go:253-261 | However the sort leaves the list, the users that stay are the marked wanted ones with keys of their own. |
| Convergence.ConvergesIff | cmd/patch/main.go:299-377 | From any endpoint: delayed-only replay ends with exactly the wanted unblocked users if and only if every key is withdrawn by patch, already right, or absent and introduced by patch. |
| Convergence.Convergence | keydesk/storage/replay.go:66-149 | From a settled endpoint patch and delayed-only replay leave exactly the unblocked wanted users, each peer holding what is its user's by name (`Peers.Holds`), also when a key moved to another ID, if and only if the keydesk address is unchanged or no unblocked brigadier stays unmodified. |
| Convergence.KeydeskChangeIsMissed | cmd/patch/main.go:388-423 | The failing input: one unmodified brigadier and a new keydesk address. |
| Convergence.PendingCreationIsLost | cmd/patch/main.go:335-338 | Without a settled start the claim fails: a pending creation in the stored record never reaches the endpoint. |
| Convergence.FullReplay | keydesk/storage/replay.go:20-59 | Wipe and rebuild reaches, from any endpoint, the peers of the users that stay, each with its contents by name, and the settings of the brigade. |
| Convergence.SameRecord | keydesk/storage/replay.go:66-156 | Both replays store the same record, for every record. |
| Convergence.ParamsAgree | cmd/patch/main.go:263-296 | If no full replay is asked for, the interface parameters are the same but for the comma-joined decoys, whose list is a permutation, and the same exactly when the stored domains were sorted. |
| Convergence.PathsAgree | cmd/patch/main.go:81-98 | From a settled endpoint the incremental path and the full path, the latter from any endpoint, end in the same peers and record, and in the same parameters exactly when the stored domains were sorted. |
| Convergence.UnsortedDecoysDiffer | cmd/patch/main.go:263-264 | The failing input: stored decoys out of order, on which the two replays leave different parameters. |
| Convergence.Cycle | cmd/patch/main.go:75-100 | At whatever interface the picked replay runs, it ends serving the wanted users, in step with the new record, which is fit to be patched again. |
| Convergence.CycleInStep | cmd/patch/main.go:70-100 | One patch cycle from an endpoint in step: the called interface serves the wanted users, and the endpoint of the new record is in step if and only if the IPv4 address did not change or that endpoint served them already. |
| Convergence.EveryRunStaysInStep | cmd/patch/main.go:70-100 | A run of patches from an endpoint in step stays in step throughout if and only if every cycle arrives at the endpoint of its new record. |
| Convergence.AddressChangeIsLost | keydesk/storage/db.go:112-117 | The failing input: a brigade that moves to another IPv4 address; every cycle ends with nothing at the endpoint of the new record. |
| Resume.Resumed | keydesk/storage/replay.go:12-159 | A replay cut off after any number of calls and run again from the start ends where an uninterrupted one ends, for every record, mode and endpoint. |
| Resume.ResumedOften | keydesk/storage/replay.go:12-159 | The same after any number of interruptions. |
| Resume.RetriesEndInStep | cmd/patch/main.go:81-98 | A patch whose replay stopped anywhere, followed by replay commands in the same mode, all but the last cut off, ends with the endpoint of the new record serving the wanted users and the stored record saying so, also after a change of address. |
| Resume.OnlyChangedKeys | keydesk/storage/replay.go:66-149 | A delayed-only replay of a patched record makes a call about a key exactly when an unblocked user with it appeared, disappeared, or differs in anything but its name and the ciphertexts for the router. |
| Resume.RenamingIsSilent | cmd/patch/main.go:388-423 | A patch that only renames users leads to a replay without calls, whatever changes about the brigade. |
| Resume.MarkIsConsistent | cmd/patch/main.go:340-371 | Patch writes only flag combinations that one replay works off completely. |
| Resume.ReplayedIsQuiet | keydesk/storage/replay.go:99-156 | After a delayed-only replay of a patched record no flag is left, and a second one makes no call. |
| Resume.PatchedWithItself | cmd/patch/main.go:247-377 | Patching a quiet record with itself stores the same users, asks for no full replay, and its replay makes no call. |
| FileDb.Store.OpenFileDb | kdlib/filedb.go:85-108 | Opening truncates the file tmp names and opens main; wherever it dies the invariant holds, a dead database stays dead, main is no worse than before unless it was doomed, and if main and tmp are one file the open does not return. |
| FileDb.Store.ReadAndBackup | keydesk/storage/db.go:132-172 | A session decodes the newest version and then the backup is that version; wherever it dies the invariant holds and main is worth what it was; a dead database is never read. |
| FileDb.Store.Encode | keydesk/storage/db.go:59-62 | Encoding fills tmp with the next version or dies; main stays readable. |
| FileDb.Store.Commit | kdlib/filedb.go:26-44 | A commit that succeeds leaves the new version in main, the one before in the backup and no tmp; one that fails changed nothing, lost main, or left the new version in a doomed main. |
| FileDb.EveryRunIsSafe | kdlib/filedb.go:26-108 | Over every run of sessions and crashes main or the backup is a complete version no older than the one before the last commit. |
| FileDb.EveryOpenBlocks | kdlib/lockedfile/lockedfile_filelock.go:16-53 | Once main and tmp are one file no session ever gets its handle on main: each ends in a crash before its open returns. |
| FileDb.DeadForEver | kdlib/filedb.go:85-108 | From a dead database no later session gets past its decode. |
| FileDb.HealthyRecovers | keydesk/storage/db.go:132-172 | From a healthy database a session can decode the newest version. |
| FileDb.CrashIsRecoverable | kdlib/filedb.go:31-41 | A crash can be recovered from exactly when it does not fall between the removal of main and the removal of tmp. |
| FileDb.CommitsThatKill | kdlib/filedb.go:31-41 | The failing runs: from a fresh database, a crash after the removal of main and a crash after the link, both leaving it dead. |
| FileDb.OpensExactly | kdlib/filedb.go:85-108 | Between sessions, a session can decode the newest version exactly if main is readable. |
| FileDb.CommitEndings | kdlib/filedb.go:26-44 | What a commit leaves by the step it reached: a readable old version, no main, a doomed new one, a readable new one. |
| FileDb.SessionLeaves | kdlib/filedb.go:26-108 | Every session from open to wherever it dies leaves what its last stage says: a main no worse than before its decode, and in the commit what its steps leave; it decodes only a readable main. |
| BrigadeStorage.SessionLeavesStored | keydesk/storage/db.go:59-172 | So every session on the files ends as the storage of the operations does: the next record stored, or one of the ends a failed session is allowed, or nothing but an emptied doomed main if it never decoded. |
| Calendar.DateRoundTrip | keydesk/storage/stats.go:146-147 | Every valid date is the date of its day number. |
| Calendar.DayRoundTrip | keydesk/storage/stats.go:146-147 | Every day number is the number of its date. |
| Calendar.AddMonthLands | keydesk/storage/stats.go:183 | A day plus one month lands in the next month exactly when that month has such a day. |
| Calendar.SameWeek | keydesk/storage/stats.go:171-174 | Two days agree in ISO week and week year exactly when no Monday separates them. |
| Calendar.TheBeginning | keydesk/storage/stats.go:130-147 | Day 0 is Monday, 1 January of the year 1. |
| Calendar.UnixEpoch | keydesk/storage/stats.go:313-316 | The Unix zero time is midnight of Thursday, 1 January 1970. |
| Calendar.LeapDay | keydesk/storage/stats.go:171-174 | 29 February 2000 was a Tuesday in the ninth ISO week. |
| Calendar.FourCenturies | keydesk/storage/stats.go:146-147 | Four hundred years are 146 097 days, a whole number of weeks. |
| Calendar.MonthTable | keydesk/storage/stats.go:183 | Months of 31 and 30 days take turns, the other way round from August on, and February follows the Gregorian rule. |
| Counters.IncDateSwitchRelated | keydesk/storage/stats.go:125-204 | The branches on dates compute the function on day numbers that the log is compared with. |
| CounterLog.RunTotal | keydesk/storage/stats.go:134 | The total is the sum of all samples. |
| CounterLog.BucketIsSum | keydesk/storage/stats.go:125-204 | Yearly, ISO-weekly and daily counters are the sums of the logged samples, the first excepted, in the period of the latest update; so is the monthly one when no sample comes a year later in the same month. |
| CounterLog.ShortGapNoJump | keydesk/storage/stats.go:158-188 | A gap of fewer than 335 days never is such a jump. |
| CounterLog.MonthlyExact | keydesk/storage/stats.go:158-190 | Over every log the monthly counter is the sum of the month plus what it held when its month was entered by a jump of one year, so it is right exactly if that is nothing. |
| CounterLog.PrevDayExact | keydesk/storage/stats.go:180-201 | Exactly when the previous day's counter is right after a change of day. |
| CounterLog.PrevDayIsSum | keydesk/storage/stats.go:192-201 | With gaps below 28 days it is right or zero, and zero wrongly only on the first of a month too short for the day before. |
| CounterLog.JanuaryIsLost | keydesk/storage/stats.go:183-187 | In every year the traffic of 31 January is missing on 1 February. |
| CounterLog.MayIsKept | keydesk/storage/stats.go:158-188 | In every year the traffic of May is still in the monthly counter of the May after, if no sample lies between. |
| CounterLog.MarchIsKept | keydesk/storage/stats.go:180-201 | In every year a sample on 12 April after one on 12 March leaves the traffic of 11 March in the previous day's counter. |
| CounterLog.LateSamplesAreDropped | keydesk/storage/stats.go:126-128 | With any clock the counters are those of the samples that were not late, and these run forward. |
| MonthStack.PutInPlace | keydesk/storage/types.go:125-146 | The shift and the increments on the array compute the function the log is compared with. |
| MonthStack.StackIsLastTwelve | keydesk/storage/types.go:125-146 | After any run the stack is the last twelve months observed, right-aligned and padded. |
| MonthStack.NothingIsLost | keydesk/storage/types.go:129-144 | What the stack holds and what has left it make up all traffic put. |
| MonthStack.MonthsInOrder | keydesk/storage/types.go:129 | With time running forward the observed months are calendar months in order. |
| MonthStack.MonthsAreComplete | keydesk/storage/types.go:137-145 | Every slot holds all traffic its month had in the whole log. |
| MonthStack.MonthsAreLatest | keydesk/storage/types.go:138-145 | Every slot has the user count and the time of the last entry of its month. |
| Activity.LastActivityMark | keydesk/storage/stats.go:30-123 | The branches on dates and ISO weeks renew each of the four points as the one rule for all of them says. |
| Activity.PointsAreExact | keydesk/storage/stats.go:30-123 | With any clock, a point is set exactly when an accepted report saw the user in the period of the latest update, and then it lies in it and is a time the user was seen at; so is the total. |
| Activity.PointsAreNested | keydesk/storage/stats.go:58-65 | A daily point implies the three coarser ones, a monthly one the yearly one, no total no point. |
| Activity.PointsMoveOn | keydesk/storage/stats.go:58-120 | A report that is not late makes the total the time it reports, if any; while a year or month goes on its point never moves to an earlier day. |
| Activity.FixedAlready | keydesk/storage/stats.go:313-316 | Over every run the total is never the Unix zero time, so the repair made before every mark changes nothing. |
| Quota.ResetIsMonthStart | kdlib/date.go:6-8 | The reset time is the first instant of the month after now. |
| Quota.RemainingSinceReset | keydesk/storage/stats.go:400-412 | Since a renewal, its sample included, the rest is the limit minus all spent, or zero. |
| Quota.RemainingWithoutReset | keydesk/storage/stats.go:406-412 | The same from the start while there is no renewal. |
| Quota.ResetMovesOn | keydesk/storage/stats.go:400-404 | The reset time is never before now after a merge and strictly later at a renewal. |
| Quota.OneResetPerMonth | keydesk/storage/stats.go:400-404 | Of two renewals the second is in a later calendar month. |
| Stats.Telescoping | keydesk/storage/stats.go:275-300 | Over any readings, restarts and missing ones, the credit is the last reading plus those just before restarts minus the initial snapshot. |
| Stats.MeterTelescopes | keydesk/storage/stats.go:266-300 | The running total grows by that credit, for rx and tx independently. |
| Stats.Conservation | keydesk/storage/stats.go:382-480 | In a merge not before any stored update, brigade totals, users' totals and the newest stack slot grow by the same traffic, whose total is the sum of the five protocols. |
| Stats.LastOfAllIsLatest | keydesk/storage/stats.go:430-433 | The brigade's last activity is the latest time any user was seen at or the one known before. |
| Books.BooksBalanceForEver | keydesk/storage/stats.go:382-480 | Over the whole life of a brigade, users joining and leaving and patches putting the users of a file in their place, the brigade's totals are those of the present users plus those the others left with, throughout, if and only if every patch file brings the totals of the users that stay. |
| Books.BrigadeBalancesForEver | keydesk/storage/stats.go:459-480 | Through patches too, the brigade's totals are the traffic the month stack holds and has let go, per protocol and overall, and the overall total is the sum of the five protocols. |
| Books.PatchBalancesIff | cmd/patch/main.go:250-255 | One patch keeps the users' books and the brigade's in balance if and only if its file brings the totals of the users that stay. |
| Books.PatchForgetsTraffic | cmd/patch/main.go:250-255 | The failing input: a user with merged traffic and a patch file that has the user as it was created. |
| Stats.BalancedForEver | keydesk/storage/stats.go:382-393 | Over every run of merges, with any clock, a user's total is the sum of its protocol totals. |
| Stats.MergeSpends | keydesk/storage/stats.go:393-412 | One merge: the quota shrinks by what the user's total grows by in both directions, after it was renewed to the limit if its reset time had passed. |
| Stats.QuotaWithoutRenewal | keydesk/storage/stats.go:393-412 | Over every run of merges up to the reset time the quota left is what was left less the growth of the user's total in both directions, or zero. |
| Stats.QuotaSinceRenewal | keydesk/storage/stats.go:393-412 | Since the merge that renewed it, that one included, the quota left is the limit less the growth of the user's total, or zero. |
| Stats.SeenOverallIsLatest | keydesk/storage/stats.go:414-422 | The time passed on is the latest of the six protocols' and the user's own. |
| MergeStats.HandleTrafficStat | keydesk/storage/stats.go:266-300 | One protocol: counters, snapshot and both sums move by the same credit. |
| MergeStats.HandleLastActivity | keydesk/storage/stats.go:302-338 | One protocol's points are marked, and the latest time seen is passed on. |
| MergeStats.MergeReports | keydesk/storage/stats.go:386-428 | Every protocol of a user is metered and marked by its own part of the report and by no other. |
| MergeStats.MergeAccount | keydesk/storage/stats.go:382-428 | One turn of the loop does to a user's books what the merge function says, spends the merged traffic of both directions from the quota, and adds the user's traffic. |
| MergeStats.MergeReport | keydesk/storage/stats.go:340-483 | The whole merge, loop and in-place updates, is the merge function that conservation and the quota laws are proved of, meters and marks every user by its own parts of the report, and leaves the latest activity. |
| Net.RandomIPv4Range | kdlib/net.go:27-42 | The addresses that can be drawn are exactly those of the prefix, the last one excepted unless it is the only one. |
| Net.LastIPv4IsLargest | kdlib/net.go:84-94 | The last address is in the prefix and the largest of it. |
| Net.BoundIsPositive | kdlib/net.go:75-78 | No prefix length makes the random source draw from an empty range. |
| Net.InHalves | kdlib/net.go:45-69 | Membership in a prefix of 128 bits is membership of both halves under their masks. |
| Net.RandomIPv6InPrefix | kdlib/net.go:45-81 | For every length and every draw the address is inside the prefix of 128 bits. |
| Net.LastIPv6IsLargest | kdlib/net.go:97-121 | The last address is in the prefix and, as a 128-bit number, the largest of it. |
| NetBytes.RandomFrom8 | kdlib/net.go:72-81 | Eight bytes of the buffer become the drawn half beside the network, all others stay. |
| NetBytes.RandomAddrIPv6 | kdlib/net.go:45-69 | The sixteen bytes written half by half are the drawn address. |
| NetBytes.LastPrefixIPv6 | kdlib/net.go:97-121 | The sixteen bytes written half by half are the last address. |
| NetBytes.Uint64OfBytes | kdlib/net.go:73-80 | Reading back a big-endian word gives the word written. |
| NetBytes.ZeroEndingBytes4 | kdlib/net.go:14-16 | The test on the last byte is the test on the low eight bits. |
| NetBytes.ZeroEndingBytes6 | kdlib/net.go:18-21 | The test on the last two bytes is the test on the low sixteen bits. |
| FreeAddress.FreeByte | keydesk/storage/user.go:295-306 | Fewer than 256 bytes leave one out. |
| FreeAddress.FreeIPv4 | keydesk/storage/user.go:250-306 | For every prefix of length at most 24 and fewer than 254 taken addresses some draw is accepted. |
| FreeAddress.NoFreeIPv4 | keydesk/storage/user.go:295-306 | A prefix longer than 24 bits has 128 addresses at most, and once they are taken no draw is accepted. |
| FreeAddress.FreeIPv6 | keydesk/storage/user.go:256-319 | The same for every IPv6 prefix of length at most 112. |
| FreeAddress.PickIPv4 | keydesk/storage/user.go:295-306 | For every prefix length: if the stream has an acceptable draw the search ends with an address of the prefix that is not taken, does not end in zero, and below length 32 is not the last. |
| FreeAddress.PickIPv6 | keydesk/storage/user.go:308-319 | For every prefix length: if the stream has an acceptable draw the search ends with an address of the prefix that is not taken and does not end in zero. A draw can be the last address, which counts as taken. |
| RegistryOps.FairSearchesEnd | keydesk/storage/user.go:279-319 | With fair sources, prefix lengths up to 24 and 112 and up to 250 users all three searches end. |
| RegistryOps.FreeDrawExactly | keydesk/storage/user.go:250-306 | For every prefix length and every list of users, some draw is accepted if and only if an address of the prefix is left that is not taken and does not end in zero. |
| RegistryOps.SearchEndsExactly | keydesk/storage/user.go:295-306 | So with a fair source the first search ends if and only if such an address is left. |
| RegistryOps.SingleAddressIsNone | keydesk/storage/user.go:250-306 | The failing input: in a prefix of length 32 no address is left for the first user. |
| RegistryRuns.ShortPrefixIsSmall | keydesk/storage/user.go:275-306 | In a prefix longer than 24 bits a well-formed list has 127 users at most, so the limit of 250 never stops a creation there. |
| Names.BlurInjective | kdlib/blur.go:27-32 | Whatever the salt, two addresses of one prefix never blur into one number. |
| Names.BlurComesBack | kdlib/blur.go:27-32 | With the same salt the host's bits come back from the number. |
| Names.NumberIsDigits | keydesk/storage/user.go:321-323 | The padded decimal number is at least three digits and can be read back. |
| Names.NumberIsShort | keydesk/storage/user.go:321-323 | It is longer than three digits only without a zero in front. |
| Names.NumberedInjective | keydesk/storage/user.go:321-323 | Two names agree exactly if their numbers and full names agree. |
| Names.NamesAreDistinct | keydesk/storage/user.go:321-323 | In one prefix two names agree exactly if addresses and full names agree. |
| Names.FullNameComesBack | keydesk/storage/user.go:446 | Trimming gives the full name back exactly when it does not start with a digit or a blank. |
| RegistryOps.CollectTaken | keydesk/storage/user.go:248-273 | The walk stops at the first clash, name before role, or collects exactly what is taken. |
| Registry.RefusalReason | keydesk/storage/user.go:261-293 | The reason for a refusal: the first user in the way, by its name before its role; then the limit; then the ID. |
| RegistryOps.AssembleUser | keydesk/storage/user.go:245-326 | Refusals in their order; otherwise, if the searches end, an unused ID, free addresses inside the prefixes, and the numbered name. |
| RegistryOps.RemoveBrigadier | keydesk/storage/user.go:438-464 | The first brigadier leaves the list, its peer is dropped, its full name is recovered. |
| RegistryOps.CreateUser | keydesk/storage/user.go:44-241 | On success the record holds the users there were, a replaced brigadier excepted, and the new one in order, which is what the form says; its peer, if the key was not known, holds each secret under its own name. On failure the calls are a prefix and the storage as before or as a failed commit leaves it; it fails exactly when an open, a call or the commit fails or the user is refused. |
| RegistryOps.DeleteUser | keydesk/storage/user.go:329-378 | On success the list is without the user of that ID and role, or with it blocked, or the same if there is none. Wherever it ends, everybody else is stored as before and keeps its peer, so the brigadier survives every deletion of a user. A failure leaves the storage as before or as a failed commit does, and comes exactly of an open, a call or a commit that failed. |
| RegistryOps.UnblockUser | keydesk/storage/user.go:381-436 | On success the user of that ID is unblocked, nobody else changed, and a peer that was missing holds each secret under its own name. A missing user or one without a key is an error; any other failure comes exactly of an open, a call or a commit that failed, and leaves the storage as before or as a failed commit does. |
| Outcomes.DeletionExactly | keydesk/storage/user.go:338-369 | With distinct IDs, exactly the user whose ID and role are both the ones asked for is removed or blocked, and its peer dropped if it was not blocked; if there is none, nothing happens. |
| Outcomes.OthersSurvive | keydesk/storage/user.go:342-369 | After any number of its calls a deletion has touched nobody else's peer, and it stores everybody else unchanged; the brigadier too, if a user was to be deleted. |
| Outcomes.UnblockingExactly | keydesk/storage/user.go:390-424 | With distinct IDs, exactly the user of that ID is unblocked. |
| Outcomes.UnblockingReaches | keydesk/storage/user.go:401-418 | A blocked user without a peer has its own after its unblocking. |
| Outcomes.BaseExactly | keydesk/storage/user.go:438-464 | A replacement starts from the users that are not the brigadier and drops exactly its peer; any other creation starts from all users and drops none. |
| Outcomes.AddedAsAsked | keydesk/storage/user.go:73-90 | The new user is what the form says but for an ID if none is given, two addresses, no domain, and a name made of the form's or, in a replacement, of the old brigadier's. |
| Outcomes.CreationReaches | keydesk/storage/user.go:142-155 | A new user whose key was not known has its own peer after its creation. |
| RegistryOps.InsertedIsSorted | keydesk/storage/user.go:221-223 | Sorting after appending is inserting the new user in its place. |
| RegistryOps.CreationIsStep | keydesk/storage/user.go:44-241 | Wherever a creation stops, in its commit too, it has made a step of a run. |
| RegistryOps.ChangeIsStep | keydesk/storage/user.go:329-436 | The same for deleting, blocking and unblocking. |
| RegistryRuns.CompletedKeeps | keydesk/storage/user.go:44-464 | Every operation that completes keeps IDs, keys and addresses distinct, addresses in place, one brigadier at most, the limit, the order and numbered names. |
| RegistryRuns.FailureKeeps | keydesk/storage/user.go:44-464 | An operation that fails makes the endpoint differ from the record at exactly the keys of its calls that took effect, the drop of a blocked brigadier excepted, and at those it differed at before. |
| RegistryRuns.FailureServes | keydesk/storage/user.go:44-464 | An operation that fails where the endpoint served the users: it still does if and only if no call took effect, or only the drop of a brigadier that was blocked. |
| RegistryRuns.EveryRunIsRegistered | keydesk/storage/user.go:44-464 | From an empty list, over every run with any failures, the list is well-formed, and the endpoint holds exactly the unblocked users if and only if no key is left of a failed operation that did harm and was not completed on since. |
| RegistryRuns.CompletedRunServes | keydesk/storage/user.go:44-464 | When every operation of a run completes, the endpoint holds exactly the unblocked users after each. |
| RegistryRuns.OrphanArises | keydesk/storage/user.go:142-155 | A creation without a replacement can fail after its call took effect, and then the endpoint holds the new peer, no user has its key, and the users are not exactly served. |
| RegistryRuns.FirstCreationCanFail | keydesk/storage/user.go:142-155 | The failing run: in every brigade with roomy prefixes, the creation of the first user. |
| RegistryRuns.OrphanStays | keydesk/storage/user.go:329-464 | A peer whose key no user has stays at the endpoint, unchanged, through every later operation. |
| Whole.EveryRunInStep | cmd/patch/main.go:70-100 | Over every run of registry operations, completed or failed, and patches, in any order, the endpoint the stored record leads to serves exactly its unblocked users throughout if and only if every patch arrives there and every failed operation did no harm. |
| RegistryRuns.NamesDiffer | keydesk/storage/user.go:321-323 | No two users of a well-formed list share a display name, even when full names repeat. |
| RegistryRuns.RefusedExactly | keydesk/storage/user.go:261-293 | A user whose full name does not start with a digit is refused exactly for a full list, a second brigadier or a used ID, never for the name. |
| RegistryRuns.ReplacementIsNotStranded | keydesk/storage/user.go:73-83 | Once the old brigadier is dropped, its successor with a random ID is never refused, and it takes over the full name exactly when that does not start with a digit or a blank. |

## Left out

- HTTP servers, generated API code, command-line flags, background jobs, push and message handlers.
- JSON, gzip and the endpoint's wire format: a file holds a complete version or something that does not decode, a call takes effect or not.
- Cryptography, key generation, certificates and the client configuration returned by a creation.
- `storage.GetMessages`, which commits without encoding: crash safety is proved of sessions that encode before they commit.
- Activity.LastActivityMark: does not model `PrevMonthly`, which the same-day branch does not maintain, so that it has no invariant.
- MergeStats.HandleLastActivity: does not model the endpoint address map with its expiry and the active-user count.
- MergeStats.MergeAccount: does not model the usage marks and the throttled and blocked user counts.
- MergeStats.MergeReport: does not model the endpoint address map and the user counts.
- A new file or API address that cannot be read: the commands end before they touch anything.
- The debugging mode without an API address, in which no call leaves the process.
- Overflow of 64-bit traffic sums: sums are unbounded.
- In the patch command itself: the brigade counters, the month stack and the endpoint map it carries over from the stored record, and the quotas it takes from the file; `Books.dfy` has their effect on the totals only.
- Upgrades of records of older versions while they are read, and opening without reading.
- The person record of a user, creation and block times, the initial quota of a new user.
- `ExtractUint32Salt`: every salt is allowed, so its value does not matter.
- Clearing the certificate request when OpenVPN is not configured: the form of a creation is taken as it is passed on.
- The registry in `internal/user`, which repeats this one with other limits and does not sort.
- `randomData`, the debugging source of statistics.
- Probabilities: a random source is any stream in which every draw comes up.
