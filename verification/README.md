# Verification of proto-fleet's stateful core

A Dafny model of the parts of proto-fleet that hold protocols, histories and transformations,
with proofs about every run, every input or every history. `dafny verify dfyconfig.toml` checks
all of it.

- **Simulated rig, firmware** (`Firmware`, `FirmwareState`, `FirmwareRuns`, `FirmwareHistory`,
  `Versions`). `FirmwareState.MinerState` is the locked state with its methods. `FirmwareRuns`
  lets update, upload and reboot requests and the background routines they start interleave in
  any order, one action per locked region, and `FirmwareHistory` adds what was begun, completed
  and promoted.
- **Simulated rig, locate and pools** (`Locate`, `Pools`, `PoolTable`, `PoolOverlap`,
  `PoolMeanwhile`). The light and its timers interleave; the pool table is served one request at a
  time, then the locked edits of two creates interleave in any order, and deletes and updates come
  between those of one.
- **Authority keys** (`ModArith`, `Radix`, `Base58`, `XOnlyKey`, `AuthorityKey`). Base58 as a
  bijection, the curve test by Fermat's little theorem, and the check as an if-and-only-if.
- **ASIC-RS device** (`Identity`, `Snapshots`, `DeviceRuns`, `DeviceRecords`, `DeviceEpisodes`,
  `DeviceRestore`, `DeviceSchedules`, `Curtailment`). Operations are programs with a program counter
  that interleave at their locks and may be dropped where they wait. `DeviceRecords` speaks of every
  such run; an episode is a stretch of one from a device with no operation open.
  Curtailment is also given as a class and as sequences of whole operations, where commands may
  fail with or without effect.
- **Migration history** (`Listings`, `Migrations`, `SortedSets`, `MigrationHistory`). The check of
  one step, and chains of accepted steps.
- **Retention editor** (`Text`, `Retention`). The edit of the compose text.
- **Host updates** (`Updater`, `UpdaterRuns`, `UpdaterStarts`, `UpdateClient`, `ExecArgs`). The
  updater's admission, a client that repeats its request over a channel that loses replies, its two
  loops, and the arguments of the self-update.
- **Firmware upload** (`Decimals`, `ContentRange`, `Upload`, `UploadClient`). The server's session
  and the client's chunk loop, in 64-bit arithmetic.

A run is a sequence of actions; an action that cannot happen in a state leaves it as it is.
Randomness, clocks, network and host failures are parameters or actions of the environment.

Six promises do not hold of the code as it is; for each there is a run or an input, and the exact
condition under which the promise does hold:

- A locate that overlaps another can stay lit (`Locate.OverlapLosesTimer`,
  `Locate.TimerLeftExactly`).
- Overlapping creates can number two pools alike or leave a name without a pool
  (`PoolOverlap.OverlapDuplicates`, `PoolOverlap.OverlapCutsName`,
  `PoolOverlap.OverlapKeepsExactly`), and a delete within a create can do the latter
  (`PoolMeanwhile.DeleteCutsName`, `PoolMeanwhile.MeanwhileKeepsExactly`); more than 2^32 pools
  repeat numbers, and a delete can hit another pool (`Pools.CreateKeepsExactly`,
  `Pools.DeleteExactly`).
- A reboot does not fence an upload that is open (`FirmwareRuns.UploadOutlivesReboot`,
  `FirmwareRuns.UploadAcrossReboot`).
- Uncurtail can leave a miner idle that was mining (`Curtailment.TimedOutPauseIsForgotten`,
  `Curtailment.RestoredExactly`). Two curtails that overlap do it
  (`DeviceSchedules.OverlappingCurtailsForget`, `DeviceRestore.RestoredExactly`), and so does an
  uncurtail that overlaps a curtail: the record is made after it was cleared, outlives the
  uncurtail, and decides the next one (`DeviceSchedules.RecordOutlivesUncurtail`,
  `DeviceRecords.OutlivesExactly`, `DeviceRestore.RestoredFromRecord`).
- The updater can start one operation twice, since it remembers the last operation only
  (`UpdaterRuns.TwiceAfterLostReply`); that takes a failure and then another operation in its place
  (`UpdaterStarts.SecondStartTakes`, `UpdaterStarts.AtMostOnceExactly`).
- The chunk loop and the progress line overflow for sizes near the limit of 64 bits
  (`UploadClient.UploadChunked`, `UploadClient.HundredExactly`).

## Model

| member | source | states |
|---|---|---|
| `FirmwareState.MinerState.constructor` | server/fake-proto-rig/models.go:315-342 | a new rig has no update, runs version 1.8.0 and is armed for success |
| `FirmwareState.MinerState.BeginFirmwareUpdate` | server/fake-proto-rig/rest_api_handler.go:1886-1901 | beginning an update takes the next number, stages the version and consumes the armed outcome |
| `FirmwareState.MinerState.TransitionFirmwareStatus` | server/fake-proto-rig/rest_api_handler.go:1903-1914 | a status moves on only for the newest update, from the expected status, and not while rebooting; otherwise nothing changes |
| `FirmwareState.MinerState.CompleteFirmwareInstall` | server/fake-proto-rig/rest_api_handler.go:1916-1946 | an installing update ends installed or in error by its recorded outcome, and a stale completion does nothing |
| `FirmwareState.MinerState.HandlePost` | server/fake-proto-rig/rest_api_handler.go:2083-2123 | POST refuses while rebooting or busy, installs a downloaded image, and starts a download otherwise; the reply names the routine it starts |
| `FirmwareState.MinerState.FinishPut` | server/fake-proto-rig/rest_api_handler.go:2164-2189 | an upload that ends checks again before it stages its version |
| `FirmwareState.MinerState.HandleReboot` | server/fake-proto-rig/rest_api_handler.go:1730-1741 | a reboot promotes an installed update, drops any other, and invalidates all routines by a new number |
| `FirmwareRuns.InvRun` | server/fake-proto-rig/rest_api_handler.go:1886-1978 | every interleaving of requests and background routines keeps the invariant: each status in progress has its one driver, no routine is newer than the newest update, and a rebooting rig has a completion pending |
| `FirmwareRuns.ExactlyOneDriver` | server/fake-proto-rig/rest_api_handler.go:1948-1978 | in every reachable state an update in progress has exactly one pending routine able to change it, pending once, and every other lifecycle routine is powerless |
| `FirmwareRuns.DriverMoves` | server/fake-proto-rig/rest_api_handler.go:1903-1946 | that routine takes downloading to downloaded, downloaded to installing, and installing to installed or error by the outcome |
| `FirmwareRuns.PostNeverRepairs` | server/fake-proto-rig/rest_api_handler.go:2102-2112 | in no run does POST meet a downloaded image without a number or an outcome, so its two repairs are dead code |
| `FirmwareRuns.ComesToRest` | server/fake-proto-rig/rest_api_handler.go:1948-1978 | whatever the order in which routines wake and uploads end, a bounded number of them does, and then no update is in progress and the rig is online |
| `FirmwareRuns.RebootFence` | server/fake-proto-rig/rest_api_handler.go:1730-1741 | no lifecycle routine pending before a reboot can change firmware state at any time after it, at whatever stage it has got to |
| `FirmwareRuns.UploadAcrossReboot` | server/fake-proto-rig/rest_api_handler.go:2133-2189 | an upload request that was open at a reboot is not fenced: when it ends it begins a new update exactly if the rig is back online with no update pending, which without another reboot means that some reboot completion has run |
| `FirmwareRuns.UploadOutlivesReboot` | server/fake-proto-rig/rest_api_handler.go:2133-2189 | after every run in which an upload may start, a reboot and its completion can pass between its two checks and the upload still begins an update |
| `FirmwareRuns.RebootingIsIdle` | server/fake-proto-rig/rest_api_handler.go:1724-1756 | while the rig reboots its status is current, nothing is staged and a completion is pending |
| `FirmwareRuns.OfflineExactly` | server/fake-proto-rig/rest_api_handler.go:1743-1753 | after a reboot the rig is offline exactly until some reboot completion runs, its own or an earlier one |
| `FirmwareRuns.RebootCutShort` | server/fake-proto-rig/rest_api_handler.go:1743-1753 | so after any run a second reboot can be ended early by the completion of the first |
| `FirmwareHistory.RunningVersionHistory` | server/fake-proto-rig/rest_api_handler.go:1730-1737 | the running version is that of the last promoted update and the previous version that of the one before; promoted updates are distinct, in order, and had outcome success |
| `FirmwareHistory.VersionChangesOnlyByReboot` | server/fake-proto-rig/rest_api_handler.go:1730-1737 | the running version changes only by a reboot from installed, to the staged version, and the replaced one becomes the previous version |
| `FirmwareHistory.NoUpdateCompletesTwice` | server/fake-proto-rig/rest_api_handler.go:1916-1946 | in every run each update completes at most once, and not while it is in progress |
| `FirmwareHistory.ErrorsWereArmed` | server/fake-proto-rig/rest_api_handler.go:2238-2240 | updates that end in error never outnumber the requests that armed error or attention |
| `Versions.NextVersionParses` | server/fake-proto-rig/rest_api_handler.go:195-217 | the bumped version parses to the same release with the patch number one higher in 64-bit arithmetic |
| `Versions.ParsePrinted` | server/fake-proto-rig/rest_api_handler.go:200-216 | every three printed numbers parse back to themselves |
| `Decimals.AtoiItoa` | server/fake-proto-rig/rest_api_handler.go:200-216 | printing and reading a 64-bit number agree, for negative numbers too |
| `Locate.LocateState.SetLocateActive` | server/fake-proto-rig/models.go:725-731 | switching the light takes the next number and returns it |
| `Locate.LocateState.ClearLocateActiveIfSequence` | server/fake-proto-rig/models.go:735-743 | a callback clears the light, and takes a number, only while its own number is the newest |
| `Locate.OldTimerIsHarmless` | server/fake-proto-rig/models.go:722-743 | in every interleaving the callback of a timer set before a newer request leaves the light as it is |
| `Locate.OnlyNewestTimerClears` | server/fake-proto-rig/models.go:735-743 | the light goes off only by a request or by the callback of the newest one |
| `Locate.TimerLeftExactly` | server/fake-proto-rig/rest_api_handler.go:1790-1816 | a lit timed locate has a timer left exactly if no other request replaced or stopped the timer between its own replacement and the expiry of the timer |
| `Locate.SettledAction` | server/fake-proto-rig/rest_api_handler.go:1790-1797 | with no request open every lit timed locate has such a replacement in its run |
| `Locate.SerializedTimerIsLeft` | server/fake-proto-rig/rest_api_handler.go:1790-1816 | with requests one after the other a timed locate is never left on without its timer |
| `Locate.OverlapLosesTimer` | server/fake-proto-rig/rest_api_handler.go:1790-1816 | a run of two overlapping requests that leaves the light on with no timer |
| `PoolTable.MinerPools.constructor` | server/fake-proto-rig/models.go:336 | the table starts empty |
| `PoolTable.MinerPools.AddPool` | server/fake-proto-rig/models.go:617-621 | a pool is appended |
| `PoolTable.MinerPools.SetPoolName` | server/fake-proto-rig/models.go:624-638 | a name is set, and removed if it is empty |
| `PoolTable.MinerPools.ClearPools` | server/fake-proto-rig/models.go:648-653 | all pools and names go |
| `PoolTable.MinerPools.RemovePools` | server/fake-proto-rig/models.go:656-677 | exactly the pools with the given numbers go, with their names, and the rest keep their order |
| `PoolTable.MinerPools.CreatePools` | server/fake-proto-rig/rest_api_handler.go:1136-1183 | a create changes nothing if one config is unacceptable, and otherwise replaces the table by its edits |
| `PoolTable.MinerPools.UpdatePool` | server/fake-proto-rig/rest_api_handler.go:1249-1299 | the first pool with the id takes the given fields if the result is acceptable; nothing else changes |
| `PoolTable.MinerPools.DeletePool` | server/fake-proto-rig/rest_api_handler.go:1301-1304 | a delete removes the pools numbered like the id cut to 32 bits |
| `Pools.CreateKeepsExactly` | server/fake-proto-rig/rest_api_handler.go:1151-1175 | a created table lists pool i from config i with exactly the names given, and has distinct numbers, names of listed pools only and acceptable pools exactly if there are at most 2^32 of them |
| `Pools.UpdateKeeps` | server/fake-proto-rig/rest_api_handler.go:1259-1296 | an update keeps the table good |
| `Pools.RemoveKeeps` | server/fake-proto-rig/models.go:656-677 | a removal keeps the table good |
| `Pools.DeleteExactly` | server/fake-proto-rig/rest_api_handler.go:1301-1304 | a delete takes out the pool listed under the id and no other exactly if the id fits in 32 bits or no pool has the number left of it |
| `Pools.ServeKeeps` | server/fake-proto-rig/rest_api_handler.go:1136-1304 | every sequence of creates, updates and deletes served one after the other keeps numbers distinct, names on listed pools and all pools acceptable |
| `PoolOverlap.OverlapKeepsExactly` | server/fake-proto-rig/rest_api_handler.go:1151-1180 | for every interleaving of the edits of two accepted creates: pool numbers are distinct exactly if the create that cleared first had added as many pools as the smaller of the two has when the other cleared; names belong to listed pools exactly if the other did not clear between a named pool beyond its own and its name; the table is good exactly if both hold |
| `PoolOverlap.OverlapDuplicates` | server/fake-proto-rig/rest_api_handler.go:1151-1175 | any two creates with pools have an interleaving that numbers two pools alike |
| `PoolOverlap.OverlapCutsName` | server/fake-proto-rig/rest_api_handler.go:1173-1174 | a create with a named pool beyond those of another has an interleaving that keeps pools distinct and leaves that name without a pool |
| `PoolMeanwhile.MeanwhileKeepsExactly` | server/fake-proto-rig/rest_api_handler.go:1151-1304 | a create with any deletes and updates between its edits leaves distinct pools always, and a good table exactly if no delete hits the pool that was added last and still waits for its name |
| `PoolMeanwhile.DeleteCutsName` | server/fake-proto-rig/rest_api_handler.go:1173-1174 | every create with a named first pool has such a delete |
| `XOnlyKey.IsValidXOnlyKey` | server/fake-proto-rig/rest_api_handler.go:1445-1467 | for a prime p that is 3 modulo 4 the test accepts 32 bytes exactly if they are below p and some y has y^2 = x^3 + 7 modulo p (lift_x in section "Specification" of BIP 340) |
| `XOnlyKey.CurveTest` | server/fake-proto-rig/rest_api_handler.go:1455-1466 | the candidate root rhs^((p+1)/4) squares to rhs exactly if some square does |
| `ModArith.SquareRootOfSquare` | server/fake-proto-rig/rest_api_handler.go:1460-1466 | if c is a square modulo such a p, c^((p+1)/4) is a root of it |
| `ModArith.Fermat` | server/fake-proto-rig/rest_api_handler.go:1460-1466 | Fermat's little theorem, on which the candidate root rests |
| `Base58.AlphabetAsWritten` | server/fake-proto-rig/rest_api_handler.go:1422 | the alphabet character by character |
| `Base58.DecodeBase58` | server/fake-proto-rig/rest_api_handler.go:1421-1443 | the accumulating decoder fails exactly outside the alphabet and otherwise gives the bytes of the number behind as many zero bytes as there are leading 1 characters |
| `Base58.DecodeEncode` | server/fake-proto-rig/rest_api_handler.go:1421-1443 | decoding inverts the reference encoder on every byte string, leading zeros included |
| `Base58.EncodeDecode` | server/fake-proto-rig/rest_api_handler.go:1421-1443 | encoding inverts decoding on every string over the alphabet |
| `Radix.RebaseRoundTrip` | server/fake-proto-rig/rest_api_handler.go:1430-1441 | changing base and back gives back every digit sequence with its leading zeros |
| `AuthorityKey.ValidateAuthorityKey` | server/fake-proto-rig/rest_api_handler.go:1387-1419 | a key is accepted exactly if the pool is not SV2, or the key is empty on a loopback host, or it is the Base58Check form of an x coordinate on the curve under version bytes 1 and 0 |
| `AuthorityKey.FiftyOneCharacters` | server/fake-proto-rig/rest_api_handler.go:1399-1401 | every 38 bytes that start with 1 print as exactly 51 characters |
| `AuthorityKey.KeyLength` | server/fake-proto-rig/rest_api_handler.go:1399-1401 | so the length test refuses nothing the other checks would accept |
| `AuthorityKey.KeyDecodes` | server/fake-proto-rig/rest_api_handler.go:1403-1416 | what the decoder finds in an authority key |
| `AuthorityKey.KeysAreDistinct` | server/fake-proto-rig/rest_api_handler.go:1403-1416 | two x coordinates never share a key |
| `Identity.AcceptedExactly` | plugin/asicrs/src/capabilities.rs:271-336 | an identity is accepted exactly if nothing conflicts and, with a serial number or MAC on record, one of them matches |
| `Identity.SameMacNormalizes` | plugin/asicrs/src/capabilities.rs:240-245 | two MACs normalise alike exactly if they have the same hex digits in order, whatever their case and separators |
| `Identity.SpellingDoesNotMatter` | plugin/asicrs/src/capabilities.rs:240-336 | respelling either MAC leaves the verdict alone as long as a recorded MAC stays recorded |
| `Identity.SeparatorsOnlyStillCount` | plugin/asicrs/src/capabilities.rs:266-336 | a recorded MAC of separators only still counts as recorded, so that condition is needed |
| `DeviceRuns.InvRun` | plugin/asicrs/src/device.rs:161-316 | every interleaving of reads, starts, stops, curtails and uncurtails, any of which may be dropped where it waits, keeps the invariant on slot, cache, lock, record and operations |
| `DeviceRuns.NoStaleAnswer` | plugin/asicrs/src/device.rs:282-316 | once a start, stop, curtail or resuming uncurtail has returned success, no operation called later answers with a sample taken before it took effect |
| `DeviceRuns.StoredConnectionIsVerified` | plugin/asicrs/src/device.rs:161-279 | with a serial number or MAC on record, whoever is behind a stored connection matched one of them and conflicted in nothing |
| `DeviceRuns.ConnectionIsExclusive` | plugin/asicrs/src/device.rs:282-316 | one operation at a time holds the connection |
| `DeviceEpisodes.RecordedExactly` | plugin/asicrs/src/device.rs:624-644 | in every interleaving of reads, curtails and uncurtails from a quiet device, with failed and dropped operations, the record says what the miner did at the start exactly if it was idle then or the sample on record was taken before any pause took effect |
| `DeviceEpisodes.SerializedRecord` | plugin/asicrs/src/device.rs:624-644 | so with one curtail at a time, and no failed pause that takes effect, the record is right |
| `DeviceRestore.RestoredExactly` | plugin/asicrs/src/device.rs:624-670 | for an episode that begins and ends with no operation open and nothing on record at its start: an uncurtail that then returns success, with reads beside it, leaves the miner as it was at the start exactly under that condition |
| `DeviceRestore.RestoredFromRecord` | plugin/asicrs/src/device.rs:624-670 | for one that begins with something on record: exactly if the record says what the miner did, or it was mining, the record says idle and no pause took effect |
| `DeviceRestore.DecidesExactly` | plugin/asicrs/src/device.rs:646-656 | with curtails still open: the first step of an uncurtail decides to resume if nothing is on record, and otherwise decides for what the miner did at the start exactly under the condition of RecordedExactly |
| `DeviceRestore.SerializedRestores` | plugin/asicrs/src/device.rs:624-670 | and always with one curtail at a time |
| `DeviceRecords.OnRecordExactly` | plugin/asicrs/src/device.rs:640-670 | in every run, whatever overlaps, something is on record exactly if some curtail recorded after the last clearing |
| `DeviceRecords.OutlivesExactly` | plugin/asicrs/src/device.rs:640-670 | so the record of a curtail outlives the last uncurtail, start or stop exactly if it is made after the step in which that clears the record |
| `DeviceRecords.RecordCameFrom` | plugin/asicrs/src/device.rs:672-685 | in every run what is on record is what the first curtail to record since the last clearing had seen |
| `DeviceRecords.SkipsExactly` | plugin/asicrs/src/device.rs:646-656 | in every run an uncurtail that does not fail skips the command exactly if the record said idle at its first step |
| `DeviceSchedules.OverlappingCurtailsForget` | plugin/asicrs/src/device.rs:624-644 | a run from a new device in which two overlapping curtails both succeed and record that a mining miner was idle |
| `DeviceSchedules.RecordOutlivesUncurtail` | plugin/asicrs/src/device.rs:624-670 | a run from a new device in which an uncurtail overlaps a curtail, both succeed, the miner mines and the record says idle |
| `DeviceSchedules.CurtailAlone` | plugin/asicrs/src/device.rs:624-644 | however its steps turn out, a curtail that returns with nothing beside it has done what the whole operation in Curtailment does for some contact and reply |
| `DeviceSchedules.CurtailReaches` | plugin/asicrs/src/device.rs:624-644 | and every contact and reply is done by some such run |
| `DeviceRestore.UncurtailAlone` | plugin/asicrs/src/device.rs:646-670 | an uncurtail that returns success with at most reads beside it leaves the miner as the whole operation in Curtailment does |
| `Curtailment.AsicRsDevice.Get` | plugin/asicrs/src/device.rs:282-316 | a read answers from a recent cache or from the miner and then fills the cache |
| `Curtailment.AsicRsDevice.Send` | plugin/asicrs/src/device.rs:630-641 | a command sets the miner to its target if it succeeds or fails with effect, and changes nothing else |
| `Curtailment.AsicRsDevice.StartMining` | plugin/asicrs/src/device.rs:589-605 | a start that succeeds sets the miner going and clears the record and the cache; one that fails clears neither |
| `Curtailment.AsicRsDevice.StopMining` | plugin/asicrs/src/device.rs:607-622 | the same for a stop |
| `Curtailment.AsicRsDevice.Curtail` | plugin/asicrs/src/device.rs:624-644 | a curtail reads the miner, pauses it, and records what it was doing unless something is on record |
| `Curtailment.AsicRsDevice.Uncurtail` | plugin/asicrs/src/device.rs:646-670 | an uncurtail resumes the miner unless it is on record as idle, and clears the record when it succeeds |
| `Curtailment.UncurtailRestores` | plugin/asicrs/src/device.rs:589-670 | after any number of curtails and failed commands the first uncurtail that succeeds leaves the miner as it was just before the first curtail that succeeded, exactly unless it was idle and a failed start has set it going since |
| `Curtailment.RestoredExactly` | plugin/asicrs/src/device.rs:589-670 | the miner ends up as it was when the episode began exactly if it was mining then just when the last failed command with effect before that curtail left it mining, or a failed start has set an idle one going since |
| `Curtailment.RestoresWhatWasSet` | plugin/asicrs/src/device.rs:589-670 | after a start or stop that succeeds, what it set the miner to is what is restored, under the same condition |
| `Curtailment.TimedOutPauseIsForgotten` | plugin/asicrs/src/device.rs:629-641 | a pause that takes effect but times out, and a retry, leave the miner idle after the uncurtail |
| `Migrations.ActiveMigrations` | scripts/check-migration-history.py:43-79 | the listing exists exactly if every active file is named, numbered and paired as required and every internal migration names one earlier shared one, and it is then the one listing of the tree |
| `Migrations.ListFiles` | scripts/check-migration-history.py:44-62 | the loop lists every active file once, or finds one that is misnamed, reserved, private or a duplicate |
| `Migrations.FindIncomplete` | scripts/check-migration-history.py:63-78 | a version is reported exactly if it is unpaired or its requirement is not met |
| `MigrationHistory.Check` | scripts/check-migration-history.py:82-122 | the check accepts exactly the steps that change no earlier SQL, add nothing to the legacy directory, add versions only above the highest, are not empty, end at a private checkpoint if they have internal migrations, and match the public tree |
| `MigrationHistory.CheckTrees` | scripts/check-migration-history.py:82-109 | the same without the public tree, with the listings of both trees |
| `MigrationHistory.CheckPublic` | scripts/check-migration-history.py:110-122 | a public tree is accepted exactly if its listing is a promotion of the current one |
| `MigrationHistory.IsPromotion` | scripts/check-migration-history.py:112-122 | a listing is a promotion exactly if its versions are a prefix of the shared ones and agree file for file |
| `MigrationHistory.AppendOnly` | scripts/check-migration-history.py:82-109 | along every chain of accepted revisions no earlier SQL changes, the ordered versions of each are a prefix of those of every later one, and the legacy directory is frozen |
| `MigrationHistory.PromotionIsStable` | scripts/check-migration-history.py:110-122 | a public tree accepted against one revision of a chain is accepted against every later one |
| `MigrationHistory.PublicTreesCompare` | scripts/check-migration-history.py:110-122 | any two public trees accepted along a chain have listings that are prefixes of one another and agree on what both have |
| `Retention.ConfigureIdempotent` | deployment-files/ha/scripts/configure-etcd-retention.py:18-58 | every text that is updated is recognised as already configured afterwards |
| `Retention.ConfigureIsLocal` | deployment-files/ha/scripts/configure-etcd-retention.py:18-58 | the update inserts the two flag lines right after the command of the etcd service, and taking them out gives the text back |
| `Retention.ServiceFoundAgain` | deployment-files/ha/scripts/configure-etcd-retention.py:26-32 | the edited service is found again between the same neighbours |
| `Retention.WithFlagsIsUsable` | deployment-files/ha/scripts/configure-etcd-retention.py:33-44 | the edited service still has one command and no external configuration |
| `Retention.KeyLinesKept` | deployment-files/ha/scripts/configure-etcd-retention.py:26-33 | inserting the flags neither makes nor breaks a line that ends in a colon |
| `Text.LinesOfJoined` | deployment-files/ha/scripts/configure-etcd-retention.py:45-49 | text that ends in a newline is split into lines by itself |
| `Updater.TriggerKeeps` | server/internal/updater/manager.go:1143-1295 | admission never lowers the release that stays deployed whatever becomes of the operation |
| `Updater.WorkKeeps` | server/internal/updater/manager.go:2107-2230 | neither does any step of the worker, a shutdown or a restart |
| `UpdaterRuns.InvRun` | server/cmd/fleet-ha/main.go:477-513 | every run of one client with other clients, lost replies, late requests and restarts keeps the invariant |
| `UpdaterRuns.DefiniteMeansNever` | server/cmd/fleet-ha/main.go:492-511 | a definite refusal, an unreachable updater or an unambiguous timeout mean that the operation was not started and never will be |
| `UpdaterStarts.SecondStartTakes` | server/internal/updater/manager.go:1143-1295 | between any two starts of one operation it failed or was interrupted, then another operation was admitted in its place, and it had not succeeded |
| `UpdaterStarts.AtMostOnceExactly` | server/internal/updater/manager.go:1162-1249 | in every run all copies of a request start its operation at most once exactly if every copy that arrives after one that started it finds the operation current, the updater not idle, its release or a newer one installed, or another ground of refusal |
| `UpdaterRuns.AtMostOnceAlone` | server/cmd/fleet-ha/main.go:477-513 | without other clients all attempts together start at most one operation |
| `UpdaterRuns.NeverAgainAfterSuccess` | server/internal/updater/manager.go:1244-1249 | an operation that succeeded is not started again by any late request, and its release or a newer one stays installed |
| `UpdaterRuns.SuccessMeansInstalled` | server/cmd/fleet-ha/main.go:413-472 | the client reports success only if its operation was started and succeeded, and its release or a newer one is installed from then on |
| `UpdaterRuns.TwiceAfterLostReply` | server/internal/updater/manager.go:1143-1295 | for every idle updater and any two clients there is a run that starts one operation twice |
| `UpdateClient.TriggerUpdate` | server/cmd/fleet-ha/main.go:477-513 | the retry loop stops at the first accepted reply or the first refusal with no ambiguous reply before it; a refusal it returns was preceded by unsent attempts only |
| `UpdateClient.Follow` | server/cmd/fleet-ha/main.go:426-472 | the poll loop reports success exactly if the last phase seen is succeeded, failure exactly if it is failed, a lost operation exactly on another one, and silence exactly after failing for the timeout |
| `ExecArgs.SelfUpdateExecArgs` | server/cmd/fleet-updater/main.go:232-250 | the result is the program name, the handoff flag and the arguments that are neither handoff flags nor their values, in order |
| `ExecArgs.ExecShape` | server/cmd/fleet-updater/main.go:232-250 | the result has exactly one handoff flag, behind the program name, and is at most one longer |
| `ExecArgs.ExecAgain` | server/cmd/fleet-updater/main.go:232-250 | a second application gives what it alone would give |
| `ExecArgs.RepeatIsLast` | server/cmd/fleet-updater/main.go:232-250 | any number of applications equal one with the last path |
| `ContentRange.ParsePrinted` | server/internal/handlers/firmware/chunked.go:406-449 | the server reads the numbers the client printed and refuses empty, inverted and overlong ranges (section 14.4 of RFC 9110) |
| `Upload.PutKeeps` | server/internal/handlers/firmware/chunked.go:263-305 | no request changes received bytes, and the received part grows by exactly what was accepted |
| `Upload.ReceivedIsTaken` | server/internal/handlers/firmware/chunked.go:263-305 | after any sequence of requests the received part is the accepted bodies in order |
| `Upload.CompleteIsTaken` | server/internal/handlers/firmware/chunked.go:369-382 | what is published is all of it and nothing else |
| `Upload.HonestUpload` | server/internal/handlers/firmware/chunked.go:263-382 | lost, repeated, reordered and truncated requests do no harm: what is published is the content |
| `UploadClient.UploadSession.constructor` | server/internal/handlers/firmware/chunked.go:199-210 | a session starts with nothing received |
| `UploadClient.UploadSession.Chunk` | server/internal/handlers/firmware/chunked.go:263-305 | a chunk is taken exactly if its range continues the file and its body is complete; a failed one leaves the received part alone |
| `UploadClient.ReadSection` | server/cmd/fleetcli/firmware.go:541-557 | the counting reader delivers the section and reports strictly growing totals that end at its end |
| `UploadClient.ChunkRequest` | server/cmd/fleetcli/firmware_client.go:372-385 | the request of each round is taken exactly if its end does not leave 64 bits |
| `UploadClient.SendChunk` | server/cmd/fleetcli/firmware_client.go:372-389 | one round of the loop, in 64-bit arithmetic |
| `UploadClient.UploadChunked` | server/cmd/fleetcli/firmware_client.go:346-398 | the loop succeeds exactly if no transfer breaks and ceil(size/chunk) times chunk is within 64 bits; the server then holds the file after that many requests and the last report is the size |
| `UploadClient.HundredExactly` | server/cmd/fleetcli/firmware.go:528-536 | the last percentage is 100 exactly if a hundred times the size is within 64 bits |
| `UploadClient.PrintProgress` | server/cmd/fleetcli/firmware.go:524-537 | the printed percentages never repeat at once, and grow and end at 100 under that condition |

## Left out

- HTTP, JSON, multipart and header plumbing, and the texts of errors: only the decision and the state update are modelled.
- Numbers that count events (firmware and locate sequences) are unbounded, not 64-bit.
- Primality of the secp256k1 field prime: `XOnlyKey.IsValidXOnlyKey` and `AuthorityKey.ValidateAuthorityKey` take a prime p with p mod 4 = 3 as a hypothesis.
- SHA-256, URL parsing, trimming of the key and the loopback test are parameters of `AuthorityKey.ValidateAuthorityKey`; pool validation is a parameter of `Pools`.
- Reading a version from an uploaded file's name or content: a parameter of the upload action.
- Telemetry values, time series and random variation; only the age of a sample matters.
- Message classification, capability probing, reconnect backoff, reboot and pool commands of the ASIC-RS device.
- DeviceRuns, FirmwareRuns, Locate, UpdaterRuns: the interleavings are modelled on values, one action per locked region; the update in place of the same fields is in FirmwareState, Locate.LocateState, PoolTable and Curtailment.
- Updater: the manager is modelled on values; its log files, artifacts, acknowledgements and the files of the deployment layout are left out.
- DeviceRestore.RestoredExactly, DeviceRestore.RestoredFromRecord: the state of the miner after an uncurtail is stated for episodes that end with no operation open; for an uncurtail beside open curtails the record and the decision are stated (DeviceRecords, DeviceRestore.DecidesExactly), not what their later pauses do to the miner.
- UpdateClient.Follow: the progress lines it prints, and the failover report after success, are left out.
- Pools are values, so a pool handed out by a read is not aliased with the stored one.
- Retention: finding the file, decoding it and replacing it atomically.
- Migrations: reading trees from Git; a tree is given as a map from paths to text.
- Upload: staging paths, ownership, expiry and completion of sessions beyond the count of bytes; `UploadClient.UploadChunked` assumes a positive chunk size smaller than the file, which its caller ensures.
- The direct upload of small files, checksums and the choice of targets.
- Deployment, database, client and build code, the other simulators and plugins.
