# psdock, modelled in Dafny

psdock runs one process in a libcontainer container and supervises it. It
builds the container's root file system with an overlay or aufs driver and
configures the container: fixed mounts plus the user's bind mounts. It
wires the process's stdio to a stream: the console, a log file or a
network connection. The log file can be rotated. Signals are forwarded to
the process, and an uncaught interrupt is turned into SIGKILL. A web hook
is told when the process is starting, running and crashed. The exit code
is derived from the process's wait status.

This project models the deterministic rules at the core of that program.
All outside effects are parameters or small state models:

- mount calls, file creation, `pgrep`/`lsof`, dialling, HTTP and libcontainer;
- the host file system is a class of sets and maps (`HostFs.Host`);
- the disk seen by the log rotator is a map from path to content (`LogRotate.Disk`);
- command and network outcomes are function parameters;
- retry loops run over finite sequences of observations.

Modules, one per source file plus shared helpers:

- `ProcStatus` (proc_status.dfy): `decodeMask` as pinned by `Test_decodeMask`.
- `SignalForwarding` (signal.dfy): `signalHandler` and its dispatch loop.
- `PortWatcher` (portwatcher.dfy): `Watch`, `children`, `portBinder`, `exitStatus`.
- `Config` (config.dfy): `loadConfig`: default mounts, bind-mount parsing.
- `Utils` (utils.dfy): `parsePrefixArg`, `initProcessPid`.
- `LogRotate` (logrotate.dfy): the `Rotator`: naming, filter, cleanup, watching.
- `Overlay`, `Aufs` (overlay.dfy, aufs.dfy): the rootfs drivers over `HostFs.Host`.
- `Stream` (stream.dfy): `NewStream` scheme dispatch and `Close`.
- `Notifier` (notifier.dfy): `notifyHook`, as written and corrected.
- `Supervisor` (supervisor.dfy): `start` and `statusChanged`.
- `Paths`, `Text`, `Wrappers`, `HostFs` (paths.dfy, text.dfy, wrappers.dfy, host.dfy): `filepath`/`strings` helpers, Option/Result, host state.

## Model

| member | source | states |
|---|---|---|
| ProcStatus.DecodeMask | proc/proc_status_test.go:19-22 | decodes exactly the non-empty hex masks below 2^64; the result is strictly ascending and lies in 1..32 |
| ProcStatus.DecodeMaskMeaning | proc/proc_status_test.go:24-32 | the decoded list is exactly the set of n with bit n-1 set among the low 32 bits, so its length is that popcount; the upper 32 bits never matter |
| ProcStatus.SignalsOfMember | proc/proc_status_test.go:13-14 | signal n is listed iff it lies in the window and its bit is set |
| ProcStatus.SignalsOfAscending | proc/proc_status_test.go:28-32 | the listed signals lie in the window and ascend strictly, so they can be compared position by position |
| ProcStatus.HighBitsIgnored | proc/proc_status_test.go:11-13 | bits above the considered window contribute no signal |
| ProcStatus.LowBitsOnly | proc/proc_status_test.go:11-13 | decoding a value equals decoding its low k bits |
| ProcStatus.WellFormedMaskDecodes | proc/proc_status_test.go:19-22 | every 16-digit hexadecimal mask decodes without error |
| ProcStatus.DecodeMaskVector1 | proc/proc_status_test.go:11-13 | "fffffffe7ffbfeff" decodes to 1..8, 10..18, 20..31, nothing above 31 |
| ProcStatus.DecodeMaskVector2 | proc/proc_status_test.go:14 | "00000000280b2603" decodes to [1, 2, 10, 11, 14, 17, 18, 20, 28, 30] |
| ProcStatus.DecodeMaskVector3 | proc/proc_status_test.go:15 | "0000000000000000" decodes to the empty list |
| SignalForwarding.Handle | signal.go:20-36 | SIGWINCH is never sent and resizes only with a tty; an uncaught SIGINT/SIGTERM is replaced by SIGKILL and forces; anything else is sent unchanged |
| SignalForwarding.SignalHandler.constructor | signal.go:13-18 | a new handler has sent nothing, resized nothing and has not force-killed |
| SignalForwarding.SignalHandler.HandleSigwinch | signal.go:39-43 | resizes the tty only when there is one; sends nothing and keeps the flag |
| SignalForwarding.SignalHandler.HandleDefault | signal.go:75-77 | sends the signal unchanged and changes nothing else |
| SignalForwarding.SignalHandler.HandleInterrupt | signal.go:46-73 | forwards the original when the pid or status is unavailable or the signal is caught, keeping the flag; otherwise sends SIGKILL and sets the flag |
| SignalForwarding.SignalHandler.Dispatch | signal.go:24-34 | one channel item has exactly the effect `Handle` gives it, and the flag is only ever or-ed |
| SignalForwarding.SignalHandler.StartCatching | signal.go:20-36 | after the loop, the sends, resizes and flag are those of the whole signal sequence |
| SignalForwarding.WinchNeverSent | signal.go:26-27 | SIGWINCH never reaches the process; every other signal gives one send; resizes equal the SIGWINCH count when there is a tty |
| SignalForwarding.UnforcedSendsOriginals | signal.go:32-33 | without a forced kill the process gets the incoming signals minus SIGWINCH, unchanged and in order |
| SignalForwarding.ForcedOnlyOnUncaughtInterrupt | signal.go:65-72 | a forced kill happens iff some SIGINT/SIGTERM arrives that the init does not catch |
| SignalForwarding.ForceKilledSticky | signal.go:71 | once forced, later signals never clear the flag |
| PortWatcher.ExitStatus | coprocs/portwatcher.go:83-90 | the wait status of an exit error, 555 otherwise |
| PortWatcher.PortBinder | coprocs/portwatcher.go:71-81 | lsof exit 1 gives an empty binder; other failures propagate; output loses one trailing newline |
| PortWatcher.PortBinderLine | coprocs/portwatcher.go:80 | exactly one trailing newline is trimmed |
| PortWatcher.ChildLines | coprocs/portwatcher.go:54-58 | the split pgrep lines contain no newline |
| PortWatcher.ChildLinesOfListing | coprocs/portwatcher.go:54-58 | a newline-terminated listing of pids gives back exactly those pids |
| PortWatcher.Children | coprocs/portwatcher.go:44-69 | returns the recursive listing `Descendants`: pgrep exit 1 is an empty list, other failures abort |
| PortWatcher.ChildrenOfEach | coprocs/portwatcher.go:60-66 | the loop appends each child's descendants in order; the first error aborts |
| PortWatcher.DescendantsAreReachable | coprocs/portwatcher.go:44-69 | the listing starts with the direct children and holds exactly the pids reachable below the pid |
| PortWatcher.SubtreesAreReachable | coprocs/portwatcher.go:60-66 | the listing for several children is everything reachable from one of them |
| PortWatcher.DescendantsAnyBound | coprocs/portwatcher.go:44-69 | the listing does not depend on the height bound used to show it ends |
| PortWatcher.PollOnce | coprocs/portwatcher.go:15-41 | one poll aborts on an lsof or listing error, retries on an empty binder or one outside pid plus descendants, and otherwise returns the binder |
| PortWatcher.Watch | coprocs/portwatcher.go:15-41 | the polling loop returns what the poll sequence decides |
| PortWatcher.WatchBinderInFamily | coprocs/portwatcher.go:32-37 | a returned binder is the pid or one of its descendants, as listed by the poll that reported it |
| PortWatcher.WatchBinds | coprocs/portwatcher.go:32-37 | a binder that is the pid or one of its descendants ends the watch at that poll, with that binder |
| PortWatcher.WatchRetries | coprocs/portwatcher.go:22-25 | an empty binder or a binder outside the family makes the watcher poll again, not fail |
| PortWatcher.WatchAborts | coprocs/portwatcher.go:17-20 | an lsof failure (other than exit 1) or a listing failure ends the watch with that error |
| Config.DefaultMounts | config.go:54-100 | seven fixed mounts, each noexec, a bind, or the /dev tmpfs |
| Config.DefaultMountPoints | config.go:54-100 | the fixed mount points in order: /proc, /dev, /dev/pts, /dev/shm, /dev/mqueue, /sys, /etc/resolv.conf; only the last two are read-only |
| Config.ParseBind | config.go:111-131 | a parsed bind is an MS_BIND, MS_REC mount, possibly read-only; a spec without ':' is "invalid bind mount" |
| Config.ParseBindForms | config.go:116-130 | `src:dst` mounts read-write; ":ro" adds MS_RDONLY; ":rw" is the same as none; any other mode is "invalid bind mount mode" |
| Config.FourthColonRejected | config.go:116 | a further colon stays in the mode part, so "a:b:ro:x" is rejected |
| Config.ParseBindsOk | config.go:111-133 | the binds parse iff each one does; then there is one mount per argument, in order |
| Config.ParseBindsErr | config.go:111-133 | otherwise the error is that of the first bad argument, whatever came before |
| Config.LoadConfig | config.go:14-136 | the rootfs, hostname and cgroup name are the arguments; mounts are the defaults then the binds; any bad bind gives only the error |
| Config.LoadedMounts | config.go:111-135 | on success there are 7 + n mounts: the defaults first, unchanged, then one per bind in order |
| Utils.ParsePrefixArg | utils.go:13-19 | without ':' the input and NoColor; with ':' the text before the first ':' and the colour of the text after the last |
| Utils.PrefixMiddleDropped | utils.go:18 | middle pieces are dropped: `name:x:colour` gives (name, colour) |
| Utils.DecimalRoundTrip | utils.go:37 | the decimal form of the pid reads back as the pid |
| Utils.FormatIntZero | utils.go:36-37 | only 0 is written "0" |
| Utils.PidStep | utils.go:26-41 | one state read retries on a missing state or pid 0, stops on any other error, else gives the decimal pid |
| Utils.InitProcessPid | utils.go:22-42 | the retry loop returns what the sequence of state reads decides |
| Utils.PidNeverZero | utils.go:36-40 | a returned pid is never "0" and is the first nonzero pid read, after nothing but retries |
| Utils.StateErrorStops | utils.go:30-31 | a state error ends the wait with that error, whatever follows |
| LogRotate.Digits | coprocs/logrotate.go:48 | a zero-padded field of exactly w decimal digits |
| LogRotate.Stamp | coprocs/logrotate.go:47-48 | the timestamp is 14 decimal digits |
| LogRotate.StampReadsBack | coprocs/logrotate.go:48 | year, month, day, hour, minute and second read back from their positions |
| LogRotate.ArchiveName | coprocs/logrotate.go:48 | the archive is the log path + "_" + 14 digits + ".gz" |
| LogRotate.DigitsOrder | coprocs/logrotate.go:48 | zero-padded numbers of one width sort as strings in the order of the numbers |
| LogRotate.StampShape | coprocs/logrotate.go:48 | the stamp is the four-digit year followed by month, day, hour, minute and second in two digits each |
| LogRotate.StampPrefixEqual | coprocs/logrotate.go:48 | times that agree on their leading fields give the same leading stamp digits |
| LogRotate.StampPrefixLess | coprocs/logrotate.go:48 | once a leading part of one stamp sorts before the other's, the whole stamp does |
| LogRotate.StampOrder | coprocs/logrotate.go:48 | an earlier time gives a lesser stamp under Go's string order |
| LogRotate.ArchiveOrder | coprocs/logrotate.go:48 | archives sort by name in the order they were made |
| LogRotate.JoinPathOrder | coprocs/logrotate.go:100 | joining names to one directory keeps their order |
| LogRotate.RelatedSorted | coprocs/logrotate.go:91-103 | a listing in name order, as `ioutil.ReadDir` returns it, gives the related paths in name order |
| LogRotate.RelatedPathsMeaning | coprocs/logrotate.go:96-103 | a path is kept iff it joins the working dir with an entry that starts with the log's base and has extension ".gz" |
| LogRotate.ArchiveIsRelated | coprocs/logrotate.go:96-103 | every archive the rotator makes is found again by the filter, joined back to its own path |
| LogRotate.CleanupKeepsFirst | coprocs/logrotate.go:82-84 | among distinct archives, exactly those at index ≥ retain are removed and the first ones are kept |
| LogRotate.CleanupKeepsLowest | coprocs/logrotate.go:81-84 | of a listing in name order, the cleanup keeps the lowest names: no survivor sorts after a removed archive, and index ≥ retain means removed |
| LogRotate.ArchiveListed | coprocs/logrotate.go:91-103 | an archive of the log on disk is among the related paths of a listing of the working directory |
| LogRotate.FreshArchiveRemoved | coprocs/logrotate.go:81-84 | as written: once `retain` older archives lie beside the log, the cleanup of a rotation deletes the archive that rotation just wrote |
| LogRotate.CleanupKeepsNewest | coprocs/logrotate.go:81-84 | corrected: of a listing in name order, exactly the last `retain` related archives survive, and no removed archive sorts after a survivor |
| LogRotate.CorrectedKeepsFresh | coprocs/logrotate.go:81-84 | corrected: the archive just written survives its own cleanup whenever nothing related sorts after it |
| LogRotate.GzipFilesEffect | coprocs/logrotate.go:45-73 | only the archive and the log change; the archive holds the whole log, the part that reached it before a failing copy or flush, or nothing when the log is missing; the log is emptied only when creating, copying and flushing all succeed |
| LogRotate.CleanupFilesEffect | coprocs/logrotate.go:76-86 | the cleanup only removes, and removes exactly the doomed related archives whose removal does not fail; a listing error changes nothing |
| LogRotate.RotationsLeaveOthers | coprocs/logrotate.go:106-122 | a path that is neither the log, nor a tick's archive, nor a related entry of a tick's listing keeps its content through all the rotations |
| LogRotate.FirstStop | coprocs/logrotate.go:106-122 | the index of the first stop: only ticks before it |
| LogRotate.FirstTickFound | coprocs/logrotate.go:109-112 | `FirstTick` finds a tick exactly when some event at or after the start is a tick, so the loop has a tick to return on |
| LogRotate.Rotator.constructor | coprocs/logrotate.go:38-41 | workingDir is Dir(logFile), delay 6h, retain count 5, not watching |
| LogRotate.Rotator.GzipLogFile | coprocs/logrotate.go:45-73 | the disk afterwards is `GzipFiles` of the disk before (see `GzipFilesEffect`); the archive path is returned, with the truncation error, iff the archive was created, filled and flushed; an earlier failure returns "" and its error, and a failing copy or flush leaves only the part of the log that reached the archive |
| LogRotate.Rotator.RelatedGZFiles | coprocs/logrotate.go:90-104 | a listing error propagates; otherwise the filtered paths in listing order |
| LogRotate.Rotator.CleanupOldArchives | coprocs/logrotate.go:76-86 | the listing error is returned; the disk afterwards is `CleanupFiles` of the disk before (see `CleanupFilesEffect`) |
| LogRotate.Rotator.Rotate | coprocs/logrotate.go:114-120 | one pass rotates and then cleans up, whatever the rotation reports |
| LogRotate.Rotator.StopWatching | coprocs/logrotate.go:124-129 | clears the flag; stops the ticker only if watching |
| LogRotate.Rotator.Wake | coprocs/logrotate.go:109-129 | a stop clears the flag and stops a running ticker, leaving the disk alone; a tick after a stop ends the loop without touching the disk; any other tick rotates and cleans up the disk |
| LogRotate.Rotator.StartWatching | coprocs/logrotate.go:106-122 | every tick before the first stop rotates whatever errors occur, and the disk afterwards is those rotations applied in order; the loop returns at the first tick after a stop |
| Paths.JoinDirBase | coprocs/logrotate.go:99-100 | joining the directory and base of a tidy path gives the path back |
| Paths.ExtGz | coprocs/logrotate.go:99 | a name ending in ".gz" has extension ".gz" |
| Paths.Ext | coprocs/logrotate.go:99 | the extension is "" or a dot-led suffix of the name, with no slash and no further dot |
| HostFs.Host.MkdirAll | fsdriver/overlay.go:33-38 | the directory exists afterwards unless creation is denied |
| HostFs.Host.RemoveAll | fsdriver/overlay.go:47-50 | the directory is gone afterwards unless removal is denied |
| HostFs.Host.Mount | fsdriver/overlay.go:40 | the mount point holds the call unless the kernel refuses it |
| HostFs.Host.Unmount | fsdriver/overlay.go:44-46 | fails on an unmounted or busy point, otherwise removes the mount |
| Overlay.WorkDir | fsdriver/overlay.go:27 | the work dir is dest + "_work", never dest itself |
| Overlay.WorkDirsApart | fsdriver/overlay.go:27 | distinct destinations have distinct work dirs |
| Overlay.OptionsReadBack | fsdriver/overlay.go:39 | the options split at commas give lowerdir, upperdir and workdir, in that order |
| Overlay.SupportsOverlay | fsdriver/overlay.go:53-69 | supported iff some line equals "nodev\toverlay"; a read error propagates |
| Overlay.NewOverlay | fsdriver/overlay.go:23-29 | no driver and an error when unsupported; otherwise a driver with work dir dest + "_work" |
| Overlay.Overlay.constructor | fsdriver/overlay.go:27 | the layers are image, dest and WorkDir(dest) |
| Overlay.Overlay.SetupRootfs | fsdriver/overlay.go:31-41 | creates upper then work dir; a failure means no mount; then mounts overlay with those options on upper |
| Overlay.Overlay.CleanupRootfs | fsdriver/overlay.go:43-51 | an unmount failure removes nothing; upper is removed before work, and a failure on upper keeps work |
| Overlay.Overlay.SetupThenCleanup | fsdriver/overlay_test.go:51-61 | setup then cleanup succeeds exactly when nothing is denied, refused or busy, and then neither directory nor the mount remains |
| Aufs.BranchesReadBack | fsdriver/aufs.go:35 | after "br=", the branches are the image marked rw, then the destination marked ro |
| Aufs.Aufs.constructor | fsdriver/aufs.go:19-27 | a new driver has no directories set |
| Aufs.Aufs.Init | fsdriver/aufs.go:19-27 | unsupported returns the error and leaves the fields; otherwise lowerDir is the image and upperDir the destination |
| Aufs.Aufs.SetupRootfs | fsdriver/aufs.go:29-39 | a mkdir failure means no mount; otherwise aufs is mounted on upperDir with the branch options |
| Aufs.Aufs.CleanupRootfs | fsdriver/aufs.go:41-46 | an unmount failure removes nothing; otherwise only upperDir is removed |
| Stream.NewStream | stream/stream.go:19-56 | parse errors propagate; "" is stdin/stdout; input is absent iff "file"; every opened handle is at host+path; network streams use one handle on both sides |
| Stream.FileStream | stream/stream.go:31-36 | "file" opens host+path create, append, write-only, mode 0600, with no input |
| Stream.SslIsTls | stream/stream.go:38-47 | "ssl" and "tls" give the same TLS client over a 5-second TCP dial with verification skipped |
| Stream.OtherSchemeDials | stream/stream.go:49-54 | any other scheme is the dial network, the same connection on both sides |
| Stream.Closes | stream/stream.go:58-66 | closes the input when present, then the output |
| Stream.CloseAfterOpen | stream/stream.go:58-66 | closing a fresh stream closes stdin and stdout, the file once, or the connection twice |
| Notifier.PayloadReadsBack | notifier.go:22 | the body is the fixed head, the status name and the fixed tail, so distinct statuses give distinct bodies |
| Notifier.ClientFor | notifier.go:34-41 | https gets the verification-skipping client; other schemes the default |
| Notifier.StatusErrorNamesCode | notifier.go:49-52 | the status error ends in the decimal code, which reads back |
| Notifier.NotifyHook | notifier.go:21-53 | a malformed hook sends nothing and returns the parse error; otherwise a PUT of the payload, and the error is nil iff the exchange works and the code is 2xx |
| Notifier.MalformedHookReported | notifier.go:27-30 | a malformed hook is reported with its parse error whatever the network would answer |
| Notifier.NotifyHookAsWritten | notifier.go:24-30 | as written, a malformed hook dereferences a nil request |
| Notifier.MalformedHookPanics | notifier.go:24-30 | as written, a malformed hook crashes instead of returning its error |
| Notifier.StatusErrorGarbled | notifier.go:50 | as written, the bad-status message carries a bad-verb marker where the code should be |
| Notifier.AsWrittenAgrees | notifier.go:43-52 | on a well-formed hook the code as written sends the same request and succeeds or fails as the corrected one |
| Supervisor.PortBoundMeaning | main.go:219-243 | the port poll ends bound iff some round finds it bound before any round fails to list the processes |
| Supervisor.ExitCodeRule | main.go:258-264 | 137 becomes 0 iff some uncaught SIGINT/SIGTERM forced a kill; every other status is kept |
| Supervisor.ForwardSignals | main.go:196-197 | the signal goroutine force-kills iff the signal sequence forces |
| Supervisor.Supervisor.constructor | main.go:93 | a run starts with no steps, notices or deferred calls |
| Supervisor.Supervisor.StatusChanged | main.go:268-278 | a notice only with a web hook; notify failures change nothing |
| Supervisor.Supervisor.Unwind | main.go:115 | deferred calls run last registered first, the Crashed notice before the clean-ups |
| Supervisor.Supervisor.Fail | main.go:113 | an error return gives exit 1 and runs the deferred calls |
| Supervisor.Supervisor.AwaitPort | main.go:219-243 | the bind-port loop returns `PortBound` of its polls |
| Supervisor.Supervisor.Start | main.go:93-265 | the steps taken are exactly `Trace(w)`; an empty image, or an empty rootfs (possible only when the working directory cannot be read), fails before anything; every failure exits 1; notices are Starting, Running (if due), Crashed; the rootfs is cleaned up last; exit is the exit-code rule or 1 on a wait error |
| Supervisor.Supervisor.PrepareContainer | main.go:123-144 | succeeds iff factory, config, create and pid file succeed, adding CreateContainer and deferring Destroy; a failure unwinds, after creating and deferring Destroy only when the create succeeded |
| Supervisor.Supervisor.PrepareStdio | main.go:155-185 | succeeds iff the stream opens and, when interactive, the tty attaches; adds OpenStream (and AttachTty) and defers CloseStream (and CloseTty); a failure unwinds, with the stream closed only when it was opened; non-interactive stdio is the stream |
| Supervisor.Supervisor.Launch | main.go:188-214 | rotation only for log-rotate > 0 and a file stream, its stop deferred; the steps are CatchSignals, Starting (with a hook), StartProcess; Crashed is deferred; a Start failure sends Crashed and unwinds |
| Supervisor.Supervisor.StartRotation | main.go:188-193 | a rotator on host+path with the given hours, its stop deferred, only when rotation is wanted |
| Supervisor.Supervisor.ReportRunning | main.go:216-244 | Running at once without bind port, otherwise only if the poll finds the port bound; that notice is the only step |
| Supervisor.Supervisor.Finish | main.go:246-264 | a non-exit wait error gives exit 1; otherwise the exit-code rule; the steps are Running (if due), WaitProcess, Crashed, then the clean-ups backwards; notices end Starting, Running (if due), Crashed |
| Supervisor.StartingBeforeStart | main.go:208-212 | in every run the Starting notice comes before the start of the process, and both happen once everything is ready |
| Supervisor.WaitBeforeCrashed | main.go:209-247 | the Crashed notice comes only after the wait; a started process is waited for |
| Supervisor.AcquiredReleased | main.go:113-184 | the rootfs, container, stream and tty, once acquired, are each released later in the run |

## Left out

- Outside calls are parameters, not models. These are `url.Parse`, opening files, dialling and TLS, the HTTP client, libcontainer, gzip, `ioutil.ReadDir`, `pgrep`/`lsof` and the `/proc/filesystems` read.
- The error texts of host operations (`HostFs.Host`) are modelling choices; only their presence matters.
- `decodeMask`'s body is not part of the source. `ProcStatus.DecodeMask` is specified from `Test_decodeMask`: a 64-bit hexadecimal parse, then the low 32 bits. Its error texts are modelling choices. `NewProcStatus` and `Test_procInfo` are not modelled: they read a live process.
- Overlay.SupportsOverlay: the outcome of `modprobe overlay` is not a parameter, because the code ignores it.
- The aufs support check `supports`, `MapColor` and `system.IsPortBound` have no visible body. The first two are an outcome parameter and an uninterpreted constructor. The port check is the `PortPoll` sequence.
- `path.Clean` and `filepath.Abs` are not modelled. `World.rootfs` is the result of `filepath.Abs`: an empty flag gives the working directory, so "no rootfs specified" (main.go:102-104) is reached only when the working directory cannot be read. `Paths.Tidy` describes the paths where the model of `Dir`/`Base` joins back; inner "." and ".." elements are outside it.
- PortWatcher.Children: requires a finite process tree (`HeightBelow`). A `pgrep` whose answers form a cycle would make the Go recursion run forever.
- Infinite retries become finite sequences. These are `Watch`'s polls, `initProcessPid`'s state reads, the bind-port poll and the rotator's ticks. Running out of observations is an explicit "still waiting" outcome, and sleeps and ticker periods are not modelled.
- LogRotate.Stamp: requires a year below 10000, where Go's layout gives exactly four digits.
- Concurrency is run sequentially. The signal goroutine runs to completion between `Start` and `Wait`, and so does the bind-port goroutine.
- The rotator goroutine is created, but `StartWatching` is not run by the supervisor model. It is modelled on its own (`LogRotate.Rotator.StartWatching`), with stops as events.
- The interactive-stream goroutine (main.go:199-205), which sends SIGTERM through the handler when the stream closes, is not modelled.
- Supervisor.Supervisor.Unwind: the deferred Crashed notice is registered after every other deferred call, so it is modelled as running first.
- `tty.resize()` after attaching is not modelled, and neither are tty internals.
- The `kill-timeout` option and the `container` field read by signal.go come from mixed revisions. They are not modelled.
- LogRotate.Rotator.GzipLogFile: on a copy or flush error the archive holds the part of the log that reached the file, a count given by the fault. A failed write stays in the gzip writer, so the deferred `Close` adds nothing. Gzip framing is not modelled, so the archive holds text, not compressed bytes.
- LogRotate.CleanupKeepsFirst: states which entries are kept (the first `retain`), as a set equality. It does not state the count min(n, retain) as a number.
- Config.LoadConfig: the static capabilities, namespaces, rlimits and devices are literal data and are not modelled.
- Stream.Closes: a pure list of the handles closed. The closes themselves are outside calls, and every handle the stream holds is closable.
- The output prefix and colour given to `NewStream` are not modelled.
- Utils.PidStep: returns any state error. At utils.go:27 the source asserts the error is a `libcontainer.Error` without checking, so an error of another type panics instead.
- Supervisor.StartRotation: `rotationDelay` is an unbounded `nat`. `time.Duration(n) * time.Hour` (main.go:190) wraps around int64 for very large `log-rotate` values, and `NewTicker` then panics on a non-positive delay.
- LogRotate.Rotator.StartWatching: ticks may arrive after a stop, any number of them. `ticker.Stop()` ends deliveries, so in the source at most one tick, already buffered in the channel, can follow a stop.
- LogRotate.Rotator.StartWatching: the listing of each tick is a parameter and is not tied to the disk. `ListsDir` states what `ioutil.ReadDir` returns (every entry's name, in name order); the order lemmas take it as a hypothesis.
- LogRotate.Rotator.CleanupOldArchives, LogRotate.RotationsLeaveOthers: the disk is a map keyed by the path as spelled, not by the file. The archive is stored under `logFile + "_" + stamp + ".gz"`, and the cleanup removes `JoinPath(dir, name)`. When the log path is not `Paths.Tidy` (for example "./app.log", which `--stdio file://./app.log` gives), these are two keys for one file. The model then keeps archives that Go removes, and `RotationsLeaveOthers` claims that such archives survive. The contracts of `CleanupOldArchives`, `CleanupFilesEffect` and `RotationsLeaveOthers` match Go only when `Paths.Tidy(logFile)` holds, as `FreshArchiveRemoved` and `CorrectedKeepsFresh` require.
- LogRotate.Rotator.CleanupOldArchives: modelled as written, keeping the lowest names. The newest-kept cleanup (`CleanupNewestFiles`) is stated beside it and is not used by the rotator. See Findings.
- HostFs.Host.MkdirAll, HostFs.Host.RemoveAll: only the path itself is added or dropped. The parents `MkdirAll` creates and the entries `RemoveAll` deletes below the path are not tracked.

## Findings

| source | as written | input that shows it | evidently intended | confidence | as-written member | corrected member |
|---|---|---|---|---|---|---|
| notifier.go:24-30 | the error of `http.NewRequest` is dropped; on an unparsable hook the request is nil and `req.Header.Set` dereferences it before the `url.Parse` error check is reached | a web hook such as "http://[::1" that fails URL parsing | return the parse error without sending | not executed | Notifier.MalformedHookPanics | Notifier.MalformedHookReported |
| coprocs/logrotate.go:81-84 | the cleanup deletes from the end of the related list, but `ioutil.ReadDir` lists in name order and stamped names sort oldest first, so the newest archives are deleted and the oldest `ArchiveRetainCount` are kept | five archives beside the log, then a sixth rotation: its new archive is deleted in the same tick, and so is every later one | keep the newest `ArchiveRetainCount` archives | not executed | LogRotate.FreshArchiveRemoved | LogRotate.CorrectedKeepsFresh |
| notifier.go:50 | the status error formats the status line string with `%d`, which fmt renders as "%!d(string=404 Not Found)" | any response with status 404 | the numeric status code in the message | not executed | Notifier.StatusErrorGarbled | Notifier.StatusErrorNamesCode |
