/**
  The supervisor's `start`: validate the arguments, set up the rootfs and
  the container, open the stdio stream, start the process, report its
  status to the web hook, wait for it and turn its wait status into the
  exit code. Deferred clean-ups run last-registered first on every return.

  Everything outside the supervisor (the rootfs driver constructor, the
  container library, the stream, the tty, the port check and `Wait`) is
  given as the outcome it produces, in a `World`. The goroutines (signal
  forwarding, the bind-port poll) are run to completion in sequence
  between the start of the process and the end of its wait.
 */
module Supervisor {
  import opened Wrappers
  import Config
  import SignalForwarding
  import LogRotate
  import opened Notifier

  /** The observable steps of a run, in order. */
  datatype Step =
    | SetupRootfs
    | CleanupRootfs
    | CreateContainer
    | Destroy
    | OpenStream
    | CloseStream
    | AttachTty
    | CloseTty
    | StopWatching
    | CatchSignals
    | Notify(status: PsStatus)
    | StartProcess
    | WaitProcess

  /** The opened stdio stream: whether it is interactive, and its URL. */
  datatype StreamInfo = StreamInfo(interactive: bool, scheme: string, host: string, path: string)

  /** One round of the bind-port poll: listing the container's processes
      failed, checking the port failed, or the port was (not) bound. */
  datatype PortPoll = ProcessesFailed(msg: string) | CheckFailed(msg: string) | Checked(bound: bool)

  /** How `Wait` ends: an exit status, an exit error carrying a status,
      or any other error. The status is the one `utils.ExitStatus` gives. */
  datatype WaitResult = Exited(status: int) | ExitError(status: int) | WaitFailed(msg: string)

  /** How the process's stdio is wired. */
  datatype Stdio = Unwired | StreamStdio | TtyStdio

  /** The arguments and the outcome of every outside call. `rootfs` is
      the flag as `filepath.Abs` returns it: an empty flag gives the
      working directory, so it is empty only when the working directory
      cannot be read. */
  datatype World = World(
    image: string,
    rootfs: string,
    hostname: string,
    binds: seq<string>,
    uid: string,
    webHook: string,
    bindPort: string,
    logRotate: int,
    newDriver: Option<string>,
    setup: Option<string>,
    factory: Option<string>,
    create: Option<string>,
    writePid: Option<string>,
    stream: Result<StreamInfo>,
    hostUid: Option<string>,
    newTty: Option<string>,
    attach: Option<string>,
    signals: seq<SignalForwarding.Incoming>,
    start: Option<string>,
    polls: seq<PortPoll>,
    wait: WaitResult)

  /** The container is created and the pid file written. */
  predicate ContainerReady(w: World)
  {
    w.factory.None? && Config.ParseBinds(w.binds).Ok? && w.create.None? && w.writePid.None?
  }

  /** The stream is open and, when interactive, the tty attached. */
  predicate StdioReady(w: World)
  {
    w.stream.Ok? && (w.stream.value.interactive ==> w.hostUid.None? && w.newTty.None? && w.attach.None?)
  }

  /** Every step before starting the process succeeds. */
  predicate Prepared(w: World)
  {
    RootfsReady(w) && ContainerReady(w) && StdioReady(w)
  }

  /** The rootfs is set up, so its clean-up is deferred. */
  predicate RootfsReady(w: World)
  {
    w.image != "" && w.rootfs != "" && w.newDriver.None? && w.setup.None?
  }

  /** Log rotation is wanted, and the stream is a file. */
  predicate Rotates(w: World)
  {
    Prepared(w) && w.logRotate > 0 && w.stream.value.scheme == "file"
  }

  /** The process is started. */
  predicate Launched(w: World)
  {
    Prepared(w) && w.start.None?
  }

  /** The poll finds the port bound before listing the processes fails. */
  function PortBound(polls: seq<PortPoll>): bool
  {
    if polls == [] then false
    else match polls[0]
      case ProcessesFailed(_) => false
      case CheckFailed(_) => PortBound(polls[1..])
      case Checked(b) => b || PortBound(polls[1..])
  }

  /** The poll ends bound exactly when some round finds the port bound and
      no earlier round failed to list the processes; check errors and
      unbound rounds are retried. */
  lemma {:induction false} PortBoundMeaning(polls: seq<PortPoll>)
    ensures PortBound(polls) <==> exists k :: (0 <= k < |polls| && polls[k] == Checked(true) &&
      forall j :: 0 <= j < k ==> !polls[j].ProcessesFailed?)
  {
    if polls != [] {
      PortBoundMeaning(polls[1..]);
      if PortBound(polls) && polls[0] != Checked(true) {
        var k :| 0 <= k < |polls[1..]| && polls[1..][k] == Checked(true) &&
          forall j :: 0 <= j < k ==> !polls[1..][j].ProcessesFailed?;
        assert polls[k + 1] == Checked(true);
        forall j | 0 <= j < k + 1
          ensures !polls[j].ProcessesFailed?
        {
          if j > 0 {
            assert polls[j] == polls[1..][j - 1];
          }
        }
      }
      if !PortBound(polls) {
        forall k | 0 <= k < |polls| && polls[k] == Checked(true)
          ensures exists j :: 0 <= j < k && polls[j].ProcessesFailed?
        {
          if k > 0 && !polls[0].ProcessesFailed? {
            assert polls[1..][k - 1] == Checked(true);
            var j :| 0 <= j < k - 1 && polls[1..][j].ProcessesFailed?;
            assert polls[j + 1] == polls[1..][j];
          }
        }
      }
    }
  }

  /** The exit code: a force-killed process that died of SIGKILL (137)
      counts as a clean exit; any other status is passed on. */
  function ExitCode(forceKilled: bool, status: int): int
  {
    if forceKilled && status == 137 then 0 else status
  }

  /** 137 becomes 0 exactly when the handler force-killed the process, that
      is when some SIGINT or SIGTERM reached an init that does not catch it;
      every other status is kept. */
  lemma ExitCodeRule(signals: seq<SignalForwarding.Incoming>, status: int)
    ensures status != 137 ==> ExitCode(SignalForwarding.AnyForced(signals), status) == status
    ensures ExitCode(SignalForwarding.AnyForced(signals), 137) == 0 <==>
      exists i :: 0 <= i < |signals| && SignalForwarding.IsInterrupt(signals[i].sig) &&
        signals[i].probe == SignalForwarding.Status(false)
  {
    SignalForwarding.ForcedOnlyOnUncaughtInterrupt(signals);
  }

  function Reversed<T>(s: seq<T>): (r: seq<T>)
    ensures |r| == |s| && forall k :: 0 <= k < |s| ==> r[k] == s[|s| - 1 - k]
  {
    if s == [] then [] else [s[|s| - 1]] + Reversed(s[..|s| - 1])
  }

  /** The notices a launched run sends. */
  function LaunchNotices(w: World): seq<PsStatus>
  {
    if w.webHook == "" then []
    else [Starting] + (if w.bindPort == "" || PortBound(w.polls) then [Running] else []) + [Crashed]
  }

  /** The container is created, so its destruction is deferred (the pid
      file may still fail). */
  predicate Created(w: World)
  {
    w.factory.None? && Config.ParseBinds(w.binds).Ok? && w.create.None?
  }

  /** The stream is open, so its closing is deferred. */
  predicate Opened(w: World)
  {
    ContainerReady(w) && w.stream.Ok?
  }

  /** The tty is attached, so its closing is deferred. */
  predicate Attached(w: World)
  {
    Opened(w) && w.stream.value.interactive && w.hostUid.None? && w.newTty.None? && w.attach.None?
  }

  /** The step a notice to the web hook makes, if there is one. */
  function Notice(webHook: string, s: PsStatus): seq<Step>
  {
    if webHook == "" then [] else [Notify(s)]
  }

  /** Running is reported: at once without a bind port, otherwise once the
      poll finds the port bound. */
  predicate RunningDue(w: World)
  {
    w.bindPort == "" || PortBound(w.polls)
  }

  /** The clean-ups a run registers, in registration order. */
  function Cleanups(w: World): seq<Step>
  {
    CleanupsOf(Created(w), Opened(w), Attached(w), Rotates(w))
  }

  function CleanupsOf(created: bool, streamOpen: bool, attached: bool, rotates: bool): seq<Step>
  {
    [CleanupRootfs] + (if created then [Destroy] else []) + (if streamOpen then [CloseStream] else []) +
    (if attached then [CloseTty] else []) + (if rotates then [StopWatching] else [])
  }

  /** The steps up to the start of the process: the acquisitions, then the
      signal catching and the Starting notice once everything is ready. */
  function Preparation(w: World): seq<Step>
  {
    PreparationOf(Created(w), Opened(w), Attached(w), Prepared(w), w.webHook)
  }

  function PreparationOf(created: bool, streamOpen: bool, attached: bool, prepared: bool, webHook: string): seq<Step>
  {
    [SetupRootfs] + (if created then [CreateContainer] else []) + (if streamOpen then [OpenStream] else []) +
    (if attached then [AttachTty] else []) + (if prepared then [CatchSignals] + Notice(webHook, Starting) else [])
  }

  /** The start of the process and, once started, the Running notice when
      due and the wait. */
  function Execution(w: World): seq<Step>
  {
    if !Prepared(w) then []
    else [StartProcess] + if !Launched(w) then []
      else (if RunningDue(w) then Notice(w.webHook, Running) else []) + [WaitProcess]
  }

  /** The deferred calls: the Crashed notice when it was deferred, then the
      clean-ups, last registered first. */
  function Closing(w: World): seq<Step>
  {
    (if Prepared(w) then Notice(w.webHook, Crashed) else []) + Reversed(Cleanups(w))
  }

  /** Every step of a run of `start` on `w`. */
  function Trace(w: World): seq<Step>
  {
    if !RootfsReady(w) then [] else Preparation(w) + Execution(w) + Closing(w)
  }

  /** Every `x` in `t` comes before every `y`. */
  predicate Precedes(t: seq<Step>, x: Step, y: Step)
  {
    forall i, j :: 0 <= i < |t| && 0 <= j < |t| && t[i] == x && t[j] == y ==> i < j
  }

  /** Every `x` in `t` is followed, later on, by a `y`. */
  predicate FollowedBy(t: seq<Step>, x: Step, y: Step)
  {
    forall i :: 0 <= i < |t| && t[i] == x ==> exists j :: i < j < |t| && t[j] == y
  }

  lemma PrecedesSplit(p: seq<Step>, q: seq<Step>, x: Step, y: Step)
    requires x !in q && y !in p
    ensures Precedes(p + q, x, y)
  {
    var t := p + q;
    forall i, j | 0 <= i < |t| && 0 <= j < |t| && t[i] == x && t[j] == y
      ensures i < j
    {
    }
  }

  lemma FollowedSplit(p: seq<Step>, q: seq<Step>, x: Step, y: Step)
    requires x !in q && (x in p ==> y in q)
    ensures FollowedBy(p + q, x, y)
  {
    var t := p + q;
    forall i | 0 <= i < |t| && t[i] == x
      ensures exists j :: i < j < |t| && t[j] == y
    {
      assert t[i] == p[i];
      var m :| 0 <= m < |q| && q[m] == y;
      assert t[|p| + m] == y;
    }
  }

  lemma ReversedHas<T>(s: seq<T>, x: T)
    ensures x in Reversed(s) <==> x in s
  {
    var r := Reversed(s);
    if x in s {
      var k :| 0 <= k < |s| && s[k] == x;
      assert r[|s| - 1 - k] == x;
    }
  }

  /** What the steps before the process start can hold. */
  lemma PreparationHas(w: World, x: Step)
    ensures x in Preparation(w) <==>
      x == SetupRootfs || (Created(w) && x == CreateContainer) || (Opened(w) && x == OpenStream) ||
      (Attached(w) && x == AttachTty) ||
      (Prepared(w) && (x == CatchSignals || (w.webHook != "" && x == Notify(Starting))))
  {
    PreparationOfHas(Created(w), Opened(w), Attached(w), Prepared(w), w.webHook, x);
  }

  lemma PreparationOfHas(created: bool, streamOpen: bool, attached: bool, prepared: bool, webHook: string, x: Step)
    ensures x in PreparationOf(created, streamOpen, attached, prepared, webHook) <==>
      x == SetupRootfs || (created && x == CreateContainer) || (streamOpen && x == OpenStream) ||
      (attached && x == AttachTty) || (prepared && (x == CatchSignals || (webHook != "" && x == Notify(Starting))))
  {
  }

  /** What the start of the process and the wait can hold. */
  lemma ExecutionHas(w: World, x: Step)
    ensures x in Execution(w) <==>
      Prepared(w) && (x == StartProcess || (Launched(w) &&
        (x == WaitProcess || (RunningDue(w) && w.webHook != "" && x == Notify(Running)))))
  {
  }

  /** What the deferred calls can hold. */
  lemma ClosingHas(w: World, x: Step)
    ensures x in Closing(w) <==>
      (Prepared(w) && w.webHook != "" && x == Notify(Crashed)) ||
      x == CleanupRootfs || (Created(w) && x == Destroy) || (Opened(w) && x == CloseStream) ||
      (Attached(w) && x == CloseTty) || (Rotates(w) && x == StopWatching)
  {
    ReversedHas(Cleanups(w), x);
    CleanupsOfHas(Created(w), Opened(w), Attached(w), Rotates(w), x);
  }

  lemma CleanupsOfHas(created: bool, streamOpen: bool, attached: bool, rotates: bool, x: Step)
    ensures x in CleanupsOf(created, streamOpen, attached, rotates) <==>
      x == CleanupRootfs || (created && x == Destroy) || (streamOpen && x == CloseStream) ||
      (attached && x == CloseTty) || (rotates && x == StopWatching)
  {
  }

  /** The Starting notice goes out before the process is started, and it
      goes out whenever everything is ready and there is a web hook. */
  lemma StartingBeforeStart(w: World)
    ensures Precedes(Trace(w), Notify(Starting), StartProcess)
    ensures RootfsReady(w) && Prepared(w) ==> StartProcess in Trace(w)
    ensures RootfsReady(w) && Prepared(w) && w.webHook != "" ==> Notify(Starting) in Trace(w)
  {
    if RootfsReady(w) {
      var p, q := Preparation(w), Execution(w) + Closing(w);
      PreparationHas(w, StartProcess);
      PreparationHas(w, Notify(Starting));
      ExecutionHas(w, StartProcess);
      ExecutionHas(w, Notify(Starting));
      ClosingHas(w, Notify(Starting));
      PrecedesSplit(p, q, Notify(Starting), StartProcess);
      assert Trace(w) == p + q;
    }
  }

  /** The Crashed notice goes out only after the wait has ended. */
  lemma WaitBeforeCrashed(w: World)
    ensures Precedes(Trace(w), WaitProcess, Notify(Crashed))
    ensures Launched(w) ==> WaitProcess in Trace(w)
  {
    if RootfsReady(w) {
      var p, q := Preparation(w) + Execution(w), Closing(w);
      PreparationHas(w, Notify(Crashed));
      ExecutionHas(w, Notify(Crashed));
      ExecutionHas(w, WaitProcess);
      ClosingHas(w, WaitProcess);
      PrecedesSplit(p, q, WaitProcess, Notify(Crashed));
      assert Trace(w) == p + q;
    }
  }

  /** Everything acquired is released later in the run: the rootfs is
      cleaned up, the container destroyed, the stream and the tty closed. */
  lemma AcquiredReleased(w: World)
    ensures FollowedBy(Trace(w), SetupRootfs, CleanupRootfs)
    ensures FollowedBy(Trace(w), CreateContainer, Destroy)
    ensures FollowedBy(Trace(w), OpenStream, CloseStream)
    ensures FollowedBy(Trace(w), AttachTty, CloseTty)
  {
    if RootfsReady(w) {
      var p, q := Preparation(w) + Execution(w), Closing(w);
      assert Trace(w) == p + q;
      Released(w, p, q, SetupRootfs, CleanupRootfs);
      Released(w, p, q, CreateContainer, Destroy);
      Released(w, p, q, OpenStream, CloseStream);
      Released(w, p, q, AttachTty, CloseTty);
    }
  }

  /** One acquisition and its release. */
  lemma Released(w: World, p: seq<Step>, q: seq<Step>, x: Step, y: Step)
    requires p == Preparation(w) + Execution(w) && q == Closing(w)
    requires (x, y) in {(SetupRootfs, CleanupRootfs), (CreateContainer, Destroy), (OpenStream, CloseStream), (AttachTty, CloseTty)}
    ensures FollowedBy(p + q, x, y)
  {
    PreparationHas(w, x);
    ExecutionHas(w, x);
    ClosingHas(w, x);
    ClosingHas(w, y);
    FollowedSplit(p, q, x, y);
  }

  /** The trace of a run whose container step fails. */
  lemma TraceContainerFails(w: World)
    requires RootfsReady(w) && !ContainerReady(w)
    ensures Trace(w) == [SetupRootfs] + (if Created(w) then [CreateContainer] else []) +
      Reversed([CleanupRootfs] + (if Created(w) then [Destroy] else []))
  {
    assert Preparation(w) == [SetupRootfs] + (if Created(w) then [CreateContainer] else []);
    assert Cleanups(w) == [CleanupRootfs] + (if Created(w) then [Destroy] else []);
  }

  /** The trace of a run whose stdio step fails. */
  lemma TraceStdioFails(w: World)
    requires RootfsReady(w) && ContainerReady(w) && !StdioReady(w)
    ensures Trace(w) == [SetupRootfs] + [CreateContainer] + (if w.stream.Ok? then [OpenStream] else []) +
      Reversed([CleanupRootfs] + [Destroy] + (if w.stream.Ok? then [CloseStream] else []))
  {
    assert Preparation(w) == [SetupRootfs] + [CreateContainer] + (if w.stream.Ok? then [OpenStream] else []);
    assert Cleanups(w) == [CleanupRootfs] + [Destroy] + (if w.stream.Ok? then [CloseStream] else []);
  }

  /** The steps and the clean-ups of a run once everything is ready. */
  function ReadySteps(w: World): seq<Step>
    requires w.stream.Ok?
  {
    [SetupRootfs] + [CreateContainer] + [OpenStream] + (if w.stream.value.interactive then [AttachTty] else [])
  }

  function ReadyCleanups(w: World): seq<Step>
    requires w.stream.Ok?
  {
    [CleanupRootfs] + [Destroy] + [CloseStream] + (if w.stream.value.interactive then [CloseTty] else [])
  }

  /** The trace of a run whose process fails to start. */
  lemma TraceStartFails(w: World)
    requires Prepared(w) && !Launched(w)
    ensures Trace(w) == ReadySteps(w) + [CatchSignals] + Notice(w.webHook, Starting) + [StartProcess] +
      Notice(w.webHook, Crashed) + Reversed(ReadyCleanups(w) + (if Rotates(w) then [StopWatching] else []))
  {
    assert Preparation(w) == ReadySteps(w) + ([CatchSignals] + Notice(w.webHook, Starting));
    assert Cleanups(w) == ReadyCleanups(w) + (if Rotates(w) then [StopWatching] else []);
  }

  /** The trace of a run whose process starts. */
  lemma TraceLaunched(w: World)
    requires Launched(w)
    ensures Trace(w) == ReadySteps(w) + [CatchSignals] + Notice(w.webHook, Starting) + [StartProcess] +
      (if RunningDue(w) then Notice(w.webHook, Running) else []) + [WaitProcess] + Notice(w.webHook, Crashed) +
      Reversed(ReadyCleanups(w) + (if Rotates(w) then [StopWatching] else []))
  {
    var rs, n, c := ReadySteps(w), Notice(w.webHook, Starting), Notice(w.webHook, Crashed);
    var x := if RunningDue(w) then Notice(w.webHook, Running) else [];
    var r := Reversed(ReadyCleanups(w) + (if Rotates(w) then [StopWatching] else []));
    assert Cleanups(w) == ReadyCleanups(w) + (if Rotates(w) then [StopWatching] else []);
    assert Preparation(w) == rs + ([CatchSignals] + n);
    assert Execution(w) == [StartProcess] + (x + [WaitProcess]);
    assert Closing(w) == c + r;
    var p := rs + [CatchSignals] + n;
    AppendAssoc(rs, [CatchSignals], n);
    AppendAssoc([StartProcess], x, [WaitProcess]);
    AppendAssoc(p, [StartProcess] + x, [WaitProcess]);
    AppendAssoc(p, [StartProcess], x);
    AppendAssoc(p + [StartProcess] + x + [WaitProcess], c, r);
  }

  lemma AppendAssoc<T>(a: seq<T>, b: seq<T>, c: seq<T>)
    ensures a + (b + c) == a + b + c
  {
  }

  class Supervisor {
    /** What the run did so far, notices included. */
    var steps: seq<Step>
    /** The statuses sent to the web hook so far. */
    var notices: seq<PsStatus>
    /** The deferred clean-ups, in the order they were registered. */
    var deferred: seq<Step>
    /** Whether the Crashed notice is deferred. It is registered after
        every other deferred call, so it runs first. */
    var crashDeferred: bool
    /** How the process's stdio was wired. */
    var stdio: Stdio
    /** The log rotator, when one was started. */
    var rotator: LogRotate.Rotator?

    constructor ()
      ensures steps == [] && notices == [] && deferred == [] && !crashDeferred
      ensures stdio == Unwired && rotator == null
    {
      steps := [];
      notices := [];
      deferred := [];
      crashDeferred := false;
      stdio := Unwired;
      rotator := null;
    }

    /** `statusChanged`: a notice only when there is a web hook; whether
        the hook call fails makes no difference to the run. */
    method StatusChanged(webHook: string, s: PsStatus)
      modifies this
      ensures steps == old(steps) + (if webHook == "" then [] else [Notify(s)])
      ensures notices == old(notices) + (if webHook == "" then [] else [s])
      ensures deferred == old(deferred) && crashDeferred == old(crashDeferred)
      ensures stdio == old(stdio) && rotator == old(rotator)
    {
      if webHook == "" {
        return;
      }
      steps := steps + [Notify(s)];
      notices := notices + [s];
    }

    /** Runs the deferred calls, last registered first: the Crashed notice
        when it is deferred, then the clean-ups backwards. */
    method Unwind(webHook: string)
      modifies this
      ensures steps == old(steps) + (if old(crashDeferred) && webHook != "" then [Notify(Crashed)] else []) + Reversed(old(deferred))
      ensures notices == old(notices) + (if old(crashDeferred) && webHook != "" then [Crashed] else [])
      ensures old(deferred) != [] ==> steps[|steps| - 1] == old(deferred)[0]
      ensures deferred == [] && !crashDeferred && stdio == old(stdio) && rotator == old(rotator)
    {
      if crashDeferred {
        StatusChanged(webHook, Crashed);
        crashDeferred := false;
      }
      ghost var mid := steps;
      var i := |deferred|;
      while i > 0
        invariant 0 <= i <= |deferred| && deferred == old(deferred)
        invariant steps == mid + Reversed(deferred[i..])
        invariant notices == old(notices) + (if old(crashDeferred) && webHook != "" then [Crashed] else [])
        invariant !crashDeferred && stdio == old(stdio) && rotator == old(rotator)
      {
        assert Reversed(deferred[i - 1..]) == Reversed(deferred[i..]) + [deferred[i - 1]];
        steps := steps + [deferred[i - 1]];
        i := i - 1;
      }
      assert deferred[0..] == deferred;
      deferred := [];
    }

    /** Unwinds and fails with exit code 1. */
    method Fail(webHook: string, msg: string) returns (exit: int, err: Option<string>)
      modifies this
      ensures exit == 1 && err == Some(msg)
      ensures steps == old(steps) + (if old(crashDeferred) && webHook != "" then [Notify(Crashed)] else []) + Reversed(old(deferred))
      ensures notices == old(notices) + (if old(crashDeferred) && webHook != "" then [Crashed] else [])
      ensures old(deferred) != [] ==> steps[|steps| - 1] == old(deferred)[0]
      ensures deferred == [] && !crashDeferred && stdio == old(stdio) && rotator == old(rotator)
    {
      Unwind(webHook);
      return 1, Some(msg);
    }

    /** The bind-port poll: retries until the port is bound, gives up when
        the processes cannot be listed. */
    method AwaitPort(polls: seq<PortPoll>) returns (bound: bool)
      ensures bound == PortBound(polls)
    {
      var i := 0;
      while i < |polls|
        invariant 0 <= i <= |polls|
        invariant PortBound(polls[i..]) == PortBound(polls)
      {
        assert polls[i..][0] == polls[i] && polls[i..][1..] == polls[i + 1..];
        match polls[i] {
          case ProcessesFailed(_) =>
            return false;
          case CheckFailed(_) =>
          case Checked(b) =>
            if b {
              return true;
            }
        }
        i := i + 1;
      }
      return false;
    }

    /** The rootfs is set up and its clean-up registered first; nothing
        has been sent to the web hook yet. */
    predicate Armed()
      reads this
    {
      |steps| >= 1 && steps[0] == SetupRootfs && |deferred| >= 1 && deferred[0] == CleanupRootfs
    }

    /** The run ended with the rootfs cleaned up last. */
    predicate Unwound()
      reads this
    {
      |steps| >= 2 && steps[0] == SetupRootfs && steps[|steps| - 1] == CleanupRootfs
    }

    /** `start`. */
    method Start(w: World) returns (exit: int, err: Option<string>)
      requires steps == [] && notices == [] && deferred == [] && !crashDeferred && rotator == null
      modifies this
      ensures w.image == "" ==> exit == 1 && err == Some("no image specified") && steps == []
      ensures w.image != "" && w.rootfs == "" ==> exit == 1 && err == Some("no rootfs specified") && steps == []
      ensures !Launched(w) ==> exit == 1 && err.Some?
      ensures !Prepared(w) ==> notices == []
      ensures Prepared(w) && !Launched(w) ==> notices == (if w.webHook == "" then [] else [Starting, Crashed])
      ensures Launched(w) ==> notices == LaunchNotices(w)
      ensures Launched(w) && w.wait.WaitFailed? ==> exit == 1 && err == Some(w.wait.msg)
      ensures Launched(w) && !w.wait.WaitFailed? ==>
        err == None && exit == ExitCode(SignalForwarding.AnyForced(w.signals), w.wait.status)
      ensures RootfsReady(w) ==> Unwound()
      ensures steps == Trace(w)
      ensures Prepared(w) ==> stdio == (if w.stream.value.interactive then TtyStdio else StreamStdio)
      ensures Rotates(w) <==> rotator != null
      ensures Rotates(w) ==> (rotator.logFile == w.stream.value.host + w.stream.value.path &&
        rotator.rotationDelay == w.logRotate * LogRotate.Hour)
    {
      if w.image == "" {
        return 1, Some("no image specified");
      }
      if w.rootfs == "" {
        return 1, Some("no rootfs specified");
      }
      if w.newDriver.Some? {
        return 1, w.newDriver;
      }
      if w.setup.Some? {
        return 1, w.setup;
      }
      steps := [SetupRootfs];
      deferred := [CleanupRootfs];
      var ok;
      ok, exit, err := PrepareContainer(w);
      if !ok {
        TraceContainerFails(w);
        return;
      }
      ok, exit, err := PrepareStdio(w);
      if !ok {
        TraceStdioFails(w);
        return;
      }
      ok, exit, err := Launch(w);
      if !ok {
        TraceStartFails(w);
        return;
      }
      exit, err := Finish(w);
      TraceLaunched(w);
    }

    /** Creates the container from the configuration and records the
        supervisor's pid; a failure unwinds. */
    method PrepareContainer(w: World) returns (ok: bool, exit: int, err: Option<string>)
      requires Armed() && notices == [] && !crashDeferred
      modifies this
      ensures ok <==> ContainerReady(w)
      ensures !ok ==> exit == 1 && err.Some? && Unwound()
      ensures ok ==> Armed()
      ensures ok ==> steps == old(steps) + [CreateContainer] && deferred == old(deferred) + [Destroy]
      ensures !ok ==> (deferred == [] &&
        steps == old(steps) + (if Created(w) then [CreateContainer] else []) +
                 Reversed(old(deferred) + (if Created(w) then [Destroy] else [])))
      ensures notices == [] && !crashDeferred && stdio == old(stdio) && rotator == old(rotator)
    {
      assert old(steps) + [] == old(steps) && old(deferred) + [] == old(deferred);
      if w.factory.Some? {
        exit, err := Fail(w.webHook, w.factory.value);
        return false, exit, err;
      }
      var config := Config.LoadConfig(w.uid, w.rootfs, w.hostname, w.binds);
      if config.Err? {
        exit, err := Fail(w.webHook, config.msg);
        return false, exit, err;
      }
      if w.create.Some? {
        exit, err := Fail(w.webHook, w.create.value);
        return false, exit, err;
      }
      steps := steps + [CreateContainer];
      deferred := deferred + [Destroy];
      if w.writePid.Some? {
        assert steps + [] == steps;
        exit, err := Fail(w.webHook, w.writePid.value);
        return false, exit, err;
      }
      return true, 0, None;
    }

    /** Opens the stream and wires the process's stdio to it, directly or
        through a tty; a failure unwinds. */
    method PrepareStdio(w: World) returns (ok: bool, exit: int, err: Option<string>)
      requires Armed() && notices == [] && !crashDeferred
      modifies this
      ensures ok <==> StdioReady(w)
      ensures !ok ==> exit == 1 && err.Some? && Unwound()
      ensures ok ==> Armed() && stdio == (if w.stream.value.interactive then TtyStdio else StreamStdio)
      ensures ok ==> var tty := w.stream.value.interactive;
        && steps == old(steps) + [OpenStream] + (if tty then [AttachTty] else [])
        && deferred == old(deferred) + [CloseStream] + (if tty then [CloseTty] else [])
      ensures !ok ==> (deferred == [] &&
        steps == old(steps) + (if w.stream.Ok? then [OpenStream] else []) +
                 Reversed(old(deferred) + (if w.stream.Ok? then [CloseStream] else [])))
      ensures notices == [] && !crashDeferred && rotator == old(rotator)
    {
      assert old(steps) + [] == old(steps) && old(deferred) + [] == old(deferred);
      if w.stream.Err? {
        exit, err := Fail(w.webHook, w.stream.msg);
        return false, exit, err;
      }
      var s := w.stream.value;
      steps := steps + [OpenStream];
      deferred := deferred + [CloseStream];
      assert steps + [] == steps && deferred + [] == deferred;
      if !s.interactive {
        stdio := StreamStdio;
        return true, 0, None;
      }
      if w.hostUid.Some? {
        exit, err := Fail(w.webHook, w.hostUid.value);
        return false, exit, err;
      }
      if w.newTty.Some? {
        exit, err := Fail(w.webHook, w.newTty.value);
        return false, exit, err;
      }
      if w.attach.Some? {
        exit, err := Fail(w.webHook, w.attach.value);
        return false, exit, err;
      }
      steps := steps + [AttachTty];
      stdio := TtyStdio;
      deferred := deferred + [CloseTty];
      return true, 0, None;
    }

    /** Starts the log rotation when wanted and the signal forwarding,
        reports Starting, defers Crashed and starts the process; a start
        failure unwinds. */
    method Launch(w: World) returns (ok: bool, exit: int, err: Option<string>)
      requires Prepared(w) && Armed() && rotator == null && notices == [] && !crashDeferred
      modifies this
      ensures ok <==> w.start.None?
      ensures !ok ==> (exit == 1 && err == w.start && Unwound() &&
        notices == (if w.webHook == "" then [] else [Starting, Crashed]))
      ensures ok ==> Armed() && crashDeferred && notices == (if w.webHook == "" then [] else [Starting])
      ensures ok ==> (steps == old(steps) + [CatchSignals] + Notice(w.webHook, Starting) + [StartProcess] &&
        deferred == old(deferred) + (if Rotates(w) then [StopWatching] else []))
      ensures !ok ==> (deferred == [] &&
        steps == old(steps) + [CatchSignals] + Notice(w.webHook, Starting) + [StartProcess] + Notice(w.webHook, Crashed) +
                 Reversed(old(deferred) + (if Rotates(w) then [StopWatching] else [])))
      ensures stdio == old(stdio)
      ensures Rotates(w) <==> rotator != null
      ensures Rotates(w) ==> (fresh(rotator) && rotator.logFile == w.stream.value.host + w.stream.value.path &&
        rotator.rotationDelay == w.logRotate * LogRotate.Hour)
    {
      assert old(deferred) + [] == old(deferred);
      StartRotation(w);
      steps := steps + [CatchSignals];
      StatusChanged(w.webHook, Starting);
      crashDeferred := true;
      steps := steps + [StartProcess];
      if w.start.Some? {
        exit, err := Fail(w.webHook, w.start.value);
        return false, exit, err;
      }
      return true, 0, None;
    }

    /** Starts rotating the log file when rotation is wanted and the
        stream is a file, and defers stopping it. */
    method StartRotation(w: World)
      requires Prepared(w) && rotator == null
      modifies this
      ensures Rotates(w) ==> (fresh(rotator) && rotator.logFile == w.stream.value.host + w.stream.value.path &&
        rotator.rotationDelay == w.logRotate * LogRotate.Hour && deferred == old(deferred) + [StopWatching])
      ensures !Rotates(w) ==> rotator == null && deferred == old(deferred)
      ensures steps == old(steps) && notices == old(notices) && crashDeferred == old(crashDeferred) && stdio == old(stdio)
    {
      var s := w.stream.value;
      if w.logRotate > 0 && s.scheme == "file" {
        var r := new LogRotate.Rotator(s.host + s.path);
        r.rotationDelay := w.logRotate * LogRotate.Hour;
        rotator := r;
        deferred := deferred + [StopWatching];
      }
    }

    /** Reports Running right away without a bind port, otherwise once
        the poll finds the port bound. */
    method ReportRunning(w: World)
      modifies this
      ensures notices == old(notices) + (if w.webHook != "" && RunningDue(w) then [Running] else [])
      ensures steps == old(steps) + (if RunningDue(w) then Notice(w.webHook, Running) else [])
      ensures deferred == old(deferred) && crashDeferred == old(crashDeferred)
      ensures stdio == old(stdio) && rotator == old(rotator)
    {
      if w.bindPort == "" {
        StatusChanged(w.webHook, Running);
      } else {
        var bound := AwaitPort(w.polls);
        if bound {
          StatusChanged(w.webHook, Running);
        }
      }
    }

    /** Reports Running when due, waits for the process and unwinds; the
        wait status gives the exit code. */
    method Finish(w: World) returns (exit: int, err: Option<string>)
      requires Launched(w) && Armed() && crashDeferred && notices == (if w.webHook == "" then [] else [Starting])
      modifies this
      ensures old(rotator) != null ==> unchanged(old(rotator))
      ensures notices == LaunchNotices(w)
      ensures w.wait.WaitFailed? ==> exit == 1 && err == Some(w.wait.msg)
      ensures !w.wait.WaitFailed? ==>
        err == None && exit == ExitCode(SignalForwarding.AnyForced(w.signals), w.wait.status)
      ensures Unwound() && stdio == old(stdio) && rotator == old(rotator)
      ensures deferred == [] && steps == old(steps) + (if RunningDue(w) then Notice(w.webHook, Running) else []) +
        [WaitProcess] + Notice(w.webHook, Crashed) + Reversed(old(deferred))
    {
      var forced := ForwardSignals(w.stream.value.interactive, w.signals);
      ReportRunning(w);
      steps := steps + [WaitProcess];
      if w.wait.WaitFailed? {
        exit, err := Fail(w.webHook, w.wait.msg);
        return;
      }
      Unwind(w.webHook);
      return ExitCode(forced, w.wait.status), None;
    }
  }

  /** The signal forwarding goroutine, run over the signals that arrive
      while the process runs: whether it force-killed the process. */
  method ForwardSignals(interactive: bool, signals: seq<SignalForwarding.Incoming>) returns (forced: bool)
    ensures forced == SignalForwarding.AnyForced(signals)
  {
    var handler := new SignalForwarding.SignalHandler(interactive);
    handler.StartCatching(signals);
    forced := handler.forceKilled;
  }
}
