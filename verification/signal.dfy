/**
  The supervisor's signal handler: every signal the supervisor receives is
  either turned into a terminal resize (SIGWINCH), put through the interrupt
  decision (SIGINT, SIGTERM), or forwarded unchanged to the container's
  process. An interrupt the init process does not catch is replaced by
  SIGKILL, and the handler remembers that it force-killed the process.

  Looking up the init pid and reading its signal dispositions are outside
  calls; each incoming signal carries the outcome those calls would give at
  that moment (a `Probe`).
 */
module SignalForwarding {
  import opened Wrappers

  // Linux signal numbers.
  const SIGINT: int := 2
  const SIGKILL: int := 9
  const SIGTERM: int := 15
  const SIGWINCH: int := 28

  predicate IsInterrupt(sig: int)
  {
    sig == SIGINT || sig == SIGTERM
  }

  /** What inspecting the init process gives: no pid, no readable status, or
      whether its disposition catches the signal. */
  datatype Probe = PidUnavailable | StatusUnavailable | Status(caught: bool)

  /** One signal taken off the channel, with the probe outcome at that time. */
  datatype Incoming = Incoming(sig: int, probe: Probe)

  /** The effect of handling one signal: whether the tty was resized, which
      signal (if any) was sent to the process, and whether it was a forced kill. */
  datatype Effect = Effect(resized: bool, sent: Option<int>, forced: bool)

  /** The dispatch rule of the handler for a single signal. */
  function Handle(hasTty: bool, m: Incoming): (e: Effect)
    ensures e.sent == None <==> m.sig == SIGWINCH
    ensures e.resized <==> m.sig == SIGWINCH && hasTty
    ensures e.forced <==> IsInterrupt(m.sig) && m.probe == Status(false)
    ensures e.sent.Some? ==> e.sent.value == if e.forced then SIGKILL else m.sig
  {
    if m.sig == SIGWINCH then Effect(hasTty, None, false)
    else if IsInterrupt(m.sig) && m.probe == Status(false) then Effect(false, Some(SIGKILL), true)
    else Effect(false, Some(m.sig), false)
  }

  /** Signals sent to the process while handling `ms`, in order. */
  function Sent(hasTty: bool, ms: seq<Incoming>): seq<int>
  {
    if ms == [] then []
    else
      var e := Handle(hasTty, ms[0]);
      (if e.sent.Some? then [e.sent.value] else []) + Sent(hasTty, ms[1..])
  }

  /** Number of terminal resizes while handling `ms`. */
  function Resizes(hasTty: bool, ms: seq<Incoming>): nat
  {
    if ms == [] then 0
    else (if Handle(hasTty, ms[0]).resized then 1 else 0) + Resizes(hasTty, ms[1..])
  }

  /** Whether handling `ms` force-kills the process at least once. */
  predicate AnyForced(ms: seq<Incoming>)
  {
    exists i :: 0 <= i < |ms| && Handle(false, ms[i]).forced
  }

  /** Number of SIGWINCH signals in `ms`. */
  function Winches(ms: seq<Incoming>): nat
  {
    if ms == [] then 0
    else (if ms[0].sig == SIGWINCH then 1 else 0) + Winches(ms[1..])
  }

  /** The signals of `ms` with every SIGWINCH dropped. */
  function NonWinch(ms: seq<Incoming>): seq<int>
  {
    if ms == [] then []
    else (if ms[0].sig == SIGWINCH then [] else [ms[0].sig]) + NonWinch(ms[1..])
  }

  class SignalHandler {
    /** `tty != nil`. */
    const hasTty: bool
    var forceKilled: bool
    /** Signals passed to `process.Signal`, oldest first. */
    var sent: seq<int>
    /** Calls of `tty.resize()`. */
    var resizes: nat

    constructor (hasTty: bool)
      ensures this.hasTty == hasTty
      ensures !forceKilled && sent == [] && resizes == 0
    {
      this.hasTty := hasTty;
      forceKilled := false;
      sent := [];
      resizes := 0;
    }

    /** Resizes the tty, when there is one. */
    method HandleSigwinch()
      modifies this
      ensures resizes == old(resizes) + if hasTty then 1 else 0
      ensures sent == old(sent) && forceKilled == old(forceKilled)
    {
      if hasTty {
        resizes := resizes + 1;
      }
    }

    /** Forwards the signal unchanged. */
    method HandleDefault(sig: int)
      modifies this
      ensures sent == old(sent) + [sig]
      ensures resizes == old(resizes) && forceKilled == old(forceKilled)
    {
      sent := sent + [sig];
    }

    /** Forwards the signal when the pid or its status is unavailable or the
        process catches it; otherwise sends SIGKILL and sets `forceKilled`. */
    method HandleInterrupt(sig: int, probe: Probe)
      modifies this
      ensures probe == Status(false) ==> sent == old(sent) + [SIGKILL] && forceKilled
      ensures probe != Status(false) ==> sent == old(sent) + [sig] && forceKilled == old(forceKilled)
      ensures resizes == old(resizes)
    {
      if probe.PidUnavailable? {
        HandleDefault(sig);
        return;
      }
      if probe.StatusUnavailable? {
        HandleDefault(sig);
        return;
      }
      if probe.caught {
        HandleDefault(sig);
        return;
      }
      forceKilled := true;
      sent := sent + [SIGKILL];
    }

    /** Handles one signal taken off the channel. */
    method Dispatch(m: Incoming)
      modifies this
      ensures var e := Handle(hasTty, m);
        && resizes == old(resizes) + (if e.resized then 1 else 0)
        && sent == old(sent) + (if e.sent.Some? then [e.sent.value] else [])
        && forceKilled == (old(forceKilled) || e.forced)
    {
      if m.sig == SIGWINCH {
        HandleSigwinch();
      } else if m.sig == SIGTERM || m.sig == SIGINT {
        HandleInterrupt(m.sig, m.probe);
      } else {
        HandleDefault(m.sig);
      }
    }

    /** The catching loop, over the signals delivered on the channel. */
    method StartCatching(ms: seq<Incoming>)
      modifies this
      ensures sent == old(sent) + Sent(hasTty, ms)
      ensures resizes == old(resizes) + Resizes(hasTty, ms)
      ensures forceKilled == (old(forceKilled) || AnyForced(ms))
    {
      var i := 0;
      while i < |ms|
        invariant 0 <= i <= |ms|
        invariant sent == old(sent) + Sent(hasTty, ms[..i])
        invariant resizes == old(resizes) + Resizes(hasTty, ms[..i])
        invariant forceKilled == (old(forceKilled) || AnyForced(ms[..i]))
      {
        Dispatch(ms[i]);
        SentSnoc(hasTty, ms[..i], ms[i]);
        ResizesSnoc(hasTty, ms[..i], ms[i]);
        assert ms[..i + 1] == ms[..i] + [ms[i]];
        AnyForcedSnoc(ms[..i], ms[i]);
        i := i + 1;
      }
      assert ms[..i] == ms;
    }
  }

  lemma {:induction false} SentSnoc(hasTty: bool, ms: seq<Incoming>, m: Incoming)
    ensures var e := Handle(hasTty, m);
      Sent(hasTty, ms + [m]) == Sent(hasTty, ms) + (if e.sent.Some? then [e.sent.value] else [])
  {
    if ms != [] {
      assert (ms + [m])[1..] == ms[1..] + [m];
      SentSnoc(hasTty, ms[1..], m);
    } else {
      assert (ms + [m])[1..] == [];
    }
  }

  lemma {:induction false} ResizesSnoc(hasTty: bool, ms: seq<Incoming>, m: Incoming)
    ensures Resizes(hasTty, ms + [m]) == Resizes(hasTty, ms) + if Handle(hasTty, m).resized then 1 else 0
  {
    if ms != [] {
      assert (ms + [m])[1..] == ms[1..] + [m];
      ResizesSnoc(hasTty, ms[1..], m);
    } else {
      assert (ms + [m])[1..] == [];
    }
  }

  lemma AnyForcedSnoc(ms: seq<Incoming>, m: Incoming)
    ensures AnyForced(ms + [m]) == (AnyForced(ms) || Handle(false, m).forced)
  {
    var ms' := ms + [m];
    if AnyForced(ms') && !AnyForced(ms) {
      var i :| 0 <= i < |ms'| && Handle(false, ms'[i]).forced;
      assert i == |ms|;
    }
    if AnyForced(ms) {
      var i :| 0 <= i < |ms| && Handle(false, ms[i]).forced;
      assert ms'[i] == ms[i];
    }
    if Handle(false, m).forced {
      assert ms'[|ms|] == m;
    }
  }

  /** SIGWINCH is never passed on to the process: every other signal gives
      exactly one delivery, and a SIGWINCH gives a resize when there is a tty. */
  lemma {:induction false} WinchNeverSent(hasTty: bool, ms: seq<Incoming>)
    ensures SIGWINCH !in Sent(hasTty, ms)
    ensures |Sent(hasTty, ms)| == |ms| - Winches(ms)
    ensures Resizes(hasTty, ms) == if hasTty then Winches(ms) else 0
  {
    if ms != [] {
      WinchNeverSent(hasTty, ms[1..]);
    }
  }

  /** Without a forced kill, the process receives exactly the incoming
      signals minus SIGWINCH, unchanged and in order. */
  lemma {:induction false} UnforcedSendsOriginals(hasTty: bool, ms: seq<Incoming>)
    requires !AnyForced(ms)
    ensures Sent(hasTty, ms) == NonWinch(ms)
  {
    if ms != [] {
      assert !Handle(false, ms[0]).forced;
      assert !AnyForced(ms[1..]) by {
        forall i | 0 <= i < |ms[1..]|
          ensures !Handle(false, ms[1..][i]).forced
        {
          assert ms[1..][i] == ms[i + 1];
        }
      }
      UnforcedSendsOriginals(hasTty, ms[1..]);
    }
  }

  /** A forced kill happens exactly for an interrupt that the init process
      does not catch; SIGKILL then replaces that interrupt in the deliveries. */
  lemma ForcedOnlyOnUncaughtInterrupt(ms: seq<Incoming>)
    ensures AnyForced(ms) <==> exists i :: 0 <= i < |ms| && IsInterrupt(ms[i].sig) && ms[i].probe == Status(false)
  {
    if AnyForced(ms) {
      var i :| 0 <= i < |ms| && Handle(false, ms[i]).forced;
      assert IsInterrupt(ms[i].sig) && ms[i].probe == Status(false);
    }
  }

  /** Once set, the flag stays set whatever signals follow. */
  lemma ForceKilledSticky(ms: seq<Incoming>, more: seq<Incoming>)
    requires AnyForced(ms)
    ensures AnyForced(ms + more)
  {
    var i :| 0 <= i < |ms| && Handle(false, ms[i]).forced;
    assert (ms + more)[i] == ms[i];
  }
}
