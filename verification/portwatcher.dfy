/**
  The port-bind watcher: it waits until a port is bound by a given process
  or by one of its descendants. `lsof -ti :<port>` names the binder and
  `pgrep -P <pid>` lists the direct children of a pid; both are outside
  commands, given here as their outcomes.
 */
module PortWatcher {
  import opened Wrappers
  import opened Text

  /** Pause between two polls, in milliseconds. */
  const RetryDelayMs: nat := 200

  /** The status reported for an error that carries no wait status. */
  const UnknownExitStatus: int := 555

  /** A failed command: its error text and, when the error is an exit error
      carrying a wait status, that status. */
  datatype CmdError = CmdError(msg: string, waitStatus: Option<int>)

  /** The outcome of running a command and collecting its standard output. */
  datatype CmdRun = Ran(stdout: string) | Failed(err: CmdError)

  /** The exit status of a failed command, or 555 when there is none. */
  function ExitStatus(e: CmdError): (s: int)
    ensures e.waitStatus == None ==> s == UnknownExitStatus
    ensures e.waitStatus.Some? ==> s == e.waitStatus.value
  {
    match e.waitStatus
    case Some(st) => st
    case None => UnknownExitStatus
  }

  /** The pid bound to the port, "" when nothing is bound (lsof exits with 1). */
  function PortBinder(lsof: CmdRun): (r: Result<string>)
    ensures lsof.Failed? ==> r == if ExitStatus(lsof.err) == 1 then Ok("") else Err(lsof.err.msg)
    ensures lsof.Ran? ==> r.Ok? && r.value == TrimSuffix(lsof.stdout, "\n")
  {
    match lsof
    case Failed(e) => if ExitStatus(e) == 1 then Ok("") else Err(e.msg)
    case Ran(out) => Ok(TrimSuffix(out, "\n"))
  }

  /** The binder's pid, printed on a line of its own, comes back without the
      newline; only one newline is removed. */
  lemma PortBinderLine(p: string)
    ensures PortBinder(Ran(p + "\n")) == Ok(p)
    ensures PortBinder(Ran(p + "\n\n")) == Ok(p + "\n")
    ensures PortBinder(Ran(p)) == Ok(p) <==> !HasSuffix(p, "\n")
  {
    assert HasSuffix(p + "\n", "\n");
    assert (p + "\n")[..|p|] == p;
    assert HasSuffix(p + "\n\n", "\n");
    assert (p + "\n\n")[..|p| + 1] == p + "\n";
    if HasSuffix(p, "\n") {
      assert |TrimSuffix(p, "\n")| == |p| - 1;
    }
  }

  /** The lines of pgrep's output, without the one empty entry that the
      final newline leaves. */
  function ChildLines(out: string): (cs: seq<string>)
    ensures forall k :: 0 <= k < |cs| ==> '\n' !in cs[k]
  {
    var parts := Split(out, '\n');
    if parts[|parts| - 1] == "" then parts[..|parts| - 1] else parts
  }

  /** pgrep prints one pid per line; the lines are exactly the pids. */
  lemma ChildLinesOfListing(pids: seq<string>)
    requires NoSep(pids, '\n')
    requires forall k :: 0 <= k < |pids| ==> pids[k] != ""
    ensures ChildLines(Join(pids + [""], '\n')) == pids
  {
    SplitUnique(pids + [""], '\n');
  }

  /** `c` is listed by pgrep as a direct child of `p`. */
  predicate ChildOf(pgrep: string -> CmdRun, c: string, p: string)
  {
    pgrep(p).Ran? && c in ChildLines(pgrep(p).stdout)
  }

  /** The process tree below `pid` has fewer than `h` levels, so the
      recursive listing ends. */
  predicate HeightBelow(pgrep: string -> CmdRun, pid: string, h: nat)
    decreases h
  {
    h > 0 && (pgrep(pid).Ran? ==>
      forall c :: c in ChildLines(pgrep(pid).stdout) ==> HeightBelow(pgrep, c, h - 1))
  }

  /** What `children(pid)` returns: the direct children, then the
      descendants of each child in turn; the first error aborts. */
  function Descendants(pgrep: string -> CmdRun, pid: string, h: nat): Result<seq<string>>
    requires HeightBelow(pgrep, pid, h)
    decreases h, 0
  {
    match pgrep(pid)
    case Failed(e) => if ExitStatus(e) == 1 then Ok([]) else Err(e.msg)
    case Ran(out) =>
      var cs := ChildLines(out);
      var sub := Subtrees(pgrep, cs, h - 1);
      if sub.Err? then Err(sub.msg) else Ok(cs + sub.value)
  }

  /** The descendants of every pid of `cs`, concatenated in order. */
  function Subtrees(pgrep: string -> CmdRun, cs: seq<string>, h: nat): Result<seq<string>>
    requires AllBelow(pgrep, cs, h)
    decreases h, |cs|
  {
    if cs == [] then Ok([])
    else
      var pre := Subtrees(pgrep, cs[..|cs| - 1], h);
      if pre.Err? then pre
      else
        var d := Descendants(pgrep, cs[|cs| - 1], h);
        if d.Err? then Err(d.msg) else Ok(pre.value + d.value)
  }

  /** `x` is reached from `pid` in at most `h` parent-to-child steps. */
  ghost predicate Reachable(pgrep: string -> CmdRun, pid: string, x: string, h: nat)
    decreases h
  {
    h > 0 &&
    (ChildOf(pgrep, x, pid) || exists c :: ChildOf(pgrep, c, pid) && Reachable(pgrep, c, x, h - 1))
  }

  /** `children(pid)`: a recursive listing of the direct children, then
      the descendants of each. */
  method Children(pgrep: string -> CmdRun, pid: string, ghost h: nat) returns (r: Result<seq<string>>)
    requires HeightBelow(pgrep, pid, h)
    ensures r == Descendants(pgrep, pid, h)
    decreases h, 1
  {
    var run := pgrep(pid);
    if run.Failed? {
      if ExitStatus(run.err) == 1 {
        return Ok([]);
      }
      return Err(run.err.msg);
    }
    var direct := ChildLines(run.stdout);
    DescendantsRan(pgrep, pid, h);
    var sub := ChildrenOfEach(pgrep, direct, h - 1);
    if sub.Err? {
      return Err(sub.msg);
    }
    return Ok(direct + sub.value);
  }

  /** The loop of `children` over the direct children, appending the
      descendants of each; the first error aborts. */
  method ChildrenOfEach(pgrep: string -> CmdRun, direct: seq<string>, ghost h: nat) returns (r: Result<seq<string>>)
    requires AllBelow(pgrep, direct, h)
    ensures r == Subtrees(pgrep, direct, h)
    decreases h, 2
  {
    var cpids := [];
    var i := 0;
    while i < |direct|
      invariant 0 <= i <= |direct|
      invariant Subtrees(pgrep, direct[..i], h) == Ok(cpids)
    {
      var ccpids := Children(pgrep, direct[i], h);
      SubtreesStep(pgrep, direct, i, h);
      if ccpids.Err? {
        SubtreesPrefixErr(pgrep, direct, i + 1, h);
        return Err(ccpids.msg);
      }
      cpids := cpids + ccpids.value;
      i := i + 1;
    }
    assert direct[..i] == direct;
    return Ok(cpids);
  }

  /** A pid that pgrep lists children for: its children lie below the
      next height, and its descendants are them followed by their
      subtrees. */
  lemma DescendantsRan(pgrep: string -> CmdRun, pid: string, h: nat)
    requires HeightBelow(pgrep, pid, h) && pgrep(pid).Ran?
    ensures var cs := ChildLines(pgrep(pid).stdout);
      && AllBelow(pgrep, cs, h - 1)
      && var sub := Subtrees(pgrep, cs, h - 1);
      Descendants(pgrep, pid, h) == if sub.Err? then Err(sub.msg) else Ok(cs + sub.value)
  {
  }

  predicate AllBelow(pgrep: string -> CmdRun, cs: seq<string>, h: nat)
  {
    forall c :: c in cs ==> HeightBelow(pgrep, c, h)
  }

  /** Listing one more child extends the listing of the children before it. */
  lemma SubtreesStep(pgrep: string -> CmdRun, cs: seq<string>, i: nat, h: nat)
    requires i < |cs| && AllBelow(pgrep, cs, h)
    requires Subtrees(pgrep, cs[..i], h).Ok?
    ensures var d := Descendants(pgrep, cs[i], h);
      Subtrees(pgrep, cs[..i + 1], h) ==
        if d.Err? then Err(d.msg) else Ok(Subtrees(pgrep, cs[..i], h).value + d.value)
  {
    assert cs[..i + 1][..i] == cs[..i];
    assert cs[..i + 1][i] == cs[i];
  }

  /** An error in the listing of a prefix of the children is the error of
      the whole listing. */
  lemma {:induction false} SubtreesPrefixErr(pgrep: string -> CmdRun, cs: seq<string>, n: nat, h: nat)
    requires n <= |cs|
    requires AllBelow(pgrep, cs, h)
    requires Subtrees(pgrep, cs[..n], h).Err?
    ensures Subtrees(pgrep, cs, h) == Subtrees(pgrep, cs[..n], h)
    decreases |cs| - n
  {
    if n < |cs| {
      var cs' := cs[..n + 1];
      assert cs'[..n] == cs[..n];
      SubtreesPrefixErr(pgrep, cs, n + 1, h);
    } else {
      assert cs[..n] == cs;
    }
  }

  /** The listing is exactly the set of pids below `pid` (the transitive
      closure of the child relation), with the direct children first. */
  lemma {:induction false} DescendantsAreReachable(pgrep: string -> CmdRun, pid: string, h: nat)
    requires HeightBelow(pgrep, pid, h)
    requires Descendants(pgrep, pid, h).Ok?
    ensures pgrep(pid).Ran? ==> Descendants(pgrep, pid, h).value[..|ChildLines(pgrep(pid).stdout)|] == ChildLines(pgrep(pid).stdout)
    ensures forall x :: x in Descendants(pgrep, pid, h).value <==> Reachable(pgrep, pid, x, h)
    decreases h, 0
  {
    var d := Descendants(pgrep, pid, h).value;
    if pgrep(pid).Ran? {
      var cs := ChildLines(pgrep(pid).stdout);
      var sub := Subtrees(pgrep, cs, h - 1);
      assert d == cs + sub.value;
      assert d[..|cs|] == cs;
      SubtreesAreReachable(pgrep, cs, h - 1);
      forall x
        ensures x in d <==> Reachable(pgrep, pid, x, h)
      {
        if x in d && x !in cs {
          var c :| c in cs && Reachable(pgrep, c, x, h - 1);
          assert ChildOf(pgrep, c, pid);
        }
        if Reachable(pgrep, pid, x, h) && !ChildOf(pgrep, x, pid) {
          var c :| ChildOf(pgrep, c, pid) && Reachable(pgrep, c, x, h - 1);
          assert c in cs;
        }
      }
    } else {
      forall x
        ensures !Reachable(pgrep, pid, x, h)
      {
        assert !ChildOf(pgrep, x, pid);
        assert forall c :: !ChildOf(pgrep, c, pid);
      }
    }
  }

  /** `x` is reached from some pid of `cs`. */
  ghost predicate ReachedFrom(pgrep: string -> CmdRun, cs: seq<string>, x: string, h: nat)
  {
    exists c :: c in cs && Reachable(pgrep, c, x, h)
  }

  /** The listing of several children is everything reached from one of
      them. */
  lemma {:induction false} SubtreesAreReachable(pgrep: string -> CmdRun, cs: seq<string>, h: nat)
    requires AllBelow(pgrep, cs, h)
    requires Subtrees(pgrep, cs, h).Ok?
    ensures forall x :: x in Subtrees(pgrep, cs, h).value <==> ReachedFrom(pgrep, cs, x, h)
    decreases h, |cs|
  {
    if cs != [] {
      var init := cs[..|cs| - 1];
      var last := cs[|cs| - 1];
      assert AllBelow(pgrep, init, h) && HeightBelow(pgrep, last, h) by {
        assert forall c :: c in init ==> c in cs;
      }
      var a, b := Subtrees(pgrep, init, h), Descendants(pgrep, last, h);
      assert a.Ok? && b.Ok? && Subtrees(pgrep, cs, h).value == a.value + b.value;
      SubtreesAreReachable(pgrep, init, h);
      DescendantsAreReachable(pgrep, last, h);
      forall x
        ensures x in a.value + b.value <==> ReachedFrom(pgrep, cs, x, h)
      {
        ReachableFromSome(pgrep, cs, x, h);
        assert x in a.value <==> ReachedFrom(pgrep, init, x, h);
        assert x in b.value <==> Reachable(pgrep, last, x, h);
      }
    }
  }

  /** Reaching `x` from some pid of `cs` is reaching it from one of all
      but the last, or from the last. */
  lemma ReachableFromSome(pgrep: string -> CmdRun, cs: seq<string>, x: string, h: nat)
    requires cs != []
    ensures ReachedFrom(pgrep, cs, x, h) <==>
      ReachedFrom(pgrep, cs[..|cs| - 1], x, h) || Reachable(pgrep, cs[|cs| - 1], x, h)
  {
    var init, last := cs[..|cs| - 1], cs[|cs| - 1];
    assert cs == init + [last];
    if c :| c in cs && Reachable(pgrep, c, x, h) {
      if c != last {
        assert c in init;
      }
    }
    if c :| c in init && Reachable(pgrep, c, x, h) {
      assert c in cs;
    }
  }

  /** The listing does not depend on the bound used to show it ends. */
  lemma {:induction false} DescendantsAnyBound(pgrep: string -> CmdRun, pid: string, h: nat, h': nat)
    requires HeightBelow(pgrep, pid, h) && HeightBelow(pgrep, pid, h')
    ensures Descendants(pgrep, pid, h) == Descendants(pgrep, pid, h')
    decreases h, 0
  {
    if pgrep(pid).Ran? {
      SubtreesAnyBound(pgrep, ChildLines(pgrep(pid).stdout), h - 1, h' - 1);
    }
  }

  lemma {:induction false} SubtreesAnyBound(pgrep: string -> CmdRun, cs: seq<string>, h: nat, h': nat)
    requires AllBelow(pgrep, cs, h)
    requires AllBelow(pgrep, cs, h')
    ensures Subtrees(pgrep, cs, h) == Subtrees(pgrep, cs, h')
    decreases h, |cs|
  {
    if cs != [] {
      SubtreesAnyBound(pgrep, cs[..|cs| - 1], h, h');
      DescendantsAnyBound(pgrep, cs[|cs| - 1], h, h');
    }
  }

  /** One poll of the watcher: what lsof reports and what pgrep would list. */
  datatype Poll = Poll(lsof: CmdRun, pgrep: string -> CmdRun)

  /** How watching ends: the binder, an error, or still waiting when the
      polls run out. */
  datatype WatchOutcome = Bound(binder: string) | Aborted(msg: string) | StillWaiting

  /** The process tree below `pid` is finite. */
  ghost predicate FiniteTree(pgrep: string -> CmdRun, pid: string)
  {
    exists h: nat :: HeightBelow(pgrep, pid, h)
  }

  /** The listing when the tree is finite. */
  ghost function Family(pgrep: string -> CmdRun, pid: string): Result<seq<string>>
    requires FiniteTree(pgrep, pid)
  {
    var h: nat :| HeightBelow(pgrep, pid, h);
    Descendants(pgrep, pid, h)
  }

  /** Any bound that shows the tree finite gives the same listing. */
  lemma FamilyIsDescendants(pgrep: string -> CmdRun, pid: string, h: nat)
    requires HeightBelow(pgrep, pid, h)
    ensures Family(pgrep, pid) == Descendants(pgrep, pid, h)
  {
    var h0: nat :| HeightBelow(pgrep, pid, h0) && Family(pgrep, pid) == Descendants(pgrep, pid, h0);
    DescendantsAnyBound(pgrep, pid, h, h0);
  }

  /** Every poll that reports a binder comes with a finite process tree. */
  ghost predicate PollsFinite(pid: string, polls: seq<Poll>)
  {
    forall k :: 0 <= k < |polls| ==>
      PortBinder(polls[k].lsof) != Ok("") ==> FiniteTree(polls[k].pgrep, pid)
  }

  /** What one poll decides: `None` to poll again, or how watching ends. */
  ghost function PollStep(pid: string, p: Poll): (r: Option<WatchOutcome>)
    requires PortBinder(p.lsof) != Ok("") ==> FiniteTree(p.pgrep, pid)
    ensures r == None <==> (PortBinder(p.lsof) == Ok("") ||
      (PortBinder(p.lsof).Ok? && Family(p.pgrep, pid).Ok? && PortBinder(p.lsof).value !in Family(p.pgrep, pid).value + [pid]))
    ensures r != Some(StillWaiting)
  {
    var b := PortBinder(p.lsof);
    if b.Err? then Some(Aborted(b.msg))
    else if b.value == "" then None
    else
      var f := Family(p.pgrep, pid);
      if f.Err? then Some(Aborted(f.msg))
      else if b.value in f.value + [pid] then Some(Bound(b.value))
      else None
  }

  /** What `Watch(pid, port)` returns when it is given the polls `polls`. */
  ghost function WatchResult(pid: string, polls: seq<Poll>): WatchOutcome
    requires PollsFinite(pid, polls)
  {
    if polls == [] then StillWaiting
    else
      match PollStep(pid, polls[0])
      case Some(o) => o
      case None => WatchResult(pid, polls[1..])
  }

  /** One poll: ask lsof for the binder and, when there is one, check it
      against the listing of the watched pid and its descendants. */
  method PollOnce(pid: string, p: Poll) returns (r: Option<WatchOutcome>)
    requires PortBinder(p.lsof) != Ok("") ==> FiniteTree(p.pgrep, pid)
    ensures r == PollStep(pid, p)
  {
    var binder := PortBinder(p.lsof);
    if binder.Err? {
      return Some(Aborted(binder.msg));
    }
    if binder.value == "" {
      return None;
    }
    ghost var h: nat :| HeightBelow(p.pgrep, pid, h);
    var pids := Children(p.pgrep, pid, h);
    FamilyIsDescendants(p.pgrep, pid, h);
    if pids.Err? {
      return Some(Aborted(pids.msg));
    }
    var family := pids.value + [pid];
    var j := 0;
    while j < |family|
      invariant 0 <= j <= |family|
      invariant binder.value !in family[..j]
    {
      if family[j] == binder.value {
        return Some(Bound(binder.value));
      }
      assert family[..j + 1] == family[..j] + [family[j]];
      j := j + 1;
    }
    assert family[..j] == family;
    return None;
  }

  /** The polling loop: polls again after an unbound port or a binder
      outside the family. */
  method Watch(pid: string, polls: seq<Poll>) returns (o: WatchOutcome)
    requires PollsFinite(pid, polls)
    ensures o == WatchResult(pid, polls)
  {
    var i := 0;
    while i < |polls|
      invariant 0 <= i <= |polls|
      invariant PollsFinite(pid, polls[i..])
      invariant WatchResult(pid, polls[i..]) == WatchResult(pid, polls)
    {
      var rest := polls[i..];
      assert rest[0] == polls[i] && rest[1..] == polls[i + 1..];
      var step := PollOnce(pid, polls[i]);
      if step.Some? {
        return step.value;
      }
      i := i + 1;
    }
    return StillWaiting;
  }

  /** Poll `p` reports `b` as the binder, and `b` is the watched pid or
      one of its descendants as listed during that poll. */
  ghost predicate BindsFamily(pid: string, p: Poll, b: string)
  {
    && PortBinder(p.lsof) == Ok(b) && b != ""
    && FiniteTree(p.pgrep, pid)
    && Family(p.pgrep, pid).Ok?
    && b in Family(p.pgrep, pid).value + [pid]
  }

  lemma PollsFiniteTail(pid: string, polls: seq<Poll>)
    requires polls != [] && PollsFinite(pid, polls)
    ensures PollsFinite(pid, polls[1..])
  {
    forall k | 0 <= k < |polls[1..]|
      ensures PortBinder(polls[1..][k].lsof) != Ok("") ==> FiniteTree(polls[1..][k].pgrep, pid)
    {
      assert polls[1..][k] == polls[k + 1];
    }
  }

  /** A reported binder is the watched pid or one of its descendants, as
      listed by the poll that reported it. */
  lemma {:induction false} WatchBinderInFamily(pid: string, polls: seq<Poll>)
    requires PollsFinite(pid, polls)
    requires WatchResult(pid, polls).Bound?
    ensures exists k :: 0 <= k < |polls| && BindsFamily(pid, polls[k], WatchResult(pid, polls).binder)
  {
    var b := WatchResult(pid, polls).binder;
    if PollStep(pid, polls[0]).Some? {
      assert BindsFamily(pid, polls[0], b);
    } else {
      PollsFiniteTail(pid, polls);
      WatchBinderInFamily(pid, polls[1..]);
      var k :| 0 <= k < |polls[1..]| && BindsFamily(pid, polls[1..][k], b);
      assert polls[1..][k] == polls[k + 1];
    }
  }

  /** A binder inside the family ends the watch at that poll, with that
      binder. */
  lemma WatchBinds(pid: string, p: Poll, polls: seq<Poll>, b: string)
    requires PollsFinite(pid, polls) && BindsFamily(pid, p, b)
    ensures PollsFinite(pid, [p] + polls)
    ensures WatchResult(pid, [p] + polls) == Bound(b)
  {
    PollsFiniteCons(pid, p, polls);
    assert ([p] + polls)[0] == p;
  }

  /** An unbound port, or a binder outside the family, makes the watcher
      poll again rather than fail. */
  lemma WatchRetries(pid: string, p: Poll, polls: seq<Poll>)
    requires PollsFinite(pid, polls)
    requires PortBinder(p.lsof) == Ok("") ||
      (PortBinder(p.lsof).Ok? && FiniteTree(p.pgrep, pid) && Family(p.pgrep, pid).Ok? &&
       PortBinder(p.lsof).value !in Family(p.pgrep, pid).value + [pid])
    ensures PollsFinite(pid, [p] + polls)
    ensures WatchResult(pid, [p] + polls) == WatchResult(pid, polls)
  {
    PollsFiniteCons(pid, p, polls);
    assert ([p] + polls)[0] == p;
    assert ([p] + polls)[1..] == polls;
  }

  lemma PollsFiniteCons(pid: string, p: Poll, polls: seq<Poll>)
    requires PortBinder(p.lsof) != Ok("") ==> FiniteTree(p.pgrep, pid)
    requires PollsFinite(pid, polls)
    ensures PollsFinite(pid, [p] + polls)
  {
    forall k | 0 <= k < |[p] + polls|
      ensures PortBinder(([p] + polls)[k].lsof) != Ok("") ==> FiniteTree(([p] + polls)[k].pgrep, pid)
    {
      if k > 0 {
        assert ([p] + polls)[k] == polls[k - 1];
      }
    }
  }

  /** A failing lsof, or a failing listing, ends the watch with that error. */
  lemma WatchAborts(pid: string, p: Poll, polls: seq<Poll>)
    requires PortBinder(p.lsof) != Ok("") ==> FiniteTree(p.pgrep, pid)
    requires PollsFinite(pid, polls)
    ensures p.lsof.Failed? && ExitStatus(p.lsof.err) != 1 ==>
      WatchResult(pid, [p] + polls) == Aborted(p.lsof.err.msg)
    ensures PortBinder(p.lsof).Ok? && PortBinder(p.lsof) != Ok("") && Family(p.pgrep, pid).Err? ==>
      WatchResult(pid, [p] + polls) == Aborted(Family(p.pgrep, pid).msg)
  {
    PollsFiniteCons(pid, p, polls);
    assert ([p] + polls)[0] == p;
  }
}
