/**
  Two helpers of the supervisor: reading the `--prefix name[:colour]`
  argument, and waiting for the container's init process to have a pid.
 */
module Utils {
  import opened Wrappers
  import opened Text

  /** An output colour. The colour table itself belongs to the stream
      package; `MapColor(name)` stands for whatever it gives for `name`. */
  datatype Color = NoColor | MapColor(name: string)

  /** The prefix is the text before the first ':'; the colour comes from the
      text after the last ':'; anything between is dropped. */
  function ParsePrefixArg(prefix: string): (r: (string, Color))
    ensures ':' !in prefix ==> r == (prefix, NoColor)
    ensures ':' in prefix ==> r.0 == prefix[..IndexOf(prefix, ':')] && r.1 == MapColor(prefix[AfterLast(prefix, ':')..])
  {
    var comps := Split(prefix, ':');
    if |comps| == 1 then (comps[0], NoColor)
    else
      assert comps[0] == prefix[..IndexOf(prefix, ':')] by { SplitHead(prefix, ':'); }
      assert comps[|comps| - 1] == prefix[AfterLast(prefix, ':')..] by { SplitLast(prefix, ':'); }
      (comps[0], MapColor(comps[|comps| - 1]))
  }

  /** The last piece of a split is the text after the last separator. */
  lemma {:induction false} SplitLast(s: string, c: char)
    ensures Split(s, c)[|Split(s, c)| - 1] == s[AfterLast(s, c)..]
    decreases |s|
  {
    var i := IndexOf(s, c);
    if i < |s| {
      var rest := s[i + 1..];
      SplitLast(rest, c);
      AfterLastShift(s, i, c);
    } else {
      AfterLastNone(s, c);
    }
  }

  lemma {:induction false} AfterLastNone(s: string, c: char)
    requires c !in s
    ensures AfterLast(s, c) == 0
    decreases |s|
  {
    if |s| > 0 {
      assert s[|s| - 1] in s;
      AfterLastNone(s[..|s| - 1], c);
    }
  }

  /** Cutting a prefix that ends with the separator shifts the position
      after the last separator. */
  lemma AfterLastShift(s: string, i: nat, c: char)
    requires i < |s| && s[i] == c
    ensures s[AfterLast(s, c)..] == s[i + 1..][AfterLast(s[i + 1..], c)..]
  {
    var rest := s[i + 1..];
    var a := AfterLast(rest, c);
    AfterLastIn(s, i + 1, c);
  }

  /** After the first `n` characters, the last separator is found again in
      the rest, unless the rest has none. */
  lemma {:induction false} AfterLastIn(s: string, n: nat, c: char)
    requires 0 < n <= |s| && s[n - 1] == c
    ensures AfterLast(s, c) == n + AfterLast(s[n..], c)
    decreases |s|
  {
    if |s| > n {
      if s[|s| - 1] != c {
        assert s[..|s| - 1][n..] == s[n..][..|s[n..]| - 1];
        AfterLastIn(s[..|s| - 1], n, c);
      }
    } else {
      assert s[n..] == [];
    }
  }

  /** The pieces in between are dropped: `name:x:colour` takes its colour
      from the last piece. */
  lemma PrefixMiddleDropped(name: string, mid: string, colour: string)
    requires ':' !in name && ':' !in colour
    ensures ParsePrefixArg(name + ":" + mid + ":" + colour) == (name, MapColor(colour))
  {
    var s := name + ":" + mid + ":" + colour;
    assert s == name + [':'] + (mid + ":" + colour);
    IndexAfterPiece(name, ':', mid + ":" + colour);
    assert s[..|name|] == name;
    var n := |name| + 1 + |mid| + 1;
    assert s[n - 1] == ':';
    AfterLastIn(s, n, ':');
    assert s[n..] == colour;
    AfterLastNone(colour, ':');
  }

  // ---------------------------------------------------------------------
  // Decimal formatting of the pid.

  function DigitChar(d: nat): char
    requires d < 10
  {
    ('0' as int + d) as char
  }

  /** `fmt.Sprintf("%d", n)` for a non-negative `n`. */
  function Decimal(n: nat): (s: string)
    ensures |s| >= 1
    ensures forall k :: 0 <= k < |s| ==> '0' <= s[k] <= '9'
    ensures s[0] == '0' ==> n == 0
  {
    if n < 10 then [DigitChar(n)] else Decimal(n / 10) + [DigitChar(n % 10)]
  }

  /** `fmt.Sprintf("%d", n)` for any `n`. */
  function FormatInt(n: int): string
  {
    if n < 0 then "-" + Decimal(-n) else Decimal(n)
  }

  /** The value of a string of decimal digits. */
  function DecimalValue(s: string): nat
    requires forall k :: 0 <= k < |s| ==> '0' <= s[k] <= '9'
  {
    if s == [] then 0 else 10 * DecimalValue(s[..|s| - 1]) + (s[|s| - 1] as int - '0' as int)
  }

  /** The formatted pid reads back as the pid. */
  lemma {:induction false} DecimalRoundTrip(n: nat)
    ensures DecimalValue(Decimal(n)) == n
  {
    if n >= 10 {
      DecimalRoundTrip(n / 10);
      var s := Decimal(n);
      assert s[..|s| - 1] == Decimal(n / 10);
    }
  }

  /** Only 0 is written "0", and no other value is written with a leading
      zero or a sign. */
  lemma FormatIntZero(n: int)
    ensures FormatInt(n) == "0" <==> n == 0
  {
    if n < 0 {
      assert FormatInt(n)[0] == '-';
    }
  }

  // ---------------------------------------------------------------------
  // Waiting for the init pid.

  /** One read of the container state. */
  datatype StateRead = NotExists | StateError(msg: string) | State(initProcessPid: int)

  /** How waiting ends: the pid, an error, or still waiting when the reads
      run out. */
  datatype PidOutcome = Pid(pid: string) | Failed(msg: string) | Waiting

  /** What one read decides: `None` to wait and read again. */
  function PidStep(read: StateRead): (r: Option<PidOutcome>)
    ensures r == None <==> read == NotExists || read == State(0)
    ensures r.Some? && r.value.Pid? ==> read.State? && read.initProcessPid != 0 && r.value.pid == FormatInt(read.initProcessPid)
    ensures read.StateError? ==> r == Some(Failed(read.msg))
  {
    match read
    case NotExists => None
    case StateError(msg) => Some(Failed(msg))
    case State(p) => if p != 0 then Some(Pid(FormatInt(p))) else None
  }

  /** What `initProcessPid` returns after the given state reads. */
  function PidResult(states: seq<StateRead>): PidOutcome
  {
    if states == [] then Waiting
    else match PidStep(states[0])
      case Some(o) => o
      case None => PidResult(states[1..])
  }

  /** The retry loop: waits while the state is missing or has no pid yet. */
  method InitProcessPid(states: seq<StateRead>) returns (o: PidOutcome)
    ensures o == PidResult(states)
  {
    var i := 0;
    while i < |states|
      invariant 0 <= i <= |states|
      invariant PidResult(states[i..]) == PidResult(states)
    {
      assert states[i..][0] == states[i] && states[i..][1..] == states[i + 1..];
      var read := states[i];
      match read {
        case NotExists =>
        case StateError(msg) =>
          return Failed(msg);
        case State(p) =>
          if p != 0 {
            return Pid(FormatInt(p));
          }
      }
      i := i + 1;
    }
    return Waiting;
  }

  /** The pid returned is never "0", and it is the first nonzero pid read,
      all earlier reads being retries. */
  lemma {:induction false} PidNeverZero(states: seq<StateRead>)
    requires PidResult(states).Pid?
    ensures PidResult(states).pid != "0"
    ensures exists k :: (0 <= k < |states| && states[k].State? && states[k].initProcessPid != 0 &&
      PidResult(states).pid == FormatInt(states[k].initProcessPid) &&
      forall j :: 0 <= j < k ==> states[j] == NotExists || states[j] == State(0))
  {
    if PidStep(states[0]).Some? {
      FormatIntZero(states[0].initProcessPid);
      assert states[0].State?;
    } else {
      PidNeverZero(states[1..]);
      var k :| 0 <= k < |states[1..]| && states[1..][k].State? && states[1..][k].initProcessPid != 0 &&
        PidResult(states[1..]).pid == FormatInt(states[1..][k].initProcessPid) &&
        forall j :: 0 <= j < k ==> states[1..][j] == NotExists || states[1..][j] == State(0);
      assert states[1..][k] == states[k + 1];
      forall j | 0 <= j < k + 1
        ensures states[j] == NotExists || states[j] == State(0)
      {
        if j > 0 {
          assert states[1..][j - 1] == states[j];
        }
      }
    }
  }

  /** A state error other than a missing state ends the wait with it. */
  lemma StateErrorStops(msg: string, states: seq<StateRead>)
    ensures PidResult([StateError(msg)] + states) == Failed(msg)
  {
  }
}
