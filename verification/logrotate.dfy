/**
  Log rotation for a log file written by the container: every rotation
  delay the live log is gzipped into `<log>_<yyyyMMddHHmmss>.gz` and emptied,
  and the archives beside it are trimmed to the retain count.

  The file system is a map from path to content (`Disk`); the clock, the
  directory listing and the failures of outside calls are parameters.
 */
module LogRotate {
  import opened Wrappers
  import opened Text
  import opened Paths
  import Utils

  /** One hour, in nanoseconds (the unit of Go's `time.Duration`). */
  const Hour: nat := 3_600_000_000_000
  const DefaultRotationDelay: nat := 6 * Hour
  const DefaultArchiveRetainCount: nat := 5

  /** A local wall-clock reading. */
  datatype Clock = Clock(year: nat, month: nat, day: nat, hour: nat, minute: nat, second: nat)

  predicate ValidClock(t: Clock)
  {
    t.year < 10000 && 1 <= t.month <= 12 && 1 <= t.day <= 31 && t.hour < 24 && t.minute < 60 && t.second < 60
  }

  function Pow10(w: nat): (r: nat)
    ensures r >= 1
  {
    if w == 0 then 1 else 10 * Pow10(w - 1)
  }

  /** `n` written with exactly `w` digits, zero-padded on the left. */
  function Digits(n: nat, w: nat): (s: string)
    ensures |s| == w
    ensures forall k :: 0 <= k < w ==> '0' <= s[k] <= '9'
  {
    if w == 0 then "" else Digits(n / 10, w - 1) + [Utils.DigitChar(n % 10)]
  }

  lemma {:induction false} DigitsValue(n: nat, w: nat)
    requires n < Pow10(w)
    ensures Utils.DecimalValue(Digits(n, w)) == n
  {
    if w > 0 {
      DigitsValue(n / 10, w - 1);
      var s := Digits(n, w);
      assert s[..w - 1] == Digits(n / 10, w - 1);
    }
  }

  /** The time as Go formats it with the layout "20060102150405". */
  function Stamp(t: Clock): (s: string)
    requires ValidClock(t)
    ensures |s| == 14
    ensures forall k :: 0 <= k < 14 ==> '0' <= s[k] <= '9'
  {
    StampDigits(t, 6);
    StampPrefix(t, 6)
  }

  /** Field `i` of the time, counting the year as field 0. */
  function Field(t: Clock, i: nat): nat
  {
    if i == 0 then t.year else if i == 1 then t.month else if i == 2 then t.day
    else if i == 3 then t.hour else if i == 4 then t.minute else t.second
  }

  /** How many digits field `i` takes in the stamp. */
  function Width(i: nat): nat
  {
    if i == 0 then 4 else 2
  }

  /** The first `n` fields of the stamp. */
  function StampPrefix(t: Clock, n: nat): (s: string)
    requires n <= 6
    ensures |s| == if n == 0 then 0 else 2 * n + 2
  {
    if n == 0 then "" else StampPrefix(t, n - 1) + Digits(Field(t, n - 1), Width(n - 1))
  }

  /** A stamp is made of decimal digits only. */
  lemma {:induction false} StampDigits(t: Clock, n: nat)
    requires n <= 6
    ensures forall k :: 0 <= k < |StampPrefix(t, n)| ==> '0' <= StampPrefix(t, n)[k] <= '9'
  {
    if n > 0 {
      StampDigits(t, n - 1);
      var p, d := StampPrefix(t, n - 1), Digits(Field(t, n - 1), Width(n - 1));
      assert forall k :: 0 <= k < |p| + |d| ==> (p + d)[k] == if k < |p| then p[k] else d[k - |p|];
    }
  }

  /** The stamp field by field. */
  lemma StampShape(t: Clock)
    requires ValidClock(t)
    ensures Stamp(t) == Digits(t.year, 4) + Digits(t.month, 2) + Digits(t.day, 2) +
                        Digits(t.hour, 2) + Digits(t.minute, 2) + Digits(t.second, 2)
  {
    assert StampPrefix(t, 1) == Digits(t.year, 4);
    assert StampPrefix(t, 2) == StampPrefix(t, 1) + Digits(t.month, 2);
    assert StampPrefix(t, 3) == StampPrefix(t, 2) + Digits(t.day, 2);
    assert StampPrefix(t, 4) == StampPrefix(t, 3) + Digits(t.hour, 2);
    assert StampPrefix(t, 5) == StampPrefix(t, 4) + Digits(t.minute, 2);
  }

  /** The stamp reads back as the time it was made from. */
  lemma StampReadsBack(t: Clock)
    requires ValidClock(t)
    ensures var s := Stamp(t);
      && Utils.DecimalValue(s[..4]) == t.year
      && Utils.DecimalValue(s[4..6]) == t.month
      && Utils.DecimalValue(s[6..8]) == t.day
      && Utils.DecimalValue(s[8..10]) == t.hour
      && Utils.DecimalValue(s[10..12]) == t.minute
      && Utils.DecimalValue(s[12..14]) == t.second
  {
    var y, mo, d := Digits(t.year, 4), Digits(t.month, 2), Digits(t.day, 2);
    var h, mi, se := Digits(t.hour, 2), Digits(t.minute, 2), Digits(t.second, 2);
    var p1 := y + mo;
    var p2 := p1 + d;
    var p3 := p2 + h;
    var p4 := p3 + mi;
    var s := p4 + se;
    StampShape(t);
    assert Pow10(2) == 100 && Pow10(4) == 10000;
    Last(p4, se);
    Front(p4, se, 10, 12);
    Last(p3, mi);
    Front(p4, se, 8, 10);
    Front(p3, mi, 8, 10);
    Last(p2, h);
    Front(p4, se, 6, 8);
    Front(p3, mi, 6, 8);
    Front(p2, h, 6, 8);
    Last(p1, d);
    Front(p4, se, 4, 6);
    Front(p3, mi, 4, 6);
    Front(p2, h, 4, 6);
    Front(p1, d, 4, 6);
    Last(y, mo);
    Front(p4, se, 0, 4);
    Front(p3, mi, 0, 4);
    Front(p2, h, 0, 4);
    Front(p1, d, 0, 4);
    Front(y, mo, 0, 4);
    DigitsValue(t.year, 4);
    DigitsValue(t.month, 2);
    DigitsValue(t.day, 2);
    DigitsValue(t.hour, 2);
    DigitsValue(t.minute, 2);
    DigitsValue(t.second, 2);
  }

  lemma Last(a: string, b: string)
    ensures (a + b)[|a|..|a| + |b|] == b
  {
  }

  lemma Front(a: string, b: string, i: nat, j: nat)
    requires i <= j <= |a|
    ensures (a + b)[i..j] == a[i..j]
  {
  }

  /** `t1` is an earlier reading than `t2`, field by field. */
  predicate ClockBefore(t1: Clock, t2: Clock)
  {
    t1.year < t2.year || (t1.year == t2.year &&
    (t1.month < t2.month || (t1.month == t2.month &&
    (t1.day < t2.day || (t1.day == t2.day &&
    (t1.hour < t2.hour || (t1.hour == t2.hour &&
    (t1.minute < t2.minute || (t1.minute == t2.minute && t1.second < t2.second)))))))))
  }

  lemma DigitCharOrder(d: nat, e: nat)
    requires d < e < 10
    ensures Utils.DigitChar(d) < Utils.DigitChar(e)
  {
  }

  /** Zero-padded numbers of one width sort as the numbers do. */
  lemma {:induction false} DigitsOrder(n: nat, m: nat, w: nat)
    requires n < m < Pow10(w)
    ensures Less(Digits(n, w), Digits(m, w))
  {
    var p, q := n / 10, m / 10;
    assert p <= q;
    assert q < Pow10(w - 1);
    var c, d := Utils.DigitChar(n % 10), Utils.DigitChar(m % 10);
    if p < q {
      DigitsOrder(p, q, w - 1);
      LessExtend(Digits(p, w - 1), Digits(q, w - 1), [c], [d]);
    } else {
      DigitCharOrder(n % 10, m % 10);
      assert Less([c], [d]);
      LessCommonPrefix(Digits(p, w - 1), [c], [d]);
    }
  }

  /** Times that agree on their first `n` fields have the same first `n`
      stamp fields. */
  lemma {:induction false} StampPrefixEqual(t1: Clock, t2: Clock, n: nat)
    requires n <= 6
    requires forall i :: 0 <= i < n ==> Field(t1, i) == Field(t2, i)
    ensures StampPrefix(t1, n) == StampPrefix(t2, n)
  {
    if n > 0 {
      StampPrefixEqual(t1, t2, n - 1);
    }
  }

  /** Once a stamp prefix is smaller, the whole stamp is. */
  lemma {:induction false} StampPrefixLess(t1: Clock, t2: Clock, n: nat)
    requires 1 <= n <= 6 && ValidClock(t1) && ValidClock(t2)
    requires Less(StampPrefix(t1, n), StampPrefix(t2, n))
    ensures Less(Stamp(t1), Stamp(t2))
    decreases 6 - n
  {
    if n < 6 {
      LessExtend(StampPrefix(t1, n), StampPrefix(t2, n), Digits(Field(t1, n), 2), Digits(Field(t2, n), 2));
      StampPrefixLess(t1, t2, n + 1);
    }
  }

  /** Stamps sort chronologically. */
  lemma StampOrder(t1: Clock, t2: Clock)
    requires ValidClock(t1) && ValidClock(t2) && ClockBefore(t1, t2)
    ensures Less(Stamp(t1), Stamp(t2))
  {
    var i: nat :=
      if t1.year != t2.year then 0 else if t1.month != t2.month then 1
      else if t1.day != t2.day then 2 else if t1.hour != t2.hour then 3
      else if t1.minute != t2.minute then 4 else 5;
    assert forall j :: 0 <= j < i ==> Field(t1, j) == Field(t2, j);
    assert Field(t1, i) < Field(t2, i) < Pow10(Width(i)) by {
      assert Pow10(2) == 100 && Pow10(4) == 10000;
    }
    StampPrefixEqual(t1, t2, i);
    DigitsOrder(Field(t1, i), Field(t2, i), Width(i));
    LessCommonPrefix(StampPrefix(t1, i), Digits(Field(t1, i), Width(i)), Digits(Field(t2, i), Width(i)));
    StampPrefixLess(t1, t2, i + 1);
  }

  /** The path of the archive made at time `t`. */
  function ArchiveName(logFile: string, t: Clock): (a: string)
    requires ValidClock(t)
    ensures |a| == |logFile| + 18
    ensures HasPrefix(a, logFile + "_") && HasSuffix(a, ".gz")
  {
    var a := logFile + "_" + Stamp(t) + ".gz";
    assert a[..|logFile| + 1] == logFile + "_";
    assert a[|a| - 3..] == ".gz";
    a
  }

  /** Archives sort in the order they were made. */
  lemma ArchiveOrder(logFile: string, t1: Clock, t2: Clock)
    requires ValidClock(t1) && ValidClock(t2) && ClockBefore(t1, t2)
    ensures Less(ArchiveName(logFile, t1), ArchiveName(logFile, t2))
  {
    var s1, s2 := Stamp(t1), Stamp(t2);
    StampOrder(t1, t2);
    LessExtend(s1, s2, ".gz", ".gz");
    LessCommonPrefix(logFile + "_", s1 + ".gz", s2 + ".gz");
    assert (logFile + "_") + (s1 + ".gz") == ArchiveName(logFile, t1);
    assert (logFile + "_") + (s2 + ".gz") == ArchiveName(logFile, t2);
  }

  /** A directory entry is an archive of the log: it starts with the log's
      file name and its extension is exactly ".gz". */
  predicate IsRelated(base: string, name: string)
  {
    HasPrefix(name, base) && Ext(name) == ".gz"
  }

  /** The related entries of a listing, as paths in the working directory,
      in listing order. */
  function RelatedPaths(dir: string, base: string, names: seq<string>): seq<string>
  {
    if names == [] then []
    else
      var n := names[|names| - 1];
      RelatedPaths(dir, base, names[..|names| - 1]) + if IsRelated(base, n) then [JoinPath(dir, n)] else []
  }

  /** A path is kept exactly when it is the join of a related entry. */
  lemma {:induction false} RelatedPathsMeaning(dir: string, base: string, names: seq<string>)
    ensures forall x :: x in RelatedPaths(dir, base, names) <==> Listed(dir, base, names, x)
    ensures |RelatedPaths(dir, base, names)| <= |names|
  {
    if names != [] {
      var init := names[..|names| - 1];
      RelatedPathsMeaning(dir, base, init);
      forall x
        ensures x in RelatedPaths(dir, base, names) <==> Listed(dir, base, names, x)
      {
        ListedSnoc(dir, base, names, x);
      }
    }
  }

  /** `x` is the join of some related entry of `names`. */
  ghost predicate Listed(dir: string, base: string, names: seq<string>, x: string)
  {
    exists k :: 0 <= k < |names| && IsRelated(base, names[k]) && x == JoinPath(dir, names[k])
  }

  /** Being listed among `names` is being listed among all but the last,
      or being the join of the last when it is related. */
  lemma ListedSnoc(dir: string, base: string, names: seq<string>, x: string)
    requires names != []
    ensures var last := names[|names| - 1];
      Listed(dir, base, names, x) <==>
        Listed(dir, base, names[..|names| - 1], x) || (IsRelated(base, last) && x == JoinPath(dir, last))
  {
    var m := |names| - 1;
    var init := names[..m];
    if k :| 0 <= k < |names| && IsRelated(base, names[k]) && x == JoinPath(dir, names[k]) {
      if k < m {
        assert init[k] == names[k];
      }
    }
    if k :| 0 <= k < m && IsRelated(base, init[k]) && x == JoinPath(dir, init[k]) {
      assert names[k] == init[k];
    }
  }

  /** Joining to one directory keeps the order of the names. */
  lemma JoinPathOrder(dir: string, a: string, b: string)
    requires Less(a, b)
    ensures Less(JoinPath(dir, a), JoinPath(dir, b))
  {
    if dir == "" || dir == "." {
    } else if dir[|dir| - 1] == '/' {
      LessCommonPrefix(dir, a, b);
    } else {
      LessCommonPrefix(dir + "/", a, b);
    }
  }

  /** A listing in name order, as `ioutil.ReadDir` returns it, gives the
      related archives in name order. */
  lemma {:induction false} RelatedSorted(dir: string, base: string, names: seq<string>)
    requires Sorted(names)
    ensures Sorted(RelatedPaths(dir, base, names))
  {
    if names != [] {
      var m := |names| - 1;
      var init, last := names[..m], names[m];
      var front := RelatedPaths(dir, base, init);
      RelatedSorted(dir, base, init);
      if IsRelated(base, last) {
        RelatedPathsMeaning(dir, base, init);
        forall i | 0 <= i < |front|
          ensures Less(front[i], JoinPath(dir, last))
        {
          assert Listed(dir, base, init, front[i]);
          var k :| 0 <= k < |init| && IsRelated(base, init[k]) && front[i] == JoinPath(dir, init[k]);
          assert init[k] == names[k];
          JoinPathOrder(dir, init[k], last);
        }
      }
    }
  }

  lemma {:induction false} AfterLastAppend(p: string, x: string)
    requires '/' !in x
    ensures AfterLast(p + x, '/') == AfterLast(p, '/')
    decreases |x|
  {
    if x != [] {
      var y := x[..|x| - 1];
      assert (p + x)[..|p + x| - 1] == p + y;
      assert x[|x| - 1] in x;
      AfterLastAppend(p, y);
    } else {
      assert p + x == p;
    }
  }

  /** Extending the last element of a tidy path keeps the path tidy and its
      directory, and extends its base. */
  lemma AppendToLast(p: string, x: string)
    requires Tidy(p) && x != "" && '/' !in x
    ensures Tidy(p + x)
    ensures Dir(p + x) == Dir(p) && Base(p + x) == Base(p) + x
  {
    var q := p + x;
    AfterLastAppend(p, x);
    var i := AfterLast(p, '/');
    assert q[|q| - 1] == x[|x| - 1];
    assert q[|q| - 1] in x;
    assert StripSlashes(p) == p;
    assert StripSlashes(q) == q;
    assert q[i..] == p[i..] + x;
    assert q[..i] == p[..i];
    if |p| >= 2 {
      assert q[..2] == p[..2];
    } else {
      assert q[1] == x[0];
    }
  }

  /** Every archive the rotator makes is found again when it lists its
      working directory: its entry passes the filter, and joined to the
      working directory it is the archive's path. */
  lemma ArchiveIsRelated(logFile: string, t: Clock)
    requires ValidClock(t) && Tidy(logFile)
    ensures var a := ArchiveName(logFile, t);
      IsRelated(Base(logFile), Base(a)) && JoinPath(Dir(logFile), Base(a)) == a
  {
    var st := Stamp(t);
    assert '/' !in st by {
      forall k | 0 <= k < |st|
        ensures st[k] != '/'
      {
      }
    }
    StampedIsRelated(logFile, st);
  }

  /** The same for any slash-free stamp. */
  lemma StampedIsRelated(logFile: string, st: string)
    requires Tidy(logFile) && '/' !in st
    ensures var a := logFile + "_" + st + ".gz";
      IsRelated(Base(logFile), Base(a)) && JoinPath(Dir(logFile), Base(a)) == a
  {
    var x := "_" + st + ".gz";
    assert logFile + "_" + st + ".gz" == logFile + x;
    SuffixHasNoSlash(st);
    AppendToLast(logFile, x);
    StampedName(Base(logFile), st);
    JoinDirBase(logFile + x);
  }

  lemma SuffixHasNoSlash(st: string)
    requires '/' !in st
    ensures '/' !in "_" + st + ".gz"
  {
    var x := "_" + st + ".gz";
    forall k | 0 <= k < |x|
      ensures x[k] != '/'
    {
      if 1 <= k < |x| - 3 {
        assert x[k] == st[k - 1];
      }
    }
  }

  /** A stamped name passes the filter for its base. */
  lemma StampedName(b: string, st: string)
    ensures IsRelated(b, b + ("_" + st + ".gz"))
  {
    var x := "_" + st + ".gz";
    assert (b + x)[..|b|] == b;
    assert b + x == (b + "_" + st) + ".gz";
    ExtGz(b + "_" + st);
  }

  /** The entries removed by the cleanup: those at index `lo` or later. */
  function Doomed(archives: seq<string>, lo: int): set<string>
  {
    set j | 0 <= j < |archives| && lo <= j :: archives[j]
  }

  /** Ticks only, each with a valid clock. */
  predicate TicksBefore(events: seq<Event>, m: nat)
  {
    m <= |events| && forall k :: 0 <= k < m ==> events[k].Tick? && ValidClock(events[k].time)
  }

  predicate NoDuplicates(s: seq<string>)
  {
    forall i, j :: 0 <= i < j < |s| ==> s[i] != s[j]
  }

  /** Exactly the first `retain` archives survive the cleanup. */
  lemma CleanupKeepsFirst(archives: seq<string>, retain: nat)
    requires NoDuplicates(archives)
    ensures forall j :: 0 <= j < |archives| ==> (archives[j] in Doomed(archives, retain) <==> j >= retain)
    ensures (set j | 0 <= j < |archives| && archives[j] !in Doomed(archives, retain) :: archives[j]) ==
      set j | 0 <= j < |archives| && j < retain :: archives[j]
  {
    var kept := set j | 0 <= j < |archives| && archives[j] !in Doomed(archives, retain) :: archives[j];
    var firsts := set j | 0 <= j < |archives| && j < retain :: archives[j];
    assert kept <= firsts;
  }

  /** What a file holds: plain text, or a gzip stream of the given text. */
  datatype Content = Plain(text: string) | Gzipped(text: string)

  /** The host file system, keyed by the path as spelled: two spellings
      of one file, such as "./a.log" and "a.log", are two entries. */
  class Disk {
    var files: map<string, Content>

    constructor (files: map<string, Content>)
      ensures this.files == files
    {
      this.files := files;
    }
  }

  /** An interrupted write into the archive: its error and how many
      characters of the log reached the file before it. */
  datatype CopyFault = CopyFault(msg: string, copied: nat)

  /** The failures of the outside calls made while rotating. */
  datatype GzipFaults = GzipFaults(create: Option<string>, copy: Option<CopyFault>, flush: Option<CopyFault>, truncate: Option<string>)

  /** The disk after a rotation at time `t` with faults `f`, as
      `gzipLogFile` leaves it. */
  function GzipFiles(files: map<string, Content>, logFile: string, t: Clock, f: GzipFaults): map<string, Content>
    requires ValidClock(t)
  {
    var a := ArchiveName(logFile, t);
    if f.create.Some? then files
    else if logFile !in files then files[a := Gzipped("")]
    else
      var log := files[logFile].text;
      if f.copy.Some? then files[a := Gzipped(log[..Min(f.copy.value.copied, |log|)])]
      else if f.flush.Some? then files[a := Gzipped(log[..Min(f.flush.value.copied, |log|)])]
      else if f.truncate.Some? then files[a := Gzipped(log)]
      else files[a := Gzipped(log)][logFile := Plain("")]
  }

  function Min(x: nat, y: nat): nat
  {
    if x < y then x else y
  }

  /** Only the archive and the live log change; the archive holds what
      reached it of the log before a failing copy or flush, the whole log
      otherwise, and the log is emptied only once its whole text is in the
      flushed archive. */
  lemma GzipFilesEffect(files: map<string, Content>, logFile: string, t: Clock, f: GzipFaults)
    requires ValidClock(t)
    ensures var r, a := GzipFiles(files, logFile, t, f), ArchiveName(logFile, t);
      && (f.create.Some? ==> r == files)
      && (f.create.None? ==> a in r && r[a].Gzipped?)
      && (forall p :: p != a && p != logFile ==> (p in r <==> p in files) && (p in r ==> r[p] == files[p]))
      && (logFile in r <==> logFile in files)
      && (logFile in files ==> r[logFile] == (if f.create.None? && f.copy.None? && f.flush.None? && f.truncate.None? then Plain("") else files[logFile]))
      && (f.create.None? && logFile !in files ==> r[a] == Gzipped(""))
      && (f.create.None? && logFile in files ==> HasPrefix(files[logFile].text, r[a].text))
      && (f.create.None? && logFile in files && f.copy.None? && f.flush.None? ==> r[a].text == files[logFile].text)
      && (f.create.None? && logFile in files && f.copy.Some? ==>
            |r[a].text| == Min(f.copy.value.copied, |files[logFile].text|))
      && (f.create.None? && logFile in files && f.copy.None? && f.flush.Some? ==>
            |r[a].text| == Min(f.flush.value.copied, |files[logFile].text|))
  {
  }

  /** The disk after the cleanup of a listing: the related archives past
      the first `retain` go, except those whose removal fails. */
  function CleanupFiles(files: map<string, Content>, dir: string, base: string, retain: nat,
                        listing: Result<seq<string>>, failing: set<string>): map<string, Content>
  {
    if listing.Err? then files
    else files - (Doomed(RelatedPaths(dir, base, listing.value), retain) - failing)
  }

  /** The cleanup only removes, and it removes exactly the doomed entries
      whose removal does not fail. */
  lemma CleanupFilesEffect(files: map<string, Content>, dir: string, base: string, retain: nat,
                           listing: Result<seq<string>>, failing: set<string>)
    ensures var r := CleanupFiles(files, dir, base, retain, listing, failing);
      && (listing.Err? ==> r == files)
      && (forall p :: p in r ==> p in files && r[p] == files[p])
      && (listing.Ok? ==> forall p :: p in files ==>
            (p !in r <==> p in Doomed(RelatedPaths(dir, base, listing.value), retain) && p !in failing))
  {
  }

  /** The disk after the rotations and cleanups of the first `m` events,
      all ticks, in turn. */
  function Rotations(files: map<string, Content>, logFile: string, dir: string, retain: nat, events: seq<Event>, m: nat): map<string, Content>
    requires TicksBefore(events, m)
  {
    if m == 0 then files
    else
      var e := events[m - 1];
      var before := Rotations(files, logFile, dir, retain, events, m - 1);
      CleanupFiles(GzipFiles(before, logFile, e.time, e.faults), dir, Base(logFile), retain, e.listing, e.failing)
  }

  /** `names` is the listing of `dir` on `files` as `ioutil.ReadDir` gives
      it: every entry's name, in name order. */
  ghost predicate ListsDir(files: map<string, Content>, dir: string, names: seq<string>)
  {
    && Sorted(names)
    && forall n :: n in names <==> (n != "" && '/' !in n && JoinPath(dir, n) in files)
  }

  /** Of a listing in name order, the cleanup keeps the lowest names: no
      survivor sorts after a removed archive, and `retain` survive when
      there are that many. */
  lemma CleanupKeepsLowest(dir: string, base: string, names: seq<string>, retain: nat)
    requires Sorted(names)
    ensures var r := RelatedPaths(dir, base, names);
      && (forall i, k :: 0 <= i < |r| && 0 <= k < |r| && Less(r[i], r[k]) && r[i] in Doomed(r, retain) ==>
            r[k] in Doomed(r, retain))
      && (forall j :: 0 <= j < |r| ==> (r[j] in Doomed(r, retain) <==> j >= retain))
  {
    var r := RelatedPaths(dir, base, names);
    RelatedSorted(dir, base, names);
    SortedDistinct(r);
    CleanupKeepsFirst(r, retain);
    forall i, k | 0 <= i < |r| && 0 <= k < |r| && Less(r[i], r[k])
      ensures i < k
    {
      SortedIndex(r, i, k);
    }
  }

  /** An archive of the log made beside the log is listed under its base
      name, and is among the related paths of the listing. */
  lemma ArchiveListed(files: map<string, Content>, logFile: string, t: Clock, names: seq<string>)
    requires ValidClock(t) && Tidy(logFile)
    requires ListsDir(files, Dir(logFile), names) && ArchiveName(logFile, t) in files
    ensures ArchiveName(logFile, t) in RelatedPaths(Dir(logFile), Base(logFile), names)
  {
    var a := ArchiveName(logFile, t);
    ArchiveIsRelated(logFile, t);
    var n := Base(a);
    assert n != "/" by {
      assert Ext("/") == "";
    }
    assert n in names;
    var k :| 0 <= k < |names| && names[k] == n;
    assert Listed(Dir(logFile), Base(logFile), names, a);
    RelatedPathsMeaning(Dir(logFile), Base(logFile), names);
  }

  /** As written, the cleanup keeps the lowest names, and archive names
      sort by their stamps: once `retain` archives older than the one just
      made lie beside the log, the cleanup of the same tick deletes the
      new archive (with the default of 5, the sixth archive and every one
      after it). */
  lemma FreshArchiveRemoved(files: map<string, Content>, logFile: string, t: Clock, f: GzipFaults,
                            older: seq<Clock>, names: seq<string>, retain: nat, failing: set<string>)
    requires ValidClock(t) && Tidy(logFile) && f.create.None?
    requires |older| >= retain
    requires forall k :: 0 <= k < |older| ==> ValidClock(older[k]) && ClockBefore(older[k], t)
    requires forall i, j :: 0 <= i < j < |older| ==> ClockBefore(older[i], older[j])
    requires forall k :: 0 <= k < |older| ==> ArchiveName(logFile, older[k]) in files
    requires ListsDir(GzipFiles(files, logFile, t, f), Dir(logFile), names)
    requires ArchiveName(logFile, t) !in failing
    ensures ArchiveName(logFile, t) in GzipFiles(files, logFile, t, f)
    ensures ArchiveName(logFile, t) !in
      CleanupFiles(GzipFiles(files, logFile, t, f), Dir(logFile), Base(logFile), retain, Ok(names), failing)
  {
    var dir, base := Dir(logFile), Base(logFile);
    var g := GzipFiles(files, logFile, t, f);
    var a := ArchiveName(logFile, t);
    var r := RelatedPaths(dir, base, names);
    GzipFilesEffect(files, logFile, t, f);
    ArchiveListed(g, logFile, t, names);
    var s := seq(|older|, k requires 0 <= k < |older| => ArchiveName(logFile, older[k]));
    forall k | 0 <= k < |s|
      ensures s[k] in r && Less(s[k], a)
    {
      ArchiveOrder(logFile, older[k], t);
      LessIrreflexive(a);
      ArchiveListed(g, logFile, older[k], names);
    }
    forall i, j | 0 <= i < j < |s|
      ensures Less(s[i], s[j])
    {
      ArchiveOrder(logFile, older[i], older[j]);
    }
    RelatedSorted(dir, base, names);
    var j :| 0 <= j < |r| && r[j] == a;
    SortedCountBelow(r, s, j);
    CleanupFilesEffect(g, dir, base, retain, Ok(names), failing);
  }

  /** The entries a cleanup that keeps the newest archives would remove:
      all but the last `retain` of a listing in name order. */
  function DoomedOldest(archives: seq<string>, retain: nat): set<string>
  {
    set j | 0 <= j < |archives| && j + retain < |archives| :: archives[j]
  }

  /** The disk after a cleanup that keeps the newest archives. */
  function CleanupNewestFiles(files: map<string, Content>, dir: string, base: string, retain: nat,
                              listing: Result<seq<string>>, failing: set<string>): map<string, Content>
  {
    if listing.Err? then files
    else files - (DoomedOldest(RelatedPaths(dir, base, listing.value), retain) - failing)
  }

  /** Keeping the newest: of a listing in name order, exactly the last
      `retain` related archives survive, so no removed archive sorts after
      a survivor. */
  lemma CleanupKeepsNewest(dir: string, base: string, names: seq<string>, retain: nat)
    requires Sorted(names)
    ensures var r := RelatedPaths(dir, base, names);
      && (forall j :: 0 <= j < |r| ==> (r[j] in DoomedOldest(r, retain) <==> j + retain < |r|))
      && (forall i, k :: 0 <= i < |r| && 0 <= k < |r| && Less(r[i], r[k]) && r[k] in DoomedOldest(r, retain) ==>
            r[i] in DoomedOldest(r, retain))
  {
    var r := RelatedPaths(dir, base, names);
    RelatedSorted(dir, base, names);
    SortedDistinct(r);
    forall j | 0 <= j < |r| && r[j] in DoomedOldest(r, retain)
      ensures j + retain < |r|
    {
      var i :| 0 <= i < |r| && i + retain < |r| && r[i] == r[j];
    }
    forall i, k | 0 <= i < |r| && 0 <= k < |r| && Less(r[i], r[k])
      ensures i < k
    {
      SortedIndex(r, i, k);
    }
  }

  /** With the newest kept, the archive just made survives its own
      cleanup whenever no related entry of the listing sorts after it:
      the situation of `FreshArchiveRemoved`, with older archives only. */
  lemma CorrectedKeepsFresh(files: map<string, Content>, logFile: string, t: Clock, f: GzipFaults,
                            names: seq<string>, retain: nat, failing: set<string>)
    requires ValidClock(t) && Tidy(logFile) && f.create.None? && retain > 0
    requires ListsDir(GzipFiles(files, logFile, t, f), Dir(logFile), names)
    requires forall x :: x in RelatedPaths(Dir(logFile), Base(logFile), names) ==> !Less(ArchiveName(logFile, t), x)
    ensures ArchiveName(logFile, t) in
      CleanupNewestFiles(GzipFiles(files, logFile, t, f), Dir(logFile), Base(logFile), retain, Ok(names), failing)
  {
    var dir, base := Dir(logFile), Base(logFile);
    var g := GzipFiles(files, logFile, t, f);
    var a := ArchiveName(logFile, t);
    var r := RelatedPaths(dir, base, names);
    GzipFilesEffect(files, logFile, t, f);
    ArchiveListed(g, logFile, t, names);
    var j :| 0 <= j < |r| && r[j] == a;
    RelatedSorted(dir, base, names);
    SortedBeforeLast(r, j);
    assert r[|r| - 1] in r;
    CleanupKeepsNewest(dir, base, names, retain);
  }

  lemma SortedBeforeLast(r: seq<string>, j: nat)
    requires Sorted(r) && j < |r|
    ensures j + 1 < |r| ==> Less(r[j], r[|r| - 1])
  {
  }

  /** A path that is not the log, not the archive of any tick and not a
      related entry of any tick's listing keeps its content through the
      rotations. */
  lemma {:induction false} RotationsLeaveOthers(files: map<string, Content>, logFile: string, dir: string, retain: nat,
                                                events: seq<Event>, m: nat, p: string)
    requires TicksBefore(events, m)
    requires p != logFile
    requires forall k :: 0 <= k < m ==> p != ArchiveName(logFile, events[k].time)
    requires forall k :: 0 <= k < m ==> events[k].listing.Ok? ==>
      p !in RelatedPaths(dir, Base(logFile), events[k].listing.value)
    ensures var r := Rotations(files, logFile, dir, retain, events, m);
      (p in r <==> p in files) && (p in r ==> r[p] == files[p])
  {
    if m > 0 {
      var e := events[m - 1];
      RotationsLeaveOthers(files, logFile, dir, retain, events, m - 1, p);
      var before := Rotations(files, logFile, dir, retain, events, m - 1);
      GzipFilesEffect(before, logFile, e.time, e.faults);
      CleanupFilesEffect(GzipFiles(before, logFile, e.time, e.faults), dir, Base(logFile), retain, e.listing, e.failing);
    }
  }

  /** A wake-up of the rotation loop: a tick of the ticker, with what the
      calls made for it find, or a call of `StopWatching`. */
  datatype Event =
    | Tick(time: Clock, faults: GzipFaults, listing: Result<seq<string>>, failing: set<string>)
    | Stop

  /** Index of the first `Stop`, or the length when there is none. */
  function FirstStop(events: seq<Event>): (n: nat)
    ensures n <= |events|
    ensures forall k :: 0 <= k < n ==> events[k].Tick?
    ensures n < |events| ==> events[n].Stop?
  {
    if events == [] || events[0].Stop? then 0 else 1 + FirstStop(events[1..])
  }

  /** Index of the first tick at or after `from`, or the length when
      there is none. */
  function FirstTick(events: seq<Event>, from: nat): (r: nat)
    requires from <= |events| + 1
    ensures from <= r || r == |events|
    ensures r <= |events|
    ensures forall k :: from <= k < r ==> events[k].Stop?
    ensures r < |events| ==> events[r].Tick?
    decreases |events| - from
  {
    if from >= |events| then |events|
    else if events[from].Tick? then from
    else FirstTick(events, from + 1)
  }

  /** A tick no later than the first one is the first one. */
  lemma FirstTickAt(events: seq<Event>, from: nat, i: nat)
    requires from <= i < |events| && events[i].Tick? && i <= FirstTick(events, from)
    ensures FirstTick(events, from) == i
  {
  }

  /** There is a tick at or after `from` exactly when `FirstTick` finds one. */
  lemma FirstTickFound(events: seq<Event>, from: nat)
    requires from <= |events| + 1
    ensures FirstTick(events, from) < |events| <==> exists k :: from <= k < |events| && events[k].Tick?
  {
    var r := FirstTick(events, from);
    if r < |events| {
      assert from <= r && events[r].Tick?;
    }
  }

  class Rotator {
    const logFile: string
    /** Set after construction by the supervisor, as `RotationDelay` is. */
    var rotationDelay: nat
    const archiveRetainCount: nat
    const workingDir: string
    var watching: bool
    /** The ticker exists and has not been stopped. */
    var tickerRunning: bool

    /** `NewRotator`. */
    constructor (logFile: string)
      ensures this.logFile == logFile && workingDir == Dir(logFile)
      ensures rotationDelay == 6 * Hour && archiveRetainCount == 5
      ensures !watching && !tickerRunning
    {
      this.logFile := logFile;
      workingDir := Dir(logFile);
      rotationDelay := DefaultRotationDelay;
      archiveRetainCount := DefaultArchiveRetainCount;
      watching := false;
      tickerRunning := false;
    }

    /** Copies the live log into a new gzip archive and then empties the
        log. The log is emptied only once the archive has been created,
        filled and flushed; the archive's path is returned from then on,
        even when emptying the log fails. */
    method GzipLogFile(disk: Disk, t: Clock, f: GzipFaults) returns (name: string, err: Option<string>)
      requires ValidClock(t)
      modifies disk
      ensures disk.files == GzipFiles(old(disk.files), logFile, t, f)
      ensures var ready := f.create.None? && logFile in old(disk.files) && f.copy.None? && f.flush.None?;
        && (ready ==> name == ArchiveName(logFile, t) && err == f.truncate)
        && (!ready ==> name == "" && err.Some?)
        && (f.create.Some? ==> err == f.create)
        && (f.create.None? && logFile in old(disk.files) && f.copy.Some? ==> err == Some(f.copy.value.msg))
        && (f.create.None? && logFile in old(disk.files) && f.copy.None? && f.flush.Some? ==> err == Some(f.flush.value.msg))
    {
      var a := ArchiveName(logFile, t);
      if f.create.Some? {
        return "", f.create;
      }
      disk.files := disk.files[a := Plain("")];
      if logFile !in disk.files {
        disk.files := disk.files[a := Gzipped("")];
        return "", Some("open " + logFile + ": no such file or directory");
      }
      var log := disk.files[logFile].text;
      if f.copy.Some? {
        var n := Min(f.copy.value.copied, |log|);
        disk.files := disk.files[a := Gzipped(log[..n])];
        return "", Some(f.copy.value.msg);
      }
      if f.flush.Some? {
        var n := Min(f.flush.value.copied, |log|);
        disk.files := disk.files[a := Gzipped(log[..n])];
        return "", Some(f.flush.value.msg);
      }
      disk.files := disk.files[a := Gzipped(log)];
      if f.truncate.Some? {
        return a, f.truncate;
      }
      disk.files := disk.files[logFile := Plain("")];
      return a, None;
    }

    /** The related archives of the working directory, in listing order. */
    method RelatedGZFiles(listing: Result<seq<string>>) returns (r: Result<seq<string>>)
      ensures listing.Err? ==> r == Err(listing.msg)
      ensures listing.Ok? ==> r == Ok(RelatedPaths(workingDir, Base(logFile), listing.value))
    {
      if listing.Err? {
        return Err(listing.msg);
      }
      var files := listing.value;
      var base := Base(logFile);
      var related: seq<string> := [];
      var i := 0;
      while i < |files|
        invariant 0 <= i <= |files|
        invariant related == RelatedPaths(workingDir, base, files[..i])
      {
        var name := files[i];
        assert files[..i + 1][..i] == files[..i];
        if HasPrefix(name, base) && Ext(name) == ".gz" {
          related := related + [JoinPath(workingDir, name)];
        }
        i := i + 1;
      }
      assert files[..i] == files;
      return Ok(related);
    }

    /** Removes every related archive past the first `archiveRetainCount`,
        from the last one down; a removal that fails is skipped. */
    method CleanupOldArchives(disk: Disk, listing: Result<seq<string>>, failing: set<string>) returns (err: Option<string>)
      modifies disk
      ensures listing.Err? ==> err == Some(listing.msg) && disk.files == old(disk.files)
      ensures listing.Ok? ==> err == None
      ensures disk.files == CleanupFiles(old(disk.files), workingDir, Base(logFile), archiveRetainCount, listing, failing)
    {
      var archives := RelatedGZFiles(listing);
      if archives.Err? {
        return Some(archives.msg);
      }
      var a := archives.value;
      var i := |a| - 1;
      while i >= archiveRetainCount
        invariant i <= |a| - 1 && (archiveRetainCount - 1 <= i || i == |a| - 1)
        invariant disk.files == old(disk.files) - (Doomed(a, i + 1) - failing)
      {
        assert Doomed(a, i) == Doomed(a, i + 1) + {a[i]};
        if a[i] !in failing {
          disk.files := disk.files - {a[i]};
        }
        i := i - 1;
      }
      assert Doomed(a, i + 1) == Doomed(a, archiveRetainCount) by {
        if i + 1 < archiveRetainCount {
          assert Doomed(a, i + 1) == {} == Doomed(a, archiveRetainCount);
        }
      }
      return None;
    }

    /** Stops the ticker when watching, and clears the flag. */
    method StopWatching()
      modifies this
      ensures !watching
      ensures tickerRunning == (old(tickerRunning) && !old(watching))
    {
      if watching {
        tickerRunning := false;
      }
      watching := false;
    }

    /** One pass of the rotation loop: rotate, then clean up, whatever
        errors the rotation reports. */
    method Rotate(disk: Disk, t: Clock, f: GzipFaults, listing: Result<seq<string>>, failing: set<string>)
      requires ValidClock(t)
      modifies disk
      ensures disk.files == CleanupFiles(GzipFiles(old(disk.files), logFile, t, f), workingDir, Base(logFile),
                                         archiveRetainCount, listing, failing)
    {
      var _, _ := GzipLogFile(disk, t, f);
      var _ := CleanupOldArchives(disk, listing, failing);
    }

    /** One wake-up of the rotation loop. A stop is a call of
        `StopWatching`. A tick ends the loop once watching has stopped;
        otherwise it rotates and cleans up. */
    method Wake(disk: Disk, e: Event) returns (exit: bool)
      requires e.Tick? ==> ValidClock(e.time)
      modifies this, disk
      ensures e.Stop? ==> (!exit && !watching && tickerRunning == (old(tickerRunning) && !old(watching)) &&
        disk.files == old(disk.files))
      ensures e.Tick? ==> exit == !old(watching) && watching == old(watching) && tickerRunning == old(tickerRunning)
      ensures e.Tick? && !exit ==>
        disk.files == CleanupFiles(GzipFiles(old(disk.files), logFile, e.time, e.faults), workingDir, Base(logFile),
                                   archiveRetainCount, e.listing, e.failing)
      ensures e.Tick? && exit ==> disk.files == old(disk.files)
    {
      match e {
        case Stop =>
          StopWatching();
          return false;
        case Tick(t, f, listing, failing) =>
          if !watching {
            return true;
          }
          Rotate(disk, t, f, listing, failing);
          return false;
      }
    }

    /** The rotation loop: every tick before the first stop rotates and
        cleans up, whatever errors those report; the first tick after a
        stop ends the loop. `rotations` counts the rotations. */
    method StartWatching(disk: Disk, events: seq<Event>) returns (returned: bool, ghost rotations: nat)
      requires forall k :: 0 <= k < |events| ==> events[k].Tick? ==> ValidClock(events[k].time)
      modifies this, disk
      ensures rotations == FirstStop(events)
      ensures returned <==> FirstTick(events, FirstStop(events) + 1) < |events|
      ensures watching <==> FirstStop(events) == |events|
      ensures tickerRunning == watching
      ensures disk.files == Rotations(old(disk.files), logFile, workingDir, archiveRetainCount, events, FirstStop(events))
    {
      watching := true;
      tickerRunning := true;
      rotations := 0;
      ghost var n, files0 := FirstStop(events), disk.files;
      var i := 0;
      while i < |events|
        invariant 0 <= i <= |events|
        invariant watching == tickerRunning == (i <= n)
        invariant rotations == if i <= n then i else n
        invariant n < i ==> i <= FirstTick(events, n + 1)
        invariant disk.files == Rotations(files0, logFile, workingDir, archiveRetainCount, events, rotations)
      {
        var e := events[i];
        assert if i < n then e.Tick? && watching else if i == n then e.Stop? && watching else !watching;
        var exit := Wake(disk, e);
        assert exit <==> n < i && e.Tick?;
        assert i + 1 <= n <==> watching;
        if exit {
          FirstTickAt(events, n + 1, i);
          return true, rotations;
        }
        if e.Tick? {
          rotations := rotations + 1;
        }
        i := i + 1;
      }
      assert rotations == n;
      return false, rotations;
    }
  }
}
