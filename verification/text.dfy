/**
  The few Go `strings` and `path` operations the core relies on, over
  `string` (a sequence of characters). Separators are single characters,
  which is all the core ever uses (":", "\n", ",", "/").
 */
module Text {

  /** Index of the first `c` in `s`, or `|s|` when there is none. */
  function IndexOf(s: string, c: char): (i: nat)
    ensures i <= |s|
    ensures i < |s| ==> s[i] == c
    ensures forall j :: 0 <= j < i ==> s[j] != c
    ensures i == |s| <==> c !in s
  {
    if |s| == 0 then 0
    else if s[0] == c then 0
    else 1 + IndexOf(s[1..], c)
  }

  /** Go's `strings.Join(parts, string(c))`. */
  function Join(parts: seq<string>, c: char): string
  {
    if |parts| == 0 then ""
    else if |parts| == 1 then parts[0]
    else parts[0] + [c] + Join(parts[1..], c)
  }

  /** Go's `strings.Split(s, string(c))`: never empty, "" gives [""]. */
  function Split(s: string, c: char): (parts: seq<string>)
    ensures |parts| >= 1
    ensures forall k :: 0 <= k < |parts| ==> c !in parts[k]
    decreases |s|
  {
    var i := IndexOf(s, c);
    if i == |s| then [s]
    else [s[..i]] + Split(s[i + 1..], c)
  }

  /** Go's `strings.SplitN(s, string(c), n)` for `n >= 1`: at most `n` parts,
      the last one keeping every remaining separator. */
  function SplitN(s: string, c: char, n: nat): (parts: seq<string>)
    requires n >= 1
    ensures 1 <= |parts| <= n
    ensures forall k :: 0 <= k < |parts| - 1 ==> c !in parts[k]
    decreases n
  {
    var i := IndexOf(s, c);
    if n == 1 || i == |s| then [s]
    else [s[..i]] + SplitN(s[i + 1..], c, n - 1)
  }

  predicate NoSep(parts: seq<string>, c: char)
  {
    forall k :: 0 <= k < |parts| ==> c !in parts[k]
  }

  /** Joining the pieces of a split gives back the input. */
  lemma {:induction false} JoinSplit(s: string, c: char)
    ensures Join(Split(s, c), c) == s
    decreases |s|
  {
    var i := IndexOf(s, c);
    if i < |s| {
      JoinSplit(s[i + 1..], c);
      JoinCons(s[..i], Split(s[i + 1..], c), c);
      CutAt(s, i);
    }
  }

  /** The same holds for the bounded split. */
  lemma {:induction false} JoinSplitN(s: string, c: char, n: nat)
    requires n >= 1
    ensures Join(SplitN(s, c, n), c) == s
    decreases n
  {
    var i := IndexOf(s, c);
    if n > 1 && i < |s| {
      JoinSplitN(s[i + 1..], c, n - 1);
      JoinCons(s[..i], SplitN(s[i + 1..], c, n - 1), c);
      CutAt(s, i);
    }
  }

  lemma JoinCons(p: string, tail: seq<string>, c: char)
    requires |tail| >= 1
    ensures Join([p] + tail, c) == p + [c] + Join(tail, c)
  {
    assert ([p] + tail)[1..] == tail;
  }

  lemma CutAt(s: string, i: nat)
    requires i < |s|
    ensures s == s[..i] + [s[i]] + s[i + 1..]
  {
  }

  /** Split is the only way to cut a string into separator-free pieces:
      any non-empty list of such pieces that joins to `s` is `Split(s, c)`. */
  lemma {:induction false} SplitUnique(parts: seq<string>, c: char)
    requires |parts| >= 1 && NoSep(parts, c)
    ensures Split(Join(parts, c), c) == parts
  {
    var s := Join(parts, c);
    if |parts| == 1 {
      assert s == parts[0];
    } else {
      var rest := Join(parts[1..], c);
      assert s == parts[0] + [c] + rest;
      IndexAfterPiece(parts[0], c, rest);
      assert s[..|parts[0]|] == parts[0];
      assert s[|parts[0]| + 1..] == rest;
      SplitUnique(parts[1..], c);
    }
  }

  lemma IndexAfterPiece(p: string, c: char, rest: string)
    requires c !in p
    ensures IndexOf(p + [c] + rest, c) == |p|
  {
    var s := p + [c] + rest;
    assert s[|p|] == c;
    assert forall j :: 0 <= j < |p| ==> s[j] == p[j];
  }

  /** When the string has fewer than `n` separators the bounded and the full
      split agree. */
  lemma {:induction false} SplitNAgrees(s: string, c: char, n: nat)
    requires n >= 1 && |Split(s, c)| <= n
    ensures SplitN(s, c, n) == Split(s, c)
    decreases n
  {
    var i := IndexOf(s, c);
    if i < |s| {
      var rest := s[i + 1..];
      assert Split(s, c) == [s[..i]] + Split(rest, c);
      assert |Split(rest, c)| <= n - 1;
      SplitNAgrees(rest, c, n - 1);
    }
  }

  /** The first piece of a split is the text before the first separator. */
  lemma SplitHead(s: string, c: char)
    ensures Split(s, c)[0] == s[..IndexOf(s, c)]
  {
  }

  /** One piece exactly when the separator does not occur. */
  lemma SplitSingle(s: string, c: char)
    ensures |Split(s, c)| == 1 <==> c !in s
  {
    if c in s {
      var i := IndexOf(s, c);
      assert |Split(s, c)| == 1 + |Split(s[i + 1..], c)|;
    }
  }

  predicate HasPrefix(s: string, p: string)
  {
    |p| <= |s| && s[..|p|] == p
  }

  predicate HasSuffix(s: string, x: string)
  {
    |x| <= |s| && s[|s| - |x|..] == x
  }

  /** Go's `strings.TrimSuffix`: removes one occurrence of the suffix, if present. */
  function TrimSuffix(s: string, x: string): (r: string)
    ensures HasSuffix(s, x) ==> r + x == s
    ensures !HasSuffix(s, x) ==> r == s
  {
    if HasSuffix(s, x) then s[..|s| - |x|] else s
  }

  /** Index just after the last `c` in `s`, or 0 when there is none. */
  function AfterLast(s: string, c: char): (i: nat)
    ensures i <= |s|
    ensures i > 0 ==> s[i - 1] == c
    ensures forall j :: i <= j < |s| ==> s[j] != c
  {
    if |s| == 0 then 0
    else if s[|s| - 1] == c then |s|
    else AfterLast(s[..|s| - 1], c)
  }

  /** Go's `<` on strings: byte order, which for UTF-8 text is the order
      of the characters' code points; a proper prefix comes first. */
  predicate Less(a: string, b: string)
  {
    if a == [] then b != []
    else b != [] && (a[0] < b[0] || (a[0] == b[0] && Less(a[1..], b[1..])))
  }

  /** Strictly increasing, as `sort` leaves a list of distinct names. */
  predicate Sorted(s: seq<string>)
  {
    forall i, j :: 0 <= i < j < |s| ==> Less(s[i], s[j])
  }

  lemma {:induction false} LessIrreflexive(a: string)
    ensures !Less(a, a)
  {
    if a != [] {
      LessIrreflexive(a[1..]);
    }
  }

  lemma {:induction false} LessAsymmetric(a: string, b: string)
    requires Less(a, b)
    ensures !Less(b, a)
  {
    if a != [] && a[0] == b[0] {
      LessAsymmetric(a[1..], b[1..]);
    }
  }

  /** A common prefix does not change the order. */
  lemma {:induction false} LessCommonPrefix(c: string, a: string, b: string)
    requires Less(a, b)
    ensures Less(c + a, c + b)
  {
    if c != [] {
      assert (c + a)[1..] == c[1..] + a;
      assert (c + b)[1..] == c[1..] + b;
      LessCommonPrefix(c[1..], a, b);
    } else {
      assert c + a == a && c + b == b;
    }
  }

  /** Of two strings of one length, the lesser stays lesser whatever follows. */
  lemma {:induction false} LessExtend(a1: string, b1: string, a2: string, b2: string)
    requires |a1| == |b1| && Less(a1, b1)
    ensures Less(a1 + a2, b1 + b2)
  {
    assert (a1 + a2)[0] == a1[0] && (b1 + b2)[0] == b1[0];
    if a1[0] == b1[0] {
      assert (a1 + a2)[1..] == a1[1..] + a2;
      assert (b1 + b2)[1..] == b1[1..] + b2;
      LessExtend(a1[1..], b1[1..], a2, b2);
    }
  }

  /** A sorted list has no duplicates. */
  lemma SortedDistinct(s: seq<string>)
    requires Sorted(s)
    ensures forall i, j :: 0 <= i < |s| && 0 <= j < |s| && i != j ==> s[i] != s[j]
  {
    forall i, j | 0 <= i < |s| && 0 <= j < |s| && i != j
      ensures s[i] != s[j]
    {
      if i < j {
        LessIrreflexive(s[i]);
      } else {
        LessIrreflexive(s[j]);
      }
    }
  }

  /** In a sorted list, an entry lesser than the one at `j` sits before it. */
  lemma SortedIndex(s: seq<string>, i: nat, j: nat)
    requires Sorted(s) && i < |s| && j < |s| && Less(s[i], s[j])
    ensures i < j
  {
    if j < i {
      LessAsymmetric(s[j], s[i]);
    } else if i == j {
      LessIrreflexive(s[i]);
    }
  }

  /** A sorted list of entries of `r` that all sort before `r[j]` is no
      longer than `j`. */
  lemma {:induction false} SortedCountBelow(r: seq<string>, s: seq<string>, j: nat)
    requires Sorted(r) && Sorted(s) && j < |r|
    requires forall k :: 0 <= k < |s| ==> s[k] in r && Less(s[k], r[j])
    ensures |s| <= j
  {
    if s != [] {
      var m := |s| - 1;
      var i :| 0 <= i < |r| && r[i] == s[m];
      SortedIndex(r, i, j);
      assert forall k :: 0 <= k < m ==> s[..m][k] == s[k];
      SortedCountBelow(r, s[..m], i);
    }
  }
}
