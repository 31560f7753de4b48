/**
  Go's `filepath.Dir`, `filepath.Base`, `filepath.Ext` and two-element
  `path.Join` on Unix paths. `Clean` is modelled only as far as these need
  it: trailing slashes are dropped and an empty directory reads ".".
 */
module Paths {
  import opened Text

  /** The path without its trailing slashes. */
  function StripSlashes(p: string): (q: string)
    ensures |q| <= |p| && q == p[..|q|]
    ensures q == [] || q[|q| - 1] != '/'
    ensures forall k :: |q| <= k < |p| ==> p[k] == '/'
  {
    if p != [] && p[|p| - 1] == '/' then StripSlashes(p[..|p| - 1]) else p
  }

  /** `filepath.Dir`: everything up to the last slash, trailing slashes
      removed; "." when there is no slash, "/" for a root entry. */
  function Dir(p: string): (d: string)
    ensures d != ""
  {
    var i := AfterLast(p, '/');
    if i == 0 then "."
    else
      var d := StripSlashes(p[..i]);
      if d == "" then "/" else d
  }

  /** `filepath.Base`: the last element, trailing slashes ignored; "." for
      the empty path and "/" for a path of slashes only. */
  function Base(p: string): (b: string)
    ensures b != ""
    ensures b != "/" ==> '/' !in b
  {
    if p == "" then "."
    else
      var q := StripSlashes(p);
      if q == "" then "/" else q[AfterLast(q, '/')..]
  }

  /** `filepath.Ext`: the suffix from the last '.' of the last element, or
      "" when that element has no dot. */
  function Ext(p: string): (e: string)
    ensures e == "" || (e[0] == '.' && HasSuffix(p, e))
    ensures forall k :: 0 <= k < |e| ==> e[k] != '/'
    ensures forall k :: 1 <= k < |e| ==> e[k] != '.'
  {
    if p == [] || p[|p| - 1] == '/' then ""
    else if p[|p| - 1] == '.' then [p[|p| - 1]]
    else
      var e := Ext(p[..|p| - 1]);
      if e == "" then "" else e + [p[|p| - 1]]
  }

  /** `path.Join(d, n)` for a directory `d` and a single element `n`. */
  function JoinPath(d: string, n: string): string
  {
    if d == "" || d == "." then n
    else if d[|d| - 1] == '/' then d + n
    else d + "/" + n
  }

  /** No two slashes in a row, none at the end and no leading "./": a path
      as `Clean` leaves it, apart from inner "." and ".." elements. */
  predicate Tidy(p: string)
  {
    && p != "" && p[|p| - 1] != '/'
    && (forall k :: 0 < k < |p| ==> p[k] == '/' ==> p[k - 1] != '/')
    && !HasPrefix(p, "./")
  }

  /** Joining the directory and the base of a tidy path gives the path. */
  lemma JoinDirBase(p: string)
    requires Tidy(p)
    ensures JoinPath(Dir(p), Base(p)) == p
  {
    var i := AfterLast(p, '/');
    assert StripSlashes(p) == p;
    if i == 0 {
      assert p[0..] == p;
    } else if i == 1 {
      assert StripSlashes(p[..1]) == "";
      assert p == "/" + p[1..];
    } else {
      JoinDirBaseInner(p, i);
    }
  }

  /** A tidy path whose last slash is not its first character: the
      directory is everything before that slash. */
  lemma JoinDirBaseInner(p: string, i: nat)
    requires Tidy(p) && i == AfterLast(p, '/') && i >= 2
    ensures Dir(p) == p[..i - 1] && JoinPath(Dir(p), p[i..]) == p
  {
    var d := p[..i - 1];
    assert p[i - 1] == '/';
    assert p[i - 2] != '/';
    StripOne(p[..i]);
    assert p[..i][..i - 1] == d;
    StripNone(d);
    assert Dir(p) == d;
    if i == 2 {
      NotDotSlash(p);
    }
    assert d != ".";
    assert p == d + "/" + p[i..];
  }

  lemma StripOne(q: string)
    requires q != [] && q[|q| - 1] == '/'
    ensures StripSlashes(q) == StripSlashes(q[..|q| - 1])
  {
  }

  lemma StripNone(q: string)
    requires q != [] && q[|q| - 1] != '/'
    ensures StripSlashes(q) == q
  {
  }

  lemma NotDotSlash(p: string)
    requires Tidy(p) && |p| >= 2
    ensures !(p[0] == '.' && p[1] == '/')
  {
    assert p[..2] == [p[0], p[1]];
  }

  /** The extension of `stem + ".gz"` is ".gz". */
  lemma ExtGz(stem: string)
    ensures Ext(stem + ".gz") == ".gz"
  {
    var p := stem + ".gz";
    assert p[..|p| - 1] == stem + ".g";
    assert (stem + ".g")[..|p| - 2] == stem + ".";
    assert (stem + ".")[..|p| - 3] == stem;
    assert Ext(stem + ".") == ".";
    assert Ext(stem + ".g") == ".g";
  }
}
