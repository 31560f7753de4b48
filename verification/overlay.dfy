/**
  The overlay rootfs driver: the image is the lower layer, the container's
  directory the upper layer, and a sibling "<dest>_work" directory the
  overlay work directory. The driver exists only when the kernel lists the
  overlay file system.
 */
module Overlay {
  import opened Wrappers
  import opened Text
  import opened HostFs

  /** The line of /proc/filesystems that announces overlay support. */
  const OverlayLine := "nodev\toverlay"

  const NotSupported := "overlay mount not supported"

  /** The work directory kept beside the destination. */
  function WorkDir(dest: string): (w: string)
    ensures |w| == |dest| + 5 && w[..|dest|] == dest && w != dest
  {
    var w := dest + "_work";
    assert w[..|dest|] == dest;
    w
  }

  /** Different destinations have different work directories, and a work
      directory is never itself a destination's upper directory. */
  lemma WorkDirsApart(d1: string, d2: string)
    ensures d1 != d2 ==> WorkDir(d1) != WorkDir(d2)
    ensures WorkDir(d1) != d1
  {
  }

  /** The overlay mount options. */
  function Options(lower: string, upper: string, work: string): string
  {
    "lowerdir=" + lower + ",upperdir=" + upper + ",workdir=" + work
  }

  /** Split at its commas, as the kernel reads it, the option string gives
      back the three layers, each under its own key. */
  lemma OptionsReadBack(lower: string, upper: string, work: string)
    requires ',' !in lower && ',' !in upper && ',' !in work
    ensures Split(Options(lower, upper, work), ',') == ["lowerdir=" + lower, "upperdir=" + upper, "workdir=" + work]
  {
    var a, b, c := "lowerdir=" + lower, "upperdir=" + upper, "workdir=" + work;
    assert ',' !in a && ',' !in b && ',' !in c;
    JoinThree(a, b, c, ',');
    assert Options(lower, upper, work) == a + [','] + b + [','] + c;
    SplitUnique([a, b, c], ',');
  }

  lemma JoinThree(a: string, b: string, c: string, sep: char)
    ensures Join([a, b, c], sep) == a + [sep] + b + [sep] + c
  {
    JoinCons(b, [c], sep);
    JoinCons(a, [b, c], sep);
    assert [a] + [b, c] == [a, b, c];
  }

  /** Scans the lines of /proc/filesystems for overlay. Whether loading
      the module beforehand worked makes no difference. */
  method SupportsOverlay(filesystems: Result<seq<string>>) returns (err: Option<string>)
    ensures filesystems.Err? ==> err == Some(filesystems.msg)
    ensures filesystems.Ok? ==> (err == None <==> OverlayLine in filesystems.value)
    ensures filesystems.Ok? && err.Some? ==> err == Some(NotSupported)
  {
    if filesystems.Err? {
      return Some(filesystems.msg);
    }
    var lines := filesystems.value;
    var i := 0;
    while i < |lines|
      invariant 0 <= i <= |lines|
      invariant OverlayLine !in lines[..i]
    {
      if lines[i] == OverlayLine {
        return None;
      }
      assert lines[..i + 1] == lines[..i] + [lines[i]];
      i := i + 1;
    }
    assert lines[..i] == lines;
    return Some(NotSupported);
  }

  /** A driver for one image and destination. */
  class Overlay {
    const lowerDir: string
    const upperDir: string
    const workDir: string

    constructor (image: string, dest: string)
      ensures lowerDir == image && upperDir == dest && workDir == WorkDir(dest)
    {
      lowerDir := image;
      upperDir := dest;
      workDir := WorkDir(dest);
    }

    /** Creates the upper, then the work directory, then mounts the
        overlay on the upper directory; the first failure ends it. */
    method SetupRootfs(host: Host) returns (err: Option<string>)
      modifies host
      ensures upperDir in host.denied ==> (err == Some("mkdir " + upperDir + ": permission denied") &&
        host.dirs == old(host.dirs) && host.mounted == old(host.mounted))
      ensures upperDir !in host.denied && workDir in host.denied ==> (err == Some("mkdir " + workDir + ": permission denied") &&
        host.dirs == old(host.dirs) + {upperDir} && host.mounted == old(host.mounted))
      ensures upperDir !in host.denied && workDir !in host.denied ==> (host.dirs == old(host.dirs) + {upperDir, workDir} &&
        (upperDir in host.refused ==> (err == Some("no such device") && host.mounted == old(host.mounted))) &&
        (upperDir !in host.refused ==> (err == None &&
          host.mounted == old(host.mounted)[upperDir := MountCall("overlay", "overlay", 0, Options(lowerDir, upperDir, workDir))])))
    {
      err := host.MkdirAll(upperDir);
      if err.Some? {
        return;
      }
      err := host.MkdirAll(workDir);
      if err.Some? {
        return;
      }
      var opts := Options(lowerDir, upperDir, workDir);
      err := host.Mount("overlay", upperDir, "overlay", 0, opts);
    }

    /** Unmounts the upper directory, then removes it, then the work
        directory; the first failure ends it, so an unmount failure
        removes nothing and a failure on the upper directory keeps the
        work directory. */
    method CleanupRootfs(host: Host) returns (err: Option<string>)
      modifies host
      ensures (upperDir !in old(host.mounted) || upperDir in host.busy) ==> (err.Some? &&
        host.dirs == old(host.dirs) && host.mounted == old(host.mounted))
      ensures upperDir in old(host.mounted) && upperDir !in host.busy ==> (
        host.mounted == old(host.mounted) - {upperDir} &&
        (upperDir in host.denied ==> (err == Some("unlinkat " + upperDir + ": permission denied") && host.dirs == old(host.dirs))) &&
        (upperDir !in host.denied && workDir in host.denied ==> (err == Some("unlinkat " + workDir + ": permission denied") &&
          host.dirs == old(host.dirs) - {upperDir})) &&
        (upperDir !in host.denied && workDir !in host.denied ==> (err == None && host.dirs == old(host.dirs) - {upperDir, workDir})))
    {
      err := host.Unmount(upperDir);
      if err.Some? {
        return;
      }
      err := host.RemoveAll(upperDir);
      if err.Some? {
        return;
      }
      err := host.RemoveAll(workDir);
    }

    /** Setting up and then cleaning up succeeds exactly when none of the
        two directories is protected and the mount point is neither
        refused nor busy; then neither directory is left, nor the mount. */
    method SetupThenCleanup(host: Host) returns (err: Option<string>)
      modifies host
      ensures err == None <==> (upperDir !in host.denied && workDir !in host.denied &&
        upperDir !in host.refused && upperDir !in host.busy)
      ensures err == None ==> (upperDir !in host.dirs && workDir !in host.dirs && upperDir !in host.mounted)
    {
      err := SetupRootfs(host);
      if err.Some? {
        return;
      }
      err := CleanupRootfs(host);
    }
  }

  /** `NewOverlay`: no driver, and the error, when overlay is not
      supported; otherwise a driver with its work directory beside the
      destination. */
  method NewOverlay(image: string, dest: string, filesystems: Result<seq<string>>) returns (o: Overlay?, err: Option<string>)
    ensures (o == null) == err.Some?
    ensures filesystems.Err? ==> err == Some(filesystems.msg)
    ensures filesystems.Ok? && OverlayLine !in filesystems.value ==> err == Some(NotSupported)
    ensures o != null ==> (fresh(o) && filesystems.Ok? && OverlayLine in filesystems.value &&
      o.lowerDir == image && o.upperDir == dest && o.workDir == dest + "_work")
  {
    err := SupportsOverlay(filesystems);
    if err.Some? {
      return null, err;
    }
    o := new Overlay(image, dest);
  }
}
