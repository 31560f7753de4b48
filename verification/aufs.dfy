/**
  The aufs rootfs driver. The branch list is written as the code writes
  it: the image branch is marked read-write and the destination branch
  read-only, and the union is mounted on the destination itself.
 */
module Aufs {
  import opened Wrappers
  import opened Text
  import opened HostFs

  /** The aufs mount options for the two branches. */
  function BranchOptions(lower: string, upper: string): string
  {
    "br=" + lower + "=rw:" + upper + "=ro"
  }

  /** After "br=", the branches read back split at ':' are the image,
      marked read-write, then the destination, marked read-only. */
  lemma BranchesReadBack(lower: string, upper: string)
    requires ':' !in lower && ':' !in upper
    ensures HasPrefix(BranchOptions(lower, upper), "br=")
    ensures Split(BranchOptions(lower, upper)[3..], ':') == [lower + "=rw", upper + "=ro"]
  {
    var a, b := lower + "=rw", upper + "=ro";
    assert ':' !in a && ':' !in b;
    var o := BranchOptions(lower, upper);
    assert o[..3] == "br=";
    assert o[3..] == Join([a, b], ':') by {
      assert [a, b][1..] == [b];
    }
    SplitUnique([a, b], ':');
  }

  /** An aufs driver; its directories stay empty until `Init` succeeds. */
  class Aufs {
    var lowerDir: string
    var upperDir: string

    constructor ()
      ensures lowerDir == "" && upperDir == ""
    {
      lowerDir := "";
      upperDir := "";
    }

    /** Takes the image and destination only when aufs is supported;
        `supported` is the outcome of the support check. */
    method Init(image: string, dest: string, supported: Option<string>) returns (err: Option<string>)
      modifies this
      ensures err == supported
      ensures supported.Some? ==> lowerDir == old(lowerDir) && upperDir == old(upperDir)
      ensures supported.None? ==> lowerDir == image && upperDir == dest
    {
      if supported.Some? {
        return supported;
      }
      lowerDir := image;
      upperDir := dest;
      return None;
    }

    /** Creates the destination, then mounts the union on it; a failed
        creation means no mount. */
    method SetupRootfs(host: Host) returns (err: Option<string>)
      modifies host
      ensures upperDir in host.denied ==> (err == Some("mkdir " + upperDir + ": permission denied") &&
        host.dirs == old(host.dirs) && host.mounted == old(host.mounted))
      ensures upperDir !in host.denied ==> (host.dirs == old(host.dirs) + {upperDir} &&
        (upperDir in host.refused ==> (err == Some("no such device") && host.mounted == old(host.mounted))) &&
        (upperDir !in host.refused ==> (err == None &&
          host.mounted == old(host.mounted)[upperDir := MountCall("aufs", "aufs", 0, BranchOptions(lowerDir, upperDir))])))
    {
      err := host.MkdirAll(upperDir);
      if err.Some? {
        return;
      }
      var opts := BranchOptions(lowerDir, upperDir);
      err := host.Mount("aufs", upperDir, "aufs", 0, opts);
    }

    /** Unmounts the destination, then removes it and nothing else; an
        unmount failure removes nothing. */
    method CleanupRootfs(host: Host) returns (err: Option<string>)
      modifies host
      ensures (upperDir !in old(host.mounted) || upperDir in host.busy) ==> (err.Some? &&
        host.dirs == old(host.dirs) && host.mounted == old(host.mounted))
      ensures upperDir in old(host.mounted) && upperDir !in host.busy ==> (
        host.mounted == old(host.mounted) - {upperDir} &&
        (upperDir in host.denied ==> (err == Some("unlinkat " + upperDir + ": permission denied") && host.dirs == old(host.dirs))) &&
        (upperDir !in host.denied ==> (err == None && host.dirs == old(host.dirs) - {upperDir})))
    {
      err := host.Unmount(upperDir);
      if err.Some? {
        return;
      }
      err := host.RemoveAll(upperDir);
    }
  }
}
