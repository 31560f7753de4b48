/**
  The part of the host file system the rootfs drivers touch: which
  directories exist and what is mounted where. The kernel and the disk are
  not modelled; the paths on which an operation fails are fixed when the
  host is made, and each failure carries the error text Go would show.
 */
module HostFs {
  import opened Wrappers

  /** One `mount(2)` call: source, file-system type, flags and options. */
  datatype MountCall = MountCall(source: string, fstype: string, flags: nat, data: string)

  class Host {
    /** The directories that exist. */
    var dirs: set<string>
    /** The mount on each mount point. */
    var mounted: map<string, MountCall>
    /** Paths that cannot be created or removed. */
    const denied: set<string>
    /** Mount points that cannot be unmounted. */
    const busy: set<string>
    /** Mount points the kernel refuses to mount on. */
    const refused: set<string>

    constructor (dirs: set<string>, mounted: map<string, MountCall>, denied: set<string>, busy: set<string>, refused: set<string>)
      ensures this.dirs == dirs && this.mounted == mounted
      ensures this.denied == denied && this.busy == busy && this.refused == refused
    {
      this.dirs := dirs;
      this.mounted := mounted;
      this.denied := denied;
      this.busy := busy;
      this.refused := refused;
    }

    /** `os.MkdirAll`: the directory exists afterwards unless it is denied.
        Only `p` itself is recorded; its missing parents, which `MkdirAll`
        also creates, are not tracked. */
    method MkdirAll(p: string) returns (err: Option<string>)
      modifies this
      ensures p in denied ==> err == Some("mkdir " + p + ": permission denied") && dirs == old(dirs)
      ensures p !in denied ==> err == None && dirs == old(dirs) + {p}
      ensures mounted == old(mounted)
    {
      if p in denied {
        return Some("mkdir " + p + ": permission denied");
      }
      dirs := dirs + {p};
      return None;
    }

    /** `os.RemoveAll`: the directory is gone afterwards unless it is
        denied; a missing directory is no error. Only `p` itself is
        dropped; the entries below it, which `RemoveAll` also removes, are
        not tracked. */
    method RemoveAll(p: string) returns (err: Option<string>)
      modifies this
      ensures p in denied ==> err == Some("unlinkat " + p + ": permission denied") && dirs == old(dirs)
      ensures p !in denied ==> err == None && dirs == old(dirs) - {p}
      ensures mounted == old(mounted)
    {
      if p in denied {
        return Some("unlinkat " + p + ": permission denied");
      }
      dirs := dirs - {p};
      return None;
    }

    /** `syscall.Mount(source, target, fstype, flags, data)`. */
    method Mount(source: string, target: string, fstype: string, flags: nat, data: string) returns (err: Option<string>)
      modifies this
      ensures target in refused ==> err == Some("no such device") && mounted == old(mounted)
      ensures target !in refused ==> err == None && mounted == old(mounted)[target := MountCall(source, fstype, flags, data)]
      ensures dirs == old(dirs)
    {
      if target in refused {
        return Some("no such device");
      }
      mounted := mounted[target := MountCall(source, fstype, flags, data)];
      return None;
    }

    /** `syscall.Unmount(target, 0)`: fails on a point that is not mounted
        and on a busy one. */
    method Unmount(target: string) returns (err: Option<string>)
      modifies this
      ensures target !in old(mounted) ==> err == Some("invalid argument") && mounted == old(mounted)
      ensures target in old(mounted) && target in busy ==> err == Some("device or resource busy") && mounted == old(mounted)
      ensures target in old(mounted) && target !in busy ==> err == None && mounted == old(mounted) - {target}
      ensures dirs == old(dirs)
    {
      if target !in mounted {
        return Some("invalid argument");
      }
      if target in busy {
        return Some("device or resource busy");
      }
      mounted := mounted - {target};
      return None;
    }
  }
}
