/**
  The container configuration: a fixed set of mounts (proc, the /dev
  family, sysfs, resolv.conf) followed by the user's bind mounts, each
  written `source:destination[:ro|rw]`. Only the parts of the configuration
  that depend on the arguments, and the mount list, are modelled.
 */
module Config {
  import opened Wrappers
  import opened Text
  import SignalForwarding

  /** Mount flags, as in <sys/mount.h> on Linux. */
  type Flags = bv32

  const MS_RDONLY: Flags := 1
  const MS_NOSUID: Flags := 2
  const MS_NODEV: Flags := 4
  const MS_NOEXEC: Flags := 8
  const MS_BIND: Flags := 0x1000
  const MS_REC: Flags := 0x4000
  const MS_STRICTATIME: Flags := 0x100_0000

  const DefaultMountFlags: Flags := MS_NOEXEC | MS_NOSUID | MS_NODEV

  /** The flags every bind mount starts with. */
  const BindFlags: Flags := MS_BIND | MS_REC

  datatype Mount = Mount(source: string, destination: string, device: string, flags: Flags, data: string)

  /** The argument-dependent part of the configuration and its mount list. */
  datatype Config = Config(
    rootfs: string,
    hostname: string,
    cgroupName: string,
    cgroupParent: string,
    parentDeathSignal: int,
    mounts: seq<Mount>)

  /** The mounts every container gets, in order. */
  function DefaultMounts(): (ms: seq<Mount>)
    ensures |ms| == 7
    ensures forall k :: 0 <= k < |ms| ==> ms[k].flags & MS_NOEXEC == MS_NOEXEC || ms[k].flags & MS_BIND == MS_BIND || ms[k].destination == "/dev"
  {
    [ Mount("proc", "/proc", "proc", DefaultMountFlags, ""),
      Mount("tmpfs", "/dev", "tmpfs", MS_NOSUID | MS_STRICTATIME, "mode=755"),
      Mount("devpts", "/dev/pts", "devpts", MS_NOSUID | MS_NOEXEC, "newinstance,ptmxmode=0666,mode=0620,gid=5"),
      Mount("shm", "/dev/shm", "tmpfs", DefaultMountFlags, "mode=1777,size=65536k"),
      Mount("mqueue", "/dev/mqueue", "mqueue", DefaultMountFlags, ""),
      Mount("sysfs", "/sys", "sysfs", DefaultMountFlags | MS_RDONLY, ""),
      Mount("/etc/resolv.conf", "/etc/resolv.conf", "bind", MS_BIND | MS_REC | MS_RDONLY, "") ]
  }

  function Destinations(ms: seq<Mount>): seq<string>
  {
    if ms == [] then [] else [ms[0].destination] + Destinations(ms[1..])
  }

  /** The fixed mounts cover these points, in this order; only sysfs and
      resolv.conf are read-only. */
  lemma DefaultMountPoints()
    ensures Destinations(DefaultMounts()) ==
      ["/proc", "/dev", "/dev/pts", "/dev/shm", "/dev/mqueue", "/sys", "/etc/resolv.conf"]
    ensures forall k :: 0 <= k < 7 ==>
      (DefaultMounts()[k].flags & MS_RDONLY == MS_RDONLY <==> k == 5 || k == 6)
  {
    var ms := DefaultMounts();
    assert ms[1..][1..][1..][1..][1..][1..][1..] == [];
  }

  /** One bind-mount argument, parsed as the loop body does. */
  function ParseBind(raw: string): (r: Result<Mount>)
    ensures r.Ok? ==> r.value.device == "bind" && r.value.data == ""
    ensures r.Ok? ==> r.value.flags == BindFlags || r.value.flags == BindFlags | MS_RDONLY
    ensures ':' !in raw ==> r == Err("invalid bind mount " + raw)
  {
    var parts := SplitN(raw, ':', 3);
    if |parts| == 2 then Ok(Mount(parts[0], parts[1], "bind", BindFlags, ""))
    else if |parts| == 3 then
      if parts[2] == "ro" then Ok(Mount(parts[0], parts[1], "bind", BindFlags | MS_RDONLY, ""))
      else if parts[2] == "rw" then Ok(Mount(parts[0], parts[1], "bind", BindFlags, ""))
      else Err("invalid bind mount mode " + parts[2])
    else
      assert |parts| == 1 && parts[0] == raw by { JoinSplitN(raw, ':', 3); }
      Err("invalid bind mount " + raw)
  }

  /** `source:destination` mounts read-write, `:ro` adds the read-only flag,
      `:rw` is the same as no mode, and any other mode is rejected. */
  lemma ParseBindForms(src: string, dst: string, mode: string)
    requires ':' !in src && ':' !in dst
    ensures ParseBind(src + ":" + dst) == Ok(Mount(src, dst, "bind", BindFlags, ""))
    ensures ParseBind(src + ":" + dst + ":" + mode) ==
      if mode == "ro" then Ok(Mount(src, dst, "bind", BindFlags | MS_RDONLY, ""))
      else if mode == "rw" then Ok(Mount(src, dst, "bind", BindFlags, ""))
      else Err("invalid bind mount mode " + mode)
  {
    var two := [src, dst];
    assert Join(two, ':') == src + ":" + dst by {
      assert two[1..] == [dst];
    }
    SplitUnique(two, ':');
    SplitNAgrees(src + ":" + dst, ':', 3);
    var s3 := src + ":" + dst + ":" + mode;
    TwoCuts(src, dst, mode);
  }

  /** Two leading separator-free fields, and the rest kept whole. */
  lemma TwoCuts(src: string, dst: string, rest: string)
    requires ':' !in src && ':' !in dst
    ensures SplitN(src + ":" + dst + ":" + rest, ':', 3) == [src, dst, rest]
  {
    assert src + ":" + dst + ":" + rest == src + [':'] + (dst + [':'] + rest);
    SplitNCons(src, ':', dst + [':'] + rest, 3);
    SplitNCons(dst, ':', rest, 2);
  }

  lemma SplitNCons(p: string, c: char, rest: string, n: nat)
    requires c !in p && n >= 2
    ensures SplitN(p + [c] + rest, c, n) == [p] + SplitN(rest, c, n - 1)
  {
    var s := p + [c] + rest;
    IndexAfterPiece(p, c, rest);
    assert s[..|p|] == p;
    assert s[|p| + 1..] == rest;
  }

  /** A fourth colon stays in the mode, so the mode is rejected:
      "a:b:ro:x" is not a read-only mount but an invalid mode "ro:x". */
  lemma FourthColonRejected(src: string, dst: string, mode: string)
    requires ':' !in src && ':' !in dst && ':' in mode
    ensures ParseBind(src + ":" + dst + ":" + mode) == Err("invalid bind mount mode " + mode)
  {
    ParseBindForms(src, dst, mode);
  }

  /** The parse of each argument, one for one. */
  function Parsed(binds: seq<string>): (rs: seq<Result<Mount>>)
    ensures |rs| == |binds| && forall k :: 0 <= k < |binds| ==> rs[k] == ParseBind(binds[k])
  {
    seq(|binds|, k requires 0 <= k < |binds| => ParseBind(binds[k]))
  }

  /** The bind mounts for the arguments, in order; the first argument
      that does not parse gives the error. */
  function ParseBinds(binds: seq<string>): Result<seq<Mount>>
  {
    Collect(Parsed(binds))
  }

  /** All arguments parse exactly when the list parses; then there is one
      mount per argument, in order. */
  lemma ParseBindsOk(binds: seq<string>)
    ensures ParseBinds(binds).Ok? <==> forall k :: 0 <= k < |binds| ==> ParseBind(binds[k]).Ok?
    ensures ParseBinds(binds).Ok? ==> (|ParseBinds(binds).value| == |binds| &&
      forall k :: 0 <= k < |binds| ==> ParseBinds(binds).value[k] == ParseBind(binds[k]).value)
  {
    CollectOk(Parsed(binds));
  }

  /** Otherwise the error is that of the first argument that does not parse. */
  lemma ParseBindsErr(binds: seq<string>)
    requires ParseBinds(binds).Err?
    ensures exists k :: (0 <= k < |binds| && ParseBind(binds[k]).Err? && ParseBinds(binds).msg == ParseBind(binds[k]).msg &&
      forall j :: 0 <= j < k ==> ParseBind(binds[j]).Ok?)
  {
    CollectErr(Parsed(binds));
    var k :| FirstErr(Parsed(binds), k) && ParseBinds(binds).msg == Parsed(binds)[k].msg;
  }

  /** The configuration for a container: the fixed mounts, then one bind
      mount per argument in order; the first bad argument fails it all. */
  method LoadConfig(uid: string, rootfs: string, hostname: string, binds: seq<string>) returns (r: Result<Config>)
    ensures ParseBinds(binds).Err? ==> r == Err(ParseBinds(binds).msg)
    ensures ParseBinds(binds).Ok? ==> (r.Ok?
      && r.value.rootfs == rootfs && r.value.hostname == hostname
      && r.value.cgroupName == uid && r.value.cgroupParent == "psdock"
      && r.value.parentDeathSignal == SignalForwarding.SIGKILL
      && r.value.mounts == DefaultMounts() + ParseBinds(binds).value)
  {
    var config := Config(rootfs, hostname, uid, "psdock", SignalForwarding.SIGKILL, DefaultMounts());
    var i := 0;
    while i < |binds|
      invariant 0 <= i <= |binds|
      invariant Collect(Parsed(binds)[..i]).Ok?
      invariant config.rootfs == rootfs && config.hostname == hostname
      invariant config.cgroupName == uid && config.cgroupParent == "psdock"
      invariant config.parentDeathSignal == SignalForwarding.SIGKILL
      invariant config.mounts == DefaultMounts() + Collect(Parsed(binds)[..i]).value
    {
      var raw := binds[i];
      var flags := BindFlags;
      CollectStep(Parsed(binds), i);
      var parts := SplitN(raw, ':', 3);
      if |parts| != 2 && |parts| != 3 {
        CollectPrefixErr(Parsed(binds), i + 1);
        return Err("invalid bind mount " + raw);
      }
      if |parts| == 3 {
        if parts[2] == "ro" {
          flags := flags | MS_RDONLY;
        } else if parts[2] != "rw" {
          CollectPrefixErr(Parsed(binds), i + 1);
          return Err("invalid bind mount mode " + parts[2]);
        }
      }
      var mount := Mount(parts[0], parts[1], "bind", flags, "");
      config := config.(mounts := config.mounts + [mount]);
      i := i + 1;
    }
    assert Parsed(binds)[..i] == Parsed(binds);
    return Ok(config);
  }

  /** On success there are 7 + n mounts: the fixed ones first, unchanged,
      then the n bind mounts in argument order. */
  lemma LoadedMounts(binds: seq<string>, ms: seq<Mount>)
    requires ParseBinds(binds).Ok?
    requires ms == DefaultMounts() + ParseBinds(binds).value
    ensures |ms| == 7 + |binds|
    ensures ms[..7] == DefaultMounts()
    ensures forall k :: 0 <= k < |binds| ==> ParseBind(binds[k]).Ok? && ms[7 + k] == ParseBind(binds[k]).value
  {
    ParseBindsOk(binds);
  }
}
