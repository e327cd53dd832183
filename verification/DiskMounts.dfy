/** Which mounts stand in for the disks that are Nomad volumes (virt/disks/config.go). */
module DiskMounts {
  import opened Wrappers
  import opened DiskNames
  import opened DiskModel

  const DEV := "/dev/"

  /** The last mount under /dev/ with the task path. */
  function MountFor(mounts: seq<Mount>, path: string): Option<Mount> {
    if mounts == [] then None
    else
      var last := mounts[|mounts| - 1];
      if HasPrefix(last.taskPath, DEV) && last.taskPath == path then Some(last)
      else MountFor(mounts[..|mounts| - 1], path)
  }

  lemma {:induction false} MountForIsLast(mounts: seq<Mount>, path: string)
    ensures MountFor(mounts, path).None? <==>
            forall m :: m in mounts ==> m.taskPath != path || !HasPrefix(path, DEV)
    ensures MountFor(mounts, path).Some? ==>
              exists i :: 0 <= i < |mounts| && mounts[i] == MountFor(mounts, path).value
                          && mounts[i].taskPath == path && HasPrefix(path, DEV)
                          && forall j :: i < j < |mounts| ==> mounts[j].taskPath != path
  {
    if mounts != [] {
      var n := |mounts| - 1;
      MountForIsLast(mounts[..n], path);
      assert mounts == mounts[..n] + [mounts[n]];
      if !(HasPrefix(mounts[n].taskPath, DEV) && mounts[n].taskPath == path) && MountFor(mounts[..n], path).Some? {
        var i :| 0 <= i < n && mounts[..n][i] == MountFor(mounts[..n], path).value && mounts[..n][i].taskPath == path
          && HasPrefix(path, DEV) && forall j :: i < j < n ==> mounts[..n][j].taskPath != path;
        assert mounts[i] == mounts[..n][i];
        assert forall j :: i < j < n ==> mounts[j] == mounts[..n][j];
      }
    }
  }

  // ---- Last elements of paths --------------------------------------------------------------

  function WithoutSlashes(path: string): (r: string)
    ensures r != "" ==> r[|r| - 1] != '/'
  {
    if path != "" && path[|path| - 1] == '/' then WithoutSlashes(path[..|path| - 1]) else path
  }

  function AfterSlash(path: string): (r: string)
    ensures path != "" && path[|path| - 1] != '/' ==> r != ""
  {
    if path == "" || path[|path| - 1] == '/' then ""
    else AfterSlash(path[..|path| - 1]) + [path[|path| - 1]]
  }

  /** The last element of a path, a dot for no path, a slash for slashes only. */
  function Base(path: string): (r: string)
    ensures r != ""
  {
    if path == "" then "."
    else if WithoutSlashes(path) == "" then "/"
    else AfterSlash(WithoutSlashes(path))
  }

  lemma {:induction false} AfterSlashOf(dir: string, n: string)
    requires '/' !in n && dir != "" && dir[|dir| - 1] == '/'
    ensures AfterSlash(dir + n) == n
  {
    var p := dir + n;
    if n == "" {
      assert p == dir;
    } else {
      assert p[..|p| - 1] == dir + n[..|n| - 1];
      AfterSlashOf(dir, n[..|n| - 1]);
    }
  }

  /** A device directly under /dev/ lends the disk its name. */
  lemma BaseOfDevice(n: string)
    requires n != "" && '/' !in n
    ensures Base(DEV + n) == n
  {
    var p := DEV + n;
    assert p[|p| - 1] == n[|n| - 1];
    AfterSlashOf(DEV, n);
  }

  // ---- Mounted disks -----------------------------------------------------------------------

  function Mounted(mounts: seq<Mount>, d: Disk): Disk {
    if !IsNomad(d) then d
    else match MountFor(mounts, d.volumeName)
      case None => d
      case Some(m) =>
        d.(blockPath := m.hostPath, readOnly := m.readOnly, format := "raw",
           devname := if d.devname == "" then Base(m.taskPath) else d.devname)
  }

  predicate UsedBy(mounts: seq<Mount>, ds: seq<Disk>, m: Mount) {
    exists i :: 0 <= i < |ds| && IsNomad(ds[i]) && MountFor(mounts, ds[i].volumeName) == Some(m)
  }

  /** Those among ms that no disk uses, in order. */
  function NotUsed(mounts: seq<Mount>, ds: seq<Disk>, ms: seq<Mount>): seq<Mount> {
    if ms == [] then []
    else
      var last := ms[|ms| - 1];
      NotUsed(mounts, ds, ms[..|ms| - 1]) + if UsedBy(mounts, ds, last) then [] else [last]
  }

  /** A mount is handed back unless some Nomad disk took it. */
  lemma {:induction false} NotUsedExactly(mounts: seq<Mount>, ds: seq<Disk>, ms: seq<Mount>, m: Mount)
    ensures m in NotUsed(mounts, ds, ms) <==> m in ms && !UsedBy(mounts, ds, m)
  {
    if ms != [] {
      NotUsedExactly(mounts, ds, ms[..|ms| - 1], m);
      assert ms == ms[..|ms| - 1] + [ms[|ms| - 1]];
    }
  }

  lemma {:induction false} AllNotUsed(mounts: seq<Mount>, ds: seq<Disk>, ms: seq<Mount>)
    requires forall path :: MountFor(mounts, path).None?
    ensures NotUsed(mounts, ds, ms) == ms
  {
    if ms != [] {
      AllNotUsed(mounts, ds, ms[..|ms| - 1]);
      assert ms == ms[..|ms| - 1] + [ms[|ms| - 1]];
    }
  }

  /** The mounts by task path, later ones in place of earlier ones. */
  ghost predicate ByPath(mounts: seq<Mount>, byPath: map<string, Mount>) {
    forall path :: MountFor(mounts, path) == if path in byPath then Some(byPath[path]) else None
  }

  lemma ByPathNext(mounts: seq<Mount>, i: nat, byPath: map<string, Mount>)
    requires i < |mounts| && ByPath(mounts[..i], byPath)
    ensures HasPrefix(mounts[i].taskPath, DEV) ==> ByPath(mounts[..i + 1], byPath[mounts[i].taskPath := mounts[i]])
    ensures !HasPrefix(mounts[i].taskPath, DEV) ==> ByPath(mounts[..i + 1], byPath)
  {
    assert mounts[..i + 1][..i] == mounts[..i];
  }

  method MountsByPath(mounts: seq<Mount>) returns (byPath: map<string, Mount>)
    ensures ByPath(mounts, byPath)
  {
    byPath := map[];
    for i := 0 to |mounts|
      invariant ByPath(mounts[..i], byPath)
    {
      ByPathNext(mounts, i, byPath);
      if HasPrefix(mounts[i].taskPath, DEV) {
        byPath := byPath[mounts[i].taskPath := mounts[i]];
      }
    }
    assert mounts[..|mounts|] == mounts;
  }

  /** The mounts not in used, in order. */
  method Remaining(mounts: seq<Mount>, used: set<Mount>, ghost ds: seq<Disk>) returns (remain: seq<Mount>)
    requires forall m :: m in used <==> UsedBy(mounts, ds, m)
    ensures remain == NotUsed(mounts, ds, mounts)
  {
    remain := [];
    for i := 0 to |mounts|
      invariant remain == NotUsed(mounts, ds, mounts[..i])
    {
      assert mounts[..i + 1][..i] == mounts[..i];
      if mounts[i] !in used {
        remain := remain + [mounts[i]];
      }
    }
    assert mounts[..|mounts|] == mounts;
  }

  lemma UsedOneMore(mounts: seq<Mount>, ds: seq<Disk>, i: nat, m: Mount)
    requires i < |ds|
    ensures UsedBy(mounts, ds[..i + 1], m) <==>
            UsedBy(mounts, ds[..i], m) || (IsNomad(ds[i]) && MountFor(mounts, ds[i].volumeName) == Some(m))
  {
    var front, more := ds[..i], ds[..i + 1];
    assert more == front + [ds[i]];
    if UsedBy(mounts, front, m) {
      var j :| 0 <= j < i && IsNomad(front[j]) && MountFor(mounts, front[j].volumeName) == Some(m);
      assert more[j] == front[j];
    }
    assert more[i] == ds[i];
  }
}
