/** What makes a disk valid (virt/disks/config.go; storage pools' own checks in ceph.go, directory.go). */
module DiskCheck {
  import opened Wrappers
  import opened Bytes
  import opened Pools
  import opened DiskModel
  import opened DiskPlan
  import opened DiskPrepare

  /** The file system's answers: is it a file, is it under an allowed path, how large is it. */
  datatype Files = Files(isFile: string -> bool, allowed: string -> bool, size: string -> Option<nat>)

  predicate HasSource(d: Disk) {
    d.source.Some? && (d.source.value.volume != "" || d.source.value.image != "")
  }

  predicate CommonOK(files: Files, d: Disk) {
    && d.busType != "" && d.kind != "" && d.devname != ""
    && (HasImage(d) ==>
          files.isFile(d.source.value.image) && files.allowed(d.source.value.image)
          && d.source.value.volume == "" && d.source.value.format != "")
  }

  predicate NomadOK(d: Disk) {
    && (d.format == "" || d.format == "raw") && d.size == "" && d.sparse.None? && d.pool == "" && !d.chained
    && (d.source.Some? ==> d.source.value.volume == "") && d.blockPath != ""
  }

  /** The size of what the disk is made from; None if it cannot be told. */
  function Measured(ps: PoolSet, files: Files, volumes: map<Key, Stored>, d: Disk): Option<nat>
    requires HasSource(d) && PoolName(ps, d).Some?
  {
    if d.source.value.image != "" then files.size(d.source.value.image)
    else
      var key := (PoolName(ps, d).value, d.source.value.volume);
      if key in volumes then Some(volumes[key].capacity) else None
  }

  /** The pool's own rules. */
  predicate PoolOK(kind: PoolKind, d: Disk) {
    match kind
    case Ceph => d.format == "raw" && d.sparse != Some(false)
    case Directory => (d.format == "qcow2" || d.format == "raw") && (d.chained ==> d.format == "qcow2")
  }

  /** What can be said of a disk in a pool without asking the pool. */
  predicate OwnOK(d: Disk) {
    d.format != "" && d.size != "" && ValidBytesString(d.size) && (d.chained ==> HasSource(d))
  }

  predicate SourceOK(ps: PoolSet, files: Files, volumes: map<Key, Stored>, d: Disk)
    requires PoolName(ps, d).Some?
  {
    d.source.Some? ==>
      && HasSource(d) && Measured(ps, files, volumes, d).Some?
      && (Measured(ps, files, volumes, d).value > 0 ==>
            ValidBytesString(d.size) && Measured(ps, files, volumes, d).value <= MustToBytes(d.size).value)
  }

  predicate PooledOK(ps: PoolSet, files: Files, volumes: map<Key, Stored>, d: Disk) {
    && OwnOK(d) && PoolName(ps, d).Some? && SourceOK(ps, files, volumes, d)
    && PoolOK(ps.pools[PoolName(ps, d).value], d)
  }

  predicate DiskOK(ps: PoolSet, files: Files, volumes: map<Key, Stored>, d: Disk) {
    CommonOK(files, d) && if IsNomad(d) then NomadOK(d) else PooledOK(ps, files, volumes, d)
  }

  /** A size that does not parse is read all the same once the source turns out not to be empty. */
  predicate Panics(ps: PoolSet, files: Files, volumes: map<Key, Stored>, d: Disk) {
    && !IsNomad(d) && PoolName(ps, d).Some? && HasSource(d) && !ValidBytesString(d.size)
    && Measured(ps, files, volumes, d).Some? && Measured(ps, files, volumes, d).value > 0
  }

  /** Directory pools make their qcow2 disks sparse unless told otherwise. */
  function SparseSet(ps: PoolSet, d: Disk): Disk {
    if !IsNomad(d) && PoolName(ps, d).Some? && ps.pools[PoolName(ps, d).value].Directory?
       && d.sparse.None? && d.format == "qcow2"
    then d.(sparse := Some(true)) else d
  }

  ghost predicate AllValid(ps: PoolSet, files: Files, volumes: map<Key, Stored>, ds: seq<Disk>) {
    Primaries(ds) == 1 && forall i :: 0 <= i < |ds| ==> DiskOK(ps, files, volumes, ds[i])
  }

  ghost predicate SomePanics(ps: PoolSet, files: Files, volumes: map<Key, Stored>, ds: seq<Disk>) {
    exists i :: 0 <= i < |ds| && Panics(ps, files, volumes, ds[i])
  }

  /** What is known after the first k disks; more if libvirt does not fail. */
  ghost predicate Checked(ps: PoolSet, files: Files, volumes: map<Key, Stored>, ds: seq<Disk>, k: nat, ok: bool,
      healthy: bool)
    requires k <= |ds|
  {
    && (ok ==> forall j :: 0 <= j < k ==> DiskOK(ps, files, volumes, ds[j]))
    && (healthy ==> && (!ok ==> !AllValid(ps, files, volumes, ds))
                    && forall j :: 0 <= j < k ==> !Panics(ps, files, volumes, ds[j]))
  }

  lemma CheckedNext(ps: PoolSet, files: Files, volumes: map<Key, Stored>, ds: seq<Disk>, k: nat, ok: bool,
      healthy: bool, good: bool)
    requires k < |ds| && Checked(ps, files, volumes, ds, k, ok, healthy)
    requires good ==> DiskOK(ps, files, volumes, ds[k])
    requires healthy ==> (good <==> DiskOK(ps, files, volumes, ds[k])) && !Panics(ps, files, volumes, ds[k])
    ensures Checked(ps, files, volumes, ds, k + 1, ok && good, healthy)
  {
  }

  lemma VerdictOf(ps: PoolSet, files: Files, volumes: map<Key, Stored>, ds: seq<Disk>, ok: bool, healthy: bool)
    requires Checked(ps, files, volumes, ds, |ds|, ok, healthy)
    ensures ok && Primaries(ds) == 1 ==> AllValid(ps, files, volumes, ds)
    ensures healthy ==>
              !SomePanics(ps, files, volumes, ds) && (AllValid(ps, files, volumes, ds) ==> ok && Primaries(ds) == 1)
  {
  }

  datatype Verdict = Accepted | Rejected | HasPanicked

  datatype Check = Good | Bad | Panic

  method CheckCommon(files: Files, d: Disk) returns (ok: bool)
    ensures ok == CommonOK(files, d)
  {
    ok := d.busType != "" && d.kind != "" && d.devname != "";
    if d.source.Some? && d.source.value.image != "" {
      var image := d.source.value.image;
      if !files.isFile(image) {
        ok := false;
      }
      if !files.allowed(image) {
        ok := false;
      }
      if d.source.value.volume != "" {
        ok := false;
      }
      if d.source.value.format == "" {
        ok := false;
      }
    }
  }

  /** Nothing may be set that a Nomad volume settles. */
  method CheckNomad(d: Disk) returns (ok: bool)
    ensures ok == NomadOK(d)
  {
    ok := true;
    if d.format != "" && d.format != "raw" {
      ok := false;
    }
    if d.size != "" {
      ok := false;
    }
    if d.sparse.Some? {
      ok := false;
    }
    if d.pool != "" {
      ok := false;
    }
    if d.chained {
      ok := false;
    }
    if d.source.Some? && d.source.value.volume != "" {
      ok := false;
    }
    if d.blockPath == "" {
      ok := false;
    }
  }

  method CheckOwn(d: Disk) returns (ok: bool)
    ensures ok == OwnOK(d)
  {
    ok := d.format != "" && d.size != "";
    if d.size != "" && !ValidBytesString(d.size) {
      ok := false;
    }
    if d.chained && (d.source.None? || (d.source.value.volume == "" && d.source.value.image == "")) {
      ok := false;
    }
  }

  /** The size of what the disk is made from. */
  method Measure(s: Storage, files: Files, pool: string, d: Disk) returns (size: Option<nat>)
    requires PoolName(PoolsOf(s), d) == Some(pool) && HasSource(d)
    modifies s`calls
    ensures s.calls >= old(s.calls)
    ensures size.Some? || old(s.Healthy()) ==> size == Measured(PoolsOf(s), files, s.volumes, d)
  {
    if d.source.value.image != "" {
      size := files.size(d.source.value.image);
    } else {
      var vol := s.GetVolume(pool, d.source.value.volume);
      size := if vol.Failure? then None else Some(vol.value.size);
    }
  }

  /** The size of the disk against that of its source. */
  method CheckSource(s: Storage, files: Files, pool: string, d: Disk) returns (c: Check)
    requires PoolName(PoolsOf(s), d) == Some(pool) && !IsNomad(d)
    modifies s`calls
    ensures s.calls >= old(s.calls)
    ensures c.Good? ==> SourceOK(PoolsOf(s), files, s.volumes, d)
    ensures c.Panic? ==> Panics(PoolsOf(s), files, s.volumes, d)
    ensures old(s.Healthy()) ==>
              && (c.Panic? <==> Panics(PoolsOf(s), files, s.volumes, d))
              && (c.Good? <==> SourceOK(PoolsOf(s), files, s.volumes, d))
  {
    if d.source.None? {
      return Good;
    }
    if d.source.value.volume == "" && d.source.value.image == "" {
      return Bad;
    }
    var measured := Measure(s, files, pool, d);
    c := if measured.None? then Bad else Good;
    var size := if measured.None? then 0 else measured.value;
    if size > 0 {
      var limit := MustToBytes(d.size);
      if limit.None? {
        return Panic;
      }
      if size > limit.value {
        c := Bad;
      }
    }
  }

  method CheckPool(kind: PoolKind, d: Disk) returns (ok: bool, d': Disk)
    ensures ok == PoolOK(kind, d)
    ensures d' == if kind.Directory? && d.sparse.None? && d.format == "qcow2" then d.(sparse := Some(true)) else d
  {
    d', ok := d, true;
    match kind
    case Ceph =>
      if d.format != "raw" {
        ok := false;
      }
      if d.sparse.Some? && !d.sparse.value {
        ok := false;
      }
    case Directory =>
      if d.sparse.None? && d.format == "qcow2" {
        d' := d.(sparse := Some(true));
      }
      if d.format != "qcow2" && d.format != "raw" {
        ok := false;
      }
      if d.format != "qcow2" && d.chained {
        ok := false;
      }
  }

  /** A disk that lives in a pool. */
  method CheckPooled(s: Storage, files: Files, d: Disk) returns (c: Check, d': Disk)
    requires !IsNomad(d)
    modifies s`calls
    ensures s.calls >= old(s.calls)
    ensures c.Good? ==> PooledOK(PoolsOf(s), files, s.volumes, d)
    ensures c.Panic? ==> Panics(PoolsOf(s), files, s.volumes, d)
    ensures !c.Panic? ==> d' == SparseSet(PoolsOf(s), d)
    ensures old(s.Healthy()) ==>
              && (c.Panic? <==> Panics(PoolsOf(s), files, s.volumes, d))
              && (c.Good? <==> PooledOK(PoolsOf(s), files, s.volumes, d))
  {
    d' := d;
    var ok := CheckOwn(d);
    var pool := s.PoolFor(d.pool);
    if pool.None? {
      return Bad, d';
    }
    c := CheckSource(s, files, pool.value, d);
    if c.Panic? {
      return;
    }
    var accepted;
    accepted, d' := CheckPool(s.pools[pool.value], d);
    if !ok || !accepted {
      c := Bad;
    }
  }

  /** A disk on its own; whether it is the primary one is a matter of all disks together. */
  method CheckDisk(s: Storage, files: Files, d: Disk) returns (c: Check, d': Disk)
    modifies s`calls
    ensures s.calls >= old(s.calls)
    ensures c.Good? ==> DiskOK(PoolsOf(s), files, s.volumes, d)
    ensures c.Panic? ==> Panics(PoolsOf(s), files, s.volumes, d)
    ensures !c.Panic? ==> d' == SparseSet(PoolsOf(s), d)
    ensures old(s.Healthy()) ==>
              && (c.Panic? <==> Panics(PoolsOf(s), files, s.volumes, d))
              && (c.Good? <==> DiskOK(PoolsOf(s), files, s.volumes, d))
  {
    var ok := CheckCommon(files, d);
    d' := d;
    if d.volumeName != "" {
      var nomad := CheckNomad(d);
      c := if ok && nomad then Good else Bad;
      return;
    }
    c, d' := CheckPooled(s, files, d);
    if c.Good? && !ok {
      c := Bad;
    }
  }

  // ---- What it means -----------------------------------------------------------------------

  /** A pool's default format is the one format that is right for every disk in it, chained ones included. */
  lemma DefaultFormatIsRight(kind: PoolKind, d: Disk, format: string)
    requires d.sparse.None?
    ensures (forall chained :: PoolOK(kind, d.(format := format, chained := chained))) <==>
            format == DefaultFormat(kind)
  {
    assert PoolOK(kind, d.(format := format, chained := true)) <==> format == DefaultFormat(kind);
    assert kind.Directory? ==> PoolOK(kind, d.(format := "qcow2", chained := false));
  }

  /** A valid disk's size is a size, at least that of what it is made from. */
  lemma ValidSize(ps: PoolSet, files: Files, volumes: map<Key, Stored>, d: Disk)
    requires DiskOK(ps, files, volumes, d) && !IsNomad(d)
    ensures ToBytes(d.size).Success? && PoolName(ps, d).Some?
    ensures d.source.Some? ==> HasSource(d) && Measured(ps, files, volumes, d).Some?
                               && ToBytes(d.size).value >= Measured(ps, files, volumes, d).value
  {
  }
}
