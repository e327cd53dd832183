/**
 * The disks of a task from configuration to the removal of its domain (plugin/driver.go,
 * providers/libvirt/libvirt.go).
 */
module DiskLifecycle {
  import opened Wrappers
  import opened Text
  import opened Bytes
  import opened Pools
  import opened DiskNames
  import opened DiskNamesGiven
  import opened DiskModel
  import opened DiskMounts
  import opened DiskPlan
  import opened DiskPrepare
  import opened DiskCheck
  import opened DiskImages
  import opened DiskGenerate
  import opened DiskContents
  import opened Disks
  import opened Volumes

  // ---- Names -------------------------------------------------------------------------------

  /** The device names differ in any case. */
  ghost predicate CaseApart(ds: seq<Disk>) {
    forall i, j :: 0 <= i < j < |ds| ==> Lower(ds[i].devname) != Lower(ds[j].devname)
  }

  /**
   * Prepared disks have names that differ in any case, and so do the names of their volumes
   * differ; buses and names are those the disks came with, their bus types filled in.
   */
  lemma PreparedNamesDistinct(buses: seq<string>, names: seq<string>, now: seq<Disk>, task: string)
    requires |buses| == |names| == |now| && Devnames(now) == NamesAfter(buses, names, |names|)
    requires NamesWillDiffer(buses, names)
    ensures forall i :: 0 <= i < |now| ==> now[i].devname != ""
    ensures CaseApart(now)
    ensures forall i, j :: 0 <= i < j < |now| ==> VolumeName(task, now[i].devname) != VolumeName(task, now[j].devname)
  {
    GivenNamesDiffer(buses, names);
    VolumeNamesDistinct(task, Devnames(now));
    NamesOfDisks(now, task);
  }

  lemma NamesOfDisks(now: seq<Disk>, task: string)
    requires forall i :: 0 <= i < |now| ==> Devnames(now)[i] != ""
    requires forall i, j :: 0 <= i < j < |now| ==> Lower(Devnames(now)[i]) != Lower(Devnames(now)[j])
    requires forall i, j :: 0 <= i < j < |now| ==>
               VolumeName(task, Devnames(now)[i]) != VolumeName(task, Devnames(now)[j])
    ensures forall i :: 0 <= i < |now| ==> now[i].devname != ""
    ensures CaseApart(now)
    ensures forall i, j :: 0 <= i < j < |now| ==> VolumeName(task, now[i].devname) != VolumeName(task, now[j].devname)
  {
    assert forall i :: 0 <= i < |now| ==> Devnames(now)[i] == now[i].devname;
    forall i, j | 0 <= i < j < |now|
      ensures Lower(now[i].devname) != Lower(now[j].devname)
      ensures VolumeName(task, now[i].devname) != VolumeName(task, now[j].devname)
    {
      assert Devnames(now)[i] == now[i].devname && Devnames(now)[j] == now[j].devname;
    }
  }

  // ---- The pipeline ------------------------------------------------------------------------

  datatype Trouble = NotPrepared(refusal: Refusal) | NotValid | ValidationPanics | NotGenerated(refusal: Refusal)

  lemma AcceptedHaveSizes(ps: PoolSet, files: Files, volumes: map<Key, Stored>, was: seq<Disk>, now: seq<Disk>)
    requires AllValid(ps, files, volumes, was) && |now| == |was|
    requires forall i :: 0 <= i < |was| ==> now[i] == SparseSet(ps, was[i])
    ensures forall i :: 0 <= i < |now| && !IsNomad(now[i]) ==> ToBytes(now[i].size).Success?
  {
    forall i | 0 <= i < |now| && !IsNomad(now[i]) ensures ToBytes(now[i].size).Success? {
      ValidSize(ps, files, volumes, was[i]);
    }
  }

  /** The disks as they come to Prepare. */
  ghost predicate Configured(mounts: seq<Mount>, files: Files, paths: Paths, dirs: seq<string>, iso: Option<string>,
      was: seq<Disk>, now: seq<Disk>)
  {
    && |now| == |was| + (if iso.Some? then 1 else 0)
    && (forall i :: 0 <= i < |was| ==> now[i] == Located(files, paths, dirs, Mounted(mounts, was[i])))
    && (iso.Some? ==> now[|was|] == CloudInitDisk(iso.value))
  }

  /** Mounts, image files and the cloud-init disk. */
  method ConfigureDisks(ds: Disks, mounts: seq<Mount>, files: Files, paths: Paths, dirs: seq<string>,
      iso: Option<string>)
    returns (remain: seq<Mount>)
    modifies ds
    ensures remain == NotUsed(mounts, old(ds.list), mounts)
    ensures Configured(mounts, files, paths, dirs, iso, old(ds.list), ds.list)
  {
    remain := ds.ApplyMounts(mounts);
    ds.ResolveImages(files, paths, dirs);
    if iso.Some? {
      ds.ApplyCloudInit(iso.value);
    }
  }

  /** The volumes of prepared and checked disks are named for the names handed out. */
  lemma VolumesNamed(ps: PoolSet, volumes: map<Key, Stored>, task: string, done: seq<Disk>, ready: seq<Disk>,
      now: seq<Disk>)
    requires |ready| == |done| && AllGenerated(ps, volumes, task, ready, now)
    requires forall i :: 0 <= i < |ready| ==> ready[i] == SparseSet(ps, Marked(done)[i])
    ensures |VolumesOf(now)| == |done|
    ensures forall i :: 0 <= i < |done| ==> VolumesOf(now)[i].name == VolumeName(task, done[i].devname)
  {
    MarkedKeepsNames(done);
    VolumesOfGenerated(ps, volumes, task, ready, now);
    forall i | 0 <= i < |now| ensures VolumesOf(now)[i].name == VolumeName(task, done[i].devname) {
      assert GeneratedFrom(ps, volumes, task, ready[i], now[i]);
      assert Devnames(Marked(done))[i] == Devnames(done)[i];
    }
  }

  lemma VolumesDistinct(configured: seq<Disk>, done: seq<Disk>, task: string, vols: seq<Volume>)
    requires |done| == |configured|
    requires Devnames(done) == NamesAfter(Buses(configured), Devnames(configured), |configured|)
    requires NamesWillDiffer(Buses(configured), Devnames(configured))
    requires |vols| == |done| && forall i :: 0 <= i < |done| ==> vols[i].name == VolumeName(task, done[i].devname)
    ensures VolumesApart(vols) && CaseApart(done)
  {
    PreparedNamesDistinct(Buses(configured), Devnames(configured), done, task);
  }

  lemma ReadyNames(ps: PoolSet, done: seq<Disk>, ready: seq<Disk>)
    requires |ready| == |done| && forall i :: 0 <= i < |ready| ==> ready[i] == SparseSet(ps, Marked(done)[i])
    ensures forall i :: 0 <= i < |ready| ==> ready[i].devname == done[i].devname
  {
    MarkedKeepsNames(done);
    forall i | 0 <= i < |ready| ensures ready[i].devname == done[i].devname {
      assert Devnames(Marked(done))[i] == Devnames(done)[i];
    }
  }

  lemma SameNamesDiffer(a: seq<Disk>, b: seq<Disk>)
    requires |a| == |b| && forall i :: 0 <= i < |a| ==> a[i].devname == b[i].devname
    requires CaseApart(a)
    ensures CaseApart(b)
  {
    forall i, j | 0 <= i < j < |b| ensures Lower(b[i].devname) != Lower(b[j].devname) {
      assert a[i].devname == b[i].devname && a[j].devname == b[j].devname;
    }
  }

  /**
   * A task's disks, set up: every disk has its volume, every volume made was asked for and is filled
   * as the disk's configuration says, and one disk is booted from. Unless the names given make names
   * collide, no two disks or volumes share a name, and each volume is filled for its own disk.
   */
  ghost predicate SetUp(ps: PoolSet, tools: Tools, volumes: map<Key, Stored>, task: string, configured: seq<Disk>,
      ready: seq<Disk>, now: seq<Disk>, made: seq<Key>)
  {
    && |ready| == |now| == |configured| && AllGenerated(ps, volumes, task, ready, now)
    && (forall key :: key in made ==> Asked(ps, task, ready, key))
    && AllFilled(ps, tools, volumes, task, configured, ready, made) && Primaries(ready) == 1
    && (NamesWillDiffer(Buses(configured), Devnames(configured)) ==>
          && VolumesApart(VolumesOf(now)) && CaseApart(ready)
          && AllFilledEach(ps, tools, volumes, task, configured, ready, made))
  }

  ghost predicate VolumesApart(vols: seq<Volume>) {
    forall i, j :: 0 <= i < j < |vols| ==> vols[i].name != vols[j].name
  }

  lemma AllSetUp(ps: PoolSet, tools: Tools, mid: map<Key, Stored>, volumes: map<Key, Stored>, task: string,
      configured: seq<Disk>, done: seq<Disk>, ready: seq<Disk>, now: seq<Disk>, made: seq<Key>)
    requires |done| == |ready| == |now| && Midway(ps, tools, mid, configured, done, |done|)
    requires |configured| == |done| && Devnames(done) == NamesAfter(Buses(configured), Devnames(configured), |done|)
    requires forall i :: 0 <= i < |ready| ==> ready[i] == SparseSet(ps, Marked(done)[i])
    requires Grew(mid, made, volumes) && Halfway(ps, volumes, task, ready, now, |ready|, made)
    requires (forall key :: key in made ==> Asked(ps, task, ready, key)) && Primaries(ready) == 1
    ensures SetUp(ps, tools, volumes, task, configured, ready, now, made)
  {
    assert ready[..|ready|] == ready && now[..|now|] == now;
    TaskVolumesFilled(ps, tools, mid, volumes, task, configured, done, ready, now, made);
    if NamesWillDiffer(Buses(configured), Devnames(configured)) {
      VolumesNamed(ps, volumes, task, done, ready, now);
      VolumesDistinct(configured, done, task, VolumesOf(now));
      ReadyNames(ps, done, ready);
      SameNamesDiffer(done, ready);
      EachFilled(ps, tools, volumes, task, configured, ready, now, made);
    }
  }

  /** Prepares the disks and checks them. */
  method ReadyDisks(ds: Disks, s: Storage, h: ImageHandler, files: Files)
    returns (trouble: Option<Trouble>, ghost parents: seq<Key>, ghost done: seq<Disk>)
    modifies ds, s`calls, s`volumes, h`conversions
    ensures Grew(old(s.volumes), parents, s.volumes) && |ds.list| == |old(ds.list)|
    ensures trouble.None? ==>
              && |done| == |ds.list| && Devnames(done) == NamesAfter(Buses(old(ds.list)), Devnames(old(ds.list)),
                                                                     |done|)
              && Midway(PoolsOf(s), h.tools, s.volumes, old(ds.list), done, |done|)
              && (forall i :: 0 <= i < |done| ==> ds.list[i] == SparseSet(PoolsOf(s), Marked(done)[i]))
              && (forall i :: 0 <= i < |done| && !IsNomad(ds.list[i]) ==> ToBytes(ds.list[i].size).Success?)
              && Primaries(ds.list) == 1
  {
    var err;
    err, parents, done := ds.Prepare(s, h);
    if err.Some? {
      return Some(NotPrepared(err.value)), parents, done;
    }
    ghost var was := ds.list;
    var verdict := ds.Validate(s, files);
    if verdict.HasPanicked? {
      return Some(ValidationPanics), parents, done;
    }
    if verdict.Rejected? {
      return Some(NotValid), parents, done;
    }
    AcceptedHaveSizes(PoolsOf(s), files, s.volumes, was, ds.list);
    PrimariesAlike(was, ds.list);
    trouble := None;
  }

  /**
   * What starting a task does with its disks. Once they are accepted, making their volumes does
   * not panic; no two of the volumes share a name unless the names given make names collide.
   */
  method SetupDisks(ds: Disks, mounts: seq<Mount>, paths: Paths, dirs: seq<string>, iso: Option<string>, task: string,
      s: Storage, h: ImageHandler, files: Files)
    returns (r: Result<seq<Volume>, Trouble>, remain: seq<Mount>, ghost configured: seq<Disk>, ghost parents: seq<Key>,
             ghost mid: map<Key, Stored>, ghost made: seq<Key>, ghost ready: seq<Disk>)
    modifies ds, s`calls, s`volumes, h`conversions, h`writes
    ensures remain == NotUsed(mounts, old(ds.list), mounts)
    ensures Configured(mounts, files, paths, dirs, iso, old(ds.list), configured)
    ensures Grew(old(s.volumes), parents, mid) && Grew(mid, made, s.volumes)
    ensures r.Success? ==>
              && r.value == VolumesOf(ds.list)
              && SetUp(PoolsOf(s), h.tools, s.volumes, task, configured, ready, ds.list, made)
  {
    parents, made, ready := [], [], [];
    mid := s.volumes;
    GrewNot(mid);
    remain := ConfigureDisks(ds, mounts, files, paths, dirs, iso);
    configured := ds.list;
    ghost var done;
    var trouble;
    trouble, parents, done := ReadyDisks(ds, s, h, files);
    mid := s.volumes;
    GrewNot(mid);
    if trouble.Some? {
      return Failure(trouble.value), remain, configured, parents, mid, made, ready;
    }
    ready := ds.list;
    var out;
    out, made := ds.Generate(task, s, h);
    match out
    case Stopped(refusal) =>
      r := Failure(NotGenerated(refusal));
    case Done =>
      AllSetUp(PoolsOf(s), h.tools, mid, s.volumes, task, configured, done, ready, ds.list, made);
      var vols := ds.Volumes();
      r := Success(vols);
  }

  // ---- Setting up and destroying -----------------------------------------------------------

  lemma VolumesAreAsked(ps: PoolSet, volumes: map<Key, Stored>, task: string, was: seq<Disk>, now: seq<Disk>, key: Key)
    requires AllGenerated(ps, volumes, task, was, now)
    ensures Asked(ps, task, was, key) <==> exists v :: v in VolumesOf(now) && v.block == "" && (v.pool, v.name) == key
    ensures Asked(ps, task, was, key) ==> key in volumes
  {
    VolumesOfGenerated(ps, volumes, task, was, now);
    var vols := VolumesOf(now);
    forall i | 0 <= i < |was| ensures vols[i].block == "" <==> !IsNomad(was[i]) {
      assert GeneratedFrom(ps, volumes, task, was[i], now[i]);
    }
    forall i | 0 <= i < |was| && !IsNomad(was[i])
      ensures PoolName(ps, was[i]).Some? && (vols[i].pool, vols[i].name) == DiskKey(ps, task, was[i])
      ensures DiskKey(ps, task, was[i]) in volumes
    {
      assert GeneratedFrom(ps, volumes, task, was[i], now[i]);
    }
    if Asked(ps, task, was, key) {
      var i :| 0 <= i < |was| && !IsNomad(was[i]) && PoolName(ps, was[i]).Some? && DiskKey(ps, task, was[i]) == key;
      assert vols[i] in vols;
    }
  }

  /**
   * Destroying the domain made from generated disks takes the volumes back to what they were
   * before Generate exactly when Generate found none of its volumes there already. Parents, which
   * were there by then, stay either way unless a disk asked for one by its name.
   */
  lemma DestroyUndoesGenerateIff(ps: PoolSet, ceph: CephReplies, index: map<string, string>, task: string,
      was: seq<Disk>, now: seq<Disk>, before: map<Key, Stored>, added: seq<Key>, made: map<Key, Stored>,
      disks: seq<DomainDisk>, found: seq<Key>, after: map<Key, Stored>)
    requires AllGenerated(ps, made, task, was, now) && Grew(before, added, made)
    requires forall key :: key in added ==> Asked(ps, task, was, key)
    requires DisksOf(ps.pools, ceph, VolumesOf(now), disks) && OwnSources(ps.pools, ceph, VolumesOf(now))
    requires disks != [] ==> IsIndex(ps.pools, ceph, index)
    requires Discovered(index, disks) == Success(found) && after == made - KeySet(found)
    ensures after == before <==> forall key :: Asked(ps, task, was, key) ==> key !in before
    ensures forall key :: key in before && !Asked(ps, task, was, key) ==> key in after && after[key] == before[key]
  {
    var vols := VolumesOf(now);
    DestroyDeletesExactly(ps.pools, ceph, index, vols, disks, found, made, after);
    forall key ensures key in after <==> key in made && !Asked(ps, task, was, key) {
      VolumesAreAsked(ps, made, task, was, now, key);
    }
    if forall key :: Asked(ps, task, was, key) ==> key !in before {
      forall key ensures key in after <==> key in before {
      }
      assert after == before;
    } else {
      var key :| Asked(ps, task, was, key) && key in before;
      assert key !in after;
    }
  }

  /** A domain on the volumes of a task's disks. */
  method Attach(ds: Disks, s: Storage, ceph: CephReplies, vm: string)
    returns (provider: Option<Provider>, ghost disks: seq<DomainDisk>)
    ensures provider.Some? ==>
              && DisksOf(s.pools, ceph, VolumesOf(ds.list), disks)
              && fresh(provider.value) && provider.value.storage == s && provider.value.ceph == ceph
              && provider.value.domains == map[vm := disks]
  {
    disks := [];
    var vols := ds.Volumes();
    var made := DomainDisks(s.pools, ceph, vols);
    if made.Failure? {
      return None, disks;
    }
    disks := made.value;
    var p := new Provider(s, ceph, map[vm := made.value]);
    provider := Some(p);
  }

  /**
   * Making the volumes of a task and destroying its domain, both with success: the store is as
   * before exactly when none of the volumes was there already.
   */
  method CreateAndDestroy(ds: Disks, task: string, s: Storage, h: ImageHandler, ceph: CephReplies, vm: string,
      replies: Replies)
    returns (ok: bool)
    modifies ds, s`calls, s`volumes, h`conversions, h`writes
    ensures ok && OwnSources(s.pools, ceph, VolumesOf(ds.list)) ==>
              (s.volumes == old(s.volumes) <==>
               forall key :: Asked(PoolsOf(s), task, old(ds.list), key) ==> key !in old(s.volumes))
  {
    ghost var was, before := ds.list, s.volumes;
    var out;
    ghost var added, disks, found, index, deleted;
    out, added := ds.Generate(task, s, h);
    if !out.Done? {
      return false;
    }
    ghost var made := s.volumes;
    assert was[..|was|] == was && ds.list[..|ds.list|] == ds.list;
    var provider;
    provider, disks := Attach(ds, s, ceph, vm);
    if provider.None? {
      return false;
    }
    var err;
    err, found, index, deleted := provider.value.DestroyVM(vm, replies);
    ok := err.None?;
    if ok && OwnSources(s.pools, ceph, VolumesOf(ds.list)) {
      assert found[..|found|] == found;
      DestroyUndoesGenerateIff(PoolsOf(s), ceph, index, task, was, ds.list, before, added, made, disks, found,
                               s.volumes);
    }
  }

  /**
   * A volume that was there before the task: its disk gets it as it is, and it is gone when the
   * task's domain is destroyed.
   */
  method ExistingVolumeGoes(pool: string, task: string, size: string, content: Stored, h: ImageHandler, vm: string)
    returns (handed: nat, there: bool)
    requires pool != "" && ToBytes(size).Success?
    modifies h`conversions, h`writes
    ensures handed == content.capacity && !there
  {
    var key := (pool, VolumeName(task, "vda"));
    var s := new Storage(map[pool := Directory], Some(pool), k => None, AsAsked, map[key := content]);
    var d0 := Disk("vda", "qemu", "disk", "virtio", true, "", "raw", size, false, Some(false), false, None, pool, None,
                   "");
    var d, out;
    ghost var added;
    d, out, added := GenerateDisk(s, h, task, d0);
    handed := d.volume.value.size;
    DestroySingle(s, d.volume.value, vm);
    there := key in s.volumes;
  }
}
