/** Several tasks with one store (virt/disks/config.go, providers/libvirt/libvirt.go). */
module DiskTasks {
  import opened Wrappers
  import opened Text
  import opened Pools
  import opened DiskNames
  import opened DiskNamesGiven
  import opened DiskModel
  import opened DiskMounts
  import opened DiskPlan
  import opened DiskPrepare
  import opened DiskCheck
  import opened DiskImages
  import opened DiskGenerate
  import opened DiskContents
  import opened Disks
  import opened Volumes
  import opened DiskLifecycle

  // ---- Parents shared between tasks --------------------------------------------------------

  /** Every disk chained from an image, in a format as formats are named, is on its own image's contents. */
  ghost predicate AllOnOwnContents(ps: PoolSet, tools: Tools, before: map<Key, Stored>, l: Kept, was: seq<Disk>,
      now: seq<Disk>)
  {
    |was| == |now| &&
    forall i ::
      0 <= i < |was| && !IsNomad(was[i]) && was[i].chained && HasImage(was[i]) && '_' !in now[i].format ==>
        OnOwnContents(ps, tools, before, l, was[i], now[i])
  }

  /** Prepare as an event of a course: parents stay true to their names, whether it succeeds or not. */
  method PrepareKept(ds: Disks, s: Storage, h: ImageHandler, ghost k: Kept)
    returns (err: Option<Refusal>, ghost added: seq<Key>, ghost l: Kept)
    requires k.volumes == s.volumes && Digests(h.tools) && OwnIdentifiers(PoolsOf(s), h.tools, ds.list)
    modifies ds, s`calls, s`volumes, h`conversions
    ensures l.volumes == s.volumes && Happens(k, Preparing(PoolsOf(s), h.tools, old(ds.list), added), l)
    ensures TrueToNames(k) ==> TrueToNames(l)
    ensures TrueToNames(k) && err.None? ==>
              AllOnOwnContents(PoolsOf(s), h.tools, k.volumes, l, old(ds.list), ds.list)
  {
    ghost var was, done := ds.list, [];
    err, added, done := ds.Prepare(s, h);
    l := PrepareHappens(PoolsOf(s), h.tools, was, k, added, s.volumes);
    if TrueToNames(k) {
      EventKeeps(k, Preparing(PoolsOf(s), h.tools, was, added), l);
      if err.None? {
        AllChained(PoolsOf(s), h.tools, k, was, done, added, l);
      }
    }
  }

  lemma AllChained(ps: PoolSet, tools: Tools, k: Kept, was: seq<Disk>, done: seq<Disk>, added: seq<Key>, l: Kept)
    requires TrueToNames(k) && Happens(k, Preparing(ps, tools, was, added), l) && Whole(added, l.volumes)
    requires Midway(ps, tools, l.volumes, was, done, |was|)
    ensures AllOnOwnContents(ps, tools, k.volumes, l, was, Marked(done))
  {
    forall i
      | 0 <= i < |was| && !IsNomad(was[i]) && was[i].chained && HasImage(was[i]) && '_' !in Marked(done)[i].format
      ensures OnOwnContents(ps, tools, k.volumes, l, was[i], Marked(done)[i])
    {
      PreparedFormat(ps, tools, l.volumes, was, done, i);
      ChainedOnOwnContents(ps, tools, k, was, done, added, l, i);
    }
  }

  // ---- Volumes of different tasks ----------------------------------------------------------

  predicate NoUnderscores(ds: seq<Disk>) {
    forall i :: 0 <= i < |ds| ==> '_' !in ds[i].devname
  }

  /** Tasks of different names ask for no volume together. */
  lemma TasksApart(ps: PoolSet, a: string, xs: seq<Disk>, b: string, ys: seq<Disk>, key: Key)
    requires a != b && NoUnderscores(xs) && NoUnderscores(ys)
    ensures !Asked(ps, a, xs, key) || !Asked(ps, b, ys, key)
  {
    forall i, j | 0 <= i < |xs| && 0 <= j < |ys| ensures VolumeName(a, xs[i].devname) != VolumeName(b, ys[j].devname) {
      if VolumeName(a, xs[i].devname) == VolumeName(b, ys[j].devname) {
        VolumeNameTells(a, xs[i].devname, b, ys[j].devname);
      }
    }
  }

  /** Disks that were generated stay so while other volumes are added. */
  lemma AllGeneratedStay(ps: PoolSet, v: map<Key, Stored>, added: seq<Key>, w: map<Key, Stored>, task: string,
      was: seq<Disk>, now: seq<Disk>)
    requires AllGenerated(ps, v, task, was, now) && Grew(v, added, w)
    ensures AllGenerated(ps, w, task, was, now)
  {
    forall i | 0 <= i < |was| ensures GeneratedFrom(ps, w, task, was[i], now[i]) {
      GeneratedStays(ps, v, added, w, task, was[i], now[i]);
    }
  }

  /** A task that is generated after another gets each of its volumes new, unless it was there before both. */
  lemma SecondGetsItsOwn(ps: PoolSet, a: string, xs: seq<Disk>, b: string, ys: seq<Disk>, ys': seq<Disk>,
      before: map<Key, Stored>, first: seq<Key>, mid: map<Key, Stored>, second: seq<Key>, made: map<Key, Stored>)
    requires a != b && NoUnderscores(xs) && NoUnderscores(ys)
    requires Grew(before, first, mid) && forall key :: key in first ==> Asked(ps, a, xs, key)
    requires Grew(mid, second, made) && AllGenerated(ps, made, b, ys, ys')
    ensures forall key :: Asked(ps, b, ys, key) ==> key in made && (key in second <==> key !in before)
  {
    forall key | Asked(ps, b, ys, key) ensures key in made && (key in second <==> key !in before) {
      TasksApart(ps, a, xs, b, ys, key);
      VolumesAreAsked(ps, made, b, ys, ys', key);
    }
  }

  /** Destroying the domain of one task takes its volumes and leaves those of the other as they were. */
  lemma DestroyLeavesOthers(ps: PoolSet, ceph: CephReplies, index: map<string, string>, a: string, xs: seq<Disk>,
      xs': seq<Disk>, b: string, ys: seq<Disk>, ys': seq<Disk>, made: map<Key, Stored>, disks: seq<DomainDisk>,
      found: seq<Key>, after: map<Key, Stored>)
    requires a != b && NoUnderscores(xs) && NoUnderscores(ys)
    requires AllGenerated(ps, made, a, xs, xs') && AllGenerated(ps, made, b, ys, ys')
    requires DisksOf(ps.pools, ceph, VolumesOf(xs'), disks) && OwnSources(ps.pools, ceph, VolumesOf(xs'))
    requires disks != [] ==> IsIndex(ps.pools, ceph, index)
    requires Discovered(index, disks) == Success(found) && after == made - KeySet(found)
    ensures forall key :: Asked(ps, a, xs, key) ==> key !in after
    ensures forall key :: Asked(ps, b, ys, key) ==> key in made && key in after && after[key] == made[key]
  {
    DestroyDeletesExactly(ps.pools, ceph, index, VolumesOf(xs'), disks, found, made, after);
    forall key ensures key in after <==> key in made && !Asked(ps, a, xs, key) {
      VolumesAreAsked(ps, made, a, xs, xs', key);
    }
    forall key | Asked(ps, b, ys, key) ensures key in made && !Asked(ps, a, xs, key) {
      TasksApart(ps, a, xs, b, ys, key);
      VolumesAreAsked(ps, made, b, ys, ys', key);
    }
  }

  // ---- Two tasks ---------------------------------------------------------------------------

  /** A task's disks before and after Generate. */
  datatype Task = Task(name: string, was: seq<Disk>, now: seq<Disk>)

  ghost predicate Wants(ps: PoolSet, t: Task, key: Key) {
    Asked(ps, t.name, t.was, key)
  }

  /** The volumes of one task after another. */
  method GenerateBoth(x: Disks, a: string, y: Disks, b: string, s: Storage, h: ImageHandler)
    returns (ok: bool, ghost p: Task, ghost q: Task, ghost first: seq<Key>, ghost second: seq<Key>)
    requires x != y && a != b && NoUnderscores(x.list) && NoUnderscores(y.list)
    modifies x, y, s`calls, s`volumes, h`conversions, h`writes
    ensures p == Task(a, old(x.list), x.list) && q == Task(b, old(y.list), y.list)
    ensures ok ==>
              && AllGenerated(PoolsOf(s), s.volumes, a, p.was, p.now)
              && AllGenerated(PoolsOf(s), s.volumes, b, q.was, q.now)
              && (forall key :: Wants(PoolsOf(s), q, key) ==> (key in second <==> key !in old(s.volumes)))
              && (forall key :: key in second ==>
                    key in s.volumes && MadeForSome(PoolsOf(s), s.volumes, b, q.was, q.now, key))
  {
    ghost var before, xs, ys, mid := s.volumes, x.list, y.list, s.volumes;
    p, q, first, second := Task(a, xs, xs), Task(b, ys, ys), [], [];
    var out;
    out, first := x.Generate(a, s, h);
    p, mid := Task(a, xs, x.list), s.volumes;
    if !out.Done? {
      return false, p, q, first, second;
    }
    out, second := y.Generate(b, s, h);
    q := Task(b, ys, y.list);
    if !out.Done? {
      return false, p, q, first, second;
    }
    assert xs[..|xs|] == xs && ys[..|ys|] == ys && p.now[..|xs|] == p.now && q.now[..|ys|] == q.now;
    AllGeneratedStay(PoolsOf(s), mid, second, s.volumes, a, xs, p.now);
    SecondGetsItsOwn(PoolsOf(s), a, xs, b, ys, q.now, before, first, mid, second, s.volumes);
    ok := true;
  }

  /**
   * Two tasks of different names, their disks' names without underscores. No volume is asked for
   * by both; the second gets every volume new that was not there before both of them, filled for
   * it; and destroying the domain of either leaves all the volumes of the other as they were.
   */
  method TwoTasks(x: Disks, a: string, y: Disks, b: string, s: Storage, h: ImageHandler, ceph: CephReplies,
      vm: string, firstGoes: bool, replies: Replies)
    returns (ok: bool, ghost goes: Task, ghost stays: Task, ghost second: seq<Key>, ghost made: map<Key, Stored>)
    requires x != y && a != b && NoUnderscores(x.list) && NoUnderscores(y.list)
    modifies x, y, s`calls, s`volumes, h`conversions, h`writes
    ensures var p, q := Task(a, old(x.list), x.list), Task(b, old(y.list), y.list);
            if firstGoes then goes == p && stays == q else goes == q && stays == p
    ensures forall key :: !Wants(PoolsOf(s), goes, key) || !Wants(PoolsOf(s), stays, key)
    ensures ok ==>
              var q := if firstGoes then stays else goes;
              |q.was| == |q.now| && forall key :: Wants(PoolsOf(s), q, key) ==>
                && key in made && (key in second <==> key !in old(s.volumes))
                && (key in second ==> MadeForSome(PoolsOf(s), made, b, q.was, q.now, key))
    ensures ok && OwnSources(s.pools, ceph, VolumesOf(goes.now)) ==>
              && (forall key :: Wants(PoolsOf(s), goes, key) ==> key !in s.volumes)
              && (forall key :: Wants(PoolsOf(s), stays, key) ==>
                    key in made && key in s.volumes && s.volumes[key] == made[key])
  {
    ghost var p, q, first, disks, found, index, deleted;
    ok, p, q, first, second := GenerateBoth(x, a, y, b, s, h);
    goes, stays, made := if firstGoes then p else q, if firstGoes then q else p, s.volumes;
    forall key ensures !Wants(PoolsOf(s), goes, key) || !Wants(PoolsOf(s), stays, key) {
      TasksApart(PoolsOf(s), a, p.was, b, q.was, key);
    }
    if !ok {
      return;
    }
    var provider;
    provider, disks := DiskLifecycle.Attach(if firstGoes then x else y, s, ceph, vm);
    if provider.None? {
      return false, goes, stays, second, made;
    }
    var err;
    err, found, index, deleted := provider.value.DestroyVM(vm, replies);
    ok := err.None?;
    if ok && OwnSources(s.pools, ceph, VolumesOf(goes.now)) {
      assert found[..|found|] == found;
      DestroyLeavesOthers(PoolsOf(s), ceph, index, goes.name, goes.was, goes.now, stays.name, stays.was, stays.now,
                          made, disks, found, s.volumes);
    }
  }

  // ---- The domain of a task ----------------------------------------------------------------

  /** What the machine sees of a disk, and where its data is. */
  ghost predicate Shows(ps: PoolSet, task: string, d: Disk, disk: DomainDisk) {
    && disk.dev == d.devname && disk.bus == d.busType && disk.device == d.kind && disk.driver == d.driver
    && disk.boot == d.primary
    && if IsNomad(d) then
         disk.source == Some(BlockSource(d.blockPath)) && disk.format == (if d.format == "iso" then "raw" else d.format)
       else
         && PoolName(ps, d).Some?
         && disk.format == (if FormatOf(ps, d) == "iso" then "raw" else FormatOf(ps, d))
         && (ps.pools[PoolName(ps, d).value].Directory? ==>
               disk.source == Some(VolumeSource(PoolName(ps, d).value, task + "_" + d.devname + ".img")))
  }

  lemma DomainShows(ps: PoolSet, ceph: CephReplies, volumes: map<Key, Stored>, task: string, was: seq<Disk>,
      now: seq<Disk>, disks: seq<DomainDisk>)
    requires AllGenerated(ps, volumes, task, was, now) && DisksOf(ps.pools, ceph, VolumesOf(now), disks)
    ensures |disks| == |was| && forall i :: 0 <= i < |was| ==> Shows(ps, task, was[i], disks[i])
  {
    VolumesOfGenerated(ps, volumes, task, was, now);
    forall i | 0 <= i < |was| ensures Shows(ps, task, was[i], disks[i]) {
      assert GeneratedFrom(ps, volumes, task, was[i], now[i]);
      assert VolumeToDisk(ps.pools, ceph, now[i].volume.value) == Success(disks[i]);
    }
  }

  /** Exactly one disk is booted from. */
  ghost predicate BootsFromOne(disks: seq<DomainDisk>) {
    exists i :: 0 <= i < |disks| && disks[i].boot && forall j :: 0 <= j < |disks| && disks[j].boot ==> j == i
  }

  ghost predicate AllShow(ps: PoolSet, task: string, ds: seq<Disk>, disks: seq<DomainDisk>) {
    |disks| == |ds| && forall i :: 0 <= i < |ds| ==> Shows(ps, task, ds[i], disks[i])
  }

  lemma DomainSound(ps: PoolSet, ceph: CephReplies, volumes: map<Key, Stored>, task: string, was: seq<Disk>,
      now: seq<Disk>, disks: seq<DomainDisk>)
    requires AllGenerated(ps, volumes, task, was, now) && DisksOf(ps.pools, ceph, VolumesOf(now), disks)
    requires Primaries(was) == 1
    ensures AllShow(ps, task, was, disks) && BootsFromOne(disks)
    ensures CaseApart(was) ==>
              forall i, j :: 0 <= i < j < |disks| ==> Lower(disks[i].dev) != Lower(disks[j].dev)
  {
    DomainShows(ps, ceph, volumes, task, was, now, disks);
    var only := OnlyPrimary(was);
    assert Shows(ps, task, was[only], disks[only]);
    forall i | 0 <= i < |disks| ensures disks[i].dev == was[i].devname && disks[i].boot == was[i].primary {
      assert Shows(ps, task, was[i], disks[i]);
    }
  }

  /**
   * From configuration to the machine's disks: each disk shows as it was made ready, exactly one
   * is booted from, and unless the names given make names collide no two share a name.
   */
  method TaskDomain(ds: Disks, mounts: seq<Mount>, paths: Paths, dirs: seq<string>, iso: Option<string>, task: string,
      s: Storage, h: ImageHandler, files: Files, ceph: CephReplies)
    returns (disks: Option<seq<DomainDisk>>, ghost configured: seq<Disk>, ghost ready: seq<Disk>)
    modifies ds, s`calls, s`volumes, h`conversions, h`writes
    ensures Configured(mounts, files, paths, dirs, iso, old(ds.list), configured)
    ensures disks.Some? ==>
              |ready| == |configured| && AllShow(PoolsOf(s), task, ready, disks.value) && BootsFromOne(disks.value)
    ensures disks.Some? && NamesWillDiffer(Buses(configured), Devnames(configured)) ==>
              forall i, j :: 0 <= i < j < |disks.value| ==> Lower(disks.value[i].dev) != Lower(disks.value[j].dev)
  {
    var r, remain;
    ghost var parents, mid, made;
    r, remain, configured, parents, mid, made, ready := SetupDisks(ds, mounts, paths, dirs, iso, task, s, h, files);
    if r.Failure? {
      return None, configured, ready;
    }
    var shown := DomainDisks(s.pools, ceph, r.value);
    if shown.Failure? {
      return None, configured, ready;
    }
    DomainSound(PoolsOf(s), ceph, s.volumes, task, ready, ds.list, shown.value);
    disks := Some(shown.value);
  }
}
