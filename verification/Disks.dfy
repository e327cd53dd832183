/** The disks of a task: their mounts, preparation, validation and generation (virt/disks/config.go). */
module Disks {
  import opened Wrappers
  import opened Bytes
  import opened Pools
  import opened DiskModel
  import opened DiskMounts
  import opened DiskPlan
  import opened DiskPrepare
  import opened DiskCheck
  import opened DiskImages
  import opened DiskGenerate

  class Disks {
    var list: seq<Disk>

    constructor (list: seq<Disk>)
      ensures this.list == list
    {
      this.list := list;
    }

    /**
     * Disks that are Nomad volumes take up the last mount for their volume's path under /dev/;
     * the mounts nobody took are handed back in order.
     */
    method ApplyMounts(mounts: seq<Mount>) returns (remain: seq<Mount>)
      modifies this
      ensures |list| == |old(list)| && forall i :: 0 <= i < |list| ==> list[i] == Mounted(mounts, old(list)[i])
      ensures remain == NotUsed(mounts, old(list), mounts)
    {
      var byPath := MountsByPath(mounts);
      ghost var was := list;
      if |byPath| == 0 {
        AllNotUsed(mounts, list, mounts);
        return mounts;
      }
      var used: set<Mount> := {};
      for i := 0 to |list|
        invariant |list| == |was| && forall j :: 0 <= j < |list| ==>
                    list[j] == if j < i then Mounted(mounts, was[j]) else was[j]
        invariant forall m :: m in used <==> UsedBy(mounts, was[..i], m)
      {
        forall m ensures UsedBy(mounts, was[..i + 1], m) <==>
                         UsedBy(mounts, was[..i], m)
                         || (IsNomad(was[i]) && MountFor(mounts, was[i].volumeName) == Some(m)) {
          UsedOneMore(mounts, was, i, m);
        }
        var d := list[i];
        if d.volumeName == "" || d.volumeName !in byPath {
          continue;
        }
        var m := byPath[d.volumeName];
        used := used + {m};
        d := d.(blockPath := m.hostPath, readOnly := m.readOnly, format := "raw");
        if d.devname == "" {
          d := d.(devname := Base(m.taskPath));
        }
        list := list[i := d];
      }
      assert was[..|was|] == was;
      remain := Remaining(mounts, used, was);
    }

    method ResolveImages(files: Files, paths: Paths, dirs: seq<string>)
      modifies this
      ensures |list| == |old(list)| && forall i :: 0 <= i < |list| ==>
                list[i] == Located(files, paths, dirs, old(list)[i])
    {
      ghost var was := list;
      for i := 0 to |list|
        invariant |list| == |was|
        invariant forall j :: 0 <= j < |list| ==>
                    list[j] == if j < i then Located(files, paths, dirs, was[j]) else was[j]
      {
        var d := list[i];
        if d.source.None? {
          continue;
        }
        var image := Resolve(files, paths, dirs, d.source.value.image);
        list := list[i := d.(source := Some(d.source.value.(image := image)))];
      }
    }

    method ApplyCloudInit(iso: string)
      modifies this
      ensures list == old(list) + [CloudInitDisk(iso)]
      ensures var d := list[|old(list)|];
              && d.kind == "cdrom" && d.busType == "scsi" && d.format == "raw" && d.readOnly && !d.primary && !d.chained
              && d.source == Some(Source(iso, "raw", "", "")) && !IsNomad(d)
    {
      list := list + [CloudInitDisk(iso)];
    }

    /**
     * How far the loop of Prepare has come: was is what the list started as, v0 and k0 what volumes
     * and how many conversions there were, added what has been added since.
     */
    ghost predicate Underway(s: Storage, h: ImageHandler, was: seq<Disk>, v0: map<Key, Stored>, k0: nat, i: nat,
        added: seq<Key>, healthy: bool)
      reads this, s, h
    {
      && Midway(PoolsOf(s), h.tools, s.volumes, was, list, i)
      && AddedParents(PoolsOf(s), h.tools, v0, was, added, s.volumes) && Whole(added, s.volumes)
      && Accounted(PoolsOf(s), h, k0, v0.Keys, was, i, |h.conversions|, s.volumes.Keys, healthy)
      && (healthy ==> s.Healthy())
    }

    /** One round of Prepare on the list. */
    method PrepareAt(s: Storage, h: ImageHandler, i: nat, ghost was: seq<Disk>, ghost v0: map<Key, Stored>,
        ghost k0: nat, ghost sofar: seq<Key>, ghost healthy: bool)
      returns (err: Option<Refusal>, ghost added: seq<Key>)
      requires i < |list| && Underway(s, h, was, v0, k0, i, sofar, healthy)
      modifies this, s`calls, s`volumes, h`conversions
      ensures i < |list| && list == old(list)[i := list[i]]
      ensures AddedParents(PoolsOf(s), h.tools, v0, was, added, s.volumes)
      ensures err.None? ==> Underway(s, h, was, v0, k0, i + 1, added, healthy)
      ensures healthy && err.Some? ==> !AllPreparable(PoolsOf(s), h, k0, v0.Keys, was, |was|)
      ensures Settled(PoolsOf(s), h.tools, old(list)[i]) ==>
                err.None? && list == old(list) && added == sofar && h.conversions == old(h.conversions)
    {
      assert list[i] == list[i..][0] == was[i..][0] == was[i];
      ghost var before, now, made := s.volumes, list, |h.conversions|;
      var d;
      ghost var more;
      d, err, more := PrepareDisk(s, h, list, list[i]);
      added := sofar + more;
      ParentsGrow(PoolsOf(s), h.tools, v0, was, sofar, before, more, s.volumes, i);
      list := list[i := d];
      if err.None? {
        OneMore(PoolsOf(s), h.tools, before, more, s.volumes, was, now, i, d);
      }
      OneAccounted(PoolsOf(s), h, k0, v0.Keys, was, i, made, before.Keys, healthy,
                   err.None?, |h.conversions|, s.volumes.Keys);
    }

    /** The loop of Prepare, with the count of disks marked primary and the disks to boot from. */
    method PrepareAll(s: Storage, h: ImageHandler)
      returns (err: Option<Refusal>, primaryFound: bool, valid: seq<nat>, ghost added: seq<Key>)
      modifies this, s`calls, s`volumes, h`conversions
      ensures |list| == |old(list)|
      ensures AddedParents(PoolsOf(s), h.tools, old(s.volumes), old(list), added, s.volumes)
      ensures err.None? ==>
                && Midway(PoolsOf(s), h.tools, s.volumes, old(list), list, |list|) && Whole(added, s.volumes)
                && primaryFound == (Primaries(list) > 0) && valid == Bootable(list)
      ensures old(AllSettled(PoolsOf(s), h.tools, list)) ==>
                err.None? && list == old(list) && added == [] && h.conversions == old(h.conversions)
      ensures err.None? ==> s.volumes.Keys == KeysAfter(PoolsOf(s), h.tools, old(s.volumes).Keys, old(list), |list|)
      ensures old(s.Healthy()) ==>
                (err.None? <==>
                 AllPreparable(PoolsOf(s), h, |old(h.conversions)|, old(s.volumes).Keys, old(list), |list|))
    {
      err, added, primaryFound, valid := None, [], false, [];
      GrewNot(s.volumes);
      ghost var was, v0 := list, s.volumes;
      ghost var k0, healthy := |h.conversions|, s.Healthy();
      ghost var ready := AllSettled(PoolsOf(s), h.tools, list);
      for i := 0 to |list|
        invariant |list| == |was| && err.None? && Underway(s, h, was, v0, k0, i, added, healthy)
        invariant ready ==> list == was && added == [] && h.conversions == old(h.conversions)
        invariant primaryFound == (Primaries(list[..i]) > 0) && valid == Bootable(list[..i])
      {
        ghost var now := list;
        assert ready ==> Settled(PoolsOf(s), h.tools, list[i]);
        err, added := PrepareAt(s, h, i, was, v0, k0, added, healthy);
        if err.Some? {
          return;
        }
        CountOneMore(now, list, i);
        if list[i].primary {
          primaryFound := true;
        }
        if list[i].kind != "cdrom" {
          valid := valid + [i];
        }
      }
      assert list[..|list|] == list;
    }

    /**
     * Success leaves every disk prepared from what it was, under the names handed out in order,
     * and nothing more to prepare. Volumes are only added, each once, none that was there, and
     * only as parents of disks to be chained. Disks that need nothing are left alone, and so are
     * the storage and the images.
     */
    method Prepare(s: Storage, h: ImageHandler)
      returns (err: Option<Refusal>, ghost added: seq<Key>, ghost done: seq<Disk>)
      modifies this, s`calls, s`volumes, h`conversions
      ensures |list| == |old(list)|
      ensures AddedParents(PoolsOf(s), h.tools, old(s.volumes), old(list), added, s.volumes)
      ensures err.None? ==>
                && list == Marked(done) && Midway(PoolsOf(s), h.tools, s.volumes, old(list), done, |list|)
                && Whole(added, s.volumes) && AllSettled(PoolsOf(s), h.tools, list)
      ensures old(AllSettled(PoolsOf(s), h.tools, list) && Marked(list) == list) ==>
                err.None? && list == old(list) && added == [] && h.conversions == old(h.conversions)
      ensures err.None? ==> s.volumes.Keys == KeysAfter(PoolsOf(s), h.tools, old(s.volumes).Keys, old(list), |list|)
      ensures old(s.Healthy()) ==>
                (err.None? <==>
                 AllPreparable(PoolsOf(s), h, |old(h.conversions)|, old(s.volumes).Keys, old(list), |list|))
    {
      var primaryFound, valid;
      err, primaryFound, valid, added := PrepareAll(s, h);
      done := list;
      if err.None? {
        assert list[..|list|] == list;
        MarkedSettled(PoolsOf(s), h.tools, list);
        MarkPrimary(primaryFound, valid);
      }
    }

    method MarkPrimary(primaryFound: bool, valid: seq<nat>)
      requires primaryFound == (Primaries(list) > 0) && valid == Bootable(list)
      modifies this
      ensures list == Marked(old(list))
    {
      BootableAre(list);
      if !primaryFound && |valid| == 1 {
        assert valid[0] in valid;
        list := list[valid[0] := list[valid[0]].(primary := true)];
      }
    }

    /**
     * Accepted disks are valid and exactly one is primary; when libvirt does not fail, all such
     * disks are accepted. A panic comes from a size that does not parse.
     */
    method Validate(s: Storage, files: Files) returns (v: Verdict)
      modifies this, s`calls
      ensures |list| == |old(list)|
      ensures !v.HasPanicked? ==> forall i :: 0 <= i < |list| ==> list[i] == SparseSet(PoolsOf(s), old(list)[i])
      ensures v.Accepted? ==> AllValid(PoolsOf(s), files, s.volumes, old(list))
      ensures v.HasPanicked? ==> SomePanics(PoolsOf(s), files, s.volumes, old(list))
      ensures old(s.Healthy()) ==>
                && (v.HasPanicked? <==> SomePanics(PoolsOf(s), files, s.volumes, old(list)))
                && (v.Accepted? ==> !SomePanics(PoolsOf(s), files, s.volumes, old(list)))
                && (AllValid(PoolsOf(s), files, s.volumes, old(list)) ==> v.Accepted?)
    {
      var ok, primaries := true, 0;
      ghost var was, healthy := list, s.Healthy();
      for i := 0 to |list|
        invariant |list| == |was| && s.calls >= old(s.calls)
        invariant forall j :: 0 <= j < |list| ==> list[j] == if j < i then SparseSet(PoolsOf(s), was[j]) else was[j]
        invariant primaries == Primaries(was[..i])
        invariant Checked(PoolsOf(s), files, s.volumes, was, i, ok, healthy)
      {
        assert was[..i + 1][..i] == was[..i];
        if list[i].primary {
          primaries := primaries + 1;
        }
        var c, d := CheckDisk(s, files, list[i]);
        list := list[i := d];
        if c.Panic? {
          return HasPanicked;
        }
        CheckedNext(PoolsOf(s), files, s.volumes, was, i, ok, healthy, c.Good?);
        ok := ok && c.Good?;
      }
      assert was[..|was|] == was;
      VerdictOf(PoolsOf(s), files, s.volumes, was, ok, healthy);
      v := if ok && primaries == 1 then Accepted else Rejected;
    }

    /** One round of Generate on the list. */
    method GenerateAt(task: string, s: Storage, h: ImageHandler, i: nat, ghost t0: Tally, ghost was: seq<Disk>,
        ghost sofar: seq<Key>, ghost t: Tally, ghost healthy: bool)
      returns (out: Outcome, ghost added: seq<Key>, ghost u: Tally)
      requires SoFar(PoolsOf(s), h, task, t0, was, list, i, sofar, t, healthy) && i < |list|
      requires t == TallyOf(s, h) && (healthy ==> s.Healthy())
      modifies this, s`calls, s`volumes, h`conversions, h`writes
      ensures |list| == |old(list)| && u == TallyOf(s, h) && (healthy ==> s.Healthy())
      ensures Added(PoolsOf(s), task, t0, was, added, u)
      ensures out.Done? ==> SoFar(PoolsOf(s), h, task, t0, was, list, i + 1, added, u, healthy)
      ensures out.Panicked? ==> !IsNomad(was[i]) && ToBytes(was[i].size).Failure?
      ensures healthy && !out.Done? ==> !AllGeneratable(PoolsOf(s), h, task, t0, was, |was|)
    {
      assert list[i] == list[i..][0] == was[i..][0] == was[i];
      ghost var now := list;
      var d;
      ghost var more;
      d, out, more := GenerateDisk(s, h, task, list[i]);
      added, u := sofar + more, TallyOf(s, h);
      list := list[i := d];
      AddedNext(PoolsOf(s), task, t0, was, i, sofar, t, more, u);
      SoFarNext(PoolsOf(s), h, task, t0, was, now, i, sofar, t, healthy, out.Done?, d, more, u);
    }

    /**
     * Success gives every disk its volume, and every volume added is large enough and made from
     * what its disk asked for. No disk with a valid size makes it panic. Without faults it succeeds
     * exactly when every disk in turn can be generated.
     */
    method Generate(task: string, s: Storage, h: ImageHandler) returns (out: Outcome, ghost added: seq<Key>)
      modifies this, s`calls, s`volumes, h`conversions, h`writes
      ensures |list| == |old(list)| && Grew(old(s.volumes), added, s.volumes)
      ensures forall key :: key in added ==> Asked(PoolsOf(s), task, old(list), key)
      ensures out.Done? ==> Halfway(PoolsOf(s), s.volumes, task, old(list), list, |list|, added)
      ensures out.Panicked? ==>
                exists i :: 0 <= i < |list| && !IsNomad(old(list)[i]) && ToBytes(old(list)[i].size).Failure?
      ensures old(s.Healthy()) ==>
                (out.Done? <==> AllGeneratable(PoolsOf(s), h, task, old(TallyOf(s, h)), old(list), |list|))
    {
      ghost var was, t0 := list, TallyOf(s, h);
      ghost var t;
      out, added, t := GenerateAll(task, s, h, t0, s.Healthy());
    }

    /** The loop of Generate. */
    method GenerateAll(task: string, s: Storage, h: ImageHandler, ghost t0: Tally, ghost healthy: bool)
      returns (out: Outcome, ghost added: seq<Key>, ghost t: Tally)
      requires t0 == TallyOf(s, h) && (healthy ==> s.Healthy())
      modifies this, s`calls, s`volumes, h`conversions, h`writes
      ensures |list| == |old(list)| && t == TallyOf(s, h) && Added(PoolsOf(s), task, t0, old(list), added, t)
      ensures out.Done? ==> SoFar(PoolsOf(s), h, task, t0, old(list), list, |list|, added, t, healthy)
      ensures out.Panicked? ==>
                exists i :: 0 <= i < |list| && !IsNomad(old(list)[i]) && ToBytes(old(list)[i].size).Failure?
      ensures healthy && !out.Done? ==> !AllGeneratable(PoolsOf(s), h, task, t0, old(list), |list|)
    {
      ghost var was := list;
      added, t := [], t0;
      NothingSoFar(PoolsOf(s), h, task, t0, was, healthy);
      for i := 0 to |list|
        invariant |list| == |was| && t == TallyOf(s, h) && (healthy ==> s.Healthy())
        invariant SoFar(PoolsOf(s), h, task, t0, was, list, i, added, t, healthy)
      {
        out, added, t := GenerateAt(task, s, h, i, t0, was, added, t, healthy);
        if !out.Done? {
          return;
        }
      }
      out := Done;
    }

    method Volumes() returns (vols: seq<Volume>)
      ensures vols == VolumesOf(list)
    {
      vols := [];
      for i := 0 to |list|
        invariant vols == VolumesOf(list[..i])
      {
        assert list[..i + 1][..i] == list[..i];
        if list[i].volume.Some? {
          vols := vols + [list[i].volume.value];
        }
      }
      assert list[..|list|] == list;
    }

    /** Preparing disks that need nothing. */
    method PrepareAgain(s: Storage, h: ImageHandler) returns (err: Option<Refusal>)
      requires AllSettled(PoolsOf(s), h.tools, list) && Marked(list) == list
      modifies this, s`calls, s`volumes, h`conversions
      ensures err.None? && list == old(list) && s.volumes == old(s.volumes) && h.conversions == old(h.conversions)
    {
      ghost var added, done;
      err, added, done := Prepare(s, h);
    }

    /** Preparing once more changes no disk, converts no image and adds no volume. */
    method PrepareTwice(s: Storage, h: ImageHandler)
      returns (first: Option<Refusal>, second: Option<Refusal>, ghost ds: seq<Disk>, ghost vols: map<Key, Stored>,
          ghost cs: seq<Conversion>)
      modifies this, s`calls, s`volumes, h`conversions
      ensures first.None? ==> second.None? && list == ds && s.volumes == vols && h.conversions == cs
    {
      ghost var added, done;
      first, added, done := Prepare(s, h);
      ds, vols, cs := list, s.volumes, h.conversions;
      second := first;
      if first.None? {
        MarkedIsMarked(done);
        second := PrepareAgain(s, h);
      }
    }
  }
}
