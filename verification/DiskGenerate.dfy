/** Making the volumes for a task's disks (virt/disks/config.go). */
module DiskGenerate {
  import opened Wrappers
  import opened Bytes
  import opened Pools
  import opened DiskNames
  import opened DiskModel
  import opened DiskPlan
  import opened DiskPrepare

  datatype Outcome = Done | Stopped(refusal: Refusal) | Panicked

  /** What is asked of the pool for a disk. */
  function OptionsFor(d: Disk, size: nat): Options
    requires d.sparse.Some?
  {
    Options(d.chained, d.sparse.value, size, d.format,
            if d.source.Some? then d.source.value.image else "", if d.source.Some? then d.source.value.volume else "")
  }

  function DiskKey(ps: PoolSet, task: string, d: Disk): Key
    requires PoolName(ps, d).Some?
  {
    (PoolName(ps, d).value, VolumeName(task, d.devname))
  }

  /** The volume carries what its attachment needs to know. */
  predicate Attached(d: Disk, v: Volume) {
    v.format == d.format && v.kind == d.kind && v.driver == d.driver && v.deviceName == d.devname
    && v.busType == d.busType && v.primary == d.primary
  }

  /** The disk with its format and sparseness settled. */
  function Settle(ps: PoolSet, d: Disk): Disk
    requires PoolName(ps, d).Some?
  {
    d.(format := FormatOf(ps, d), sparse := if d.sparse.None? then Some(false) else d.sparse)
  }

  predicate GeneratedFrom(ps: PoolSet, volumes: map<Key, Stored>, task: string, d0: Disk, d: Disk) {
    && d.volume.Some? && Attached(d, d.volume.value) && d.volume.value.name == VolumeName(task, d0.devname)
    && if IsNomad(d0) then
         d == d0.(volume := d.volume) && d.blockPath != "" && d.volume.value.block == d.blockPath
       else
         && PoolName(ps, d0).Some? && d == Settle(ps, d0).(volume := d.volume)
         && d.volume.value.pool == PoolName(ps, d0).value && d.volume.value.block == ""
         && DiskKey(ps, task, d0) in volumes && d.volume.value.size == volumes[DiskKey(ps, task, d0)].capacity
  }

  /** What the contents of a disk's new volume come from. */
  predicate MadeOf(kind: PoolKind, d: Disk, origin: Origin) {
    match d.source
    case None => origin == Blank
    case Some(s) =>
      && (s.volume == "" && s.image == "" ==> origin == Blank)
      && (s.volume == "" && s.image != "" ==> origin == Image(s.image))
      && (s.volume != "" && !d.chained ==> origin == CopyOf(s.volume))
      && (s.volume != "" && d.chained && s.image == "" ==> origin == BackedBy(s.volume))
      && (s.volume != "" && d.chained && s.image != "" ==>
            origin == if kind.Ceph? then BackedBy(s.volume) else Image(s.image))
  }

  /**
   * A volume made for a disk is at least as large as asked, and just so if it need not take its
   * space at once; it is made from what was asked, and in the disk's format unless that is told
   * by what was put into it.
   */
  predicate MadeFor(kind: PoolKind, made: Stored, d: Disk) {
    && d.sparse.Some? && ToBytes(d.size).Success? && made.capacity >= ToBytes(d.size).value
    && (d.sparse.value || kind.Ceph? ==> made.capacity == ToBytes(d.size).value)
    && MadeOf(kind, d, made.origin)
    && (made.origin.BackedBy? || made.origin.Blank? ==> made.format == d.format)
  }

  /** What it takes to write the image of a Nomad volume, after k conversions and w writes. */
  predicate Writable(h: ImageHandler, k: nat, w: nat, d: Disk) {
    d.blockPath != "" &&
    (HasImage(d) ==>
       && (d.format == d.source.value.format ||
           h.tools.converted(k, Conversion(d.source.value.image, d.source.value.format, d.format)).Some?)
       && !h.writeFaults(w))
  }

  /** What it takes to get the disk its volume when libvirt does not fail. */
  predicate Generatable(ps: PoolSet, h: ImageHandler, task: string, k: nat, w: nat, volumes: map<Key, Stored>,
      d: Disk)
  {
    if IsNomad(d) then Writable(h, k, w, d)
    else
      && PoolName(ps, d).Some? && ToBytes(d.size).Success?
      && Addable(ps.pools[PoolName(ps, d).value], volumes, PoolName(ps, d).value, VolumeName(task, d.devname),
                 OptionsFor(Settle(ps, d), ToBytes(d.size).value))
  }

  /** What has been done so far: how many conversions and writes, and the volumes there are. */
  datatype Tally = Tally(conversions: nat, writes: nat, volumes: map<Key, Stored>)

  /** The tally with one more disk generated; of a new volume only its size on Ceph is foreseen. */
  function After(ps: PoolSet, task: string, t: Tally, d: Disk): Tally {
    if IsNomad(d) then
      if !HasImage(d) then t
      else t.(conversions := t.conversions + (if d.format == d.source.value.format then 0 else 1),
              writes := t.writes + 1)
    else if PoolName(ps, d).None? || ToBytes(d.size).Failure? || DiskKey(ps, task, d) in t.volumes then t
    else t.(volumes := t.volumes[DiskKey(ps, task, d) := Stored("", "", ToBytes(d.size).value, 0, Blank)])
  }

  function AfterAll(ps: PoolSet, task: string, t: Tally, ds: seq<Disk>, n: nat): Tally
    requires n <= |ds|
  {
    if n == 0 then t else After(ps, task, AfterAll(ps, task, t, ds, n - 1), ds[n - 1])
  }

  /** Each of the first n disks can be generated once those before it are. */
  predicate AllGeneratable(ps: PoolSet, h: ImageHandler, task: string, t: Tally, ds: seq<Disk>, n: nat)
    requires n <= |ds|
  {
    n == 0 ||
    (AllGeneratable(ps, h, task, t, ds, n - 1) &&
     var u := AfterAll(ps, task, t, ds, n - 1);
     Generatable(ps, h, task, u.conversions, u.writes, u.volumes, ds[n - 1]))
  }

  /** The same volumes, and of the same sizes on Ceph. */
  ghost predicate Alike(ps: PoolSet, v: map<Key, Stored>, w: map<Key, Stored>) {
    && v.Keys == w.Keys
    && forall key :: key in v && key.0 in ps.pools && ps.pools[key.0].Ceph? ==> v[key].capacity == w[key].capacity
  }

  ghost predicate Tallied(ps: PoolSet, conversions: nat, writes: nat, volumes: map<Key, Stored>, t: Tally) {
    conversions == t.conversions && writes == t.writes && Alike(ps, volumes, t.volumes)
  }

  /** What can be generated is seen from the tally. */
  lemma GeneratableAlike(ps: PoolSet, h: ImageHandler, task: string, v: map<Key, Stored>, t: Tally, d: Disk)
    requires Alike(ps, v, t.volumes)
    ensures Generatable(ps, h, task, t.conversions, t.writes, v, d) <==>
            Generatable(ps, h, task, t.conversions, t.writes, t.volumes, d)
    ensures Alike(ps, After(ps, task, t.(volumes := v), d).volumes, After(ps, task, t, d).volumes)
  {
  }

  lemma {:induction false} FewerGeneratable(ps: PoolSet, h: ImageHandler, task: string, t: Tally, ds: seq<Disk>,
      m: nat, n: nat)
    requires m <= n <= |ds| && AllGeneratable(ps, h, task, t, ds, n)
    ensures AllGeneratable(ps, h, task, t, ds, m)
    decreases n
  {
    if m < n {
      FewerGeneratable(ps, h, task, t, ds, m, n - 1);
    }
  }

  /** One more disk of the list: done, it is tallied; not done, the list cannot be generated. */
  lemma OneTallied(ps: PoolSet, h: ImageHandler, task: string, t: Tally, ds: seq<Disk>, n: nat, before: Tally,
      after: Tally, healthy: bool, done: bool)
    requires n < |ds| && Tallied(ps, before.conversions, before.writes, before.volumes, AfterAll(ps, task, t, ds, n))
    requires done ==>
               Tallied(ps, after.conversions, after.writes, after.volumes, After(ps, task, before, ds[n]))
    requires healthy ==>
               && AllGeneratable(ps, h, task, t, ds, n)
               && (done <==> Generatable(ps, h, task, before.conversions, before.writes, before.volumes, ds[n]))
    ensures done ==> Tallied(ps, after.conversions, after.writes, after.volumes, AfterAll(ps, task, t, ds, n + 1))
    ensures healthy && done ==> AllGeneratable(ps, h, task, t, ds, n + 1)
    ensures healthy && !done ==> !AllGeneratable(ps, h, task, t, ds, |ds|)
  {
    var u := AfterAll(ps, task, t, ds, n);
    GeneratableAlike(ps, h, task, before.volumes, u, ds[n]);
    if healthy && !done && AllGeneratable(ps, h, task, t, ds, |ds|) {
      FewerGeneratable(ps, h, task, t, ds, n + 1, |ds|);
    }
  }

  /** An image for a Nomad volume goes straight to its block device, in the disk's format. */
  method WriteNomadVolume(h: ImageHandler, d: Disk) returns (ok: bool)
    modifies h`conversions, h`writes
    ensures ok <==> Writable(h, |old(h.conversions)|, |old(h.writes)|, d)
    ensures d.blockPath == "" || !HasImage(d) ==> h.writes == old(h.writes) && h.conversions == old(h.conversions)
    ensures ok && HasImage(d) ==>
              var s := d.source.value;
              if d.format == s.format then
                h.conversions == old(h.conversions) && h.writes == old(h.writes) + [(s.image, d.blockPath)]
              else
                h.conversions == old(h.conversions) + [Conversion(s.image, s.format, d.format)]
                && h.writes == old(h.writes) + [(s.image + ".raw", d.blockPath)]
  {
    if d.blockPath == "" {
      return false;
    }
    if d.source.None? || d.source.value.image == "" {
      return true;
    }
    var image := d.source.value.image;
    if d.format != d.source.value.format {
      var path := h.Convert(Conversion(image, d.source.value.format, d.format));
      if path.None? {
        return false;
      }
      image := image + ".raw";
    }
    var fault := h.Write(image, d.blockPath);
    ok := !fault;
  }

  function Attach(d: Disk, v: Volume): (r: Volume)
    ensures Attached(d, r) && r.pool == v.pool && r.name == v.name && r.block == v.block && r.size == v.size
  {
    v.(format := d.format, kind := d.kind, driver := d.driver, deviceName := d.devname, busType := d.busType,
       primary := d.primary)
  }

  /** The named volume for a disk. */
  method AddNamed(s: Storage, pool: string, name: string, d: Disk)
    returns (out: Outcome, vol: Volume, ghost added: seq<Key>)
    requires pool in s.pools && d.sparse.Some? && d.format != ""
    modifies s`calls, s`volumes
    ensures Grew(old(s.volumes), added, s.volumes) && added <= [(pool, name)]
    ensures out.Panicked? <==> ToBytes(d.size).Failure?
    ensures old(s.Healthy()) && ToBytes(d.size).Success? ==>
              (out.Done? <==> Addable(s.pools[pool], old(s.volumes), pool, name, OptionsFor(d, ToBytes(d.size).value)))
    ensures s.calls >= old(s.calls)
    ensures out.Done? ==>
              && (pool, name) in s.volumes && vol == Described((pool, name), s.volumes[(pool, name)])
              && (added != [] ==> MadeFor(s.pools[pool], s.volumes[(pool, name)], d))
  {
    added, vol := [], Volume("", "", "", "", "", "", "", false, "", 0);
    GrewNot(s.volumes);
    var size := MustToBytes(d.size);
    if size.None? {
      return Panicked, vol, [];
    }
    var r;
    r, added := s.AddVolume(pool, name, OptionsFor(d, size.value));
    if r.Failure? {
      return Stopped(r.error), vol, added;
    }
    assert added != [] ==> added[0] in added && added[0] == (pool, name);
    out, vol := Done, r.value;
  }

  /** The volume of a disk that lives in a pool. */
  method AddDiskVolume(s: Storage, name: string, d0: Disk)
    returns (d: Disk, out: Outcome, vol: Volume, ghost added: seq<Key>)
    modifies s`calls, s`volumes
    ensures Grew(old(s.volumes), added, s.volumes)
    ensures added != [] ==> PoolName(PoolsOf(s), d0).Some? && added == [(PoolName(PoolsOf(s), d0).value, name)]
    ensures out.Panicked? ==> ToBytes(d0.size).Failure?
    ensures old(s.Healthy()) ==>
              (out.Done? <==>
               && PoolName(PoolsOf(s), d0).Some? && ToBytes(d0.size).Success?
               && Addable(s.pools[PoolName(PoolsOf(s), d0).value], old(s.volumes), PoolName(PoolsOf(s), d0).value, name,
                          OptionsFor(Settle(PoolsOf(s), d0), ToBytes(d0.size).value)))
    ensures s.calls >= old(s.calls)
    ensures out.Done? ==>
              && PoolName(PoolsOf(s), d0).Some? && d == Settle(PoolsOf(s), d0)
              && var key := (PoolName(PoolsOf(s), d0).value, name);
              && key in s.volumes && vol == Described(key, s.volumes[key])
              && (added != [] ==> MadeFor(s.pools[key.0], s.volumes[key], d))
  {
    d, added, vol := d0, [], Volume("", "", "", "", "", "", "", false, "", 0);
    var pool := s.PoolFor(d0.pool);
    if pool.None? {
      GrewNot(s.volumes);
      return d, Stopped(NotFound), vol, [];
    }
    d := FormatDisk(s, pool.value, d);
    if d.sparse.None? {
      d := d.(sparse := Some(false));
    }
    out, vol, added := AddNamed(s, pool.value, name, d);
  }

  lemma AttachedPooled(ps: PoolSet, volumes: map<Key, Stored>, task: string, d0: Disk, d: Disk, vol: Volume)
    requires !IsNomad(d0) && PoolName(ps, d0).Some? && d == Settle(ps, d0)
    requires DiskKey(ps, task, d0) in volumes && vol == Described(DiskKey(ps, task, d0), volumes[DiskKey(ps, task, d0)])
    ensures GeneratedFrom(ps, volumes, task, d0, d.(volume := Some(Attach(d, vol))))
  {
  }

  /** One round of Generate. */
  method GenerateDisk(s: Storage, h: ImageHandler, task: string, d0: Disk)
    returns (d: Disk, out: Outcome, ghost added: seq<Key>)
    modifies s`calls, s`volumes, h`conversions, h`writes
    ensures Grew(old(s.volumes), added, s.volumes)
    ensures added != [] ==> !IsNomad(d0) && PoolName(PoolsOf(s), d0).Some? && added == [DiskKey(PoolsOf(s), task, d0)]
    ensures out.Panicked? ==> !IsNomad(d0) && ToBytes(d0.size).Failure?
    ensures old(s.Healthy()) ==>
              (out.Done? <==>
               Generatable(PoolsOf(s), h, task, |old(h.conversions)|, |old(h.writes)|, old(s.volumes), d0))
    ensures s.calls >= old(s.calls)
    ensures out.Done? ==>
              Tallied(PoolsOf(s), |h.conversions|, |h.writes|, s.volumes,
                      After(PoolsOf(s), task, Tally(|old(h.conversions)|, |old(h.writes)|, old(s.volumes)), d0))
    ensures out.Done? ==> GeneratedFrom(PoolsOf(s), s.volumes, task, d0, d)
    ensures out.Done? && added != [] ==>
              MadeFor(s.pools[PoolName(PoolsOf(s), d0).value], s.volumes[DiskKey(PoolsOf(s), task, d0)], d)
  {
    added := [];
    d := d0;
    var name := VolumeName(task, d0.devname);
    var vol;
    if d0.volumeName != "" {
      GrewNot(s.volumes);
      var ok := WriteNomadVolume(h, d0);
      if !ok {
        return d, Stopped(Failed), [];
      }
      out, vol := Done, Volume("", name, "", "", d0.format, "", "", false, d0.blockPath, 0);
      d := d.(volume := Some(Attach(d, vol)));
    } else {
      d, out, vol, added := AddDiskVolume(s, name, d0);
      if out.Done? {
        AttachedPooled(PoolsOf(s), s.volumes, task, d0, d, vol);
        d := d.(volume := Some(Attach(d, vol)));
      }
    }
  }

  /** Volumes that stay keep a disk generated. */
  lemma GeneratedStays(ps: PoolSet, v: map<Key, Stored>, added: seq<Key>, w: map<Key, Stored>, task: string, d0: Disk,
      d: Disk)
    requires GeneratedFrom(ps, v, task, d0, d) && Grew(v, added, w)
    ensures GeneratedFrom(ps, w, task, d0, d)
  {
  }

  ghost predicate AllGenerated(ps: PoolSet, volumes: map<Key, Stored>, task: string, was: seq<Disk>, now: seq<Disk>) {
    |was| == |now| && forall i :: 0 <= i < |was| ==> GeneratedFrom(ps, volumes, task, was[i], now[i])
  }

  lemma AllGeneratedOneMore(ps: PoolSet, v: map<Key, Stored>, added: seq<Key>, w: map<Key, Stored>, task: string,
      was: seq<Disk>, now: seq<Disk>, d0: Disk, d: Disk)
    requires AllGenerated(ps, v, task, was, now) && Grew(v, added, w) && GeneratedFrom(ps, w, task, d0, d)
    ensures AllGenerated(ps, w, task, was + [d0], now + [d])
  {
    forall i | 0 <= i < |was| ensures GeneratedFrom(ps, w, task, was[i], now[i]) {
      GeneratedStays(ps, v, added, w, task, was[i], now[i]);
    }
  }

  /** A volume was made for the disk in some place. */
  ghost predicate MadeForSome(ps: PoolSet, volumes: map<Key, Stored>, task: string, was: seq<Disk>, now: seq<Disk>,
      key: Key)
    requires |was| <= |now| && key in volumes
  {
    exists i ::
      && 0 <= i < |was| && !IsNomad(was[i]) && PoolName(ps, was[i]).Some? && DiskKey(ps, task, was[i]) == key
      && MadeFor(ps.pools[key.0], volumes[key], now[i])
  }

  /** How far Generate has come: k disks have their volumes, and every volume added was made for one of them. */
  ghost predicate Halfway(ps: PoolSet, volumes: map<Key, Stored>, task: string, was: seq<Disk>, now: seq<Disk>, k: nat,
      added: seq<Key>)
  {
    && k <= |was| == |now| && now[k..] == was[k..]
    && AllGenerated(ps, volumes, task, was[..k], now[..k])
    && forall key :: key in added ==> key in volumes && MadeForSome(ps, volumes, task, was[..k], now[..k], key)
  }

  lemma MadeForSomeStays(ps: PoolSet, v: map<Key, Stored>, more: seq<Key>, w: map<Key, Stored>, task: string,
      was: seq<Disk>, now: seq<Disk>, d0: Disk, d: Disk, key: Key)
    requires |was| == |now| && Grew(v, more, w) && key in v && MadeForSome(ps, v, task, was, now, key)
    ensures MadeForSome(ps, w, task, was + [d0], now + [d], key)
  {
    var i :| 0 <= i < |was| && !IsNomad(was[i]) && PoolName(ps, was[i]).Some? && DiskKey(ps, task, was[i]) == key
      && MadeFor(ps.pools[key.0], v[key], now[i]);
    assert (was + [d0])[i] == was[i] && (now + [d])[i] == now[i];
  }

  lemma HalfwayOneMore(ps: PoolSet, v: map<Key, Stored>, more: seq<Key>, w: map<Key, Stored>, task: string,
      was: seq<Disk>, now: seq<Disk>, k: nat, added: seq<Key>, d: Disk)
    requires Halfway(ps, v, task, was, now, k, added) && k < |was| && Grew(v, more, w)
    requires GeneratedFrom(ps, w, task, was[k], d)
    requires more != [] ==> !IsNomad(was[k]) && PoolName(ps, was[k]).Some? && more == [DiskKey(ps, task, was[k])]
                            && more[0] in w && MadeFor(ps.pools[more[0].0], w[more[0]], d)
    ensures Halfway(ps, w, task, was, now[k := d], k + 1, added + more)
  {
    var next, xs, ys := now[k := d], was[..k] + [was[k]], now[..k] + [d];
    assert was[..k + 1] == xs && next[..k + 1] == ys;
    assert next[k + 1..] == now[k..][1..] && was[k + 1..] == was[k..][1..];
    AllGeneratedOneMore(ps, v, more, w, task, was[..k], now[..k], was[k], d);
    forall key | key in added + more ensures key in w && MadeForSome(ps, w, task, xs, ys, key) {
      if key in added {
        MadeForSomeStays(ps, v, more, w, task, was[..k], now[..k], was[k], d, key);
      } else {
        assert more[0] == key && xs[k] == was[k] && ys[k] == d;
      }
    }
  }

  /** The volumes that generating disks asks their pools for. */
  ghost predicate Asked(ps: PoolSet, task: string, ds: seq<Disk>, key: Key) {
    exists i :: 0 <= i < |ds| && !IsNomad(ds[i]) && PoolName(ps, ds[i]).Some? && DiskKey(ps, task, ds[i]) == key
  }

  lemma AskedOneMore(ps: PoolSet, task: string, ds: seq<Disk>, i: nat, added: seq<Key>, more: seq<Key>)
    requires i < |ds| && forall key :: key in added ==> Asked(ps, task, ds, key)
    requires more != [] ==> !IsNomad(ds[i]) && PoolName(ps, ds[i]).Some? && more == [DiskKey(ps, task, ds[i])]
    ensures forall key :: key in added + more ==> Asked(ps, task, ds, key)
  {
  }

  // ---- How far the list has come -----------------------------------------------------------

  ghost function TallyOf(s: Storage, h: ImageHandler): Tally
    reads s`volumes, h`conversions, h`writes
  {
    Tally(|h.conversions|, |h.writes|, s.volumes)
  }

  /** Volumes were only added, and only those asked for. */
  ghost predicate Added(ps: PoolSet, task: string, t0: Tally, was: seq<Disk>, added: seq<Key>, t: Tally) {
    Grew(t0.volumes, added, t.volumes) && forall key :: key in added ==> Asked(ps, task, was, key)
  }

  /** The first i disks are generated. */
  ghost predicate SoFar(ps: PoolSet, h: ImageHandler, task: string, t0: Tally, was: seq<Disk>, now: seq<Disk>, i: nat,
      added: seq<Key>, t: Tally, healthy: bool)
  {
    && i <= |was| == |now|
    && Halfway(ps, t.volumes, task, was, now, i, added) && Added(ps, task, t0, was, added, t)
    && Tallied(ps, t.conversions, t.writes, t.volumes, AfterAll(ps, task, t0, was, i))
    && (healthy ==> AllGeneratable(ps, h, task, t0, was, i))
  }

  lemma NothingSoFar(ps: PoolSet, h: ImageHandler, task: string, t0: Tally, was: seq<Disk>, healthy: bool)
    ensures SoFar(ps, h, task, t0, was, was, 0, [], t0, healthy)
  {
    GrewNot(t0.volumes);
  }

  lemma AddedNext(ps: PoolSet, task: string, t0: Tally, was: seq<Disk>, i: nat, sofar: seq<Key>, t: Tally,
      more: seq<Key>, u: Tally)
    requires i < |was| && Added(ps, task, t0, was, sofar, t) && Grew(t.volumes, more, u.volumes)
    requires more != [] ==> !IsNomad(was[i]) && PoolName(ps, was[i]).Some? && more == [DiskKey(ps, task, was[i])]
    ensures Added(ps, task, t0, was, sofar + more, u)
  {
    GrewFurther(t0.volumes, sofar, t.volumes, more, u.volumes);
    AskedOneMore(ps, task, was, i, sofar, more);
  }

  lemma SoFarNext(ps: PoolSet, h: ImageHandler, task: string, t0: Tally, was: seq<Disk>, now: seq<Disk>, i: nat,
      sofar: seq<Key>, t: Tally, healthy: bool, done: bool, d: Disk, more: seq<Key>, u: Tally)
    requires SoFar(ps, h, task, t0, was, now, i, sofar, t, healthy) && i < |was| && Grew(t.volumes, more, u.volumes)
    requires more != [] ==> !IsNomad(was[i]) && PoolName(ps, was[i]).Some? && more == [DiskKey(ps, task, was[i])]
    requires done ==> GeneratedFrom(ps, u.volumes, task, was[i], d)
    requires done && more != [] ==>
               more[0] in u.volumes && MadeFor(ps.pools[more[0].0], u.volumes[more[0]], d)
    requires done ==> Tallied(ps, u.conversions, u.writes, u.volumes, After(ps, task, t, was[i]))
    requires healthy ==> (done <==> Generatable(ps, h, task, t.conversions, t.writes, t.volumes, was[i]))
    ensures done ==> SoFar(ps, h, task, t0, was, now[i := d], i + 1, sofar + more, u, healthy)
    ensures healthy && !done ==> !AllGeneratable(ps, h, task, t0, was, |was|)
  {
    AddedNext(ps, task, t0, was, i, sofar, t, more, u);
    OneTallied(ps, h, task, t0, was, i, t, u, healthy, done);
    if done {
      HalfwayOneMore(ps, t.volumes, more, u.volumes, task, was, now, i, sofar, d);
    }
  }

  /** The volumes of the disks that have one, in order. */
  function VolumesOf(ds: seq<Disk>): seq<Volume> {
    if ds == [] then []
    else VolumesOf(ds[..|ds| - 1]) + if ds[|ds| - 1].volume.Some? then [ds[|ds| - 1].volume.value] else []
  }

  lemma {:induction false} VolumesOfGenerated(ps: PoolSet, volumes: map<Key, Stored>, task: string, was: seq<Disk>,
      now: seq<Disk>)
    requires AllGenerated(ps, volumes, task, was, now)
    ensures |VolumesOf(now)| == |now| && forall i :: 0 <= i < |now| ==> VolumesOf(now)[i] == now[i].volume.value
  {
    if now != [] {
      var n := |now| - 1;
      assert GeneratedFrom(ps, volumes, task, was[n], now[n]);
      VolumesOfGenerated(ps, volumes, task, was[..n], now[..n]);
    }
  }
}
