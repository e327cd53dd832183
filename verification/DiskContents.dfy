/**
 * What the volumes of a task's disks hold: parents over all runs, and new volumes from their
 * disks' configuration (virt/disks/config.go).
 */
module DiskContents {
  import opened Wrappers
  import opened Text
  import opened Bytes
  import opened Pools
  import opened DiskNames
  import opened DiskModel
  import opened DiskPlan
  import opened DiskPrepare
  import opened DiskCheck
  import opened DiskGenerate

  // ---- Parents -----------------------------------------------------------------------------

  /** The digest of an image as it was when a volume was filled from it, the format, and the file with it. */
  datatype Content = Content(digest: string, format: string, file: string)

  /** The store, and what went into each parent as it was made. */
  datatype Kept = Kept(volumes: map<Key, Stored>, contents: map<Key, Content>)

  /**
   * A volume filled from a file that, when it was, had the contents with that digest in that format;
   * or to be filled, the upload having broken off.
   */
  ghost predicate HasContents(k: Kept, key: Key, digest: string, format: string) {
    && key in k.volumes && key in k.contents
    && k.contents[key].digest == digest && k.contents[key].format == format
    && (k.volumes[key].origin == Image(k.contents[key].file) || k.volumes[key].origin == Begun(k.contents[key].file))
  }

  /** Every parent holds the contents its name stands for, in the format its name stands for. */
  ghost predicate TrueToNames(k: Kept) {
    forall pool, digest, format ::
      IsDigest(digest) && '_' !in format && (pool, ParentName(digest, format)) in k.volumes ==>
        HasContents(k, (pool, ParentName(digest, format)), digest, format)
  }

  ghost predicate Digests(tools: Tools) {
    forall image :: tools.digest(image).Some? ==> IsDigest(tools.digest(image).value)
  }

  /** The disk has no identifier yet, as it comes from its configuration, or the one of its image. */
  ghost predicate OwnIdentifier(ps: PoolSet, tools: Tools, d: Disk) {
    HasImage(d) && PoolName(ps, d).Some? && d.source.value.identifier != "" ==>
      var digest := tools.digest(d.source.value.image);
      digest.Some? && d.source.value.identifier == ParentName(digest.value, FormatOf(ps, d))
  }

  ghost predicate OwnIdentifiers(ps: PoolSet, tools: Tools, ds: seq<Disk>) {
    forall i :: 0 <= i < |ds| ==> OwnIdentifier(ps, tools, ds[i])
  }

  /** The disk's image as it is now, in the disk's format, in a file. */
  function ContentOf(ps: PoolSet, tools: Tools, d: Disk, file: string): Option<Content> {
    if !HasImage(d) || PoolName(ps, d).None? || tools.digest(d.source.value.image).None? then None
    else Some(Content(tools.digest(d.source.value.image).value, FormatOf(ps, d), file))
  }

  /** A disk's parent stands for the disk's image in the disk's format. */
  lemma ParentKeyTells(ps: PoolSet, tools: Tools, d: Disk, pool: string, digest: string, format: string)
    requires ParentKey(ps, tools, d) == Some((pool, ParentName(digest, format)))
    requires Digests(tools) && OwnIdentifier(ps, tools, d) && IsDigest(digest)
    ensures forall file :: ContentOf(ps, tools, d, file) == Some(Content(digest, format, file))
  {
    ParentNameTells(digest, format, tools.digest(d.source.value.image).value, FormatOf(ps, d));
  }

  // ---- Runs --------------------------------------------------------------------------------

  /** A Prepare or a Generate, whether it came to its end or not, by whatever tools; or volumes being deleted. */
  datatype Event =
    | Preparing(ps: PoolSet, tools: Tools, disks: seq<Disk>, added: seq<Key>)
    | Generating(ps: PoolSet, task: string, disks: seq<Disk>, added: seq<Key>)
    | Deleting(keys: set<Key>)

  /** The parent was made for a disk, from that disk's image or a conversion of it. */
  ghost predicate MadeFromImage(ps: PoolSet, tools: Tools, d: Disk, key: Key, k: Kept) {
    && key in k.contents && IsParent(ps, tools, d, key, k.volumes)
    && ContentOf(ps, tools, d, k.volumes[key].origin.path) == Some(k.contents[key])
  }

  ghost predicate Happens(k: Kept, e: Event, l: Kept) {
    match e
    case Preparing(ps, tools, ds, added) =>
      && Digests(tools) && OwnIdentifiers(ps, tools, ds) && Grew(k.volumes, added, l.volumes)
      && (forall key :: key in k.contents && key !in added ==> key in l.contents && l.contents[key] == k.contents[key])
      && (forall key :: key in added ==> exists i :: 0 <= i < |ds| && MadeFromImage(ps, tools, ds[i], key, l))
    case Generating(ps, task, ds, added) =>
      && Grew(k.volumes, added, l.volumes) && (forall key :: key in added ==> Asked(ps, task, ds, key))
      && l.contents == k.contents
    case Deleting(keys) => l == Kept(k.volumes - keys, k.contents)
  }

  /** A parent's name is no disk's volume name. */
  lemma ParentsNotAsked(ps: PoolSet, task: string, ds: seq<Disk>, pool: string, digest: string, format: string)
    requires IsDigest(digest) && '_' !in format
    ensures !Asked(ps, task, ds, (pool, ParentName(digest, format)))
  {
    NoUnderscoreInParentName(digest, format);
    forall i | 0 <= i < |ds| ensures VolumeName(task, ds[i].devname) != ParentName(digest, format) {
      UnderscoreInVolumeName(task, ds[i].devname);
    }
  }

  lemma EventKeeps(k: Kept, e: Event, l: Kept)
    requires TrueToNames(k) && Happens(k, e, l)
    ensures TrueToNames(l)
  {
    forall pool, digest, format
      | IsDigest(digest) && '_' !in format && (pool, ParentName(digest, format)) in l.volumes
      ensures HasContents(l, (pool, ParentName(digest, format)), digest, format)
    {
      var key := (pool, ParentName(digest, format));
      assert key in k.volumes ==> HasContents(k, key, digest, format);
      match e
      case Preparing(ps, tools, ds, added) =>
        if key in added {
          var i :| 0 <= i < |ds| && MadeFromImage(ps, tools, ds[i], key, l);
          ParentKeyTells(ps, tools, ds[i], pool, digest, format);
        }
      case Generating(ps, task, ds, added) =>
        ParentsNotAsked(ps, task, ds, pool, digest, format);
      case Deleting(keys) =>
    }
  }

  ghost predicate Course(ks: seq<Kept>, es: seq<Event>) {
    |ks| == |es| + 1 && forall i :: 0 <= i < |es| ==> Happens(ks[i], es[i], ks[i + 1])
  }

  /**
   * Along every course of preparing, generating and deleting, by any tasks in any pools and with
   * images that may change in between, parents stay true to their names.
   */
  lemma {:induction false} CourseKeeps(ks: seq<Kept>, es: seq<Event>, n: nat)
    requires Course(ks, es) && TrueToNames(ks[0]) && n <= |es|
    ensures TrueToNames(ks[n])
  {
    if n > 0 {
      CourseKeeps(ks, es, n - 1);
      EventKeeps(ks[n - 1], es[n - 1], ks[n]);
    }
  }

  /** What went into a parent being added. */
  ghost function ContentFor(ps: PoolSet, tools: Tools, ds: seq<Disk>, key: Key, volumes: map<Key, Stored>): (c: Content)
    requires OwnIdentifiers(ps, tools, ds) && exists i :: 0 <= i < |ds| && IsParent(ps, tools, ds[i], key, volumes)
    ensures exists i ::
              && 0 <= i < |ds| && IsParent(ps, tools, ds[i], key, volumes)
              && ContentOf(ps, tools, ds[i], volumes[key].origin.path) == Some(c)
  {
    var i :| 0 <= i < |ds| && IsParent(ps, tools, ds[i], key, volumes);
    assert OwnIdentifier(ps, tools, ds[i]);
    ContentOf(ps, tools, ds[i], volumes[key].origin.path).value
  }

  lemma AddedFromImage(ps: PoolSet, tools: Tools, ds: seq<Disk>, key: Key, l: Kept)
    requires OwnIdentifiers(ps, tools, ds) && exists i :: 0 <= i < |ds| && IsParent(ps, tools, ds[i], key, l.volumes)
    requires key in l.contents && l.contents[key] == ContentFor(ps, tools, ds, key, l.volumes)
    ensures exists i :: 0 <= i < |ds| && MadeFromImage(ps, tools, ds[i], key, l)
  {
    var i :| 0 <= i < |ds| && IsParent(ps, tools, ds[i], key, l.volumes)
      && ContentOf(ps, tools, ds[i], l.volumes[key].origin.path) == Some(l.contents[key]);
    assert MadeFromImage(ps, tools, ds[i], key, l);
  }

  /** What went into all of them. */
  ghost function ContentsFor(ps: PoolSet, tools: Tools, ds: seq<Disk>, added: seq<Key>, volumes: map<Key, Stored>):
      (r: map<Key, Content>)
    requires OwnIdentifiers(ps, tools, ds) && OnlyParents(ps, tools, ds, added, volumes)
    ensures forall key :: key in r <==> key in added
    ensures forall key :: key in added ==>
              && (exists i :: 0 <= i < |ds| && IsParent(ps, tools, ds[i], key, volumes))
              && r[key] == ContentFor(ps, tools, ds, key, volumes)
  {
    map key | key in added :: ContentFor(ps, tools, ds, key, volumes)
  }

  /** What a Prepare does is such an event. */
  lemma PrepareHappens(ps: PoolSet, tools: Tools, ds: seq<Disk>, k: Kept, added: seq<Key>, volumes: map<Key, Stored>)
    returns (l: Kept)
    requires AddedParents(ps, tools, k.volumes, ds, added, volumes) && Digests(tools) && OwnIdentifiers(ps, tools, ds)
    ensures l.volumes == volumes && Happens(k, Preparing(ps, tools, ds, added), l)
  {
    l := Kept(volumes, k.contents + ContentsFor(ps, tools, ds, added, volumes));
    forall key | key in added ensures exists i :: 0 <= i < |ds| && MadeFromImage(ps, tools, ds[i], key, l) {
      AddedFromImage(ps, tools, ds, key, l);
    }
  }

  /** The disk d, prepared from d0, is on a volume with the contents of d0's own image. */
  ghost predicate OnOwnContents(ps: PoolSet, tools: Tools, before: map<Key, Stored>, l: Kept, d0: Disk, d: Disk) {
    && HasImage(d0) && d.source.Some? && PoolName(ps, d).Some? && PoolName(ps, d) == PoolName(ps, d0)
    && tools.digest(d0.source.value.image).Some?
    && var key := (PoolName(ps, d).value, d.source.value.volume);
    && HasContents(l, key, tools.digest(d0.source.value.image).value, d.format)
    && (l.volumes[key].origin.Begun? <==> key in before && before[key].origin.Begun?)
  }

  lemma ParentIsOwn(ps: PoolSet, tools: Tools, l: Kept, d: Disk, key: Key)
    requires TrueToNames(l) && Digests(tools) && OwnIdentifier(ps, tools, d)
    requires ParentKey(ps, tools, d) == Some(key) && key in l.volumes && '_' !in FormatOf(ps, d)
    ensures HasImage(d) && tools.digest(d.source.value.image).Some? && PoolName(ps, d).Some?
    ensures HasContents(l, key, tools.digest(d.source.value.image).value, FormatOf(ps, d))
  {
    var digest := tools.digest(d.source.value.image);
    assert key == (key.0, ParentName(digest.value, FormatOf(ps, d)));
    assert IsDigest(digest.value);
  }

  lemma PreparedFormat(ps: PoolSet, tools: Tools, volumes: map<Key, Stored>, was: seq<Disk>, done: seq<Disk>, i: nat)
    requires Midway(ps, tools, volumes, was, done, |was|) && i < |was| && !IsNomad(was[i])
    ensures PoolName(ps, was[i]).Some? && PoolName(ps, Marked(done)[i]) == PoolName(ps, was[i])
    ensures Marked(done)[i].format == FormatOf(ps, was[i])
  {
    assert done[..|was|] == done && was[..|was|] == was;
    assert PreparedFrom(ps, tools, volumes, Devnames(done)[i], was[i], done[i]);
    BootableAre(done);
    assert Marked(done)[i] == done[i] || Marked(done)[i] == done[i].(primary := true);
  }

  /**
   * After a Prepare that succeeded in such a course, a disk chained from an image is on a volume of
   * its pool that was filled from an image with the digest of its own, in its own format, whatever
   * was prepared before. That volume was filled to its end unless it was half filled before.
   */
  lemma ChainedOnOwnContents(ps: PoolSet, tools: Tools, k: Kept, was: seq<Disk>, done: seq<Disk>, added: seq<Key>,
      l: Kept, i: nat)
    requires TrueToNames(k) && Happens(k, Preparing(ps, tools, was, added), l) && Whole(added, l.volumes)
    requires Midway(ps, tools, l.volumes, was, done, |was|) && i < |was|
    requires !IsNomad(was[i]) && was[i].chained && HasImage(was[i])
    requires PoolName(ps, was[i]).Some? ==> '_' !in FormatOf(ps, was[i])
    ensures OnOwnContents(ps, tools, k.volumes, l, was[i], Marked(done)[i])
  {
    EventKeeps(k, Preparing(ps, tools, was, added), l);
    PreparedFormat(ps, tools, l.volumes, was, done, i);
    PreparedImages(ps, tools, l.volumes, was, done, i);
    assert OwnIdentifier(ps, tools, was[i]);
    ParentIsOwn(ps, tools, l, was[i], ParentKey(ps, tools, was[i]).value);
  }

  // ---- From configuration to volume --------------------------------------------------------

  /**
   * What the new volume of a configured disk is filled with. Chained from an image it has the
   * parent for the image behind it, which is there; not chained, it is made from the image or
   * what a conversion to the disk's format gave; with a volume for a source it is chained to that
   * or a copy of it; with no source it is blank.
   */
  ghost predicate FilledFor(ps: PoolSet, tools: Tools, volumes: map<Key, Stored>, d: Disk, origin: Origin)
    requires PoolName(ps, d).Some?
  {
    match d.source
    case None => origin == Blank
    case Some(s) =>
      if s.image != "" && d.chained then
        && ParentKey(ps, tools, d).Some? && ParentKey(ps, tools, d).value in volumes
        && origin == BackedBy(ParentKey(ps, tools, d).value.1)
      else if s.image != "" && s.volume == "" then
        origin.Image? && HoldsImage(tools, s.image, FormatOf(ps, d), origin)
      else if s.volume != "" then origin == if d.chained then BackedBy(s.volume) else CopyOf(s.volume)
      else origin == Blank
  }

  lemma FilledThrough(ps: PoolSet, tools: Tools, volumes: map<Key, Stored>, name: string, d0: Disk, d: Disk,
      kind: PoolKind, origin: Origin)
    requires PreparedFrom(ps, tools, volumes, name, d0, d) && !IsNomad(d0) && MadeOf(kind, d, origin)
    ensures PoolName(ps, d0).Some? && FilledFor(ps, tools, volumes, d0, origin)
  {
    var mid := FilledDisk(tools, name, d0);
    ParentKeyFilled(ps, tools, name, d0, mid);
  }

  /** Every volume made is one a configured disk asked for, filled for that disk. */
  ghost predicate AllFilled(ps: PoolSet, tools: Tools, volumes: map<Key, Stored>, task: string, configured: seq<Disk>,
      ready: seq<Disk>, made: seq<Key>)
  {
    |configured| == |ready| &&
    forall key :: key in made ==>
      && key in volumes
      && exists i :: 0 <= i < |ready| && VolumeFilled(ps, tools, volumes, task, configured[i], ready[i], key)
  }

  ghost predicate VolumeFilled(ps: PoolSet, tools: Tools, volumes: map<Key, Stored>, task: string, configured: Disk,
      ready: Disk, key: Key)
    requires key in volumes
  {
    && !IsNomad(configured) && PoolName(ps, configured).Some? && PoolName(ps, ready) == PoolName(ps, configured)
    && key == (PoolName(ps, configured).value, VolumeName(task, ready.devname))
    && FilledFor(ps, tools, volumes, configured, volumes[key].origin)
  }

  /** The volumes of disks that were prepared, checked and generated are filled as the configuration asks. */
  lemma TaskVolumesFilled(ps: PoolSet, tools: Tools, mid: map<Key, Stored>, volumes: map<Key, Stored>, task: string,
      configured: seq<Disk>, done: seq<Disk>, ready: seq<Disk>, now: seq<Disk>, made: seq<Key>)
    requires |done| == |ready| == |now| && Midway(ps, tools, mid, configured, done, |done|)
    requires forall i :: 0 <= i < |ready| ==> ready[i] == SparseSet(ps, Marked(done)[i])
    requires Grew(mid, made, volumes) && Halfway(ps, volumes, task, ready, now, |ready|, made)
    ensures AllFilled(ps, tools, volumes, task, configured, ready, made)
  {
    assert ready[..|ready|] == ready && now[..|ready|] == now;
    assert done[..|done|] == done && configured[..|done|] == configured;
    forall key | key in made
      ensures exists i :: 0 <= i < |ready| && VolumeFilled(ps, tools, volumes, task, configured[i], ready[i], key)
    {
      var i :| 0 <= i < |ready| && !IsNomad(ready[i]) && PoolName(ps, ready[i]).Some?
        && DiskKey(ps, task, ready[i]) == key && MadeFor(ps.pools[key.0], volumes[key], now[i]);
      OnePrepared(ps, tools, mid, made, volumes, configured, done, i);
      assert GeneratedFrom(ps, volumes, task, ready[i], now[i]);
      OneFilled(ps, tools, volumes, task, configured[i], done[i], ready[i], now[i], key);
    }
  }

  lemma OnePrepared(ps: PoolSet, tools: Tools, mid: map<Key, Stored>, made: seq<Key>, volumes: map<Key, Stored>,
      configured: seq<Disk>, done: seq<Disk>, i: nat)
    requires |configured| == |done| && i < |done| && Grew(mid, made, volumes)
    requires AllPrepared(ps, tools, mid, Devnames(done), configured, done)
    ensures PreparedFrom(ps, tools, volumes, done[i].devname, configured[i], done[i])
    ensures Marked(done)[i] == done[i] || Marked(done)[i] == done[i].(primary := true)
  {
    BootableAre(done);
    assert PreparedFrom(ps, tools, mid, Devnames(done)[i], configured[i], done[i]);
    PreparedStays(ps, tools, mid, made, volumes, done[i].devname, configured[i], done[i]);
  }

  lemma OneFilled(ps: PoolSet, tools: Tools, volumes: map<Key, Stored>, task: string, configured: Disk, done: Disk,
      ready: Disk, now: Disk, key: Key)
    requires PreparedFrom(ps, tools, volumes, done.devname, configured, done)
    requires ready == SparseSet(ps, done) || ready == SparseSet(ps, done.(primary := true))
    requires GeneratedFrom(ps, volumes, task, ready, now)
    requires !IsNomad(ready) && PoolName(ps, ready).Some? && DiskKey(ps, task, ready) == key
    requires key in volumes && MadeFor(ps.pools[key.0], volumes[key], now)
    ensures VolumeFilled(ps, tools, volumes, task, configured, ready, key)
  {
    assert now.source == done.source && now.chained == done.chained;
    FilledThrough(ps, tools, volumes, done.devname, configured, done, ps.pools[key.0], volumes[key].origin);
  }

  /** When no two of the volumes share a name, each new one is filled for its own disk. */
  lemma EachFilled(ps: PoolSet, tools: Tools, volumes: map<Key, Stored>, task: string, configured: seq<Disk>,
      ready: seq<Disk>, now: seq<Disk>, made: seq<Key>)
    requires AllFilled(ps, tools, volumes, task, configured, ready, made)
    requires AllGenerated(ps, volumes, task, ready, now)
    requires forall i, j :: 0 <= i < j < |VolumesOf(now)| ==> VolumesOf(now)[i].name != VolumesOf(now)[j].name
    ensures AllFilledEach(ps, tools, volumes, task, configured, ready, made)
  {
    VolumesOfGenerated(ps, volumes, task, ready, now);
    forall i | 0 <= i < |ready| ensures VolumesOf(now)[i].name == VolumeName(task, ready[i].devname) {
      assert GeneratedFrom(ps, volumes, task, ready[i], now[i]);
    }
    forall i | 0 <= i < |ready| && PoolName(ps, ready[i]).Some? && DiskKey(ps, task, ready[i]) in made
      ensures VolumeFilled(ps, tools, volumes, task, configured[i], ready[i], DiskKey(ps, task, ready[i]))
    {
      var key := DiskKey(ps, task, ready[i]);
      var j :| 0 <= j < |ready| && VolumeFilled(ps, tools, volumes, task, configured[j], ready[j], key);
      assert VolumesOf(now)[i].name == VolumesOf(now)[j].name;
    }
  }

  ghost predicate AllFilledEach(ps: PoolSet, tools: Tools, volumes: map<Key, Stored>, task: string,
      configured: seq<Disk>, ready: seq<Disk>, made: seq<Key>)
  {
    |configured| == |ready| &&
    forall i :: 0 <= i < |ready| && PoolName(ps, ready[i]).Some? && DiskKey(ps, task, ready[i]) in made ==>
      DiskKey(ps, task, ready[i]) in volumes
      && VolumeFilled(ps, tools, volumes, task, configured[i], ready[i], DiskKey(ps, task, ready[i]))
  }
}
