/** What preparing one disk comes to, and when there is nothing left to prepare (virt/disks/config.go). */
module DiskPlan {
  import opened Wrappers
  import opened Text
  import opened Pools
  import opened DiskModel

  const DEFAULT_DRIVER := "qemu"

  function DriverOf(d: Disk): string {
    if d.driver == "" then DEFAULT_DRIVER else d.driver
  }

  function KindOf(d: Disk): string {
    if d.kind == "" then "disk" else d.kind
  }

  function BusOf(d: Disk): string {
    if d.busType != "" then d.busType else if KindOf(d) == "cdrom" then "ide" else "virtio"
  }

  /** The name of the volume that holds an image's contents in a format, for disks chained to it. */
  function ParentName(digest: string, format: string): string {
    "nmdsrc-" + format + "-" + digest + ".img"
  }

  /** A digest as it is written: the 32 bytes of a SHA-256 sum in hexadecimal. */
  predicate IsDigest(digest: string) {
    |digest| == 64 && forall c :: c in digest ==> IsDigit(c) || 'a' <= c <= 'f'
  }

  /** A parent's name tells the contents and the format it stands for. */
  lemma ParentNameTells(digest: string, format: string, digest': string, format': string)
    requires IsDigest(digest) && IsDigest(digest')
    requires ParentName(digest, format) == ParentName(digest', format')
    ensures digest == digest' && format == format'
  {
    var name, n, end := ParentName(digest, format), 7 + |format|, 7 + |format| + 1 + 64;
    assert |format| == |format'|;
    assert format == name[7..n] == format';
    assert digest == name[n + 1..end] == digest';
  }

  lemma NoUnderscoreInParentName(digest: string, format: string)
    requires IsDigest(digest) && '_' !in format
    ensures '_' !in ParentName(digest, format)
  {
  }

  /** The pools as Prepare sees them. */
  datatype PoolSet = PoolSet(pools: map<string, PoolKind>, defaultPool: Option<string>)

  function PoolName(ps: PoolSet, d: Disk): (r: Option<string>)
    ensures r.Some? ==> r.value in ps.pools
  {
    var p := if d.pool != "" then Some(d.pool) else ps.defaultPool;
    if p.Some? && p.value in ps.pools then p else None
  }

  function FormatOf(ps: PoolSet, d: Disk): string
    requires PoolName(ps, d).Some?
  {
    if d.format == "" then DefaultFormat(ps.pools[PoolName(ps, d).value]) else d.format
  }

  // ---- Nothing left to do ------------------------------------------------------------------

  /** Every value that could be filled in is, or cannot be. */
  predicate Filled(tools: Tools, d: Disk) {
    && d.driver != "" && d.kind != "" && d.busType != "" && d.devname != ""
    && (HasImage(d) && d.source.value.format == "" ==> tools.format(d.source.value.image) == Some(""))
  }

  /** The image, if there is still one, is used as it is. */
  predicate ImageSettled(d: Disk) {
    HasImage(d) ==> !d.chained && d.source.value.format == d.format
  }

  predicate SizeSettled(tools: Tools, d: Disk) {
    d.size == "" && d.source.Some? ==>
      d.source.value.volume == "" && (HasImage(d) ==> tools.size(d.source.value.image).None?)
  }

  predicate PoolSettled(ps: PoolSet, tools: Tools, d: Disk) {
    PoolName(ps, d).Some? && d.format != "" && ImageSettled(d) && SizeSettled(tools, d)
  }

  predicate Settled(ps: PoolSet, tools: Tools, d: Disk) {
    Filled(tools, d) && (!IsNomad(d) ==> PoolSettled(ps, tools, d))
  }

  // ---- What is done ------------------------------------------------------------------------

  /** The image's format is known or can be told. */
  predicate Detectable(tools: Tools, d: Disk) {
    HasImage(d) && d.source.value.format == "" ==> tools.format(d.source.value.image).Some?
  }

  /** A disk with its missing values filled in and its image's format detected. */
  function FilledDisk(tools: Tools, newName: string, d: Disk): Disk
    requires Detectable(tools, d)
  {
    d.(driver := DriverOf(d), kind := KindOf(d), busType := BusOf(d),
       devname := if d.devname == "" then newName else d.devname,
       source := if HasImage(d) && d.source.value.format == ""
                 then Some(d.source.value.(format := tools.format(d.source.value.image).value)) else d.source)
  }

  predicate FilledFrom(tools: Tools, newName: string, d0: Disk, d: Disk) {
    Detectable(tools, d0) && d == FilledDisk(tools, newName, d0)
  }

  /** The name of the volume for a disk's image, by the image's contents and the disk's format. */
  function IdentifierOf(tools: Tools, source: Source, format: string): Option<string> {
    if source.identifier != "" then Some(source.identifier)
    else match tools.digest(source.image)
      case None => None
      case Some(digest) => Some(ParentName(digest, format))
  }

  /** The volume a disk is to be chained to, if it is to be chained to an image. */
  function ParentKey(ps: PoolSet, tools: Tools, d: Disk): Option<Key> {
    if IsNomad(d) || !d.chained || !HasImage(d) || PoolName(ps, d).None? then None
    else match IdentifierOf(tools, d.source.value, FormatOf(ps, d))
      case None => None
      case Some(identifier) => Some((PoolName(ps, d).value, identifier))
  }

  /** A file with the image in a format: the image itself, or what some conversion of it gave. */
  ghost predicate InFormat(tools: Tools, image: string, from: string, to: string, file: string) {
    if from == to then file == image else exists k :: tools.converted(k, Conversion(image, from, to)) == Some(file)
  }

  /** What the volume holds, or was to hold, is an image in a format. */
  ghost predicate HoldsImage(tools: Tools, image: string, format: string, origin: Origin) {
    (origin.Image? || origin.Begun?) && exists from :: InFormat(tools, image, from, format, origin.path)
  }

  /** The volume is one that the disk is to be chained to, and its contents come from the disk's image. */
  ghost predicate IsParent(ps: PoolSet, tools: Tools, d: Disk, key: Key, volumes: map<Key, Stored>) {
    && ParentKey(ps, tools, d) == Some(key) && key in volumes
    && HoldsImage(tools, d.source.value.image, FormatOf(ps, d), volumes[key].origin)
  }

  /** Every volume added is one that some disk is to be chained to, with that disk's image in it. */
  ghost predicate OnlyParents(ps: PoolSet, tools: Tools, ds: seq<Disk>, added: seq<Key>, volumes: map<Key, Stored>) {
    forall key :: key in added ==> exists i :: 0 <= i < |ds| && IsParent(ps, tools, ds[i], key, volumes)
  }

  /** The volumes there are once the disk is prepared. */
  function KeysWith(ps: PoolSet, tools: Tools, keys: set<Key>, d: Disk): set<Key> {
    match ParentKey(ps, tools, d) case None => keys case Some(key) => keys + {key}
  }

  /** How many conversions preparing a filled disk takes. */
  function ConversionsFor(ps: PoolSet, tools: Tools, keys: set<Key>, d: Disk): nat {
    if IsNomad(d) || !HasImage(d) || PoolName(ps, d).None? || d.source.value.format == FormatOf(ps, d) then 0
    else if d.chained && ParentKey(ps, tools, d).Some? && ParentKey(ps, tools, d).value in keys then 0
    else 1
  }

  lemma ParentKeyFormatted(ps: PoolSet, tools: Tools, keys: set<Key>, d0: Disk, d: Disk)
    requires PoolName(ps, d0).Some? && d == d0.(format := FormatOf(ps, d0)) && d.format != ""
    ensures ParentKey(ps, tools, d) == ParentKey(ps, tools, d0)
    ensures KeysWith(ps, tools, keys, d) == KeysWith(ps, tools, keys, d0)
    ensures ConversionsFor(ps, tools, keys, d) == ConversionsFor(ps, tools, keys, d0)
  {
  }

  lemma ParentKeyFilled(ps: PoolSet, tools: Tools, newName: string, d0: Disk, d: Disk)
    requires FilledFrom(tools, newName, d0, d)
    ensures ParentKey(ps, tools, d) == ParentKey(ps, tools, d0)
    ensures forall keys :: KeysWith(ps, tools, keys, d) == KeysWith(ps, tools, keys, d0)
  {
  }

  /** The volumes added were filled to the end. */
  ghost predicate Whole(added: seq<Key>, volumes: map<Key, Stored>) {
    forall key :: key in added ==> key in volumes && volumes[key].origin.Image?
  }

  lemma ParentOfFilled(ps: PoolSet, tools: Tools, newName: string, d0: Disk, d: Disk, key: Key,
      volumes: map<Key, Stored>)
    requires FilledFrom(tools, newName, d0, d) && IsParent(ps, tools, d, key, volumes)
    ensures IsParent(ps, tools, d0, key, volumes)
  {
  }

  /** From v0 on, volumes were only added, and only as parents. */
  ghost predicate AddedParents(ps: PoolSet, tools: Tools, v0: map<Key, Stored>, ds: seq<Disk>, added: seq<Key>,
      volumes: map<Key, Stored>)
  {
    Grew(v0, added, volumes) && OnlyParents(ps, tools, ds, added, volumes)
  }

  lemma ParentsGrow(ps: PoolSet, tools: Tools, v0: map<Key, Stored>, ds: seq<Disk>, added: seq<Key>,
      v: map<Key, Stored>, more: seq<Key>, w: map<Key, Stored>, i: nat)
    requires AddedParents(ps, tools, v0, ds, added, v) && i < |ds| && Grew(v, more, w)
    requires more != [] ==> more == [more[0]] && IsParent(ps, tools, ds[i], more[0], w)
    ensures AddedParents(ps, tools, v0, ds, added + more, w)
    ensures Whole(added, v) && Whole(more, w) ==> Whole(added + more, w)
  {
    GrewFurther(v0, added, v, more, w);
    forall key | key in added ensures exists j :: 0 <= j < |ds| && IsParent(ps, tools, ds[j], key, w) {
      var j :| 0 <= j < |ds| && IsParent(ps, tools, ds[j], key, v);
      assert IsParent(ps, tools, ds[j], key, w);
    }
  }

  /** A disk to be chained to an image gives up the image for the volume that holds its contents. */
  ghost predicate ChainedFrom(ps: PoolSet, tools: Tools, volumes: map<Key, Stored>, d0: Disk, d: Disk)
    requires PoolName(ps, d0).Some? && HasImage(d0)
  {
    var s := d0.source.value;
    && d.source.Some?
    && var id := d.source.value.identifier;
    && IdentifierOf(tools, s, d.format) == Some(id)
    && d.source.value.image == "" && d.source.value.volume == id && d.source.value.format == s.format
    && (PoolName(ps, d0).value, id) in volumes
    && d.size == (if d0.size != "" then d0.size else Print(volumes[(PoolName(ps, d0).value, id)].capacity))
  }

  /** The size, if it was not given, is the source volume's, or else the image's if that can be told. */
  predicate SizedFrom(ps: PoolSet, tools: Tools, volumes: map<Key, Stored>, size0: string, d: Disk)
    requires PoolName(ps, d).Some?
  {
    if size0 != "" || d.source.None? then d.size == size0
    else
      var s := d.source.value;
      if s.volume != "" then
        (PoolName(ps, d).value, s.volume) in volumes
        && d.size == Print(volumes[(PoolName(ps, d).value, s.volume)].capacity)
      else if s.image != "" && tools.size(s.image).Some? then d.size == Print(tools.size(s.image).value)
      else d.size == ""
  }

  /** An image that is copied is in the disk's format, through a conversion if it was not; no other source changes. */
  ghost predicate SourceFrom(tools: Tools, d0: Disk, d: Disk) {
    if HasImage(d0) then
      && d.source.Some? && d.source == Some(d0.source.value.(format := d.format, image := d.source.value.image))
      && InFormat(tools, d0.source.value.image, d0.source.value.format, d.format, d.source.value.image)
    else d.source == d0.source
  }

  /** From a filled disk to a prepared one, in a pool. */
  ghost predicate PooledFrom(ps: PoolSet, tools: Tools, volumes: map<Key, Stored>, d0: Disk, d: Disk) {
    && PoolName(ps, d0).Some?
    && d.format == FormatOf(ps, d0)
    && d == d0.(format := d.format, source := d.source, size := d.size)
    && if HasImage(d0) && d0.chained then ChainedFrom(ps, tools, volumes, d0, d)
       else SizedFrom(ps, tools, volumes, d0.size, d) && SourceFrom(tools, d0, d)
  }

  /** All that preparing a disk does to it; marking it as primary is a matter of all disks together. */
  ghost predicate PreparedFrom(ps: PoolSet, tools: Tools, volumes: map<Key, Stored>, newName: string, d0: Disk,
      d: Disk)
  {
    && Detectable(tools, d0)
    && var mid := FilledDisk(tools, newName, d0);
       if IsNomad(d0) then d == mid else PooledFrom(ps, tools, volumes, mid, d)
  }

  /** Volumes that stay keep a disk prepared. */
  lemma PreparedStays(ps: PoolSet, tools: Tools, v: map<Key, Stored>, added: seq<Key>, w: map<Key, Stored>,
      newName: string, d0: Disk, d: Disk)
    requires PreparedFrom(ps, tools, v, newName, d0, d) && Grew(v, added, w)
    ensures PreparedFrom(ps, tools, w, newName, d0, d)
  {
  }
}
