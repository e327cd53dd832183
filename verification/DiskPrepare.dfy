/** Preparing disks one by one against the storage (virt/disks/config.go). */
module DiskPrepare {
  import opened Wrappers
  import opened Text
  import opened Pools
  import opened DiskNames
  import opened DiskModel
  import opened DiskPlan

  function Devnames(ds: seq<Disk>): (r: seq<string>)
    ensures |r| == |ds| && forall i :: 0 <= i < |ds| ==> r[i] == ds[i].devname
  {
    seq(|ds|, i requires 0 <= i < |ds| => ds[i].devname)
  }

  function Buses(ds: seq<Disk>): (r: seq<string>)
    ensures |r| == |ds| && forall i :: 0 <= i < |ds| ==> r[i] == BusOf(ds[i])
  {
    seq(|ds|, i requires 0 <= i < |ds| => BusOf(ds[i]))
  }

  /** A name for a disk, from the names the disks have. */
  method GenerateDevname(ds: seq<Disk>, busType: string) returns (name: string)
    ensures name == NewName(busType, Devnames(ds))
  {
    var names: seq<string> := [];
    for i := 0 to |ds|
      invariant names == Named(Devnames(ds[..i]))
    {
      assert Devnames(ds[..i + 1])[..i] == Devnames(ds[..i]);
      if ds[i].devname != "" {
        names := names + [ds[i].devname];
      }
    }
    assert ds[..|ds|] == ds;
    name := GenerateDeviceName(busType, names);
  }

  method FillDefaults(ds: seq<Disk>, d0: Disk) returns (d: Disk)
    ensures d == d0.(driver := DriverOf(d0), kind := KindOf(d0), busType := BusOf(d0), devname := DevnameOf(ds, d0))
  {
    d := d0;
    if d.driver == "" {
      d := d.(driver := DEFAULT_DRIVER);
    }
    if d.kind == "" {
      d := d.(kind := "disk");
    }
    if d.busType == "" {
      if d.kind == "cdrom" {
        d := d.(busType := "ide");
      } else {
        d := d.(busType := "virtio");
      }
    }
    if d.devname == "" {
      var name := GenerateDevname(ds, d.busType);
      d := d.(devname := name);
    }
  }

  function DevnameOf(ds: seq<Disk>, d: Disk): (r: string)
    ensures r != ""
  {
    if d.devname == "" then NewName(BusOf(d), Devnames(ds)) else d.devname
  }

  /** Fills in what was left out and detects the format of the image. */
  method Fill(h: ImageHandler, ds: seq<Disk>, d0: Disk) returns (d: Disk, err: Option<Refusal>)
    ensures d.devname == DevnameOf(ds, d0)
    ensures err.None? ==> FilledFrom(h.tools, DevnameOf(ds, d0), d0, d) && Filled(h.tools, d)
    ensures Filled(h.tools, d0) ==> err.None? && d == d0
    ensures err.Some? <==> HasImage(d0) && d0.source.value.format == "" && h.tools.format(d0.source.value.image).None?
    ensures IsNomad(d) == IsNomad(d0) && d.primary == d0.primary && d.kind == KindOf(d0)
  {
    d := FillDefaults(ds, d0);
    err := None;
    if d.source.Some? && d.source.value.image != "" && d.source.value.format == "" {
      var format := h.tools.format(d.source.value.image);
      if format.None? {
        return d, Some(Failed);
      }
      d := d.(source := Some(d.source.value.(format := format.value)));
    }
  }

  /**
   * The parent volume for a chained disk: the one there is, or a new one made from the image,
   * converted first if its format is not the disk's.
   */
  method EnsureParent(s: Storage, h: ImageHandler, pool: string, name: string, image: string, from: string,
      format: string)
    returns (r: Result<Volume, Refusal>, ghost added: seq<Key>)
    requires pool in s.pools && image != ""
    modifies s`calls, s`volumes, h`conversions
    ensures Grew(old(s.volumes), added, s.volumes) && added <= [(pool, name)]
    ensures added != [] ==>
              (pool, name) in s.volumes && HoldsImage(h.tools, image, format, s.volumes[(pool, name)].origin)
    ensures r.Success? ==> Whole(added, s.volumes)
    ensures r.Success? ==> (pool, name) in s.volumes && r.value == Described((pool, name), s.volumes[(pool, name)])
    ensures || h.conversions == old(h.conversions)
            || (from != format && h.conversions == old(h.conversions) + [Conversion(image, from, format)])
    ensures r.Success? && added != [] ==>
              ParentMade(h, |old(h.conversions)|, image, from, format, s.volumes[(pool, name)])
    ensures old(s.Healthy()) && (pool, name) in old(s.volumes) ==> r.Success? && h.conversions == old(h.conversions)
    ensures s.calls >= old(s.calls)
    ensures old(s.Healthy()) && (pool, name) !in old(s.volumes) ==>
              (r.Success? <==> Obtainable(h, |old(h.conversions)|, image, from, format))
    ensures old(s.Healthy()) && (pool, name) !in old(s.volumes) && from != format ==>
              |h.conversions| == |old(h.conversions)| + 1
    ensures from == format && h.tools.size(image).Some? && (pool, name) !in old(s.volumes) &&
            s.BreaksOff(old(s.calls), 6) ==>
              && r.Failure? && s.calls == old(s.calls) + 7
              && (pool, name) in s.volumes && s.volumes[(pool, name)].origin == Begun(image)
  {
    added := [];
    GrewNot(s.volumes);
    r := s.GetVolume(pool, name);
    if r.Success? || r.error.Failed? {
      return;
    }
    var file := image;
    if from != format {
      var path := h.Convert(Conversion(image, from, format));
      if path.None? {
        return Failure(Failed), [];
      }
      file := path.value;
    }
    var size := h.tools.size(file);
    if size.None? {
      return Failure(Failed), [];
    }
    assert InFormat(h.tools, image, from, format, file);
    r, added := s.AddVolume(pool, name, Options(false, true, size.value, format, file, ""));
    assert added != [] ==> added[0] in added && added[0] == (pool, name);
  }

  /**
   * A parent whose upload broke off stays in its pool, half filled and under its name, and is the
   * parent of the disks chained later.
   */
  method HalfFilledParent(pool: string, name: string, image: string, format: string, h: ImageHandler)
    returns (first: Result<Volume, Refusal>, second: Result<Volume, Refusal>, origin: Origin)
    requires image != "" && h.tools.size(image).Some?
    modifies h`conversions
    ensures first.Failure? && second.Success? && second.value.name == name && origin == Begun(image)
  {
    var faults := (k: nat) => if k == 6 then Some(Failed) else None;
    var s := new Storage(map[pool := Directory], Some(pool), faults, AsAsked, map[]);
    ghost var added;
    first, added := EnsureParent(s, h, pool, name, image, format, format);
    second, added := EnsureParent(s, h, pool, name, image, format, format);
    origin := s.volumes[(pool, name)].origin;
  }

  /** There is an image in the wanted format, and its size can be told. */
  predicate Obtainable(h: ImageHandler, k: nat, image: string, from: string, format: string) {
    var file := if from == format then Some(image) else h.tools.converted(k, Conversion(image, from, format));
    file.Some? && h.tools.size(file.value).Some?
  }

  /** A parent just made holds the image, in the disk's format, at the image's size. */
  ghost predicate ParentMade(h: ImageHandler, k: nat, image: string, from: string, format: string, parent: Stored) {
    var file := if from == format then Some(image) else h.tools.converted(k, Conversion(image, from, format));
    file.Some? && h.tools.size(file.value) == Some(parent.capacity) && parent.origin == Image(file.value)
  }

  function PoolsOf(s: Storage): PoolSet {
    PoolSet(s.pools, s.defaultPool)
  }

  /** The source volume, if the size has to come from it, is there. */
  predicate Sizable(pool: string, keys: set<Key>, d: Disk) {
    d.size != "" || d.source.None? || d.source.value.volume == "" || (pool, d.source.value.volume) in keys
  }

  /** The image, if any, can be had as the disk needs it; k conversions have been made so far. */
  predicate ImageReady(ps: PoolSet, h: ImageHandler, k: nat, keys: set<Key>, d: Disk) {
    HasImage(d) ==>
      var s := d.source.value;
      if d.chained then
        var key := ParentKey(ps, h.tools, d);
        key.Some? && (key.value in keys || Obtainable(h, k, s.image, s.format, d.format))
      else s.format == d.format || h.tools.converted(k, Conversion(s.image, s.format, d.format)).Some?
  }

  /** When libvirt does not fail, what decides whether a filled disk can be made ready in its pool. */
  predicate Poolable(ps: PoolSet, h: ImageHandler, k: nat, keys: set<Key>, d: Disk) {
    && PoolName(ps, d).Some?
    && ImageReady(ps, h, k, keys, d.(format := FormatOf(ps, d)))
    && ((HasImage(d) && d.chained) || Sizable(PoolName(ps, d).value, keys, d))
  }

  /** The same for a disk as it comes to Prepare; k conversions have been made so far. */
  predicate Preparable(ps: PoolSet, h: ImageHandler, k: nat, keys: set<Key>, d: Disk) {
    Detectable(h.tools, d) && (IsNomad(d) || Poolable(ps, h, k, keys, FilledDisk(h.tools, "", d)))
  }

  /** The size for a disk whose size was not given. */
  method DeriveSize(s: Storage, h: ImageHandler, pool: string, d0: Disk) returns (d: Disk, err: Option<Refusal>)
    requires PoolName(PoolsOf(s), d0) == Some(pool)
    modifies s`calls
    ensures d == d0.(size := d.size)
    ensures err.None? ==> SizedFrom(PoolsOf(s), h.tools, s.volumes, d0.size, d) && SizeSettled(h.tools, d)
    ensures SizeSettled(h.tools, d0) ==> err.None? && d == d0
    ensures s.calls >= old(s.calls) && (old(s.Healthy()) ==> (err.None? <==> Sizable(pool, s.volumes.Keys, d0)))
  {
    d, err := d0, None;
    if d.size == "" && d.source.Some? {
      if d.source.value.image != "" {
        var size := h.tools.size(d.source.value.image);
        if size.Some? {
          d := d.(size := Print(size.value));
        }
      }
      if d.source.value.volume != "" {
        var vol := s.GetVolume(pool, d.source.value.volume);
        if vol.Failure? {
          return d, Some(vol.error);
        }
        d := d.(size := Print(vol.value.size));
      }
    }
  }

  method Identify(h: ImageHandler, source: Source, format: string) returns (id: Option<string>)
    ensures id == IdentifierOf(h.tools, source, format)
  {
    if source.identifier != "" {
      return Some(source.identifier);
    }
    var digest := h.tools.digest(source.image);
    if digest.None? {
      return None;
    }
    id := Some(ParentName(digest.value, format));
  }

  /** The disk with its image given up for the parent. */
  function Chained(d: Disk, id: string, parent: Volume): Disk
    requires d.source.Some?
  {
    d.(source := Some(d.source.value.(identifier := id, volume := parent.name, image := "")),
       size := if d.size == "" then Print(parent.size) else d.size)
  }

  lemma ChainedIsChained(ps: PoolSet, tools: Tools, volumes: map<Key, Stored>, d0: Disk, id: string, parent: Volume)
    requires PoolName(ps, d0).Some? && HasImage(d0) && IdentifierOf(tools, d0.source.value, d0.format) == Some(id)
    requires var key := (PoolName(ps, d0).value, id); key in volumes && parent == Described(key, volumes[key])
    ensures ChainedFrom(ps, tools, volumes, d0, Chained(d0, id, parent)) && Chained(d0, id, parent).size != ""
  {
  }

  /** The image of a disk to be chained gives way to its parent volume. */
  method ChainDisk(s: Storage, h: ImageHandler, pool: string, d0: Disk)
    returns (d: Disk, err: Option<Refusal>, ghost added: seq<Key>)
    requires PoolName(PoolsOf(s), d0) == Some(pool) && HasImage(d0) && d0.chained && !IsNomad(d0) && d0.format != ""
    modifies s`calls, s`volumes, h`conversions
    ensures Grew(old(s.volumes), added, s.volumes)
    ensures added != [] ==> added == [added[0]] && IsParent(PoolsOf(s), h.tools, d0, added[0], s.volumes)
    ensures err.None? ==> Whole(added, s.volumes)
    ensures err.None? ==>
              && d == d0.(source := d.source, size := d.size)
              && ChainedFrom(PoolsOf(s), h.tools, s.volumes, d0, d) && d.size != ""
    ensures s.calls >= old(s.calls)
    ensures old(s.Healthy()) ==>
              (err.None? <==> ImageReady(PoolsOf(s), h, |old(h.conversions)|, old(s.volumes).Keys, d0))
    ensures old(s.Healthy()) && err.None? ==>
              |h.conversions| == |old(h.conversions)| + ConversionsFor(PoolsOf(s), h.tools, old(s.volumes).Keys, d0)
    ensures err.None? ==> s.volumes.Keys == KeysWith(PoolsOf(s), h.tools, old(s.volumes).Keys, d0)
    ensures IsNomad(d) == IsNomad(d0) && d.devname == d0.devname && d.primary == d0.primary && d.kind == d0.kind
  {
    d, added, err := d0, [], None;
    GrewNot(s.volumes);
    var source := d0.source.value;
    var image := source.image;
    var id := Identify(h, source, d0.format);
    if id.None? {
      return d, Some(Failed), [];
    }
    source := source.(identifier := id.value);
    d := d.(source := Some(source));
    var vol;
    vol, added := EnsureParent(s, h, pool, source.identifier, image, source.format, d0.format);
    if vol.Failure? {
      return d, Some(vol.error), added;
    }
    d := Chained(d0, source.identifier, vol.value);
    ChainedIsChained(PoolsOf(s), h.tools, s.volumes, d0, source.identifier, vol.value);
  }

  /** An image in another format is replaced by a converted one. */
  method ConvertSource(h: ImageHandler, d0: Disk) returns (d: Disk, err: Option<Refusal>)
    requires HasImage(d0)
    modifies h`conversions
    ensures err.None? ==>
              && d.source.Some? && d.source.value.format == d0.format
              && d == d0.(source := Some(d0.source.value.(format := d0.format, image := d.source.value.image)))
    ensures d0.source.value.format == d0.format ==> err.None? && d == d0 && h.conversions == old(h.conversions)
    ensures d0.source.value.format != d0.format ==>
              var c := Conversion(d0.source.value.image, d0.source.value.format, d0.format);
              h.conversions == old(h.conversions) + [c] && h.tools.converted(|old(h.conversions)|, c) ==
                (if err.None? then Some(d.source.value.image) else None)
    ensures err.Some? ==> d == d0
  {
    d, err := d0, None;
    var source := d0.source.value;
    if d0.format != source.format {
      var path := h.Convert(Conversion(source.image, source.format, d0.format));
      if path.None? {
        return d, Some(Failed);
      }
      d := d.(source := Some(source.(image := path.value, format := d0.format)));
    }
  }

  /** What becomes of a disk's image, its format being settled. */
  method ImageDisk(s: Storage, h: ImageHandler, pool: string, d0: Disk)
    returns (d: Disk, err: Option<Refusal>, ghost added: seq<Key>)
    requires PoolName(PoolsOf(s), d0) == Some(pool) && d0.format != "" && !IsNomad(d0)
    modifies s`calls, s`volumes, h`conversions
    ensures Grew(old(s.volumes), added, s.volumes)
    ensures added != [] ==> added == [added[0]] && IsParent(PoolsOf(s), h.tools, d0, added[0], s.volumes)
    ensures err.None? ==> Whole(added, s.volumes)
    ensures err.None? ==> ImageTaken(PoolsOf(s), h.tools, s.volumes, d0, d)
    ensures ImageSettled(d0) ==> err.None? && d == d0 && added == [] && h.conversions == old(h.conversions)
    ensures s.calls >= old(s.calls)
    ensures old(s.Healthy()) ==>
              (err.None? <==> ImageReady(PoolsOf(s), h, |old(h.conversions)|, old(s.volumes).Keys, d0))
    ensures old(s.Healthy()) && err.None? ==>
              |h.conversions| == |old(h.conversions)| + ConversionsFor(PoolsOf(s), h.tools, old(s.volumes).Keys, d0)
    ensures err.None? ==> s.volumes.Keys == KeysWith(PoolsOf(s), h.tools, old(s.volumes).Keys, d0)
    ensures !(HasImage(d0) && d0.chained) ==> s.volumes == old(s.volumes)
    ensures IsNomad(d) == IsNomad(d0) && d.devname == d0.devname && d.primary == d0.primary && d.kind == d0.kind
  {
    d, err, added := d0, None, [];
    GrewNot(s.volumes);
    if d.source.Some? && d.source.value.image != "" {
      if d.chained {
        d, err, added := ChainDisk(s, h, pool, d);
      } else {
        d, err := ConvertSource(h, d);
      }
    }
  }

  ghost predicate ImageTaken(ps: PoolSet, tools: Tools, volumes: map<Key, Stored>, d0: Disk, d: Disk)
    requires PoolName(ps, d0).Some?
  {
    && d == d0.(source := d.source, size := d.size)
    && if HasImage(d0) && d0.chained then ChainedFrom(ps, tools, volumes, d0, d) && d.size != ""
       else d.size == d0.size && SourceFrom(tools, d0, d)
  }

  lemma PooledTogether(ps: PoolSet, tools: Tools, volumes: map<Key, Stored>, d0: Disk, d1: Disk, d2: Disk, d: Disk)
    requires !IsNomad(d0) && PoolName(ps, d0).Some? && d1 == d0.(format := FormatOf(ps, d0)) && d1.format != ""
    requires ImageTaken(ps, tools, volumes, d1, d2)
    requires d == d2.(size := d.size) && SizedFrom(ps, tools, volumes, d2.size, d) && SizeSettled(tools, d)
    ensures PooledFrom(ps, tools, volumes, d0, d) && PoolSettled(ps, tools, d)
  {
    assert PoolName(ps, d) == PoolName(ps, d1) == PoolName(ps, d0);
  }

  method FormatDisk(s: Storage, pool: string, d0: Disk) returns (d: Disk)
    requires PoolName(PoolsOf(s), d0) == Some(pool)
    ensures d == d0.(format := FormatOf(PoolsOf(s), d0)) && d.format != ""
  {
    d := d0;
    if d.format == "" {
      d := d.(format := DefaultFormat(s.pools[pool]));
    }
  }

  /** Whether a size can be had is not changed by what becomes of the image, but that a parent gives one. */
  lemma SizableAfterImage(ps: PoolSet, tools: Tools, volumes: map<Key, Stored>, pool: string, d0: Disk, d1: Disk,
      d2: Disk)
    requires PoolName(ps, d0).Some? && d1 == d0.(format := FormatOf(ps, d0)) && ImageTaken(ps, tools, volumes, d1, d2)
    ensures Sizable(pool, volumes.Keys, d2) <==> (HasImage(d0) && d0.chained) || Sizable(pool, volumes.Keys, d0)
  {
  }

  lemma PooledFormatted(ps: PoolSet, tools: Tools, volumes: map<Key, Stored>, d0: Disk, d1: Disk, d: Disk)
    requires PoolName(ps, d0).Some? && d1 == d0.(format := FormatOf(ps, d0)) && d1.format != ""
    requires !IsNomad(d0) && PooledFrom(ps, tools, volumes, d1, d)
    ensures PooledFrom(ps, tools, volumes, d0, d)
  {
  }

  lemma PoolableFormatted(ps: PoolSet, h: ImageHandler, k: nat, keys: set<Key>, d0: Disk, d1: Disk)
    requires PoolName(ps, d0).Some? && d1 == d0.(format := FormatOf(ps, d0)) && d1.format != ""
    ensures Poolable(ps, h, k, keys, d1) <==> Poolable(ps, h, k, keys, d0)
  {
    assert d1.(format := FormatOf(ps, d1)) == d1;
  }

  lemma PoolableGiven(ps: PoolSet, h: ImageHandler, k: nat, keys: set<Key>, pool: string, d: Disk)
    requires PoolName(ps, d) == Some(pool) && d.format != ""
    ensures d == d.(format := FormatOf(ps, d))
    ensures Poolable(ps, h, k, keys, d) <==>
            ImageReady(ps, h, k, keys, d) && ((HasImage(d) && d.chained) || Sizable(pool, keys, d))
  {
  }

  /** Prepares a disk that lives in a pool, its format being settled. */
  method PoolFormatted(s: Storage, h: ImageHandler, pool: string, d0: Disk)
    returns (d: Disk, err: Option<Refusal>, ghost added: seq<Key>)
    requires !IsNomad(d0) && PoolName(PoolsOf(s), d0) == Some(pool) && d0.format != ""
    modifies s`calls, s`volumes, h`conversions
    ensures Grew(old(s.volumes), added, s.volumes)
    ensures added != [] ==> added == [added[0]] && IsParent(PoolsOf(s), h.tools, d0, added[0], s.volumes)
    ensures err.None? ==> Whole(added, s.volumes)
    ensures err.None? ==> PooledFrom(PoolsOf(s), h.tools, s.volumes, d0, d) && PoolSettled(PoolsOf(s), h.tools, d)
    ensures PoolSettled(PoolsOf(s), h.tools, d0) ==>
              err.None? && d == d0 && added == [] && h.conversions == old(h.conversions)
    ensures s.calls >= old(s.calls)
    ensures old(s.Healthy()) ==> (err.None? <==> Poolable(PoolsOf(s), h, |old(h.conversions)|, old(s.volumes).Keys, d0))
    ensures old(s.Healthy()) && err.None? ==>
              |h.conversions| == |old(h.conversions)| + ConversionsFor(PoolsOf(s), h.tools, old(s.volumes).Keys, d0)
    ensures err.None? ==> s.volumes.Keys == KeysWith(PoolsOf(s), h.tools, old(s.volumes).Keys, d0)
    ensures d.devname == d0.devname && d.primary == d0.primary && d.kind == d0.kind
  {
    PoolableGiven(PoolsOf(s), h, |h.conversions|, s.volumes.Keys, pool, d0);
    d, err, added := ImageDisk(s, h, pool, d0);
    if err.Some? {
      return;
    }
    ghost var taken := d;
    SizableAfterImage(PoolsOf(s), h.tools, s.volumes, pool, d0, d0, taken);
    d, err := DeriveSize(s, h, pool, d);
    if err.None? {
      PooledTogether(PoolsOf(s), h.tools, s.volumes, d0, d0, taken, d);
    }
  }

  /** Prepares a disk that lives in a pool. */
  method PoolDisk(s: Storage, h: ImageHandler, d0: Disk) returns (d: Disk, err: Option<Refusal>, ghost added: seq<Key>)
    requires !IsNomad(d0)
    modifies s`calls, s`volumes, h`conversions
    ensures Grew(old(s.volumes), added, s.volumes)
    ensures added != [] ==> added == [added[0]] && IsParent(PoolsOf(s), h.tools, d0, added[0], s.volumes)
    ensures err.None? ==> Whole(added, s.volumes)
    ensures err.None? ==> PooledFrom(PoolsOf(s), h.tools, s.volumes, d0, d) && PoolSettled(PoolsOf(s), h.tools, d)
    ensures PoolSettled(PoolsOf(s), h.tools, d0) ==>
              err.None? && d == d0 && added == [] && h.conversions == old(h.conversions)
    ensures s.calls >= old(s.calls)
    ensures old(s.Healthy()) ==> (err.None? <==> Poolable(PoolsOf(s), h, |old(h.conversions)|, old(s.volumes).Keys, d0))
    ensures old(s.Healthy()) && err.None? ==>
              |h.conversions| == |old(h.conversions)| + ConversionsFor(PoolsOf(s), h.tools, old(s.volumes).Keys, d0)
    ensures err.None? ==> s.volumes.Keys == KeysWith(PoolsOf(s), h.tools, old(s.volumes).Keys, d0)
    ensures d.devname == d0.devname && d.primary == d0.primary && d.kind == d0.kind
  {
    var pool := s.PoolFor(d0.pool);
    if pool.None? {
      GrewNot(s.volumes);
      return d0, Some(NotFound), [];
    }
    d := FormatDisk(s, pool.value, d0);
    ghost var d1 := d;
    ParentKeyFormatted(PoolsOf(s), h.tools, s.volumes.Keys, d0, d1);
    PoolableFormatted(PoolsOf(s), h, |h.conversions|, s.volumes.Keys, d0, d1);
    d, err, added := PoolFormatted(s, h, pool.value, d);
    if err.None? {
      PooledFormatted(PoolsOf(s), h.tools, s.volumes, d0, d1, d);
    }
  }

  function DiskConversions(ps: PoolSet, tools: Tools, keys: set<Key>, d: Disk): nat {
    if Detectable(tools, d) then ConversionsFor(ps, tools, keys, FilledDisk(tools, "", d)) else 0
  }

  /** The name handed out makes no difference to what else becomes of a disk. */
  lemma NameMakesNoDifference(ps: PoolSet, h: ImageHandler, k: nat, keys: set<Key>, name: string, d: Disk)
    requires Detectable(h.tools, d)
    ensures var a, b := FilledDisk(h.tools, name, d), FilledDisk(h.tools, "", d);
            && (Poolable(ps, h, k, keys, a) <==> Poolable(ps, h, k, keys, b))
            && ConversionsFor(ps, h.tools, keys, a) == ConversionsFor(ps, h.tools, keys, b)
  {
    ParentKeyFilled(ps, h.tools, name, d, FilledDisk(h.tools, name, d));
    ParentKeyFilled(ps, h.tools, "", d, FilledDisk(h.tools, "", d));
  }

  /** One round of Prepare: the disk is filled in and, unless it is a Nomad volume, made ready in its pool. */
  method PrepareDisk(s: Storage, h: ImageHandler, ds: seq<Disk>, d0: Disk)
    returns (d: Disk, err: Option<Refusal>, ghost added: seq<Key>)
    modifies s`calls, s`volumes, h`conversions
    ensures Grew(old(s.volumes), added, s.volumes)
    ensures added != [] ==> added == [added[0]] && IsParent(PoolsOf(s), h.tools, d0, added[0], s.volumes)
    ensures err.None? ==> Whole(added, s.volumes)
    ensures err.None? ==>
              && PreparedFrom(PoolsOf(s), h.tools, s.volumes, DevnameOf(ds, d0), d0, d)
              && Settled(PoolsOf(s), h.tools, d)
    ensures Settled(PoolsOf(s), h.tools, d0) ==>
              err.None? && d == d0 && added == [] && h.conversions == old(h.conversions)
    ensures d.devname == DevnameOf(ds, d0) && d.primary == d0.primary && d.kind == KindOf(d0)
    ensures old(s.Healthy()) ==>
              (err.None? <==> Preparable(PoolsOf(s), h, |old(h.conversions)|, old(s.volumes).Keys, d0))
    ensures s.calls >= old(s.calls)
    ensures old(s.Healthy()) && err.None? ==>
              |h.conversions| == |old(h.conversions)| + DiskConversions(PoolsOf(s), h.tools, old(s.volumes).Keys, d0)
    ensures err.None? ==> s.volumes.Keys == KeysWith(PoolsOf(s), h.tools, old(s.volumes).Keys, d0)
  {
    added := [];
    GrewNot(s.volumes);
    d, err := Fill(h, ds, d0);
    if err.Some? || d.volumeName != "" {
      return;
    }
    ghost var mid := d;
    NameMakesNoDifference(PoolsOf(s), h, |h.conversions|, s.volumes.Keys, DevnameOf(ds, d0), d0);
    ParentKeyFilled(PoolsOf(s), h.tools, DevnameOf(ds, d0), d0, mid);
    d, err, added := PoolDisk(s, h, d);
    if added != [] {
      ParentOfFilled(PoolsOf(s), h.tools, DevnameOf(ds, d0), d0, mid, added[0], s.volumes);
    }
    if err.None? {
      assert PreparedFrom(PoolsOf(s), h.tools, s.volumes, DevnameOf(ds, d0), d0, d) by {
        assert FilledFrom(h.tools, DevnameOf(ds, d0), d0, mid);
      }
      SettledStays(PoolsOf(s), h.tools, mid, d, s.volumes);
    }
  }

  /** Being made ready in a pool does not undo what was filled in. */
  lemma SettledStays(ps: PoolSet, tools: Tools, mid: Disk, d: Disk, volumes: map<Key, Stored>)
    requires Filled(tools, mid) && !IsNomad(mid) && PooledFrom(ps, tools, volumes, mid, d) && PoolSettled(ps, tools, d)
    ensures Settled(ps, tools, d)
  {
  }

  // ---- All disks ---------------------------------------------------------------------------

  function Primaries(ds: seq<Disk>): nat {
    if ds == [] then 0 else Primaries(ds[..|ds| - 1]) + if ds[|ds| - 1].primary then 1 else 0
  }

  /** The disks that could be booted from. */
  function Bootable(ds: seq<Disk>): seq<nat> {
    if ds == [] then []
    else Bootable(ds[..|ds| - 1]) + if ds[|ds| - 1].kind != "cdrom" then [|ds| - 1] else []
  }

  lemma {:induction false} BootableAre(ds: seq<Disk>)
    ensures forall i :: i in Bootable(ds) <==> 0 <= i < |ds| && ds[i].kind != "cdrom"
  {
    if ds != [] {
      BootableAre(ds[..|ds| - 1]);
    }
  }

  /** A disk that is the only one to boot from is primary if no disk was marked so. */
  function Marked(ds: seq<Disk>): (r: seq<Disk>)
    ensures |r| == |ds|
  {
    BootableAre(ds);
    if Primaries(ds) == 0 && |Bootable(ds)| == 1 then
      var only := Bootable(ds)[0];
      assert only in Bootable(ds);
      ds[only := ds[only].(primary := true)]
    else ds
  }

  /** Marking the primary disk names no disk anew. */
  lemma MarkedKeepsNames(ds: seq<Disk>)
    ensures Devnames(Marked(ds)) == Devnames(ds)
  {
    BootableAre(ds);
    assert |Bootable(ds)| == 1 ==> Bootable(ds)[0] in Bootable(ds);
  }

  lemma {:induction false} PrimariesCount(ds: seq<Disk>, i: nat)
    requires i < |ds| && ds[i].primary
    ensures Primaries(ds) > 0
  {
    if i < |ds| - 1 {
      PrimariesCount(ds[..|ds| - 1], i);
    }
  }

  lemma {:induction false} PrimariesAlike(a: seq<Disk>, b: seq<Disk>)
    requires |a| == |b| && forall i :: 0 <= i < |a| ==> a[i].primary == b[i].primary
    ensures Primaries(a) == Primaries(b)
  {
    if a != [] {
      PrimariesAlike(a[..|a| - 1], b[..|b| - 1]);
    }
  }

  /** The place of the only disk marked primary. */
  lemma {:induction false} OnlyPrimary(ds: seq<Disk>) returns (i: nat)
    requires Primaries(ds) == 1
    ensures i < |ds| && forall j :: 0 <= j < |ds| ==> (ds[j].primary <==> j == i)
  {
    var n := |ds| - 1;
    if ds[n].primary {
      i := n;
      forall j | 0 <= j < n ensures !ds[j].primary {
        if ds[j].primary {
          PrimariesCount(ds[..n], j);
        }
      }
    } else {
      i := OnlyPrimary(ds[..n]);
      assert forall j :: 0 <= j < n ==> ds[j] == ds[..n][j];
    }
  }

  /** A cdrom, such as the one for cloud-init, makes no difference to which disk is booted from. */
  lemma CdromNotBooted(ds: seq<Disk>, cdrom: Disk)
    requires cdrom.kind == "cdrom" && !cdrom.primary
    ensures Marked(ds + [cdrom]) == Marked(ds) + [cdrom]
  {
    var all := ds + [cdrom];
    assert all[..|all| - 1] == ds;
    BootableAre(ds);
    assert |Bootable(ds)| == 1 ==> Bootable(ds)[0] in Bootable(ds);
  }

  lemma MarkedIsMarked(ds: seq<Disk>)
    ensures Marked(Marked(ds)) == Marked(ds)
  {
    BootableAre(ds);
    if Primaries(ds) == 0 && |Bootable(ds)| == 1 {
      PrimariesCount(Marked(ds), Bootable(ds)[0]);
    }
  }

  ghost predicate AllSettled(ps: PoolSet, tools: Tools, ds: seq<Disk>) {
    forall i :: 0 <= i < |ds| ==> Settled(ps, tools, ds[i])
  }

  lemma MarkedSettled(ps: PoolSet, tools: Tools, ds: seq<Disk>)
    requires AllSettled(ps, tools, ds)
    ensures AllSettled(ps, tools, Marked(ds))
  {
    BootableAre(ds);
    forall i | 0 <= i < |ds| ensures Settled(ps, tools, Marked(ds)[i]) {
      assert Settled(ps, tools, ds[i]);
      assert Marked(ds)[i] == ds[i] || Marked(ds)[i] == ds[i].(primary := true);
    }
  }

  /** Each disk of now was prepared from the disk of was in its place, with the name at its place. */
  ghost predicate AllPrepared(ps: PoolSet, tools: Tools, volumes: map<Key, Stored>, names: seq<string>,
      was: seq<Disk>, now: seq<Disk>)
  {
    && |was| == |now| == |names|
    && forall i :: 0 <= i < |was| ==> PreparedFrom(ps, tools, volumes, names[i], was[i], now[i])
  }

  /** How far Prepare has come: the first k disks are prepared, the others are as they were. */
  ghost predicate Midway(ps: PoolSet, tools: Tools, volumes: map<Key, Stored>, was: seq<Disk>, now: seq<Disk>, k: nat) {
    && k <= |was| == |now| && now[k..] == was[k..]
    && AllPrepared(ps, tools, volumes, Devnames(now[..k]), was[..k], now[..k])
    && AllSettled(ps, tools, now[..k])
    && Devnames(now) == NamesAfter(Buses(was), Devnames(was), k)
  }

  lemma PreparedAllStay(ps: PoolSet, tools: Tools, v: map<Key, Stored>, added: seq<Key>, w: map<Key, Stored>,
      names: seq<string>, was: seq<Disk>, now: seq<Disk>)
    requires AllPrepared(ps, tools, v, names, was, now) && Grew(v, added, w)
    ensures AllPrepared(ps, tools, w, names, was, now)
  {
    forall i | 0 <= i < |was| ensures PreparedFrom(ps, tools, w, names[i], was[i], now[i]) {
      PreparedStays(ps, tools, v, added, w, names[i], was[i], now[i]);
    }
  }

  lemma NameGiven(was: seq<Disk>, now: seq<Disk>, k: nat, d: Disk)
    requires k < |was| == |now| && now[k..] == was[k..] && Devnames(now) == NamesAfter(Buses(was), Devnames(was), k)
    requires d.devname == DevnameOf(now, was[k])
    ensures Devnames(now[k := d]) == NamesAfter(Buses(was), Devnames(was), k + 1)
  {
    assert now[k] == now[k..][0] == was[k..][0] == was[k];
    var before := Devnames(now);
    assert before[k] == was[k].devname;
    assert Devnames(now[k := d]) == before[k := d.devname];
    assert d.devname == was[k].devname ==> before[k := d.devname] == before;
  }

  lemma OneMore(ps: PoolSet, tools: Tools, v: map<Key, Stored>, added: seq<Key>, w: map<Key, Stored>,
      was: seq<Disk>, now: seq<Disk>, k: nat, d: Disk)
    requires Midway(ps, tools, v, was, now, k) && k < |was| && Grew(v, added, w)
    requires PreparedFrom(ps, tools, w, DevnameOf(now, was[k]), was[k], d) && Settled(ps, tools, d)
    requires d.devname == DevnameOf(now, was[k])
    ensures Midway(ps, tools, w, was, now[k := d], k + 1)
  {
    var next := now[k := d];
    NameGiven(was, now, k, d);
    PreparedAllStay(ps, tools, v, added, w, Devnames(now[..k]), was[..k], now[..k]);
    assert next[..k + 1] == now[..k] + [d] && was[..k + 1] == was[..k] + [was[k]];
    assert Devnames(next[..k + 1]) == Devnames(now[..k]) + [d.devname];
    assert next[k + 1..] == now[k..][1..] && was[k + 1..] == was[k..][1..];
  }

  lemma CountOneMore(was: seq<Disk>, now: seq<Disk>, k: nat)
    requires k < |was| == |now| && now == was[k := now[k]]
    ensures Primaries(now[..k + 1]) == Primaries(was[..k]) + if now[k].primary then 1 else 0
    ensures Bootable(now[..k + 1]) == Bootable(was[..k]) + if now[k].kind != "cdrom" then [k] else []
  {
    assert now[..k + 1][..k] == was[..k];
  }

  /**
   * After Prepare: whoever outside Nomad still has an image is unchained and uses it as it is;
   * whoever was to be chained to an image has the parent for its contents in its pool instead.
   */
  lemma PreparedImages(ps: PoolSet, tools: Tools, volumes: map<Key, Stored>, was: seq<Disk>, done: seq<Disk>, i: nat)
    requires Midway(ps, tools, volumes, was, done, |was|) && i < |was| && !IsNomad(was[i])
    ensures HasImage(Marked(done)[i]) ==>
              && !was[i].chained && !Marked(done)[i].chained
              && Marked(done)[i].source.value.format == Marked(done)[i].format
    ensures was[i].chained && HasImage(was[i]) ==>
              && ParentKey(ps, tools, was[i]).Some? && ParentKey(ps, tools, was[i]).value in volumes
              && Marked(done)[i].source.Some?
              && Marked(done)[i].source.value.volume == ParentKey(ps, tools, was[i]).value.1
              && PoolName(ps, Marked(done)[i]) == Some(ParentKey(ps, tools, was[i]).value.0)
              && !HasImage(Marked(done)[i])
  {
    assert done[..|was|] == done && was[..|was|] == was;
    assert PreparedFrom(ps, tools, volumes, Devnames(done)[i], was[i], done[i]) && Settled(ps, tools, done[i]);
    BootableAre(done);
    assert Marked(done)[i] == done[i] || Marked(done)[i] == done[i].(primary := true);
    var mid := FilledDisk(tools, Devnames(done)[i], was[i]);
    ParentKeyFilled(ps, tools, Devnames(done)[i], was[i], mid);
    PooledParent(ps, tools, volumes, mid, done[i]);
  }

  lemma PooledParent(ps: PoolSet, tools: Tools, volumes: map<Key, Stored>, mid: Disk, d: Disk)
    requires !IsNomad(mid) && PooledFrom(ps, tools, volumes, mid, d) && PoolSettled(ps, tools, d)
    ensures HasImage(d) ==> !mid.chained && !d.chained && d.source.value.format == d.format
    ensures mid.chained && HasImage(mid) ==>
              && ParentKey(ps, tools, mid).Some? && ParentKey(ps, tools, mid).value in volumes
              && d.source.Some? && d.source.value.volume == ParentKey(ps, tools, mid).value.1
              && PoolName(ps, d) == Some(ParentKey(ps, tools, mid).value.0)
              && !HasImage(d)
  {
  }

  // ---- When all disks can be prepared ------------------------------------------------------

  /** The volumes there are after the first n disks. */
  function KeysAfter(ps: PoolSet, tools: Tools, keys: set<Key>, ds: seq<Disk>, n: nat): set<Key>
    requires n <= |ds|
  {
    if n == 0 then keys else KeysWith(ps, tools, KeysAfter(ps, tools, keys, ds, n - 1), ds[n - 1])
  }

  /** The conversions the first n disks take. */
  function ConversionsAfter(ps: PoolSet, tools: Tools, keys: set<Key>, ds: seq<Disk>, n: nat): nat
    requires n <= |ds|
  {
    if n == 0 then 0
    else ConversionsAfter(ps, tools, keys, ds, n - 1)
         + DiskConversions(ps, tools, KeysAfter(ps, tools, keys, ds, n - 1), ds[n - 1])
  }

  /** Each of the first n disks can be prepared once those before it are. */
  predicate AllPreparable(ps: PoolSet, h: ImageHandler, k: nat, keys: set<Key>, ds: seq<Disk>, n: nat)
    requires n <= |ds|
  {
    n == 0 ||
    (AllPreparable(ps, h, k, keys, ds, n - 1) &&
     Preparable(ps, h, k + ConversionsAfter(ps, h.tools, keys, ds, n - 1), KeysAfter(ps, h.tools, keys, ds, n - 1),
                ds[n - 1]))
  }

  lemma {:induction false} FewerPreparable(ps: PoolSet, h: ImageHandler, k: nat, keys: set<Key>, ds: seq<Disk>, m: nat,
      n: nat)
    requires m <= n <= |ds| && AllPreparable(ps, h, k, keys, ds, n)
    ensures AllPreparable(ps, h, k, keys, ds, m)
    decreases n
  {
    if m < n {
      FewerPreparable(ps, h, k, keys, ds, m, n - 1);
    }
  }

  /** The volumes are those after n disks; if libvirt does not fail the conversions are, and they were preparable. */
  predicate Accounted(ps: PoolSet, h: ImageHandler, k: nat, keys: set<Key>, ds: seq<Disk>, n: nat,
      made: nat, now: set<Key>, healthy: bool)
    requires n <= |ds|
  {
    && now == KeysAfter(ps, h.tools, keys, ds, n)
    && (healthy ==> made == k + ConversionsAfter(ps, h.tools, keys, ds, n) && AllPreparable(ps, h, k, keys, ds, n))
  }

  lemma AccountedNext(ps: PoolSet, h: ImageHandler, k: nat, keys: set<Key>, ds: seq<Disk>, n: nat,
      made: nat, now: set<Key>, healthy: bool, made': nat, now': set<Key>)
    requires n < |ds| && Accounted(ps, h, k, keys, ds, n, made, now, healthy)
    requires now' == KeysWith(ps, h.tools, now, ds[n])
    requires healthy ==> Preparable(ps, h, made, now, ds[n]) && made' == made + DiskConversions(ps, h.tools, now, ds[n])
    ensures Accounted(ps, h, k, keys, ds, n + 1, made', now', healthy)
  {
  }

  lemma LastPreparable(ps: PoolSet, h: ImageHandler, k: nat, keys: set<Key>, ds: seq<Disk>, n: nat)
    requires n < |ds| && AllPreparable(ps, h, k, keys, ds, n + 1)
    ensures Preparable(ps, h, k + ConversionsAfter(ps, h.tools, keys, ds, n), KeysAfter(ps, h.tools, keys, ds, n),
                       ds[n])
  {
  }

  lemma EachPreparable(ps: PoolSet, h: ImageHandler, k: nat, keys: set<Key>, ds: seq<Disk>, n: nat)
    requires n < |ds| && AllPreparable(ps, h, k, keys, ds, |ds|)
    ensures Preparable(ps, h, k + ConversionsAfter(ps, h.tools, keys, ds, n), KeysAfter(ps, h.tools, keys, ds, n),
                       ds[n])
  {
    FewerPreparable(ps, h, k, keys, ds, n + 1, |ds|);
    LastPreparable(ps, h, k, keys, ds, n);
  }

  /** One more disk of the list: made ready, it is accounted for; refused, the list cannot be made ready. */
  lemma OneAccounted(ps: PoolSet, h: ImageHandler, k: nat, keys: set<Key>, ds: seq<Disk>, n: nat,
      made: nat, now: set<Key>, healthy: bool, ok: bool, made': nat, now': set<Key>)
    requires n < |ds| && Accounted(ps, h, k, keys, ds, n, made, now, healthy)
    requires ok ==> now' == KeysWith(ps, h.tools, now, ds[n])
    requires healthy ==> (ok <==> Preparable(ps, h, made, now, ds[n]))
    requires healthy && ok ==> made' == made + DiskConversions(ps, h.tools, now, ds[n])
    ensures ok ==> Accounted(ps, h, k, keys, ds, n + 1, made', now', healthy)
    ensures healthy && !ok ==> !AllPreparable(ps, h, k, keys, ds, |ds|)
  {
    if ok {
      AccountedNext(ps, h, k, keys, ds, n, made, now, healthy, made', now');
    } else if healthy && AllPreparable(ps, h, k, keys, ds, |ds|) {
      EachPreparable(ps, h, k, keys, ds, n);
    }
  }
}
