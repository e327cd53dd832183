/** Storage pools and the volumes in them (providers/libvirt/storage/pool.go, ceph.go, storage.go). */
module Pools {
  import opened Wrappers

  datatype PoolKind = Directory | Ceph

  /** An error that is, or is not, one of the not-found family. */
  datatype Refusal = NotFound | Failed

  /** What a volume was filled with when it was made; Begun from a file if that did not come to its end. */
  datatype Origin =
    Blank | Begun(path: string) | Image(path: string) | CopyOf(source: string) | BackedBy(parent: string)

  datatype Stored = Stored(kind: string, format: string, capacity: nat, allocation: nat, origin: Origin)

  /** A volume's pool and name. */
  type Key = (string, string)

  datatype Volume = Volume(
    pool: string, name: string, kind: string, driver: string, format: string,
    deviceName: string, busType: string, primary: bool, block: string, size: nat)

  datatype Options = Options(chained: bool, sparse: bool, size: nat, format: string, path: string, volume: string)

  const DEFAULT_DIRECTORY_FORMAT := "qcow2"
  const DEFAULT_CEPH_FORMAT := "raw"

  function DefaultFormat(kind: PoolKind): string {
    match kind case Directory => DEFAULT_DIRECTORY_FORMAT case Ceph => DEFAULT_CEPH_FORMAT
  }

  /**
   * What a volume asked for is filled with. A chained volume has its source behind it; what is
   * uploaded to it goes on top, but libvirt's clone on Ceph is not uploaded to.
   */
  predicate FilledAsAsked(kind: PoolKind, o: Options, origin: Origin) {
    && (o.volume == "" && o.path == "" ==> origin == Blank)
    && (o.volume == "" && o.path != "" ==> origin == Image(o.path))
    && (o.volume != "" && !o.chained ==> origin == CopyOf(o.volume))
    && (o.volume != "" && o.chained && (o.path == "" || kind.Ceph?) ==> origin == BackedBy(o.volume))
    && (o.volume != "" && o.chained && o.path != "" && kind.Directory? ==> origin == Image(o.path))
  }

  /** A volume that came out filled as intended, or whose upload broke off. */
  predicate Towards(intended: Origin, origin: Origin) {
    origin == intended || (intended.Image? && origin == Begun(intended.path))
  }

  /** A volume just added, whether or not it was finished. */
  predicate Filling(kind: PoolKind, o: Options, origin: Origin) {
    FilledAsAsked(kind, o, if origin.Begun? then Image(origin.path) else origin)
  }

  /** No pool's own default but one for all. */
  function FormatAsked(o: Options): string {
    if o.format == "" then DEFAULT_DIRECTORY_FORMAT else o.format
  }

  /** The size a new volume is resized to, if at all. */
  function Resizing(kind: PoolKind, v: Stored, size: nat, sparse: bool): Option<nat> {
    if v.capacity != size then Some(size)
    else if kind.Ceph? || sparse || size == 0 || v.capacity == v.allocation then None
    else if v.format != "raw" then None
    else Some(if v.allocation > v.capacity then v.allocation else size)
  }

  function Resized(kind: PoolKind, v: Stored, size: nat, sparse: bool): Stored {
    match Resizing(kind, v, size, sparse) case None => v case Some(n) => v.(capacity := n)
  }

  /** A new volume is never smaller than asked, and exactly as asked unless raw space was set aside for it. */
  lemma ResizedHoldsSize(kind: PoolKind, v: Stored, size: nat, sparse: bool)
    ensures var r := Resized(kind, v, size, sparse);
            && r.capacity >= size
            && (r.capacity > size <==>
                && kind.Directory? && !sparse && size != 0
                && v.format == "raw" && v.capacity == size && v.allocation > size)
  {
  }

  function Described(key: Key, v: Stored): Volume {
    Volume(key.0, key.1, v.kind, "", v.format, "", "", false, "", v.capacity)
  }

  // ---- How the volumes grow ----------------------------------------------------------------

  /** Volumes were only added: those named, each once, none of them there before. */
  ghost predicate Grew(before: map<Key, Stored>, added: seq<Key>, after: map<Key, Stored>) {
    && AllDifferent(added)
    && (forall key :: key in after <==> key in before || key in added)
    && (forall key :: key in before ==> key !in added && after[key] == before[key])
  }

  lemma GrewNot(v: map<Key, Stored>)
    ensures Grew(v, [], v)
  {
  }

  lemma GrewOne(v: map<Key, Stored>, key: Key, s: Stored)
    requires key !in v
    ensures Grew(v, [key], v[key := s])
  {
  }

  lemma GrewFurther(a: map<Key, Stored>, xs: seq<Key>, b: map<Key, Stored>, ys: seq<Key>, c: map<Key, Stored>)
    requires Grew(a, xs, b) && Grew(b, ys, c)
    ensures Grew(a, xs + ys, c)
  {
    forall i, j | 0 <= i < j < |xs + ys| ensures (xs + ys)[i] != (xs + ys)[j] {
      if i < |xs| <= j {
        assert xs[i] in b && ys[j - |xs|] in ys;
      }
    }
  }

  // ---- The storage -------------------------------------------------------------------------

  datatype Report = Report(kind: string, format: string, capacity: nat, allocation: nat)

  /** A file of the size and format asked for. */
  function AsAsked(call: nat, o: Options): Report {
    Report("file", o.format, o.size, o.size)
  }

  /**
   * The pools by name and all their volumes. The k-th call to libvirt fails when faults(k) says
   * so, as an unknown pool or otherwise; reports(k, o) is what it has to say of a volume just made
   * as o asks. It does not make a volume smaller, as it is not told that it may.
   */
  class Storage {
    const pools: map<string, PoolKind>
    const defaultPool: Option<string>
    const faults: nat -> Option<Refusal>
    const reports: (nat, Options) -> Report
    var volumes: map<Key, Stored>
    var calls: nat

    constructor (pools: map<string, PoolKind>, defaultPool: Option<string>, faults: nat -> Option<Refusal>,
        reports: (nat, Options) -> Report, volumes: map<Key, Stored>)
      ensures this.pools == pools && this.defaultPool == defaultPool && this.faults == faults
      ensures this.reports == reports && this.volumes == volumes && calls == 0
    {
      this.pools, this.defaultPool, this.faults, this.reports := pools, defaultPool, faults, reports;
      this.volumes, this.calls := volumes, 0;
    }

    /** The named pool, or the default one for the empty name. */
    function PoolFor(name: string): (r: Option<string>)
      ensures r.Some? ==> r.value in pools
    {
      var p := if name != "" then Some(name) else defaultPool;
      if p.Some? && p.value in pools then p else None
    }

    /** No call fails from here on. */
    ghost predicate Answers()
      reads this`calls
    {
      forall k :: k >= calls ==> faults(k).None?
    }

    /** And no volume comes out larger than asked. */
    ghost predicate Healthy()
      reads this`calls
    {
      Answers() && forall k, o :: reports(k, o).capacity <= o.size
    }

    /** A volume that is to be made now comes out no larger than asked. */
    predicate MadeWithin(calls: nat, o: Options) {
      reports(calls + (if o.volume != "" then 5 else 4), o.(format := FormatAsked(o))).capacity <= o.size
    }

    method FindStoragePool() returns (err: Option<Refusal>)
      modifies this`calls
      ensures calls == old(calls) + 1 && err == faults(old(calls))
    {
      err := faults(calls);
      calls := calls + 1;
    }

    /** Any other call. */
    method Attempt() returns (fault: bool)
      modifies this`calls
      ensures calls == old(calls) + 1 && fault == faults(old(calls)).Some?
    {
      fault := faults(calls).Some?;
      calls := calls + 1;
    }

    method FindVolume(key: Key) returns (r: Result<Volume, Refusal>)
      modifies this`calls
      ensures r.Success? ==> key in volumes && r.value == Described(key, volumes[key])
      ensures r == Failure(NotFound) ==> key !in volumes
      ensures calls > old(calls) && (old(Answers()) ==> r.Success? || r == Failure(NotFound))
      ensures r == Failure(NotFound) ==> calls == old(calls) + 1
      ensures key !in volumes && faults(old(calls)).None? ==> r == Failure(NotFound)
    {
      var fault := Attempt();
      if fault {
        return Failure(Failed);
      }
      if key !in volumes {
        return Failure(NotFound);
      }
      fault := Attempt();
      return if fault then Failure(Failed) else Success(Described(key, volumes[key]));
    }

    /** Not found: the volume is not there, or libvirt does not know the pool. */
    method GetVolume(pool: string, name: string) returns (r: Result<Volume, Refusal>)
      modifies this`calls
      ensures calls > old(calls)
      ensures (pool, name) !in volumes && faults(old(calls)).None? && faults(old(calls) + 1).None? ==>
                r == Failure(NotFound) && calls == old(calls) + 2
      ensures old(Healthy()) ==> if (pool, name) in volumes then r.Success? else r == Failure(NotFound)
      ensures r.Success? ==> (pool, name) in volumes && r.value == Described((pool, name), volumes[(pool, name)])
    {
      var missing := FindStoragePool();
      if missing.Some? {
        return Failure(missing.value);
      }
      r := FindVolume((pool, name));
    }

    /** The calls from now on go well up to the n-th, which fails. */
    predicate BreaksOff(calls: nat, n: nat) {
      faults(calls + n).Some? && forall k :: calls <= k < calls + n ==> faults(k).None?
    }

    /** Makes the volume and fills it. It stays behind when a later step fails. */
    method Create(key: Key, kind: PoolKind, o: Options, origin: Origin) returns (r: Result<Volume, Refusal>)
      requires key !in volumes
      modifies this`calls, this`volumes
      ensures volumes != old(volumes) ==>
                key in volumes && volumes == old(volumes)[key := volumes[key]] && Towards(origin, volumes[key].origin)
      ensures calls >= old(calls)
      ensures origin.Image? && BreaksOff(old(calls), 1) ==>
                r.Failure? && calls == old(calls) + 2 && key in volumes && volumes[key].origin == Begun(origin.path)
      ensures old(Answers()) ==> (r.Success? <==> reports(old(calls) + 1, o).capacity <= o.size)
      ensures r.Success? ==>
                && key in volumes && volumes == old(volumes)[key := volumes[key]]
                && r.value == Described(key, volumes[key]) && volumes[key].origin == origin
                && (!origin.Image? ==> r.value.format == o.format)
                && r.value.size >= o.size && (o.sparse || kind.Ceph? ==> r.value.size == o.size)
    {
      var fault := Attempt();
      if fault {
        return Failure(Failed);
      }
      var report := reports(calls, o);
      var made := Stored(report.kind, if origin.Image? then report.format else o.format,
                         report.capacity, report.allocation, if origin.Image? then Begun(origin.path) else origin);
      volumes := volumes[key := made];
      if origin.Image? {
        fault := Attempt();
        if fault {
          return Failure(Failed);
        }
        made := made.(origin := origin);
        volumes := volumes[key := made];
      }
      fault := Attempt();
      if fault || o.size < made.capacity {
        return Failure(Failed);
      }
      ResizedHoldsSize(kind, made, o.size, o.sparse);
      made := Resized(kind, made, o.size, o.sparse);
      volumes := volumes[key := made];
      fault := Attempt();
      return if fault then Failure(Failed) else Success(Described(key, made));
    }

    /** What both kinds of pool do; a volume that is there already is handed back as it is. */
    method AddVolumeBase(pool: string, kind: PoolKind, name: string, o: Options)
      returns (r: Result<Volume, Refusal>, ghost added: seq<Key>)
      requires kind.Ceph? ==> !o.chained
      modifies this`calls, this`volumes
      ensures Grew(old(volumes), added, volumes) && added <= [(pool, name)]
      ensures r.Success? ==> (pool, name) in volumes && r.value == Described((pool, name), volumes[(pool, name)])
      ensures added != [] ==>
                && (pool, name) in volumes
                && Filling(kind, o.(chained := o.chained || kind.Ceph?), volumes[(pool, name)].origin)
      ensures r.Success? && (pool, name) !in old(volumes) ==>
                && FilledAsAsked(kind, o.(chained := o.chained || kind.Ceph?), volumes[(pool, name)].origin)
                && (!volumes[(pool, name)].origin.Image? ==> r.value.format == FormatAsked(o))
                && (o.volume != "" ==> (pool, o.volume) in old(volumes)) && (o.chained ==> o.volume != "")
                && r.value.size >= o.size && (o.sparse || kind.Ceph? ==> r.value.size == o.size)
      ensures o.volume == "" && o.path != "" && !o.chained && (pool, name) !in old(volumes)
              && BreaksOff(old(calls), 4) ==>
                && r.Failure? && calls == old(calls) + 5
                && (pool, name) in volumes && volumes[(pool, name)].origin == Begun(o.path)
      ensures calls > old(calls)
      ensures old(Answers()) ==>
                (r.Success? <==>
                 (pool, name) in old(volumes) || (Sourced(old(volumes), pool, o) && MadeWithin(old(calls), o)))
    {
      added := [];
      var missing := FindStoragePool();
      if missing.Some? {
        return Failure(missing.value), [];
      }
      var fault := Attempt();
      if fault {
        return Failure(Failed), [];
      }
      var format := FormatAsked(o);
      r := FindVolume((pool, name));
      if r.Success? || r.error.Failed? {
        return;
      }
      r, added := AddNew(pool, kind, name, o.(format := format));
    }

    /** Adds a volume that is not there, from its source if it is to have one. */
    method AddNew(pool: string, kind: PoolKind, name: string, o: Options)
      returns (r: Result<Volume, Refusal>, ghost added: seq<Key>)
      requires (pool, name) !in volumes && (kind.Ceph? ==> !o.chained)
      modifies this`calls, this`volumes
      ensures Grew(old(volumes), added, volumes) && added <= [(pool, name)]
      ensures added != [] ==>
                && (pool, name) in volumes
                && Filling(kind, o.(chained := o.chained || kind.Ceph?), volumes[(pool, name)].origin)
      ensures r.Success? ==>
                && (pool, name) in volumes && r.value == Described((pool, name), volumes[(pool, name)])
                && FilledAsAsked(kind, o.(chained := o.chained || kind.Ceph?), volumes[(pool, name)].origin)
                && (!volumes[(pool, name)].origin.Image? ==> r.value.format == o.format)
                && (o.volume != "" ==> (pool, o.volume) in old(volumes)) && (o.chained ==> o.volume != "")
                && r.value.size >= o.size && (o.sparse || kind.Ceph? ==> r.value.size == o.size)
      ensures o.volume == "" && o.path != "" && !o.chained && BreaksOff(old(calls), 1) ==>
                && r.Failure? && calls == old(calls) + 2
                && (pool, name) in volumes && volumes[(pool, name)].origin == Begun(o.path)
      ensures calls >= old(calls)
      ensures old(Answers()) ==>
                (r.Success? <==>
                 && Sourced(old(volumes), pool, o)
                 && reports(old(calls) + (if o.volume != "" then 2 else 1), o).capacity <= o.size)
    {
      added := [];
      GrewNot(volumes);
      if o.volume != "" {
        var fault := Attempt();
        if fault {
          return Failure(Failed), [];
        }
        if (pool, o.volume) !in volumes {
          return Failure(NotFound), [];
        }
      } else if o.chained {
        return Failure(NotFound), [];
      }
      ghost var before := volumes;
      var origin := Blank;
      if o.volume != "" && !o.chained {
        origin := if kind.Ceph? then BackedBy(o.volume) else CopyOf(o.volume);
      } else if o.path != "" {
        origin := Image(o.path);
      } else if o.chained {
        origin := BackedBy(o.volume);
      }
      r := Create((pool, name), kind, o, origin);
      if volumes != before {
        added := [(pool, name)];
        GrewOne(before, (pool, name), volumes[(pool, name)]);
      }
    }

    /** A full copy on Ceph goes past libvirt; a copy onto a name in use fails. */
    method CopyVolume(pool: string, name: string, o: Options)
      returns (r: Result<Volume, Refusal>, ghost added: seq<Key>)
      modifies this`calls, this`volumes
      ensures Grew(old(volumes), added, volumes) && added <= [(pool, name)]
      ensures r.Success? ==> (pool, name) in volumes && r.value == Described((pool, name), volumes[(pool, name)])
      ensures r.Success? ==> Copyable(old(volumes), pool, name, o)
      ensures added != [] ==> (pool, name) in volumes && volumes[(pool, name)].origin == CopyOf(o.volume)
      ensures r.Success? ==> added != [] && r.value.size == o.size
      ensures calls > old(calls)
      ensures old(Answers()) ==> (r.Success? <==> Copyable(old(volumes), pool, name, o))
    {
      added := [];
      var missing := FindStoragePool();
      if missing.Some? {
        return Failure(missing.value), [];
      }
      var fault := Attempt();
      if fault || (pool, o.volume) !in volumes || (pool, name) in volumes {
        return Failure(Failed), [];
      }
      var source := volumes[(pool, o.volume)];
      ghost var before := volumes;
      var made := source.(origin := CopyOf(o.volume));
      GrewOne(before, (pool, name), made);
      volumes := volumes[(pool, name) := made];
      added := [(pool, name)];
      fault := Attempt();
      if fault || o.size < made.capacity {
        return Failure(Failed), added;
      }
      ResizedHoldsSize(Ceph, made, o.size, true);
      made := Resized(Ceph, made, o.size, true);
      GrewOne(before, (pool, name), made);
      volumes := volumes[(pool, name) := made];
      assert volumes == before[(pool, name) := made];
      r := FindVolume((pool, name));
    }

    /** Ceph volumes are always sparse, and libvirt's clone of one is already chained to its source. */
    method AddVolume(pool: string, name: string, o: Options) returns (r: Result<Volume, Refusal>, ghost added: seq<Key>)
      requires pool in pools
      modifies this`calls, this`volumes
      ensures Grew(old(volumes), added, volumes) && added <= [(pool, name)]
      ensures r.Success? ==> (pool, name) in volumes && r.value == Described((pool, name), volumes[(pool, name)])
      ensures r.Success? && (pool, name) !in old(volumes) ==>
                && FilledAsAsked(pools[pool], o, volumes[(pool, name)].origin)
                && (volumes[(pool, name)].origin.BackedBy? || volumes[(pool, name)].origin.Blank?
                    ==> r.value.format == FormatAsked(o))
                && (o.volume != "" ==> (pool, o.volume) in old(volumes))
                && r.value.size >= o.size && (o.sparse || pools[pool].Ceph? ==> r.value.size == o.size)
      ensures added != [] ==> (pool, name) in volumes && Filling(pools[pool], o, volumes[(pool, name)].origin)
      ensures o.volume == "" && o.path != "" && !o.chained && (pool, name) !in old(volumes)
              && BreaksOff(old(calls), 4) ==>
                && r.Failure? && calls == old(calls) + 5
                && (pool, name) in volumes && volumes[(pool, name)].origin == Begun(o.path)
      ensures r.Success? && pools[pool].Directory? && (pool, name) !in old(volumes) ==> o.chained ==> o.volume != ""
      ensures calls > old(calls)
      ensures old(Healthy()) ==> (r.Success? <==> Addable(pools[pool], old(volumes), pool, name, o))
    {
      match pools[pool]
      case Directory =>
        r, added := AddVolumeBase(pool, Directory, name, o);
      case Ceph =>
        if !o.chained && o.volume != "" {
          r, added := CopyVolume(pool, name, o);
        } else {
          r, added := AddVolumeBase(pool, Ceph, name, o.(chained := false, sparse := true));
        }
    }

    /** Deleting a volume that is not there succeeds. */
    method DeleteVolume(pool: string, name: string) returns (err: Option<Refusal>)
      modifies this`calls, this`volumes
      ensures err.Some? ==> volumes == old(volumes)
      ensures err.None? ==> volumes == old(volumes) - {(pool, name)}
      ensures calls > old(calls) && (old(Healthy()) ==> err.None?)
    {
      err := FindStoragePool();
      if err.Some? {
        return;
      }
      var fault := Attempt();
      if fault {
        return Some(Failed);
      }
      fault := Attempt();
      if fault {
        return Some(Failed);
      }
      if (pool, name) !in volumes {
        assert volumes - {(pool, name)} == volumes;
        return None;
      }
      fault := Attempt();
      if fault {
        return Some(Failed);
      }
      volumes := volumes - {(pool, name)};
    }
  }

  /** The source volume is there, and a chained volume has one. */
  predicate Sourced(volumes: map<Key, Stored>, pool: string, o: Options) {
    (o.volume != "" ==> (pool, o.volume) in volumes) && (o.chained ==> o.volume != "")
  }

  /** The name is free, and the source is there and no larger than the copy is to be. */
  predicate Copyable(volumes: map<Key, Stored>, pool: string, name: string, o: Options) {
    (pool, name) !in volumes && (pool, o.volume) in volumes && volumes[(pool, o.volume)].capacity <= o.size
  }

  /** When libvirt does not fail, what decides whether adding a volume succeeds. */
  predicate Addable(kind: PoolKind, volumes: map<Key, Stored>, pool: string, name: string, o: Options) {
    if kind.Ceph? && !o.chained && o.volume != "" then Copyable(volumes, pool, name, o)
    else (pool, name) in volumes || Sourced(volumes, pool, if kind.Ceph? then o.(chained := false) else o)
  }
}
