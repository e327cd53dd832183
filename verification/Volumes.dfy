/**
 * Volumes as the disks of a domain, and back again when the domain is destroyed
 * (providers/libvirt/storage/storage.go, domain.go, libvirt.go).
 */
module Volumes {
  import opened Wrappers
  import opened Text
  import opened Pools

  // ---- Volumes to disks --------------------------------------------------------------------

  datatype CephInfo = CephInfo(source: string, hosts: seq<(string, string)>, username: string)

  /** What libvirt knows of a Ceph pool: its remote side and the secret stored for it. */
  datatype CephReplies = CephReplies(info: string -> Result<CephInfo, Refusal>, secret: string -> Result<string,
      Refusal>)

  datatype DiskSource =
    | BlockSource(dev: string)
    | VolumeSource(pool: string, volume: string)
    | NetworkSource(protocol: string, name: string, hosts: seq<(string, string)>, username: string, secret: string)

  datatype DomainDisk = DomainDisk(
    device: string, driver: string, format: string, dev: string, bus: string, boot: bool, source: Option<DiskSource>)

  function SourceOf(pools: map<string, PoolKind>, ceph: CephReplies, v: Volume): Result<DiskSource, Refusal> {
    if v.block != "" then Success(BlockSource(v.block))
    else if v.pool !in pools then Failure(NotFound)
    else match pools[v.pool]
      case Directory => Success(VolumeSource(v.pool, v.name))
      case Ceph =>
        var info := ceph.info(v.pool);
        if info.Failure? then Failure(info.error)
        else
          var secret := ceph.secret(v.pool);
          if secret.Failure? then Failure(secret.error)
          else Success(NetworkSource("rbd", info.value.source + ['/'] + v.name, info.value.hosts, info.value.username,
                                     secret.value))
  }

  /** Uploads of an iso image may have changed a raw volume's recorded format. */
  function VolumeToDisk(pools: map<string, PoolKind>, ceph: CephReplies, v: Volume): Result<DomainDisk, Refusal> {
    var source := SourceOf(pools, ceph, v);
    if source.Failure? then Failure(source.error)
    else Success(DomainDisk(v.kind, v.driver, if v.format == "iso" then "raw" else v.format,
                            v.deviceName, v.busType, v.primary, Some(source.value)))
  }

  /** A disk for each volume, or the first refusal. */
  method DomainDisks(pools: map<string, PoolKind>, ceph: CephReplies, vols: seq<Volume>)
    returns (r: Result<seq<DomainDisk>, Refusal>)
    ensures r.Success? <==> forall v :: v in vols ==> VolumeToDisk(pools, ceph, v).Success?
    ensures r.Success? ==> DisksOf(pools, ceph, vols, r.value)
  {
    var disks: seq<DomainDisk> := [];
    for i := 0 to |vols|
      invariant DisksOf(pools, ceph, vols[..i], disks)
      invariant forall v :: v in vols[..i] ==> VolumeToDisk(pools, ceph, v).Success?
    {
      var disk := VolumeToDisk(pools, ceph, vols[i]);
      assert vols[i] in vols;
      if disk.Failure? {
        return Failure(disk.error);
      }
      disks := disks + [disk.value];
    }
    assert vols[..|vols|] == vols;
    r := Success(disks);
  }

  ghost predicate DisksOf(pools: map<string, PoolKind>, ceph: CephReplies, vols: seq<Volume>, disks: seq<DomainDisk>) {
    |disks| == |vols| && forall i :: 0 <= i < |vols| ==> VolumeToDisk(pools, ceph, vols[i]) == Success(disks[i])
  }

  // ---- Disks to volumes --------------------------------------------------------------------

  datatype DiscoverError = LookupFailed(refusal: Refusal) | BadName | UnknownPool

  /** The disk's volume; None for a disk that is not backed by one. */
  function DiscoverOne(index: map<string, string>, disk: DomainDisk): Result<Option<Key>, DiscoverError> {
    match disk.source
    case None => Success(None)
    case Some(source) =>
      if source.VolumeSource? then Success(Some((source.pool, source.volume)))
      else if source.NetworkSource? && source.protocol == "rbd" then
        var parts := Split(source.name, '/');
        if |parts| < 2 then Failure(BadName)
        else if parts[0] !in index then Failure(UnknownPool)
        else Success(Some((index[parts[0]], JoinWith(parts[1..], '/'))))
      else Success(None)
  }

  function Discovered(index: map<string, string>, disks: seq<DomainDisk>): Result<seq<Key>, DiscoverError> {
    if disks == [] then Success([])
    else
      var before := Discovered(index, disks[..|disks| - 1]);
      var last := DiscoverOne(index, disks[|disks| - 1]);
      if before.Failure? then before
      else if last.Failure? then Failure(last.error)
      else Success(before.value + if last.value.Some? then [last.value.value] else [])
  }

  predicate IsCeph(pools: map<string, PoolKind>, name: string) {
    name in pools && pools[name].Ceph?
  }

  /** Every Ceph pool's remote name leads to a Ceph pool with that remote name. */
  ghost predicate IsIndex(pools: map<string, PoolKind>, ceph: CephReplies, index: map<string, string>) {
    && (forall name :: IsCeph(pools, name) ==> ceph.info(name).Success? && ceph.info(name).value.source in index)
    && (forall source :: source in index ==> IsCeph(pools,
                                                    index[source]) && ceph.info(index[source]).value.source == source)
  }

  /** The pools come in no particular order, so among pools with one remote name any may win. */
  method CephIndex(pools: map<string, PoolKind>, ceph: CephReplies) returns (r: Result<map<string, string>, Refusal>)
    ensures r.Failure? <==> exists name :: IsCeph(pools, name) && ceph.info(name).Failure?
    ensures r.Success? ==> IsIndex(pools, ceph, r.value)
  {
    var index: map<string, string> := map[];
    var left := pools.Keys;
    while left != {}
      invariant left <= pools.Keys
      invariant forall name :: IsCeph(pools, name) && name !in left ==>
                  ceph.info(name).Success? && ceph.info(name).value.source in index
      invariant forall source :: source in index ==>
                  && IsCeph(pools, index[source]) && ceph.info(index[source]).Success?
                  && ceph.info(index[source]).value.source == source
      decreases left
    {
      var name :| name in left;
      left := left - {name};
      if pools[name].Ceph? {
        var info := ceph.info(name);
        if info.Failure? {
          assert IsCeph(pools, name);
          return Failure(info.error);
        }
        index := index[info.value.source := name];
      }
    }
    r := Success(index);
  }

  method DiscoverVolumes(pools: map<string, PoolKind>, ceph: CephReplies, disks: seq<DomainDisk>)
    returns (r: Result<seq<Key>, DiscoverError>, ghost index: map<string, string>)
    ensures r.Success? || r.error == BadName || r.error == UnknownPool ==>
              IsIndex(pools, ceph, index) && r == Discovered(index, disks)
    ensures r.Failure? && r.error.LookupFailed? <==> exists name :: IsCeph(pools, name) && ceph.info(name).Failure?
  {
    index := map[];
    var found := CephIndex(pools, ceph);
    if found.Failure? {
      return Failure(LookupFailed(found.error)), index;
    }
    index := found.value;
    var vols: seq<Key> := [];
    for i := 0 to |disks|
      invariant Discovered(index, disks[..i]) == Success(vols)
    {
      var one := DiscoverOne(found.value, disks[i]);
      DiscoverNext(index, disks, i);
      if one.Failure? {
        DiscoverStops(index, disks, i + 1);
        return Failure(one.error), index;
      }
      assert vols + [] == vols;
      if one.value.Some? {
        vols := vols + [one.value.value];
      }
    }
    assert disks[..|disks|] == disks;
    r := Success(vols);
  }

  lemma DiscoverNext(index: map<string, string>, disks: seq<DomainDisk>, i: nat)
    requires i < |disks| && Discovered(index, disks[..i]).Success?
    ensures Discovered(index, disks[..i + 1]) ==
            var before, last := Discovered(index, disks[..i]), DiscoverOne(index, disks[i]);
            if last.Failure? then Failure(last.error)
            else Success(before.value + if last.value.Some? then [last.value.value] else [])
  {
    assert disks[..i + 1][..i] == disks[..i];
  }

  lemma {:induction false} DiscoverStops(index: map<string, string>, disks: seq<DomainDisk>, i: nat)
    requires i <= |disks| && Discovered(index, disks[..i]).Failure?
    ensures Discovered(index, disks) == Discovered(index, disks[..i])
    decreases |disks| - i
  {
    if i == |disks| {
      assert disks[..i] == disks;
    } else {
      assert disks[..i + 1][..i] == disks[..i];
      DiscoverStops(index, disks, i + 1);
    }
  }

  // ---- Round trip --------------------------------------------------------------------------

  /** The volumes that live in pools, in order. */
  function Pooled(vols: seq<Volume>): seq<Key> {
    if vols == [] then []
    else Pooled(vols[..|vols| - 1]) +
         if vols[|vols| - 1].block == "" then [(vols[|vols| - 1].pool, vols[|vols| - 1].name)] else []
  }

  /** A disk on Ceph leads back to its volume exactly when the remote pool's name is free of slashes and its own. */
  lemma CephRoundTripIff(pools: map<string, PoolKind>, ceph: CephReplies, index: map<string, string>, v: Volume,
      disk: DomainDisk)
    requires v.block == "" && IsCeph(pools, v.pool) && VolumeToDisk(pools, ceph, v) == Success(disk)
    requires IsIndex(pools, ceph, index)
    ensures DiscoverOne(index, disk) == Success(Some((v.pool, v.name))) <==>
            '/' !in ceph.info(v.pool).value.source && index[ceph.info(v.pool).value.source] == v.pool
  {
    var source := ceph.info(v.pool).value.source;
    var name := source + ['/'] + v.name;
    if '/' !in source {
      SplitFirst(source, '/', v.name);
      var parts := Split(v.name, '/');
      assert ([source] + parts)[1..] == parts;
      JoinSplit(v.name, '/');
    } else {
      var a, b := AtFirst(source, '/');
      assert name == a + ['/'] + (b + ['/'] + v.name);
      SplitFirst(a, '/', b + ['/'] + v.name);
      var parts := Split(b + ['/'] + v.name, '/');
      assert ([a] + parts)[1..] == parts;
      JoinSplit(b + ['/'] + v.name, '/');
      assert |b + ['/'] + v.name| > |v.name|;
    }
  }

  lemma {:induction false} AtFirst(s: string, c: char) returns (a: string, b: string)
    requires c in s
    ensures s == a + [c] + b && c !in a
  {
    if s[0] == c {
      a, b := [], s[1..];
    } else {
      assert s == [s[0]] + s[1..];
      a, b := AtFirst(s[1..], c);
      a := [s[0]] + a;
    }
  }

  /** The pool's remote name has no slash, and no other Ceph pool is configured with it. */
  ghost predicate OwnSource(pools: map<string, PoolKind>, ceph: CephReplies, name: string) {
    && ceph.info(name).Success? && '/' !in ceph.info(name).value.source
    && (forall other ::
          (IsCeph(pools, other) && ceph.info(other).Success? &&
           ceph.info(other).value.source == ceph.info(name).value.source) ==> other == name)
  }

  /** So it is with all Ceph pools the volumes are in. */
  ghost predicate OwnSources(pools: map<string, PoolKind>, ceph: CephReplies, vols: seq<Volume>) {
    forall v :: v in vols && v.block == "" && IsCeph(pools, v.pool) ==> OwnSource(pools, ceph, v.pool)
  }

  ghost predicate AllAnswer(pools: map<string, PoolKind>, ceph: CephReplies) {
    forall name :: IsCeph(pools, name) ==> ceph.info(name).Success?
  }

  /** Some Ceph pool with the remote name. */
  ghost function PoolWith(pools: map<string, PoolKind>, ceph: CephReplies, source: string): (name: string)
    requires exists p :: IsCeph(pools, p) && ceph.info(p).Success? && ceph.info(p).value.source == source
    ensures IsCeph(pools, name) && ceph.info(name).Success? && ceph.info(name).value.source == source
  {
    var p :| IsCeph(pools, p) && ceph.info(p).Success? && ceph.info(p).value.source == source;
    p
  }

  /** As the pools come in no particular order, each may be the one its remote name leads to. */
  lemma AnyMayWin(pools: map<string, PoolKind>, ceph: CephReplies, name: string) returns (index: map<string, string>)
    requires AllAnswer(pools, ceph) && IsCeph(pools, name)
    ensures IsIndex(pools, ceph, index) && index[ceph.info(name).value.source] == name
  {
    var sources := set p | p in pools && IsCeph(pools, p) :: ceph.info(p).value.source;
    index := map source | source in sources :: PoolWith(pools, ceph, source);
    index := index[ceph.info(name).value.source := name];
    forall p | IsCeph(pools, p) ensures ceph.info(p).value.source in index {
      assert p in pools;
    }
  }

  /** A disk on Ceph leads back to its volume, whatever the index, exactly when its pool's source is its own. */
  lemma CephConfigurationIff(pools: map<string, PoolKind>, ceph: CephReplies, v: Volume, disk: DomainDisk)
    requires v.block == "" && IsCeph(pools, v.pool) && VolumeToDisk(pools, ceph, v) == Success(disk)
    requires AllAnswer(pools, ceph)
    ensures (forall index :: IsIndex(pools, ceph, index) ==>
                               DiscoverOne(index, disk) == Success(Some((v.pool, v.name)))) <==>
            OwnSource(pools, ceph, v.pool)
  {
    var source := ceph.info(v.pool).value.source;
    forall index | IsIndex(pools, ceph, index)
      ensures DiscoverOne(index, disk) == Success(Some((v.pool, v.name))) <==>
              '/' !in source && index[source] == v.pool
    {
      CephRoundTripIff(pools, ceph, index, v, disk);
    }
    if !OwnSource(pools, ceph, v.pool) {
      var other := if '/' in source then v.pool else OtherWith(pools, ceph, v.pool);
      var index := AnyMayWin(pools, ceph, other);
      assert DiscoverOne(index, disk) != Success(Some((v.pool, v.name)));
    }
  }

  ghost function OtherWith(pools: map<string, PoolKind>, ceph: CephReplies, name: string): (other: string)
    requires ceph.info(name).Success? && '/' !in ceph.info(name).value.source && !OwnSource(pools, ceph, name)
    ensures IsCeph(pools, other) && other != name && ceph.info(other).Success?
    ensures ceph.info(other).value.source == ceph.info(name).value.source
  {
    var other :| IsCeph(pools, other) && ceph.info(other).Success? &&
                 ceph.info(other).value.source == ceph.info(name).value.source && other != name;
    other
  }

  function KeyOf(v: Volume): Option<Key> {
    if v.block == "" then Some((v.pool, v.name)) else None
  }

  /** A volume that is not on Ceph leads back to itself whatever the index. */
  lemma DiscoverInvertsDisk(pools: map<string, PoolKind>, ceph: CephReplies, index: map<string, string>, v: Volume,
      disk: DomainDisk)
    requires VolumeToDisk(pools, ceph, v) == Success(disk) && IsIndex(pools, ceph, index)
    requires v.block == "" && IsCeph(pools, v.pool) ==> OwnSource(pools, ceph, v.pool)
    ensures DiscoverOne(index, disk) == Success(KeyOf(v))
  {
    if v.block == "" && IsCeph(pools, v.pool) {
      var source := ceph.info(v.pool).value.source;
      assert index[source] == v.pool;
      CephRoundTripIff(pools, ceph, index, v, disk);
    }
  }

  /** The disks of any volumes lead back to exactly those kept in pools, in order, whatever the volumes are named. */
  lemma {:induction false} DiscoverInvertsDisks(pools: map<string, PoolKind>, ceph: CephReplies,
      index: map<string, string>, vols: seq<Volume>, disks: seq<DomainDisk>)
    requires DisksOf(pools, ceph, vols, disks) && IsIndex(pools, ceph, index) && OwnSources(pools, ceph, vols)
    ensures Discovered(index, disks) == Success(Pooled(vols))
  {
    if vols != [] {
      var n := |vols| - 1;
      DiscoverInvertsDisks(pools, ceph, index, vols[..n], disks[..n]);
      assert vols[n] in vols;
      DiscoverInvertsDisk(pools, ceph, index, vols[n], disks[n]);
    }
  }

  /** A disk made from a pooled volume leads to some volume or fails, one made from a block device to none. */
  lemma DiscoverSome(pools: map<string, PoolKind>, ceph: CephReplies, index: map<string, string>, v: Volume,
      disk: DomainDisk)
    requires VolumeToDisk(pools, ceph, v) == Success(disk)
    ensures DiscoverOne(index, disk).Success? ==> (DiscoverOne(index, disk).value.Some? <==> v.block == "")
  {
  }

  lemma SameFront(a: seq<Key>, x: Key, b: seq<Key>, y: Key)
    requires a + [x] == b + [y]
    ensures a == b && x == y
  {
    assert |a| == |b|;
    assert a == (a + [x])[..|a|] == b;
    assert x == (a + [x])[|a|];
  }

  /** If the disks together lead back to the volumes, so does each disk. */
  lemma {:induction false} DiscoveredEach(pools: map<string, PoolKind>, ceph: CephReplies,
      index: map<string, string>, vols: seq<Volume>, disks: seq<DomainDisk>, i: nat)
    requires DisksOf(pools, ceph, vols, disks) && Discovered(index, disks) == Success(Pooled(vols)) && i < |vols|
    ensures DiscoverOne(index, disks[i]) == Success(KeyOf(vols[i]))
  {
    var n := |vols| - 1;
    DiscoverSome(pools, ceph, index, vols[n], disks[n]);
    var before, front := Discovered(index, disks[..n]).value, Pooled(vols[..n]);
    if vols[n].block == "" {
      SameFront(before, DiscoverOne(index, disks[n]).value.value, front, (vols[n].pool, vols[n].name));
    } else {
      assert before + [] == before && front + [] == front;
    }
    if i < n {
      DiscoveredEach(pools, ceph, index, vols[..n], disks[..n], i);
    }
  }

  /**
   * The disks of volumes lead back to exactly those kept in pools, under every index there may be,
   * exactly when the sources of the Ceph pools they are in are their own.
   */
  lemma DiscoverInvertsDisksIff(pools: map<string, PoolKind>, ceph: CephReplies, vols: seq<Volume>,
      disks: seq<DomainDisk>)
    requires DisksOf(pools, ceph, vols, disks) && AllAnswer(pools, ceph)
    ensures (forall index :: IsIndex(pools, ceph, index) ==> Discovered(index, disks) == Success(Pooled(vols))) <==>
            OwnSources(pools, ceph, vols)
  {
    if OwnSources(pools, ceph, vols) {
      forall index | IsIndex(pools, ceph, index) ensures Discovered(index, disks) == Success(Pooled(vols)) {
        DiscoverInvertsDisks(pools, ceph, index, vols, disks);
      }
    } else {
      var v :| v in vols && v.block == "" && IsCeph(pools, v.pool) && !OwnSource(pools, ceph, v.pool);
      var i :| 0 <= i < |vols| && vols[i] == v;
      CephConfigurationIff(pools, ceph, v, disks[i]);
      var index :| IsIndex(pools, ceph, index) && DiscoverOne(index, disks[i]) != Success(Some((v.pool, v.name)));
      if Discovered(index, disks) == Success(Pooled(vols)) {
        DiscoveredEach(pools, ceph, index, vols, disks, i);
      }
    }
  }

  /**
   * Two Ceph pools configured with one remote name, as pools of two clusters may be: whatever the
   * index, destroying one of the two domains deletes the volume of the other and leaves its own;
   * and each of the two may be the one.
   */
  lemma SharedRemoteMisleads(a: string, b: string, remote: string, name: string, ceph: CephReplies,
      x: Volume, y: Volume, stored: map<Key, Stored>)
    requires a != b && '/' !in remote && x.block == y.block == ""
    requires (x.pool, x.name) == (a, name) && (y.pool, y.name) == (b, name)
    requires forall p :: ceph.info(p).Success? && ceph.info(p).value.source == remote && ceph.secret(p).Success?
    requires (a, name) in stored && (b, name) in stored
    ensures var pools := map[a := Ceph, b := Ceph];
            var dx, dy := VolumeToDisk(pools, ceph, x).value, VolumeToDisk(pools, ceph, y).value;
            && (forall index :: IsIndex(pools, ceph, index) ==>
                  Misled(index, dx, (a, name), stored) || Misled(index, dy, (b, name), stored))
            && (exists index :: IsIndex(pools, ceph, index) && Misled(index, dx, (a, name), stored))
            && (exists index :: IsIndex(pools, ceph, index) && Misled(index, dy, (b, name), stored))
  {
    var pools := map[a := Ceph, b := Ceph];
    var dx, dy := VolumeToDisk(pools, ceph, x).value, VolumeToDisk(pools, ceph, y).value;
    forall index | IsIndex(pools, ceph, index)
      ensures if index[remote] == a then Misled(index, dy, (b, name), stored)
              else index[remote] == b && Misled(index, dx, (a, name), stored)
    {
      assert IsCeph(pools, a) && IsCeph(pools, index[remote]);
      LeadsToIndexed(index, dx, remote, name);
      LeadsToIndexed(index, dy, remote, name);
    }
    var toA := AnyMayWin(pools, ceph, a);
    var toB := AnyMayWin(pools, ceph, b);
  }

  /** Destroying the disk's domain deletes another volume than the disk's, which stays. */
  ghost predicate Misled(index: map<string, string>, disk: DomainDisk, own: Key, stored: map<Key, Stored>) {
    var found := Discovered(index, [disk]);
    found.Success? && (exists key :: key in found.value && key != own && key in stored) && own !in found.value
  }

  lemma LeadsToIndexed(index: map<string, string>, disk: DomainDisk, remote: string, name: string)
    requires disk.source.Some? && disk.source.value.NetworkSource? && disk.source.value.protocol == "rbd"
    requires disk.source.value.name == remote + ['/'] + name && '/' !in remote && remote in index
    ensures Discovered(index, [disk]) == Success([(index[remote], name)])
  {
    SplitFirst(remote, '/', name);
    var parts := Split(name, '/');
    assert ([remote] + parts)[1..] == parts;
    JoinSplit(name, '/');
    assert [disk][..0] == [];
    var none: seq<Key> := [];
    assert Discovered(index, []) == Success(none);
    assert none + [(index[remote], name)] == [(index[remote], name)];
  }

  lemma {:induction false} PooledKeys(vols: seq<Volume>, key: Key)
    ensures key in Pooled(vols) <==> exists v :: v in vols && v.block == "" && (v.pool, v.name) == key
  {
    if vols != [] {
      var n := |vols| - 1;
      var front, last := vols[..n], vols[n];
      PooledKeys(front, key);
      assert vols == front + [last];
      assert key in Pooled(vols) <==> key in Pooled(front) || (last.block == "" && (last.pool, last.name) == key);
      assert forall v :: v in vols <==> v in front || v == last;
    }
  }

  // ---- Destroying a domain -----------------------------------------------------------------

  datatype Stop = Stopped | LibvirtError(operationInvalid: bool) | OtherError

  /** How libvirt answers while one domain is destroyed. */
  datatype Replies = Replies(lookupFails: bool, describeFails: bool, stop: Stop, undefineFails: bool) {
    /** Nothing keeps the domain from being removed. */
    predicate Smooth() {
      !lookupFails && !describeFails && !undefineFails && stop != LibvirtError(false)
    }
  }

  datatype DestroyError =
    | CannotLookUp | NoDomain | CannotDescribe | CannotDiscover(error: DiscoverError)
    | CannotStop | CannotUndefine | PoolGone | CannotDelete(refusal: Refusal)

  function KeySet(keys: seq<Key>): set<Key> {
    set key | key in keys
  }

  /** Why the volumes of disks are not found: a Ceph pool cannot be asked, or a disk leads nowhere. */
  ghost predicate Undiscoverable(pools: map<string, PoolKind>, ceph: CephReplies, index: map<string, string>,
      disks: seq<DomainDisk>, error: DiscoverError)
  {
    if error.LookupFailed? then exists name :: IsCeph(pools, name) && ceph.info(name).Failure?
    else IsIndex(pools, ceph, index) && Discovered(index, disks) == Failure(error)
  }

  class Provider {
    const storage: Storage
    const ceph: CephReplies
    var domains: map<string, seq<DomainDisk>>

    constructor (storage: Storage, ceph: CephReplies, domains: map<string, seq<DomainDisk>>)
      ensures this.storage == storage && this.ceph == ceph && this.domains == domains
    {
      this.storage, this.ceph, this.domains := storage, ceph, domains;
    }

    /** Deletes in order and stops at the first refusal. */
    method DeleteVolumes(vols: seq<Key>) returns (err: Option<DestroyError>, ghost deleted: nat)
      modifies storage`volumes, storage`calls
      ensures deleted <= |vols| && storage.volumes == old(storage.volumes) - KeySet(vols[..deleted])
      ensures (err.None? <==> deleted == |vols|) && (err.Some? ==> err.value.PoolGone? || err.value.CannotDelete?)
      ensures err.Some? && err.value.PoolGone? ==> deleted < |vols| && vols[deleted].0 !in storage.pools
      ensures old(storage.Healthy()) ==> (err.None? || err.value.PoolGone?)
      ensures old(storage.Healthy()) ==> (err.None? <==> forall key :: key in vols ==> key.0 in storage.pools)
    {
      deleted := 0;
      assert KeySet(vols[..0]) == {};
      for i := 0 to |vols|
        invariant deleted == i && storage.volumes == old(storage.volumes) - KeySet(vols[..i])
        invariant storage.calls >= old(storage.calls)
        invariant forall key :: key in vols[..i] ==> key.0 in storage.pools
      {
        if vols[i].0 !in storage.pools {
          return Some(PoolGone), deleted;
        }
        var refusal := storage.DeleteVolume(vols[i].0, vols[i].1);
        if refusal.Some? {
          return Some(CannotDelete(refusal.value)), deleted;
        }
        assert KeySet(vols[..i + 1]) == KeySet(vols[..i]) + {vols[i]};
        deleted := i + 1;
      }
      err := None;
    }

    /** A domain without disks has no volumes, whatever the state of the pools. */
    method DomainVolumes(disks: seq<DomainDisk>)
      returns (r: Result<seq<Key>, DiscoverError>, ghost index: map<string, string>)
      ensures r.Success? ==> r == Discovered(index, disks) && (disks != [] ==> IsIndex(storage.pools, ceph, index))
      ensures r.Failure? ==> disks != [] && Undiscoverable(storage.pools, ceph, index, disks, r.error)
    {
      if disks == [] {
        return Success([]), map[];
      }
      r, index := DiscoverVolumes(storage.pools, ceph, disks);
    }

    /**
     * Success removes the domain and exactly its volumes. Up to the removal of the domain a
     * failure changes nothing; after it, some volumes stay with no domain to lead to them.
     */
    method DestroyVM(name: string, replies: Replies)
      returns (err: Option<DestroyError>, ghost vols: seq<Key>, ghost index: map<string, string>, ghost deleted: nat)
      modifies this`domains, storage`volumes, storage`calls
      ensures name !in old(domains) ==> err.Some?
      ensures err.Some? && !err.value.PoolGone? && !err.value.CannotDelete? ==>
                domains == old(domains) && storage.volumes == old(storage.volumes)
      ensures err.None? || err.value.PoolGone? || err.value.CannotDelete? ==>
                && name in old(domains) && domains == old(domains) - {name}
                && Discovered(index, old(domains)[name]) == Success(vols)
                && (old(domains)[name] != [] ==> IsIndex(storage.pools, ceph, index))
                && deleted <= |vols| && (err.None? <==> deleted == |vols|)
                && (err == Some(PoolGone) ==> deleted < |vols| && vols[deleted].0 !in storage.pools)
                && storage.volumes == old(storage.volumes) - KeySet(vols[..deleted])
      ensures err.None? || err.value.PoolGone? || err.value.CannotDelete? ==>
                replies.Smooth()
      ensures err.Some? && err.value.CannotDiscover? ==>
                && name in old(domains) && old(domains)[name] != []
                && Undiscoverable(storage.pools, ceph, index, old(domains)[name], err.value.error)
      ensures old(storage.Healthy()) && replies.Smooth() && name in old(domains) ==>
                || (err.Some? && err.value.CannotDiscover?)
                || (err.None? && forall key :: key in vols ==> key.0 in storage.pools)
                || (err == Some(PoolGone) && exists key :: key in vols && key.0 !in storage.pools)
      ensures err == Some(NoDomain) <==> !replies.lookupFails && name !in old(domains)
    {
      vols, index, deleted := [], map[], 0;
      if replies.lookupFails {
        return Some(CannotLookUp), vols, index, deleted;
      }
      if name !in domains {
        return Some(NoDomain), vols, index, deleted;
      }
      if replies.describeFails {
        return Some(CannotDescribe), vols, index, deleted;
      }
      var found;
      found, index := DomainVolumes(domains[name]);
      if found.Failure? {
        return Some(CannotDiscover(found.error)), vols, index, deleted;
      }
      vols := found.value;
      // an error that is not libvirt's own does not stop the removal
      if replies.stop == LibvirtError(false) {
        return Some(CannotStop), vols, index, deleted;
      }
      if replies.undefineFails {
        return Some(CannotUndefine), vols, index, deleted;
      }
      domains := domains - {name};
      err, deleted := DeleteVolumes(found.value);
      assert vols[..|vols|] == vols;
    }
  }

  /** Destroying a domain made from some volumes deletes those kept in pools and no other volume. */
  lemma DestroyDeletesExactly(pools: map<string, PoolKind>, ceph: CephReplies, index: map<string, string>,
      vols: seq<Volume>, disks: seq<DomainDisk>, found: seq<Key>, before: map<Key, Stored>, after: map<Key, Stored>)
    requires DisksOf(pools, ceph, vols, disks) && OwnSources(pools, ceph, vols)
    requires disks != [] ==> IsIndex(pools, ceph, index)
    requires Discovered(index, disks) == Success(found) && after == before - KeySet(found)
    ensures forall key :: key in after <==>
              key in before && !exists v :: v in vols && v.block == "" && (v.pool, v.name) == key
    ensures forall key :: key in after ==> after[key] == before[key]
  {
    if disks != [] {
      DiscoverInvertsDisks(pools, ceph, index, vols, disks);
    }
    forall key ensures key in KeySet(found) <==> exists v :: v in vols && v.block == "" && (v.pool, v.name) == key {
      PooledKeys(vols, key);
    }
  }

  /** The parent of a chained volume stays, unless the domain has it as a disk itself. */
  lemma ParentsStay(pools: map<string, PoolKind>, ceph: CephReplies, index: map<string, string>,
      vols: seq<Volume>, disks: seq<DomainDisk>, found: seq<Key>, before: map<Key, Stored>, after: map<Key, Stored>,
              v: Volume)
    requires DisksOf(pools, ceph, vols, disks) && OwnSources(pools, ceph, vols)
    requires disks != [] ==> IsIndex(pools, ceph, index)
    requires Discovered(index, disks) == Success(found) && after == before - KeySet(found)
    requires v in vols && (v.pool, v.name) in before && before[(v.pool, v.name)].origin.BackedBy?
    requires var parent := (v.pool, before[(v.pool, v.name)].origin.parent);
             parent in before && forall u :: u in vols ==> (u.pool, u.name) != parent
    ensures (v.pool, before[(v.pool, v.name)].origin.parent) in after
  {
    DestroyDeletesExactly(pools, ceph, index, vols, disks, found, before, after);
  }

  /** Disks are only made for volumes of pools there are, so destroying them meets no missing pool. */
  lemma {:induction false} PooledKnown(pools: map<string, PoolKind>, ceph: CephReplies, vols: seq<Volume>,
      disks: seq<DomainDisk>)
    requires DisksOf(pools, ceph, vols, disks)
    ensures forall key :: key in Pooled(vols) ==> key.0 in pools
  {
    if vols != [] {
      var n := |vols| - 1;
      PooledKnown(pools, ceph, vols[..n], disks[..n]);
      assert VolumeToDisk(pools, ceph, vols[n]) == Success(disks[n]);
    }
  }

  lemma DiscoverTwo(index: map<string, string>, x: DomainDisk, y: DomainDisk, a: Key, b: Key)
    requires x.source == Some(VolumeSource(a.0, a.1)) && y.source == Some(VolumeSource(b.0, b.1))
    ensures Discovered(index, [x, y]) == Success([a, b])
  {
    assert [x, y][..1] == [x] && [x][..0] == [];
    assert DiscoverOne(index, x) == Success(Some(a)) && DiscoverOne(index, y) == Success(Some(b));
    var none: seq<Key> := [];
    assert Discovered(index, []) == Success(none);
    assert Discovered(index, [x]) == Success(none + [a]);
    assert none + [a] == [a];
    assert [x, y][1] == y && [a] + [b] == [a, b];
  }

  /**
   * A domain whose second volume is in a pool that is no longer configured: the domain goes and
   * with it the first volume, the second stays, and there is no domain left to destroy.
   */
  method StrandedVolume(here: string, gone: string, a: string, b: string, vm: string, content: Stored)
    returns (first: Option<DestroyError>, second: Option<DestroyError>, left: bool)
    requires here != gone
    ensures first == Some(PoolGone) && second == Some(NoDomain) && left
  {
    var storage := new Storage(map[here := Directory], Some(here), k => None, AsAsked,
                               map[(here, a) := content, (gone, b) := content]);
    var x := DomainDisk("disk", "qemu", "raw", "vda", "virtio", true, Some(VolumeSource(here, a)));
    var y := DomainDisk("disk", "qemu", "raw", "vdb", "virtio", false, Some(VolumeSource(gone, b)));
    var provider := new Provider(storage, CephReplies(name => Failure(NotFound), name => Failure(NotFound)),
                                 map[vm := [x, y]]);
    var replies := Replies(false, false, Stopped, false);
    ghost var vols, index, deleted;
    first, vols, index, deleted := provider.DestroyVM(vm, replies);
    DiscoverTwo(index, x, y, (here, a), (gone, b));
    NoCephNoFailure(storage.pools, provider.ceph, index, [x, y], [(here, a), (gone, b)]);
    assert vols == [(here, a), (gone, b)];
    assert vols[1].0 !in storage.pools;
    left := (gone, b) in storage.volumes && (here, a) !in storage.volumes;
    second, vols, index, deleted := provider.DestroyVM(vm, replies);
  }

  lemma DiscoverSingle(index: map<string, string>, disk: DomainDisk, key: Key)
    requires disk.source == Some(VolumeSource(key.0, key.1))
    ensures Discovered(index, [disk]) == Success([key])
  {
    assert [disk][..0] == [];
    var none: seq<Key> := [];
    assert Discovered(index, []) == Success(none);
    assert none + [key] == [key];
  }

  /** The domain of one volume in a directory pool, made and destroyed. */
  method DestroySingle(storage: Storage, v: Volume, vm: string)
    requires storage.Healthy() && v.block == "" && v.pool in storage.pools
    requires forall name :: name in storage.pools ==> storage.pools[name].Directory?
    modifies storage`volumes, storage`calls
    ensures storage.volumes == old(storage.volumes) - {(v.pool, v.name)}
  {
    var ceph := CephReplies(name => Failure(NotFound), name => Failure(NotFound));
    var disks := DomainDisks(storage.pools, ceph, [v]);
    assert VolumeToDisk(storage.pools, ceph, [v][0]).Success?;
    var provider := new Provider(storage, ceph, map[vm := disks.value]);
    ghost var keys := [(v.pool, v.name)];
    var err;
    ghost var vols, index, deleted;
    assert disks.value == [disks.value[0]];
    err, vols, index, deleted := provider.DestroyVM(vm, Replies(false, false, Stopped, false));
    DiscoverSingle(index, disks.value[0], keys[0]);
    NoCephNoFailure(storage.pools, ceph, index, disks.value, keys);
    assert vols[..|vols|] == keys && KeySet(keys) == {keys[0]};
  }

  /** Without Ceph pools, disks whose volumes are found do not fail to lead to them. */
  lemma NoCephNoFailure(pools: map<string, PoolKind>, ceph: CephReplies, index: map<string, string>,
      disks: seq<DomainDisk>,
      keys: seq<Key>)
    requires forall name :: !IsCeph(pools, name)
    requires Discovered(index, disks) == Success(keys)
    ensures forall error :: !Undiscoverable(pools, ceph, index, disks, error)
  {
  }
}
