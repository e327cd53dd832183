/** A task's disks, the mounts they may use, and the image tools (virt/disks/config.go). */
module DiskModel {
  import opened Wrappers
  import opened Pools

  datatype Source = Source(image: string, format: string, volume: string, identifier: string)

  datatype Disk = Disk(
    devname: string, driver: string, kind: string, busType: string, primary: bool, volumeName: string,
    format: string, size: string, chained: bool, sparse: Option<bool>, readOnly: bool, source: Option<Source>,
    pool: string, volume: Option<Volume>, blockPath: string)

  predicate IsNomad(d: Disk) {
    d.volumeName != ""
  }

  predicate HasImage(d: Disk) {
    d.source.Some? && d.source.value.image != ""
  }

  /** A mount is told apart from others by which object it is. */
  class Mount {
    const taskPath: string
    const hostPath: string
    const readOnly: bool

    constructor (taskPath: string, hostPath: string, readOnly: bool)
      ensures this.taskPath == taskPath && this.hostPath == hostPath && this.readOnly == readOnly
    {
      this.taskPath, this.hostPath, this.readOnly := taskPath, hostPath, readOnly;
    }
  }

  /** The path of a file there is. */
  type FilePath = path: string | path != "" witness "/"

  datatype Conversion = Conversion(image: string, from: string, to: string)

  /**
   * What the image tools find in a file: its format, its size, and the digest of its contents. The
   * k-th conversion gives the file converted(k, …) or fails.
   */
  datatype Tools = Tools(
    format: string -> Option<string>, size: string -> Option<nat>, digest: string -> Option<string>,
    converted: (nat, Conversion) -> Option<FilePath>)

  /** Conversions and writes are counted; the k-th write to a device may fail. */
  class ImageHandler {
    const tools: Tools
    const writeFaults: nat -> bool
    var conversions: seq<Conversion>
    var writes: seq<(string, string)>

    constructor (tools: Tools, writeFaults: nat -> bool)
      ensures this.tools == tools && this.writeFaults == writeFaults
      ensures conversions == [] && writes == []
    {
      this.tools, this.writeFaults := tools, writeFaults;
      conversions, writes := [], [];
    }

    method Convert(c: Conversion) returns (path: Option<string>)
      modifies this`conversions
      ensures conversions == old(conversions) + [c] && path == tools.converted(|old(conversions)|, c)
    {
      path := tools.converted(|conversions|, c);
      conversions := conversions + [c];
    }

    method Write(image: string, device: string) returns (fault: bool)
      modifies this`writes
      ensures fault == writeFaults(|old(writes)|) && writes == old(writes) + [(image, device)]
    {
      fault := writeFaults(|writes|);
      writes := writes + [(image, device)];
    }
  }
}
