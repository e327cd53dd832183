/** Finding the image files of disks, and the disk for cloud-init (virt/disks/config.go). */
module DiskImages {
  import opened Wrappers
  import opened DiskModel
  import opened DiskCheck

  /** Paths as the file system's library sees them. */
  datatype Paths = Paths(isLocal: string -> bool, join: (string, string) -> string)

  /** The directories are all gone through; a file found in one is looked for from the next. */
  function ResolvedIn(files: Files, paths: Paths, dirs: seq<string>, image: string): string {
    if dirs == [] then image
    else
      var before, dir := ResolvedIn(files, paths, dirs[..|dirs| - 1], image), dirs[|dirs| - 1];
      if dir != "" && files.isFile(paths.join(dir, before)) then paths.join(dir, before) else before
  }

  /** A local path that is no file is looked for in the directories. */
  function Resolved(files: Files, paths: Paths, dirs: seq<string>, image: string): string {
    if image != "" && !files.isFile(image) && paths.isLocal(image) then ResolvedIn(files, paths, dirs, image) else image
  }

  /** A path is replaced by that of a file only, and that of a file not at all. */
  lemma {:induction false} ResolvedIsFile(files: Files, paths: Paths, dirs: seq<string>, image: string)
    ensures ResolvedIn(files, paths, dirs, image) == image || files.isFile(ResolvedIn(files, paths, dirs, image))
    ensures files.isFile(image) ==> Resolved(files, paths, dirs, image) == image
  {
    if dirs != [] {
      ResolvedIsFile(files, paths, dirs[..|dirs| - 1], image);
    }
  }

  function Located(files: Files, paths: Paths, dirs: seq<string>, d: Disk): Disk {
    if d.source.None? then d
    else d.(source := Some(d.source.value.(image := Resolved(files, paths, dirs, d.source.value.image))))
  }

  method Resolve(files: Files, paths: Paths, dirs: seq<string>, image: string) returns (r: string)
    ensures r == Resolved(files, paths, dirs, image)
  {
    r := image;
    if image != "" && !files.isFile(image) && paths.isLocal(image) {
      for i := 0 to |dirs|
        invariant r == ResolvedIn(files, paths, dirs[..i], image)
      {
        assert dirs[..i + 1][..i] == dirs[..i];
        if dirs[i] == "" {
          continue;
        }
        var path := paths.join(dirs[i], r);
        if files.isFile(path) {
          r := path;
        }
      }
      assert dirs[..|dirs|] == dirs;
    }
  }

  function CloudInitDisk(iso: string): Disk {
    Disk("", "", "cdrom", "scsi", false, "", "raw", "", false, None, true, Some(Source(iso, "raw", "", "")), "", None,
         "")
  }
}
