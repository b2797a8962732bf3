/**
 * The local filesystem the pipeline reads and writes, as a map from paths to
 * file contents, with the few operations the source performs on it.
 */
module Files {
  import opened Wrappers
  import opened Paths
  import opened Audio
  import opened Wire

  /** A file: raw bytes (audio of any encoding) or a JSON metadata sidecar. */
  datatype File =
    | Bytes(data: seq<int>)
    | Sidecar(textPrompt: PromptJson, metadata: map<string, real>)

  /**
   * Loading a path as audio: the file must exist and hold bytes the codec
   * decodes; a missing file or a sidecar fails like a decoder error.
   */
  function Load(files: map<Path, File>, p: Path, codec: Codec): (r: Option<Signal>)
    ensures p !in files ==> r.None?
    ensures p in files && files[p].Bytes? ==> r == codec.decode(files[p].data)
  {
    if p in files && files[p].Bytes? then codec.decode(files[p].data) else None
  }

  /**
   * The filesystem. `locked` are the paths that cannot be opened for writing
   * (permissions, a directory in the way): writing there raises an OSError.
   */
  class Disk {
    var files: map<Path, File>
    var dirs: set<string>
    const locked: set<Path>

    constructor (files0: map<Path, File>, dirs0: set<string>, locked0: set<Path>)
      ensures files == files0 && dirs == dirs0 && locked == locked0
    {
      files, dirs, locked := files0, dirs0, locked0;
    }

    /** `open(p, 'w')` followed by writing `f` in full; `ok` is false when opening raises. */
    method Write(p: Path, f: File) returns (ok: bool)
      modifies this
      ensures ok <==> p !in locked
      ensures files == if ok then old(files)[p := f] else old(files)
      ensures dirs == old(dirs)
    {
      ok := p !in locked;
      if ok {
        files := files[p := f];
      }
    }

    /** `f.write(data)` on a file already open for binary writing. */
    method Append(p: Path, data: seq<int>)
      requires p in files && files[p].Bytes?
      modifies this
      ensures files == old(files)[p := Bytes(old(files)[p].data + data)]
      ensures dirs == old(dirs)
    {
      files := files[p := Bytes(files[p].data + data)];
    }

    /** `src.rename(dst)`: replaces `dst`; raises when `src` is missing or `dst` cannot be written. */
    method Rename(src: Path, dst: Path) returns (ok: bool)
      modifies this
      ensures ok <==> src in old(files) && dst !in locked
      ensures ok ==> files == (old(files) - {src})[dst := old(files)[src]]
      ensures !ok ==> files == old(files)
      ensures dirs == old(dirs)
    {
      ok := src in files && dst !in locked;
      if ok {
        var f := files[src];
        files := (files - {src})[dst := f];
      }
    }

    /** `p.unlink()` on an existing file. */
    method Unlink(p: Path)
      requires p in files
      modifies this
      ensures files == old(files) - {p}
      ensures dirs == old(dirs)
    {
      files := files - {p};
    }

    /** `os.makedirs(d, exist_ok=True)`. */
    method MakeDirs(d: string)
      modifies this
      ensures dirs == old(dirs) + {d}
      ensures files == old(files)
    {
      dirs := dirs + {d};
    }
  }
}
