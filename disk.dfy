/**
 * The project's working tree as the agents see it: a map from path to file content, and the
 * sequence of writes and copies made to it (so that "before" and "exactly once" can be stated).
 */
module Disk {

  /** One mutation of the tree: `shutil.copy(src, dst)` or `open(path, 'w').write(content)`. */
  datatype Op = Copy(src: string, dst: string) | Write(path: string, content: string)

  class Disk {
    var files: map<string, string>
    var log: seq<Op>

    constructor (initial: map<string, string>)
      ensures files == initial && log == []
    {
      files := initial;
      log := [];
    }

    /** `os.path.exists(path)`. */
    predicate Exists(path: string)
      reads this
    {
      path in files
    }

    /** `open(path).read()`. */
    method Read(path: string) returns (content: string)
      requires path in files
      ensures content == files[path]
    {
      content := files[path];
    }

    /** `open(path, 'w').write(content)`: creates or overwrites `path`. */
    method Write(path: string, content: string)
      modifies this
      ensures files == old(files)[path := content]
      ensures log == old(log) + [Op.Write(path, content)]
    {
      files := files[path := content];
      log := log + [Op.Write(path, content)];
    }

    /** `shutil.copy(src, dst)`: `dst` gets the content of `src`. */
    method Copy(src: string, dst: string)
      requires src in files
      modifies this
      ensures files == old(files)[dst := old(files)[src]]
      ensures log == old(log) + [Op.Copy(src, dst)]
    {
      files := files[dst := files[src]];
      log := log + [Op.Copy(src, dst)];
    }
  }
}
