/** The host the tool runs on, reduced to what the sync cycle observes and
    changes: the files and directories on disk, which operations on them fail,
    and a log of the side effects the cycle performs, in order. */
module FileSystem {
  import opened Common
  import Strings

  type Path = string

  /** The disk. `files` and `dirs` are what exists. The three remaining sets
      say which operations the operating system refuses: reading a file in
      `unreadable`, writing a file in `unwritable`, creating a directory in
      `uncreatable` (permissions, a full disk, and so on). */
  datatype Disk = Disk(
    files: map<Path, Bytes>,
    dirs: set<Path>,
    unreadable: set<Path>,
    unwritable: set<Path>,
    uncreatable: set<Path>)

  /** A side effect of the cycle on the world outside the process. */
  datatype Effect =
    | MadeDir(dir: Path)
    | WroteFile(file: Path)
    | RanCommand(program: string, args: seq<string>)

  datatype Host = Host(disk: Disk, effects: seq<Effect>)

  /** The error of a step, if any, and the host after it. */
  datatype HostStep = HostStep(err: Option<Error>, host: Host)

  /** `os.Stat(p)` does not report that `p` does not exist. The working
      directory `.` and the root `/` always exist. */
  predicate Exists(d: Disk, p: Path)
  {
    p == "." || p == "/" || p in d.files || p in d.dirs
  }

  /** `ioutil.ReadFile(p)`: the contents, or `None` for a read error. */
  function ReadFile(d: Disk, p: Path): Option<Bytes>
  {
    if p in d.files && p !in d.unreadable then Some(d.files[p]) else None
  }

  /** `filepath.Dir(p)`: everything before the last `/`, `/` when that is the
      first character, and `.` for a path without any `/`. */
  function ParentDir(p: Path): Path
  {
    if '/' !in p then "."
    else
      var i := Strings.LastIndex(p, '/');
      if i == 0 then "/" else p[..i]
  }

  /** `dir` and every directory above it that `os.MkdirAll(dir)` brings into
      existence. */
  function Ancestors(dir: Path): set<Path>
  {
    set i | 0 < i <= |dir| && (i == |dir| || dir[i] == '/') :: dir[..i]
  }

  /** `os.MkdirAll(dir, 0755)`. */
  function MkdirAll(h: Host, dir: Path): HostStep
  {
    if dir in h.disk.uncreatable then HostStep(Some(MkdirFailed(dir)), h)
    else
      HostStep(None, Host(h.disk.(dirs := h.disk.dirs + {dir} + Ancestors(dir)),
                          h.effects + [MadeDir(dir)]))
  }

  /** `ioutil.WriteFile(p, data, 0644)`: the file holds `data` afterwards. */
  function WriteFile(h: Host, p: Path, data: Bytes): HostStep
  {
    if p in h.disk.unwritable then HostStep(Some(WriteFailed(p)), h)
    else
      HostStep(None, Host(h.disk.(files := h.disk.files[p := data]),
                          h.effects + [WroteFile(p)]))
  }
}
