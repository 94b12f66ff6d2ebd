/**
  An abstract POSIX-like filesystem: a map from absolute paths to entries.

  A path is the sequence of its segments below the root; the root itself is
  the empty sequence, always exists, is always a directory and is never a key
  of the map. Each syscall the installer uses (mkdir, create, write, rename,
  chmod) is a step function from a map to an `Outcome`; failures that do not
  follow from the shape of the tree (permissions, a full disk) are an oracle
  argument `refused`.
 */
module Fs {
  import opened Wrappers

  type Path = seq<string>

  newtype byte = b: int | 0 <= b < 256

  datatype Entry = Dir(mode: nat) | File(data: seq<byte>, mode: nat)

  type FsMap = map<Path, Entry>

  /** The error numbers the modelled syscalls report. */
  datatype Errno = EEXIST | ENOENT | ENOTDIR | EISDIR | EACCES | EPERM

  datatype Outcome = Outcome(fs: FsMap, err: Option<Errno>)

  /** Permission bits 0700 (octal), used for the tool directories. */
  const DirMode: nat := 448
  /** Permission bits 0755 (octal), given to an installed binary. */
  const ExecMode: nat := 493
  /** Permission bits 0666 (octal), requested when a new file is created. */
  const CreateMode: nat := 438

  function Parent(p: Path): Path
    requires p != []
  {
    p[..|p| - 1]
  }

  /** `p` names something: the root, or an entry of the map. */
  predicate Exists(fs: FsMap, p: Path) {
    p == [] || p in fs
  }

  /** `p` names a directory: the root, or a directory entry. */
  predicate DirAt(fs: FsMap, p: Path) {
    p == [] || (p in fs && fs[p].Dir?)
  }

  predicate FileAt(fs: FsMap, p: Path) {
    p in fs && fs[p].File?
  }

  /** `fs` holds the same thing at `p` as `fs'` does. */
  predicate SameAt(fs: FsMap, fs': FsMap, p: Path) {
    (p in fs <==> p in fs') && (p in fs ==> fs[p] == fs'[p])
  }

  /**
    The tree invariant: the root is not a key and every entry hangs below a
    directory, so in particular nothing lies below a file.
   */
  ghost predicate Tree(fs: FsMap) {
    forall p :: p in fs ==> p != [] && DirAt(fs, Parent(p))
  }

  /** mkdir(2): create directory `p` with permission bits `perm`. */
  function MkdirStep(fs: FsMap, p: Path, perm: nat, refused: bool): (r: Outcome)
    ensures r.err == Some(EEXIST) <==> Exists(fs, p)
    ensures r.err.None? <==> !Exists(fs, p) && DirAt(fs, Parent(p)) && !refused
    ensures r.err.Some? ==> r.fs == fs
    ensures r.err.None? ==> r.fs == fs[p := Dir(perm)]
    ensures Tree(fs) ==> Tree(r.fs)
  {
    if Exists(fs, p) then Outcome(fs, Some(EEXIST))
    else if !Exists(fs, Parent(p)) then Outcome(fs, Some(ENOENT))
    else if !DirAt(fs, Parent(p)) then Outcome(fs, Some(ENOTDIR))
    else if refused then Outcome(fs, Some(EACCES))
    else Outcome(fs[p := Dir(perm)], None)
  }

  /**
    open(2) with O_CREATE|O_TRUNC, as Go's os.Create does: an existing file
    is emptied and keeps its permission bits, a new one gets 0666.
   */
  function CreateStep(fs: FsMap, p: Path, refused: bool): (r: Outcome)
    ensures r.err.None? <==> !DirAt(fs, p) && DirAt(fs, Parent(p)) && !refused
    ensures r.err.Some? ==> r.fs == fs
    ensures r.err.None? ==> r.fs.Keys == fs.Keys + {p} && r.fs[p].File? && r.fs[p].data == []
    ensures r.err.None? ==> forall q :: q != p ==> SameAt(fs, r.fs, q)
    ensures Tree(fs) ==> Tree(r.fs)
  {
    if p == [] then Outcome(fs, Some(EISDIR))
    else if !Exists(fs, Parent(p)) then Outcome(fs, Some(ENOENT))
    else if !DirAt(fs, Parent(p)) then Outcome(fs, Some(ENOTDIR))
    else if p in fs && fs[p].Dir? then Outcome(fs, Some(EISDIR))
    else if refused then Outcome(fs, Some(EACCES))
    else Outcome(fs[p := File([], if p in fs then fs[p].mode else CreateMode)], None)
  }

  /** write(2) of `bytes` at the end of the open file `p`. */
  function AppendStep(fs: FsMap, p: Path, bytes: seq<byte>): (r: FsMap)
    requires FileAt(fs, p)
    ensures r.Keys == fs.Keys && FileAt(r, p)
    ensures r[p].data == fs[p].data + bytes && r[p].mode == fs[p].mode
    ensures forall q :: q != p ==> SameAt(fs, r, q)
    ensures Tree(fs) ==> Tree(r)
  {
    fs[p := File(fs[p].data + bytes, fs[p].mode)]
  }

  /**
    Go's os.Rename of a file. `src` is None when the caller passes the empty
    string, which names no file. A directory at the target is reported as
    EEXIST, as os.Rename checks for it before calling rename(2). Renaming
    directories is not modelled.
   */
  function RenameStep(fs: FsMap, src: Option<Path>, dst: Path, refused: bool): (r: Outcome)
    requires src.Some? ==> src.value != [] && (src.value in fs ==> fs[src.value].File?)
    ensures r.err.None? <==>
      src.Some? && src.value in fs && !DirAt(fs, dst) && DirAt(fs, Parent(dst)) && !refused
    ensures r.err.Some? ==> r.fs == fs
    ensures r.err.None? ==> dst in r.fs && r.fs[dst] == fs[src.value]
    ensures r.err.None? && src.value != dst ==> src.value !in r.fs
    ensures r.err.None? ==> forall q :: q != src.value && q != dst ==> SameAt(fs, r.fs, q)
    ensures Tree(fs) ==> Tree(r.fs)
  {
    if src.None? || src.value !in fs then Outcome(fs, Some(ENOENT))
    else if dst == [] then Outcome(fs, Some(EEXIST))
    else if !Exists(fs, Parent(dst)) then Outcome(fs, Some(ENOENT))
    else if !DirAt(fs, Parent(dst)) then Outcome(fs, Some(ENOTDIR))
    else if dst in fs && fs[dst].Dir? then Outcome(fs, Some(EEXIST))
    else if refused then Outcome(fs, Some(EACCES))
    else if src.value == dst then Outcome(fs, None)
    else Outcome((fs - {src.value})[dst := fs[src.value]], None)
  }

  /** chmod(2): set the permission bits of `p`; the root is not ours to change. */
  function ChmodStep(fs: FsMap, p: Path, mode: nat, refused: bool): (r: Outcome)
    ensures r.err.None? <==> p != [] && p in fs && !refused
    ensures r.err.Some? ==> r.fs == fs
    ensures r.err.None? ==> r.fs.Keys == fs.Keys && r.fs[p].mode == mode
    ensures r.err.None? ==> r.fs[p].Dir? == fs[p].Dir? && (r.fs[p].File? ==> r.fs[p].data == fs[p].data)
    ensures r.err.None? ==> forall q :: q != p ==> SameAt(fs, r.fs, q)
    ensures Tree(fs) ==> Tree(r.fs)
  {
    if p == [] then Outcome(fs, Some(EPERM))
    else if p !in fs then Outcome(fs, Some(ENOENT))
    else if refused then Outcome(fs, Some(EACCES))
    else Outcome(fs[p := if fs[p].Dir? then Dir(mode) else File(fs[p].data, mode)], None)
  }

  /** The machine's filesystem, changed in place by the syscalls above. */
  class FileSystem {
    var entries: FsMap

    ghost predicate Valid()
      reads this
    {
      Tree(entries)
    }

    constructor (initial: FsMap)
      requires Tree(initial)
      ensures Valid() && entries == initial
    {
      entries := initial;
    }

    method Mkdir(p: Path, perm: nat, refused: bool) returns (err: Option<Errno>)
      requires Valid()
      modifies this
      ensures Valid()
      ensures Outcome(entries, err) == MkdirStep(old(entries), p, perm, refused)
    {
      var o := MkdirStep(entries, p, perm, refused);
      entries, err := o.fs, o.err;
    }

    method Create(p: Path, refused: bool) returns (err: Option<Errno>)
      requires Valid()
      modifies this
      ensures Valid()
      ensures Outcome(entries, err) == CreateStep(old(entries), p, refused)
    {
      var o := CreateStep(entries, p, refused);
      entries, err := o.fs, o.err;
    }

    method Append(p: Path, bytes: seq<byte>)
      requires Valid() && FileAt(entries, p)
      modifies this
      ensures Valid()
      ensures entries == AppendStep(old(entries), p, bytes)
    {
      entries := AppendStep(entries, p, bytes);
    }

    method Rename(src: Option<Path>, dst: Path, refused: bool) returns (err: Option<Errno>)
      requires Valid()
      requires src.Some? ==> src.value != [] && (src.value in entries ==> entries[src.value].File?)
      modifies this
      ensures Valid()
      ensures Outcome(entries, err) == RenameStep(old(entries), src, dst, refused)
    {
      var o := RenameStep(entries, src, dst, refused);
      entries, err := o.fs, o.err;
    }

    method Chmod(p: Path, mode: nat, refused: bool) returns (err: Option<Errno>)
      requires Valid()
      modifies this
      ensures Valid()
      ensures Outcome(entries, err) == ChmodStep(old(entries), p, mode, refused)
    {
      var o := ChmodStep(entries, p, mode, refused);
      entries, err := o.fs, o.err;
    }
  }
}
