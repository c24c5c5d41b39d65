/** The local file system under the mirror: names that lead to inodes, inode contents, and
    open descriptors with their positions. */
module Disk {
  import opened Files
  import opened HandleTable

  datatype Desc = Desc(ino: int, pos: nat)

  datatype Disk = Disk(names: map<string, int>, data: map<int, Content>, fds: map<int, Desc>, nextIno: int)

  /** No two names share an inode, and inode numbers are not reused. */
  ghost predicate DiskOk(d: Disk) {
    && (forall p :: p in d.names ==> d.names[p] in d.data)
    && (forall fd :: fd in d.fds ==> d.fds[fd].ino in d.data)
    && (forall i :: i in d.data ==> i < d.nextIno)
    && (forall p, q :: p in d.names && q in d.names && p != q ==> d.names[p] != d.names[q])
  }

  function NewFd(d: Disk): (fd: int)
    ensures LeastFree(d.fds, fd)
  {
    FreeFrom(d.fds, 0)
  }

  /** Opening without truncation; `create` makes a missing file. */
  function Open(d: Disk, path: string, create: bool): (Disk, int)
    requires DiskOk(d)
  {
    if path in d.names then (d.(fds := d.fds[NewFd(d) := Desc(d.names[path], 0)]), NewFd(d))
    else if create then
      (Disk(d.names[path := d.nextIno], d.data[d.nextIno := []],
            d.fds[NewFd(d) := Desc(d.nextIno, 0)], d.nextIno + 1), NewFd(d))
    else (d, -1)
  }

  function Close(d: Disk, fd: int): Disk {
    d.(fds := d.fds - {fd})
  }

  /** A negative offset leaves the position where it is. */
  function Seek(d: Disk, fd: int, off: int): Disk
    requires fd in d.fds
  {
    if off < 0 then d else d.(fds := d.fds[fd := d.fds[fd].(pos := off)])
  }

  function Write(d: Disk, fd: int, b: Content): Disk
    requires DiskOk(d) && fd in d.fds
  {
    var Desc(ino, pos) := d.fds[fd];
    d.(data := d.data[ino := WriteAt(d.data[ino], pos, b)], fds := d.fds[fd := Desc(ino, pos + |b|)])
  }

  function Read(d: Disk, fd: int, n: nat): (Disk, Content)
    requires DiskOk(d) && fd in d.fds
  {
    var Desc(ino, pos) := d.fds[fd];
    var b := ReadAt(d.data[ino], pos, n);
    (d.(fds := d.fds[fd := Desc(ino, pos + |b|)]), b)
  }

  /** Renaming replaces what the target name led to. */
  function Rename(d: Disk, from: string, to: string): Disk {
    if from in d.names then d.(names := (d.names - {from})[to := d.names[from]]) else d
  }

  function Remove(d: Disk, path: string): Disk {
    d.(names := d.names - {path})
  }

  function FileAt(d: Disk, path: string): Content
    requires DiskOk(d) && path in d.names
  {
    d.data[d.names[path]]
  }
}
