/**
 The file system as the journal sees it: one path, files that other processes may
 replace, rewrite or delete at any moment, and a file state (device and inode,
 size, times) that is new after every mutation.
 */
module JournalDisk {
  import opened Wrappers
  import opened JournalText

  datatype FileState = FileState(ino: nat, size: nat, stamp: nat)

  datatype Inode = Inode(data: Bytes, stamp: nat)

  /** Every content any file ever had, by inode and stamp. */
  type Versions = map<(nat, nat), Bytes>

  datatype DiskView = DiskView(
    inodes: map<nat, Inode>,
    path: Option<nat>,
    clock: nat,
    tampering: nat,
    versions: Versions,
    foreign: map<nat, Inode>)

  ghost predicate Known(h: Versions, fs: FileState) {
    (fs.ino, fs.stamp) in h && |h[(fs.ino, fs.stamp)]| == fs.size
  }

  ghost function ContentOf(h: Versions, fs: FileState): Bytes
    requires Known(h, fs)
  {
    h[(fs.ino, fs.stamp)]
  }

  ghost predicate Extends(h: Versions, h': Versions) {
    forall k :: k in h ==> k in h' && h'[k] == h[k]
  }

  /** What any number of system calls and outside mutations keep. */
  ghost predicate Evolves(v: DiskView, v': DiskView) {
    && v.clock <= v'.clock
    && v.tampering <= v'.tampering
    && Extends(v.versions, v'.versions)
    && forall i :: i in v.inodes ==> i in v'.inodes && v.inodes[i].stamp <= v'.inodes[i].stamp
  }

  /** No outside process touched the files in between. */
  ghost predicate Quiet(v: DiskView, v': DiskView) { v.tampering == v'.tampering }

  /** The bytes of a file as it is now are those of its recorded version. */
  ghost predicate Recorded(v: DiskView, i: nat)
    requires i in v.inodes
  {
    (i, v.inodes[i].stamp) in v.versions && v.versions[(i, v.inodes[i].stamp)] == v.inodes[i].data
  }

  /** File `i` is as it was, or as the last outside rewrite left it. */
  ghost predicate OnlyRewritten(v: DiskView, v': DiskView, i: nat)
    requires i in v.inodes && i in v'.inodes
  {
    || (v'.inodes[i] == v.inodes[i] && Foreign(v', i) == Foreign(v, i))
    || (v'.inodes[i].stamp > v.clock && Foreign(v', i) == Some(v'.inodes[i]))
  }

  ghost function Foreign(v: DiskView, i: nat): Option<Inode> {
    if i in v.foreign then Some(v.foreign[i]) else None
  }

  /** What outsiders last stored in the file since it was in state `fs`. */
  ghost function RewriteSince(v: DiskView, fs: FileState): Option<Bytes> {
    match Foreign(v, fs.ino)
    case Some(f) => if f.stamp > fs.stamp then Some(f.data) else None
    case None => None
  }

  /** What a system call that writes nothing, and outside mutations around it, do. */
  ghost predicate Steps(v: DiskView, v': DiskView) {
    Evolves(v, v') && (Quiet(v, v') ==> v' == v)
  }

  lemma StepsCompose(u: DiskView, v: DiskView, w: DiskView)
    requires Steps(u, v) && Steps(v, w)
    ensures Steps(u, w)
  {}

  lemma EvolvesCompose(u: DiskView, v: DiskView, w: DiskView)
    requires Evolves(u, v) && Evolves(v, w)
    ensures Evolves(u, w)
    ensures Quiet(u, w) ==> Quiet(u, v) && Quiet(v, w)
  {}

  class Disk {
    const alone: bool             // outsiders never act unannounced
    var inodes: map<nat, Inode>
    var path: Option<nat>
    var clock: nat
    var nextIno: nat
    ghost var tampering: nat      // how many mutations came from outside, unannounced
    ghost var versions: Versions
    ghost var foreign: map<nat, Inode>    // what outsiders last stored in each file

    ghost predicate Valid() reads this {
      && (alone ==> tampering == 0)
      && (path.Some? ==> path.value in inodes)
      && (forall i :: i in inodes ==>
            && i < nextIno
            && inodes[i].stamp <= clock
            && (i, inodes[i].stamp) in versions
            && versions[(i, inodes[i].stamp)] == inodes[i].data)
      && (forall k :: k in versions ==> k.1 <= clock)
      && (forall i :: i in foreign ==> i in inodes && foreign[i].stamp <= inodes[i].stamp)
    }

    constructor (alone: bool)
      ensures Valid() && this.alone == alone && path == None && tampering == 0
    {
      this.alone := alone;
      inodes, path, clock, nextIno := map[], None, 0, 0;
      tampering, versions, foreign := 0, map[], map[];
    }

    ghost function View(): DiskView reads this {
      DiskView(inodes, path, clock, tampering, versions, foreign)
    }

    function StateOf(i: nat): FileState
      requires i in inodes
      reads this
    {
      FileState(i, |inodes[i].data|, inodes[i].stamp)
    }

    /** os.stat of the path: None when nothing is there. */
    function PathState(): (s: Option<FileState>)
      requires path.Some? ==> path.value in inodes
      reads this
    {
      if path.None? then None else Some(StateOf(path.value))
    }

    /** What a reader opening the path right now would find; nothing when absent. */
    function Content(): Bytes
      requires path.Some? ==> path.value in inodes
      reads this
    {
      if path.None? then [] else inodes[path.value].data
    }

    /** Stores new data in a file, under a stamp never used before. */
    method Store(i: nat, data: Bytes)
      requires Valid() && i < nextIno
      modifies this`inodes, this`clock, this`versions
      ensures Valid() && Evolves(old(View()), View())
      ensures inodes == old(inodes)[i := Inode(data, old(clock) + 1)]
      ensures path == old(path) && nextIno == old(nextIno) && tampering == old(tampering)
      ensures clock == old(clock) + 1 && foreign == old(foreign)
    {
      clock := clock + 1;
      inodes := inodes[i := Inode(data, clock)];
      versions := versions[(i, clock) := data];
    }

    /** A new file that no path leads to yet. */
    method NewFile(data: Bytes) returns (i: nat)
      requires Valid()
      modifies this`inodes, this`clock, this`nextIno, this`versions
      ensures Valid() && Evolves(old(View()), View())
      ensures i !in old(inodes) && inodes == old(inodes)[i := Inode(data, clock)]
      ensures path == old(path) && tampering == old(tampering) && foreign == old(foreign)
    {
      i := nextIno;
      nextIno := nextIno + 1;
      Store(i, data);
    }

    /** Somebody else stores other bytes in a file. */
    method Rewrite(i: nat, data: Bytes)
      requires Valid() && i in inodes
      modifies this`inodes, this`clock, this`versions, this`foreign
      ensures Valid() && Evolves(old(View()), View())
      ensures tampering == old(tampering) && path == old(path) && nextIno == old(nextIno)
      ensures clock == old(clock) + 1
      ensures inodes == old(inodes)[i := Inode(data, clock)]
      ensures foreign == old(foreign)[i := Inode(data, clock)]
    {
      Store(i, data);
      foreign := foreign[i := inodes[i]];
    }

    /** Somebody else makes the path lead to another file or to nothing. */
    method Repoint(to: Option<nat>)
      requires Valid() && (to.Some? ==> to.value in inodes)
      modifies this`path, this`clock
      ensures Valid() && Evolves(old(View()), View())
      ensures clock == old(clock) + 1 && path == to
    {
      path, clock := to, clock + 1;
    }

    /** One mutation from outside: a new file, a rewritten file, or the path
        pointing at another file or at nothing. */
    method OutsideMutation()
      requires Valid() && !alone
      modifies this
      ensures Valid() && Evolves(old(View()), View())
      ensures tampering == old(tampering) + 1
      ensures forall i :: i in old(inodes) ==> OnlyRewritten(old(View()), View(), i)
    {
      tampering := tampering + 1;
      var kind: nat := *;
      if kind == 0 && inodes != map[] {
        var data: Bytes := *;
        var i :| i in inodes;
        Rewrite(i, data);
        OneRewritten(old(View()), View(), i);
      } else {
        ReplaceOrRemove(kind);
        NoneRewritten(old(View()), View());
      }
    }

    method ReplaceOrRemove(kind: nat)
      requires Valid()
      modifies this`inodes, this`path, this`clock, this`nextIno, this`versions
      ensures Valid() && Evolves(old(View()), View())
      ensures forall i :: i in old(inodes) ==> i in inodes && inodes[i] == old(inodes)[i]
    {
      if kind == 1 {
        var data: Bytes := *;
        var created := NewFile(data);
      } else if kind == 2 && inodes != map[] {
        var i :| i in inodes;
        Repoint(Some(i));
      } else {
        Repoint(None);
      }
    }

    /** Any number of mutations from outside. */
    method OutsideMutations()
      requires Valid() && !alone
      modifies this
      ensures Valid() && Evolves(old(View()), View())
      ensures Quiet(old(View()), View()) ==> View() == old(View()) && nextIno == old(nextIno)
      ensures forall i :: i in old(inodes) ==> OnlyRewritten(old(View()), View(), i)
    {
      var rounds: nat := *;
      while rounds > 0
        invariant Valid() && Evolves(old(View()), View())
        invariant Quiet(old(View()), View()) ==> View() == old(View()) && nextIno == old(nextIno)
        invariant forall i :: i in old(inodes) ==> OnlyRewritten(old(View()), View(), i)
      {
        OutsideMutation();
        rounds := rounds - 1;
      }
    }

    /** Anything other processes may do between two system calls. */
    method Interfere()
      requires Valid()
      modifies this
      ensures Valid() && Evolves(old(View()), View())
      ensures Quiet(old(View()), View()) ==> View() == old(View()) && nextIno == old(nextIno)
      ensures forall i :: i in old(inodes) ==> OnlyRewritten(old(View()), View(), i)
    {
      if !alone {
        OutsideMutations();
      }
    }

    /** open() of an existing file; None stands for FileNotFoundError. */
    method Open() returns (fd: Option<nat>)
      requires Valid()
      modifies this
      ensures Valid() && Steps(old(View()), View())
      ensures fd == path
    {
      Interfere();
      fd := path;
    }

    /** open() with O_CREAT and O_EXCL; None stands for FileExistsError. */
    method CreateExclusive() returns (fd: Option<nat>)
      requires Valid()
      modifies this
      ensures Valid() && Evolves(old(View()), View())
      ensures fd.Some? ==> path == fd && fd.value in inodes && inodes[fd.value].data == []
      ensures Quiet(old(View()), View()) ==> fd.Some? == old(path).None?
      ensures Quiet(old(View()), View()) ==> Content() == old(Content())
      ensures fd.None? && Quiet(old(View()), View()) ==> View() == old(View())
    {
      Interfere();
      if path.Some? {
        return None;
      }
      var created := NewFile([]);
      path := Some(created);
      fd := path;
    }

    method Fstat(fd: nat) returns (s: FileState)
      requires Valid() && fd in inodes
      modifies this
      ensures Valid() && Steps(old(View()), View())
      ensures fd in inodes && s == StateOf(fd) && Known(versions, s)
      ensures OnlyRewritten(old(View()), View(), fd)
    {
      Interfere();
      s := StateOf(fd);
    }

    method StatPath() returns (s: Option<FileState>)
      requires Valid()
      modifies this
      ensures Valid() && Steps(old(View()), View())
      ensures s == PathState()
      ensures s.Some? ==> Known(versions, s.value) && ContentOf(versions, s.value) == Content()
      ensures forall i :: i in old(inodes) ==> OnlyRewritten(old(View()), View(), i)
    {
      Interfere();
      s := PathState();
    }

    /** seek and read; fewer bytes when the file has become shorter. */
    method Read(fd: nat, start: nat, count: nat) returns (chunk: Bytes)
      requires Valid() && fd in inodes
      modifies this
      ensures Valid() && Steps(old(View()), View())
      ensures fd in inodes
      ensures var data := inodes[fd].data;
              chunk == if start > |data| then [] else
                       if start + count > |data| then data[start..] else data[start..start + count]
    {
      Interfere();
      var data := inodes[fd].data;
      chunk := if start > |data| then [] else
               if start + count > |data| then data[start..] else data[start..start + count];
    }

    /** The two checks that close every read: the descriptor still shows the state
        `before`, and so does the path. */
    method Recheck(fd: nat, before: FileState) returns (stable: bool)
      requires Valid() && fd in inodes && Known(versions, before)
      modifies this
      ensures Valid() && Steps(old(View()), View())
      ensures stable ==> PathState() == Some(before) && Content() == ContentOf(versions, before)
      ensures stable ==> fd in inodes && inodes[fd].stamp == before.stamp
      ensures Quiet(old(View()), View()) && old(path) == Some(fd) && old(StateOf(fd)) == before ==> stable
    {
      var after := Fstat(fd);
      var pathAfter := StatPath();
      stable := before == after && pathAfter == Some(before);
    }

    /** A read from `start` to the end of the file as it was at `before`, closed by
        the checks: when they pass, the bytes are those of that very version. */
    method ReadStable(fd: nat, before: FileState, start: nat) returns (stable: bool, chunk: Bytes)
      requires Valid() && fd in inodes && before == StateOf(fd) && start <= before.size
      modifies this
      ensures Valid() && Steps(old(View()), View())
      ensures stable ==> PathState() == Some(before) && Content() == old(inodes)[fd].data
      ensures stable ==> chunk == old(inodes)[fd].data[start..]
      ensures Quiet(old(View()), View()) && old(path) == Some(fd) ==> stable
    {
      ghost var v0 := View();
      chunk := Read(fd, start, before.size - start);
      ghost var v1 := View();
      stable := Recheck(fd, before);
      if stable {
        SameStateSameContent(v0, v1, View(), fd);
      }
      stable := stable && |chunk| == before.size - start;
    }

    /** ftruncate to a size not above what was read; a shorter file is padded. */
    method Truncate(fd: nat, size: nat, pad: char)
      requires Valid() && fd in inodes
      modifies this
      ensures Valid() && Evolves(old(View()), View())
      ensures fd in inodes
      ensures Quiet(old(View()), View()) ==>
        && path == old(path)
        && (size <= |old(inodes)[fd].data| ==> inodes[fd].data == old(inodes)[fd].data[..size])
        && inodes[fd].stamp > old(inodes)[fd].stamp
    {
      Interfere();
      var data := inodes[fd].data;
      Store(fd, if size <= |data| then data[..size] else data + seq(size - |data|, _ => pad));
    }

    /** An append of `payload` to an open file, of which `landed` bytes arrive: at
        the end of whatever the file holds by then, which is `onto`. */
    method Write(fd: nat, payload: Bytes, landed: nat) returns (ghost onto: Inode)
      requires Valid() && fd in inodes && landed <= |payload|
      modifies this
      ensures Valid() && Evolves(old(View()), View())
      ensures Quiet(old(View()), View()) ==> path == old(path) && onto == old(inodes)[fd]
      ensures fd in inodes && inodes[fd] == Inode(onto.data + payload[..landed], clock) && clock > old(clock)
      ensures Foreign(View(), fd) == (if onto == old(inodes)[fd] then Foreign(old(View()), fd) else Some(onto))
      ensures onto == old(inodes)[fd] || onto.stamp > old(clock)
    {
      Interfere();
      onto := inodes[fd];
      Store(fd, inodes[fd].data + payload[..landed]);
    }
  }

  lemma OneRewritten(v: DiskView, v': DiskView, i: nat)
    requires v'.clock > v.clock && i in v'.inodes && v'.inodes[i].stamp == v'.clock
    requires v'.inodes == v.inodes[i := v'.inodes[i]] && v'.foreign == v.foreign[i := v'.inodes[i]]
    ensures forall j :: j in v.inodes ==> OnlyRewritten(v, v', j)
  {}

  lemma NoneRewritten(v: DiskView, v': DiskView)
    requires forall i :: i in v.inodes ==> i in v'.inodes && v'.inodes[i] == v.inodes[i]
    requires v'.foreign == v.foreign
    ensures forall j :: j in v.inodes ==> OnlyRewritten(v, v', j)
  {}

  /** A file whose stamp is the same before and after holds the same bytes in
      between as well. */
  lemma SameStateSameContent(d: DiskView, mid: DiskView, d': DiskView, i: nat)
    requires Evolves(d, mid) && Evolves(mid, d')
    requires i in d.inodes && Recorded(d, i) && Recorded(mid, i) && Recorded(d', i)
    requires d.inodes[i].stamp == d'.inodes[i].stamp
    ensures mid.inodes[i].data == d.inodes[i].data == d'.inodes[i].data
  {
    assert mid.inodes[i].stamp == d.inodes[i].stamp;
  }
}
