// The object store and the working tree as names for inodes: hard links make a workspace
// path and an object one file, copies and renames give a path a file of its own. The hash
// is any function from bytes to names.
module Workspace {
  import opened Basics
  import opened Transfer

  type Inode = nat
  type Hasher = Bytes -> Hash

  datatype File = File(bytes: Bytes, writable: bool)
  datatype Disk = Disk(inodes: map<Inode, File>, objects: map<Hash, Inode>, paths: map<Path, Inode>)

  function Fresh(d: Disk): Inode { MaxOf(d.inodes.Keys) + 1 }

  lemma FreshIsNew(d: Disk)
    ensures Fresh(d) !in d.inodes
  {
    assert Fresh(d) in d.inodes.Keys ==> Fresh(d) <= MaxOf(d.inodes.Keys);
  }

  // ----- What the operations leave behind -------------------------------------------------

  // A new file under a workspace path, in place of whatever the path named.
  function PutPath(d: Disk, p: Path, f: File): Disk {
    d.(inodes := d.inodes[Fresh(d) := f], paths := d.paths[p := Fresh(d)])
  }

  // A new file under an object name.
  function PutObject(d: Disk, h: Hash, f: File): Disk {
    d.(inodes := d.inodes[Fresh(d) := f], objects := d.objects[h := Fresh(d)])
  }

  // The path becomes another name of the object, read-only from then on.
  function Linked(d: Disk, h: Hash, p: Path): Disk
    requires h in d.objects && d.objects[h] in d.inodes
  {
    var i := d.objects[h];
    d.(inodes := d.inodes[i := d.inodes[i].(writable := false)], paths := d.paths[p := i])
  }

  predicate Overwritable(d: Disk, h: Hash, source: Path)
    requires h in d.objects && d.objects[h] in d.inodes && source in d.paths
  {
    d.objects[h] != d.paths[source] && d.inodes[d.objects[h]].writable
  }

  function WithObject(d: Disk, h: Hash, f: File): Disk { if h in d.objects then d else PutObject(d, h, f) }

  ghost predicate WellFormed(d: Disk) {
    (forall h | h in d.objects :: d.objects[h] in d.inodes) && (forall p | p in d.paths :: d.paths[p] in d.inodes)
  }

  // ----- What a disk holds, name by name ----------------------------------------------------

  predicate PathHolds(d: Disk, p: Path, f: File) {
    p in d.paths && d.paths[p] in d.inodes && d.inodes[d.paths[p]] == f
  }

  predicate ObjectHolds(d: Disk, h: Hash, f: File) {
    h in d.objects && d.objects[h] in d.inodes && d.inodes[d.objects[h]] == f
  }

  // The path is another name of the object, through which neither can be written.
  predicate Joined(d: Disk, p: Path, h: Hash) {
    && p in d.paths && h in d.objects && d.paths[p] == d.objects[h]
    && d.objects[h] in d.inodes && !d.inodes[d.objects[h]].writable
  }

  // Every other name means the file it meant, and no file lost or changed its bytes.
  predicate OthersKept(d: Disk, d': Disk, p: Path, h: Hash) {
    && (forall q | q != p && q in d.paths :: q in d'.paths && d'.paths[q] == d.paths[q])
    && (forall q | q != p && q in d'.paths :: q in d.paths)
    && (forall g | g != h && g in d.objects :: g in d'.objects && d'.objects[g] == d.objects[g])
    && (forall g | g != h && g in d'.objects :: g in d.objects)
    && (forall i | i in d.inodes :: i in d'.inodes && d'.inodes[i].bytes == d.inodes[i].bytes)
  }

  class WorkspaceFiles {
    var disk: Disk

    constructor ()
      ensures disk == Disk(map[], map[], map[])
    {
      disk := Disk(map[], map[], map[]);
    }

    predicate HasObjectFile(h: Hash)
      reads this
    {
      h in disk.objects
    }

    // copy_file with overwrite_existing: contents and mode of the source, written into the
    // object's own file if there is one; that file must be writable and not the source.
    method CreateObjectFile(h: Hash, source: Path) returns (ok: bool)
      requires WellFormed(disk)
      modifies this
      ensures WellFormed(disk)
      ensures ok <==> source in old(disk).paths && (h in old(disk).objects ==> Overwritable(old(disk), h, source))
      ensures !ok ==> disk == old(disk)
      ensures ok && h !in old(disk).objects ==>
                disk == PutObject(old(disk), h, old(disk).inodes[old(disk).paths[source]])
      ensures ok ==> && ObjectHolds(disk, h, old(disk).inodes[old(disk).paths[source]]) && disk.paths == old(disk).paths
                     && (h !in old(disk).objects ==> disk.objects[h] !in old(disk).inodes)
      ensures ok && h in old(disk).objects ==>
                var i, f := old(disk).objects[h], old(disk).inodes[old(disk).paths[source]];
                disk == old(disk).(inodes := old(disk).inodes[i := f])
    {
      if source !in disk.paths {
        return false;
      }
      var f := disk.inodes[disk.paths[source]];
      if h in disk.objects {
        if !Overwritable(disk, h, source) {
          return false;
        }
        disk := disk.(inodes := disk.inodes[disk.objects[h] := f]);
      } else {
        FreshIsNew(disk);
        disk := PutObject(disk, h, f);
      }
      return true;
    }

    // Hard link under a temporary sibling name, mode to read-only, rename over the target.
    method LinkObjectFile(h: Hash, target: Path, temp: Path) returns (ok: bool)
      requires WellFormed(disk) && temp !in disk.paths && temp != target
      modifies this
      ensures WellFormed(disk)
      ensures ok <==> h in old(disk).objects
      ensures disk == if ok then Linked(old(disk), h, target) else old(disk)
      ensures ok ==> Joined(disk, target, h) && OthersKept(old(disk), disk, target, h)
      ensures disk.objects == old(disk).objects
    {
      if h !in disk.objects {
        return false;
      }
      var i := disk.objects[h];
      disk := disk.(paths := disk.paths[temp := i]);
      var t := disk.paths[temp];
      disk := disk.(inodes := disk.inodes[t := disk.inodes[t].(writable := false)]);
      disk := disk.(paths := (disk.paths - {temp})[target := disk.paths[temp]]);
      assert (old(disk).paths[temp := i] - {temp})[target := i] == old(disk).paths[target := i];
      return true;
    }

    // Copy under a temporary sibling name, mode to writable, rename over the target.
    method CopyObjectFile(h: Hash, target: Path, temp: Path) returns (ok: bool)
      requires WellFormed(disk) && temp !in disk.paths && temp != target
      modifies this
      ensures WellFormed(disk)
      ensures ok <==> h in old(disk).objects
      ensures ok ==> disk == PutPath(old(disk), target, File(old(disk).inodes[old(disk).objects[h]].bytes, true))
      ensures ok ==> && PathHolds(disk, target, File(old(disk).inodes[old(disk).objects[h]].bytes, true))
                     && disk.paths[target] !in old(disk).inodes
                     && OthersKept(old(disk), disk, target, h) && disk.objects == old(disk).objects
      ensures !ok ==> disk == old(disk)
    {
      if h !in disk.objects {
        return false;
      }
      FreshIsNew(disk);
      var i := Fresh(disk);
      disk := disk.(inodes := disk.inodes[i := disk.inodes[disk.objects[h]]], paths := disk.paths[temp := i]);
      disk := disk.(inodes := disk.inodes[i := disk.inodes[i].(writable := true)]);
      disk := disk.(paths := (disk.paths - {temp})[target := i]);
      assert (old(disk).paths[temp := i] - {temp})[target := i] == old(disk).paths[target := i];
      return true;
    }

    method DeleteObjectFile(h: Hash) returns (ok: bool)
      requires WellFormed(disk)
      modifies this
      ensures WellFormed(disk)
      ensures ok <==> h in old(disk).objects
      ensures disk == old(disk).(objects := old(disk).objects - {h})
    {
      if h !in disk.objects {
        assert disk.objects - {h} == disk.objects;
        return false;
      }
      disk := disk.(objects := disk.objects - {h});
      return true;
    }
  }
}
