// stage_file, the two halves of run_readonly, and pull_file, as far as files go: undisturbed,
// each is a sequence of steps of ObjectIntegrity.dfy.
module FileCommands {
  import opened Basics
  import opened Transfer
  import opened Workspace
  import opened ObjectIntegrity

  ghost function Start(d: Disk): Station { Station(d, Free) }

  // Storing a file under its hash, and linking it if it is to be read-only.
  function StoreSteps(p: Path, readOnly: bool, present: bool, size: nat): seq<Step> {
    HashSteps(p, readOnly, size) + CopySteps(present, size) + if readOnly then [MakeLink] else []
  }

  lemma StoreLeads(hash: Hasher, d: Disk, p: Path, readOnly: bool)
    requires WellFormed(d) && p in d.paths
    ensures var f := d.inodes[d.paths[p]];
            var h := hash(f.bytes);
            var stored := WithObject(d, h, f);
            && WellFormed(stored)
            && Leads(hash, Start(d), StoreSteps(p, readOnly, h in d.objects, |f.bytes|),
                     Start(if readOnly then Linked(stored, h, p) else stored))
  {
    FreshIsNew(d);
    var f := d.inodes[d.paths[p]];
    var hashed := Station(d, Hashed(p, hash(f.bytes), readOnly));
    HashLeads(hash, Start(d), p, readOnly);
    CopyLeads(hash, hashed, |f.bytes|);
    var first, copy := HashSteps(p, readOnly, |f.bytes|), CopySteps(hash(f.bytes) in d.objects, |f.bytes|);
    LeadsThrough(hash, Start(d), first, hashed, copy, Copied(hashed));
    if readOnly {
      OneStep(hash, Copied(hashed), MakeLink);
      LeadsThrough(hash, Start(d), first + copy, Copied(hashed), [MakeLink], After(hash, Copied(hashed), MakeLink));
    } else {
      assert first + copy + [] == first + copy;
    }
  }

  // The object is there, made from the file if it was missing; a read-only path is another
  // name of it, any other path is the file it was.
  ghost predicate StoredAs(d: Disk, d': Disk, p: Path, h: Hash, readOnly: bool)
    requires WellFormed(d) && p in d.paths
  {
    var bytes := if h in d.objects then d.inodes[d.objects[h]].bytes else d.inodes[d.paths[p]].bytes;
    && OthersKept(d, d', p, h)
    && h in d'.objects && d'.objects[h] in d'.inodes && d'.inodes[d'.objects[h]].bytes == bytes
    && (if h in d.objects then d'.objects == d.objects else d'.objects[h] !in d.inodes)
    && (if readOnly then Joined(d', p, h) else d'.paths == d.paths && PathHolds(d', p, d.inodes[d.paths[p]]))
  }

  // stage_file, once the contents are known to differ from the tracked ones.
  method StageFile(files: WorkspaceFiles, hash: Hasher, p: Path, readOnly: bool, temp: Path)
    returns (ghost steps: seq<Step>, h: Hash)
    requires WellFormed(files.disk) && p in files.disk.paths && temp !in files.disk.paths
    modifies files
    ensures h == hash(old(files.disk).inodes[old(files.disk).paths[p]].bytes)
    ensures steps == StoreSteps(p, readOnly, h in old(files.disk).objects,
                                |old(files.disk).inodes[old(files.disk).paths[p]].bytes|)
    ensures Leads(hash, Start(old(files.disk)), steps, Start(files.disk))
    ensures StoredAs(old(files.disk), files.disk, p, h, readOnly)
  {
    StoreLeads(hash, files.disk, p, readOnly);
    FreshIsNew(files.disk);
    h := hash(files.disk.inodes[files.disk.paths[p]].bytes);
    steps := StoreSteps(p, readOnly, h in files.disk.objects, |files.disk.inodes[files.disk.paths[p]].bytes|);
    if !files.HasObjectFile(h) {
      var created := files.CreateObjectFile(h, p);
    }
    if readOnly {
      var linked := files.LinkObjectFile(h, p, temp);
    }
  }

  // The first half of run_readonly; a missing or modified file is an error.
  method TurnReadonlyOn(files: WorkspaceFiles, hash: Hasher, p: Path, h: Hash, temp: Path)
    returns (ok: bool, ghost steps: seq<Step>)
    requires WellFormed(files.disk) && temp !in files.disk.paths && temp != p
    modifies files
    ensures ok <==> p in old(files.disk).paths && hash(old(files.disk).inodes[old(files.disk).paths[p]].bytes) == h
    ensures !ok ==> files.disk == old(files.disk)
    ensures ok ==> steps == StoreSteps(p, true, h in old(files.disk).objects,
                                       |old(files.disk).inodes[old(files.disk).paths[p]].bytes|)
    ensures ok ==> Leads(hash, Start(old(files.disk)), steps, Start(files.disk))
    ensures ok ==> StoredAs(old(files.disk), files.disk, p, h, true)
  {
    steps := [];
    if p !in files.disk.paths || hash(files.disk.inodes[files.disk.paths[p]].bytes) != h {
      return false, [];
    }
    var same;
    steps, same := StageFile(files, hash, p, true, temp);
    ok := true;
  }

  // The second half, with its in-place branch.
  method TurnReadonlyOff(files: WorkspaceFiles, hash: Hasher, p: Path, h: Hash, temp: Path) returns (ok: bool)
    requires WellFormed(files.disk) && temp !in files.disk.paths && temp != p
    modifies files
    ensures ok <==> h in old(files.disk).objects || p in old(files.disk).paths
    ensures !ok ==> files.disk == old(files.disk)
    ensures ok ==>
              var step := if h in old(files.disk).objects then CopyOut(p, h) else ChmodInPlace(p, h);
              Leads(hash, Start(old(files.disk)), [step], Start(files.disk))
    ensures ok ==> OthersKept(old(files.disk), files.disk, p, h) && files.disk.objects == old(files.disk).objects
    ensures ok && h in old(files.disk).objects ==>
              && PathHolds(files.disk, p, File(old(files.disk).inodes[old(files.disk).objects[h]].bytes, true))
              && files.disk.paths[p] !in old(files.disk).inodes
    ensures ok && h !in old(files.disk).objects ==>
              && files.disk.paths == old(files.disk).paths
              && PathHolds(files.disk, p, File(old(files.disk).inodes[old(files.disk).paths[p]].bytes, true))
  {
    FreshIsNew(files.disk);
    ghost var start := Start(files.disk);
    if files.HasObjectFile(h) {
      OneStep(hash, start, CopyOut(p, h));
      var copied := files.CopyObjectFile(h, p, temp);
    } else if p in files.disk.paths {
      OneStep(hash, start, ChmodInPlace(p, h));
      files.disk := Writable(files.disk, p);
    } else {
      return false;
    }
    return true;
  }

  function PullSteps(p: Path, h: Hash, readOnly: bool, share: bool, present: bool, download: Bytes): seq<Step> {
    if readOnly then [if present then PullPresent(p, h) else PullDownload(p, h, download, true, share), MakeLink]
    else if present then [CopyOut(p, h)]
    else [PullDownload(p, h, download, false, share)] + if share then CopySteps(false, |download|) else []
  }

  lemma PullLinks(hash: Hasher, d: Disk, p: Path, h: Hash, share: bool, present: bool, download: Bytes)
    requires WellFormed(d) && (present <==> h in d.objects) && (!present ==> hash(download) == h)
    ensures var stored := WithObject(d, h, File(download, true));
            && WellFormed(stored)
            && Leads(hash, Start(d), PullSteps(p, h, true, share, present, download), Start(Linked(stored, h, p)))
  {
    FreshIsNew(d);
    var first := if present then PullPresent(p, h) else PullDownload(p, h, download, true, share);
    var mid := After(hash, Start(d), first);
    OneStep(hash, Start(d), first);
    OneStep(hash, mid, MakeLink);
    LeadsThrough(hash, Start(d), [first], mid, [MakeLink], After(hash, mid, MakeLink));
    assert [first] + [MakeLink] == [first, MakeLink];
  }

  lemma PullCopies(hash: Hasher, d: Disk, p: Path, h: Hash, share: bool, download: Bytes)
    requires WellFormed(d) && h !in d.objects && hash(download) == h
    ensures var pulled := PutPath(d, p, File(download, true));
            && WellFormed(pulled)
            && Leads(hash, Start(d), PullSteps(p, h, false, share, false, download),
                     Start(if share then PutObject(pulled, h, File(download, true)) else pulled))
  {
    FreshIsNew(d);
    var first := PullDownload(p, h, download, false, share);
    var mid := After(hash, Start(d), first);
    OneStep(hash, Start(d), first);
    if share {
      CopyLeads(hash, mid, |download|);
      LeadsThrough(hash, Start(d), [first], mid, CopySteps(false, |download|), Copied(mid));
    } else {
      assert [first] + [] == [first];
    }
  }

  // The file half of pull_file. A download fails or brings bytes of the wanted hash, as
  // Download.DownloadObject ensures, and replaces its destination by a new file.
  method PullFile(files: WorkspaceFiles, hash: Hasher, p: Path, h: Hash, readOnly: bool, share: bool,
                  download: Result<Bytes>, temp: Path)
    returns (ok: bool, ghost steps: seq<Step>)
    requires WellFormed(files.disk) && temp !in files.disk.paths && temp != p
    requires download.Ok? ==> hash(download.value) == h
    modifies files
    ensures ok <==> h in old(files.disk).objects || download.Ok?
    ensures !ok ==> files.disk == old(files.disk)
    ensures ok ==> steps == PullSteps(p, h, readOnly, share, h in old(files.disk).objects,
                                      if download.Ok? then download.value else [])
    ensures ok ==> Leads(hash, Start(old(files.disk)), steps, Start(files.disk))
    ensures ok ==> OthersKept(old(files.disk), files.disk, p, h)
    ensures ok ==>
              var was := old(files.disk);
              var bytes := if h in was.objects then was.inodes[was.objects[h]].bytes else download.value;
              && (readOnly ==> Joined(files.disk, p, h) && ObjectHolds(files.disk, h, File(bytes, false)))
              && (!readOnly ==> PathHolds(files.disk, p, File(bytes, true)) && files.disk.paths[p] !in was.inodes)
              && (h in was.objects || (!readOnly && !share) ==> files.disk.objects == was.objects)
              && (h !in was.objects && !readOnly && share ==>
                    ObjectHolds(files.disk, h, File(bytes, true)) && files.disk.objects[h] != files.disk.paths[p])
  {
    steps := [];
    FreshIsNew(files.disk);
    var present := files.HasObjectFile(h);
    if !present && download.Err? {
      return false, [];
    }
    ghost var bytes := if download.Ok? then download.value else [];
    steps := PullSteps(p, h, readOnly, share, present, bytes);
    if readOnly {
      PullLinks(hash, files.disk, p, h, share, present, bytes);
      if !present {
        files.disk := PutObject(files.disk, h, File(download.value, true));
      }
      var linked := files.LinkObjectFile(h, p, temp);
    } else if present {
      OneStep(hash, Start(files.disk), CopyOut(p, h));
      var copied := files.CopyObjectFile(h, p, temp);
    } else {
      PullCopies(hash, files.disk, p, h, share, bytes);
      files.disk := PutPath(files.disk, p, File(download.value, true));
      FreshIsNew(files.disk);
      if share {
        var created := files.CreateObjectFile(h, p);
      }
    }
    return true, steps;
  }
}
