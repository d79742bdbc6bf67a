// The parts of the commands that decide what is sent to the coordinator and what is
// forgotten locally. The interleaving of these parts is the subject of Ownership.dfy.
module Commands {
  import opened Basics
  import opened Wal
  import opened Store
  import opened Database

  // A staged row run_push can send: a known operation whose object is at hand.
  predicate Sendable(s: Staged, objects: set<Hash>) {
    s.operation in {"add", "update"} && s.hash in objects
  }

  // The batch run_push makes of the paths `seen`, and the paths it answers for, position
  // by position.
  ghost predicate Prepared(staging: map<Path, Staged>, objects: set<Hash>, device: DeviceId, seen: set<Path>,
                           ps: seq<Path>, batch: seq<Op>)
    requires forall p | p in seen :: p in staging
  {
    && |batch| == |ps| && SortedText(ps)
    && (forall p :: p in ps <==> p in seen && Sendable(staging[p], objects))
    && forall i | 0 <= i < |ps| :: ps[i] in staging
         && batch[i] == FileUpdate(ps[i], staging[ps[i]].hash, 0, device, staging[ps[i]].readOnly)
  }

  ghost predicate PushBatch(db: Db, objects: set<Hash>, device: DeviceId, ps: seq<Path>, batch: seq<Op>) {
    Prepared(db.staging, objects, device, db.staging.Keys, ps, batch)
  }

  lemma PrepareNext(staging: map<Path, Staged>, objects: set<Hash>, device: DeviceId, seen: set<Path>, ps: seq<Path>,
                    batch: seq<Op>, p: Path)
    requires forall q | q in seen :: q in staging
    requires Prepared(staging, objects, device, seen, ps, batch)
    requires p in staging && forall q | q in seen :: TextLess(q, p)
    ensures forall q | q in seen + {p} :: q in staging
    ensures if Sendable(staging[p], objects)
            then Prepared(staging, objects, device, seen + {p}, ps + [p],
                          batch + [FileUpdate(p, staging[p].hash, 0, device, staging[p].readOnly)])
            else Prepared(staging, objects, device, seen + {p}, ps, batch)
  {
    assert forall j | 0 <= j < |ps| :: ps[j] in ps;
  }

  method PreparePush(db: SqliteDatabase, objects: set<Hash>, device: DeviceId)
    returns (ps: seq<Path>, batch: seq<Op>, hadErrors: bool)
    ensures PushBatch(db.View(), objects, device, ps, batch)
    ensures |batch| == |ps| && SortedText(ps)
    ensures forall p :: p in ps <==> p in db.staging && db.staging[p].operation in {"add", "update"}
                                     && db.staging[p].hash in objects
    ensures forall i | 0 <= i < |ps| ::
              batch[i] == FileUpdate(ps[i], db.staging[ps[i]].hash, 0, device, db.staging[ps[i]].readOnly)
    ensures hadErrors <==> exists p | p in db.staging :: p !in ps
  {
    var staged := db.GetStagedFiles();
    ghost var seen: set<Path> := {};
    ps, batch, hadErrors := [], [], false;
    var i := 0;
    while i < |staged|
      invariant 0 <= i <= |staged|
      invariant forall p :: p in seen <==> exists k | 0 <= k < i :: staged[k].path == p
      invariant forall p | p in seen :: p in db.staging
      invariant Prepared(db.staging, objects, device, seen, ps, batch)
      invariant hadErrors <==> exists p | p in seen :: !Sendable(db.staging[p], objects)
    {
      var row := staged[i];
      assert row in staged;
      PrepareNext(db.staging, objects, device, seen, ps, batch, row.path);
      if Sendable(row.info, objects) {
        batch := batch + [FileUpdate(row.path, row.info.hash, 0, device, row.info.readOnly)];
        ps := ps + [row.path];
      } else {
        hadErrors := true;
      }
      seen := seen + {row.path};
      i := i + 1;
    }
    forall p | p in db.staging ensures p in seen {
      assert StagedRow(p, db.staging[p]) in staged;
    }
    assert seen == db.staging.Keys;
    assert forall p | p in db.staging :: p in ps <==> Sendable(db.staging[p], objects);
  }

  // ----- stage_file, its database half --------------------------------------------------

  // A file that is what is tracked already needs no staging, and loses any it had.
  function Restaged(db: Db, p: Path, hash: Hash, localPath: string, readOnly: bool): map<Path, Staged> {
    match LatestHash(db.tables.files, p)
    case None => db.staging[p := Staged(hash, localPath, "add", readOnly)]
    case Some(h) => if h == hash then db.staging - {p} else db.staging[p := Staged(hash, localPath, "update", readOnly)]
  }

  // A row without a hash reads as the empty text.
  predicate HasHash(row: FileRow, hash: Hash) { row.hash == Some(hash) || (row.hash == None && hash == "") }

  method StagePath(db: SqliteDatabase, p: Path, hash: Hash, localPath: string, readOnly: bool) returns (staged: bool)
    modifies db
    ensures db.View() == old(db.View()).(staging := Restaged(old(db.View()), p, hash, localPath, readOnly))
    ensures !staged <==> exists k | IsNewest(db.files, p, k) :: !db.files[k].deleted && HasHash(db.files[k], hash)
    ensures !staged ==> db.staging == old(db.staging) - {p}
    ensures staged ==> && p in db.staging && db.staging - {p} == old(db.staging) - {p}
                       && db.staging[p].hash == hash && db.staging[p].localPath == localPath
                       && db.staging[p].readOnly == readOnly
                       && db.staging[p].operation ==
                          if exists k | IsNewest(db.files, p, k) :: !db.files[k].deleted then "update" else "add"
  {
    LatestMeans(db.files, p);
    var tracked := db.GetFileInfoByPath(p, 0);
    if tracked.Some? && tracked.value.hash == hash {
      db.UnstageFile(p);
      return false;
    }
    db.StageFile(p, Staged(hash, localPath, if tracked.Some? then "update" else "add", readOnly));
    return true;
  }

  // After a file was staged, the next push sends its hash and mode for its path exactly
  // when that differs from what is tracked, and its other entries are what they were.
  lemma StagedIsPushed(db: Db, p: Path, hash: Hash, localPath: string, readOnly: bool,
                       objects: set<Hash>, device: DeviceId, ps: seq<Path>, batch: seq<Op>)
    requires hash in objects
    requires PushBatch(db.(staging := Restaged(db, p, hash, localPath, readOnly)), objects, device, ps, batch)
    ensures p !in ps <==> exists k | IsNewest(db.tables.files, p, k) ::
              !db.tables.files[k].deleted && HasHash(db.tables.files[k], hash)
    ensures forall i | 0 <= i < |ps| && ps[i] == p :: batch[i] == FileUpdate(p, hash, 0, device, readOnly)
    ensures forall q | q != p :: q in ps <==> q in db.staging && Sendable(db.staging[q], objects)
  {
    var after := db.(staging := Restaged(db, p, hash, localPath, readOnly));
    LatestMeans(db.tables.files, p);
    assert p in ps <==> p in after.staging && Sendable(after.staging[p], objects);
    forall q | q != p ensures q in ps <==> q in db.staging && Sendable(db.staging[q], objects) {
      assert q in ps <==> q in after.staging && Sendable(after.staging[q], objects);
    }
  }

  method UnstageBatch(db: SqliteDatabase, ps: seq<Path>)
    modifies db
    ensures db.View() == old(db.View()).(staging := old(db.staging) - (set p | p in ps))
  {
    var i := 0;
    while i < |ps|
      invariant 0 <= i <= |ps|
      invariant db.View() == old(db.View()).(staging := old(db.staging) - (set p | p in ps[..i]))
    {
      assert ps[..i + 1] == ps[..i] + [ps[i]];
      db.UnstageFile(ps[i]);
      i := i + 1;
    }
    assert ps[..i] == ps;
  }

  // What a cleanup means to delete, and the owner entries it has to retract first.
  ghost predicate CleanupPlan(db: Db, objects: set<Hash>, device: DeviceId, unused: set<Hash>, batch: seq<Op>) {
    && (forall h :: h in unused <==>
          (h in objects && (forall k | k in db.tables.files :: db.tables.files[k].hash != Some(h))
           && (forall p | p in db.staging :: db.staging[p].hash != h)))
    && (forall op :: op in batch <==>
          exists h | h in unused :: Claim(h, device) in db.tables.owners && op == OwnerDelete(h, device))
  }

  method PlanCleanup(db: SqliteDatabase, listing: seq<Hash>, device: DeviceId)
    returns (unused: seq<Hash>, batch: seq<Op>)
    ensures CleanupPlan(db.View(), (set h | h in listing), device, (set h | h in unused), batch)
    ensures forall h :: h in unused <==>
              (h in listing && (forall k | k in db.files :: db.files[k].hash != Some(h))
               && (forall p | p in db.staging :: db.staging[p].hash != h))
    ensures forall op :: op in batch <==>
              exists h | h in unused :: Claim(h, device) in db.owners && op == OwnerDelete(h, device)
  {
    unused, batch := [], [];
    var i := 0;
    while i < |listing|
      invariant 0 <= i <= |listing|
      invariant forall h :: h in unused <==> h in listing[..i] && !Referenced(db.files, db.staging, h)
    {
      if !Referenced(db.files, db.staging, listing[i]) {
        unused := unused + [listing[i]];
      }
      i := i + 1;
    }
    assert listing[..i] == listing;
    i := 0;
    while i < |unused|
      invariant 0 <= i <= |unused|
      invariant forall op :: op in batch <==>
                  exists h | h in unused[..i] :: Claim(h, device) in db.owners && op == OwnerDelete(h, device)
    {
      assert unused[..i + 1] == unused[..i] + [unused[i]];
      if Claim(unused[i], device) in db.owners {
        batch := batch + [OwnerDelete(unused[i], device)];
      }
      i := i + 1;
    }
    assert unused[..i] == unused;
  }
}
