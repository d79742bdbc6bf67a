// `pear status`: the untracked files, with whole untracked directories listed as one
// entry. Paths are sequences of components; the root directory is the empty one.
module Status {
  import opened Basics

  type Component = string
  type Location = seq<Component>

  datatype Entry = FileEntry(path: Location) | DirectoryEntry(path: Location)

  predicate Under(p: Location, dir: Location) { dir < p }

  // local: the files of the workspace, placeholders left out.
  function Untracked(local: set<Location>, staged: set<Location>, tracked: set<Location>): set<Location> {
    set p | p in local && p !in staged && p !in tracked
  }

  // is_fully_untracked_directory: some local file lies under it, and none of those is known.
  predicate FullyUntracked(local: set<Location>, untracked: set<Location>, dir: Location) {
    && (exists p | p in local :: Under(p, dir))
    && forall p | p in local && Under(p, dir) :: p in untracked
  }

  // The files an entry stands for.
  function Expand(local: set<Location>, e: Entry): set<Location> {
    match e
    case FileEntry(p) => {p}
    case DirectoryEntry(d) => set p | p in local && Under(p, d)
  }

  // The topmost proper ancestor below the root that is fully untracked, if any: an
  // independent description of what the upward walk finds.
  ghost predicate Represents(local: set<Location>, untracked: set<Location>, p: Location, e: Entry) {
    match e
    case FileEntry(q) => q == p && forall n | 0 < n < |p| :: !FullyUntracked(local, untracked, p[..n])
    case DirectoryEntry(d) =>
      && 0 < |d| < |p| && d == p[..|d|] && FullyUntracked(local, untracked, d)
      && forall n | 0 < n < |d| :: !FullyUntracked(local, untracked, p[..n])
  }

  method FindUntrackedPaths(local: seq<Location>, staged: set<Location>, tracked: set<Location>)
    returns (out: seq<Location>)
    ensures forall p :: p in out <==> p in Untracked((set q | q in local), staged, tracked)
    ensures forall p :: p in out <==> p in local && p !in staged && p !in tracked
  {
    out := [];
    var i := 0;
    while i < |local|
      invariant 0 <= i <= |local|
      invariant forall p :: p in out <==> p in local[..i] && p !in staged && p !in tracked
    {
      if local[i] !in staged && local[i] !in tracked {
        out := out + [local[i]];
      }
      i := i + 1;
    }
    assert local[..i] == local;
  }

  method IsFullyUntrackedDirectory(listing: seq<Location>, untracked: set<Location>, dir: Location) returns (r: bool)
    ensures r <==> FullyUntracked((set p | p in listing), untracked, dir)
    ensures r <==> (exists p | p in listing :: dir < p) && forall p | p in listing && dir < p :: p in untracked
  {
    var hasUserFiles := false;
    var i := 0;
    while i < |listing|
      invariant 0 <= i <= |listing|
      invariant hasUserFiles <==> exists p | p in listing[..i] :: Under(p, dir)
      invariant forall p | p in listing[..i] && Under(p, dir) :: p in untracked
    {
      assert listing[..i + 1] == listing[..i] + [listing[i]];
      if Under(listing[i], dir) {
        hasUserFiles := true;
        if listing[i] !in untracked {
          return false;
        }
      }
      i := i + 1;
    }
    assert listing[..i] == listing;
    return hasUserFiles;
  }

  // Walk from the parent up to, not including, the root, remembering the last directory
  // that qualified.
  method BestEntry(local: seq<Location>, untracked: set<Location>, p: Location) returns (e: Entry)
    ensures Represents((set q | q in local), untracked, p, e)
  {
    ghost var files := set q | q in local;
    var best: Location := [];
    var n: nat := if |p| == 0 then 0 else |p| - 1;
    while n > 0
      invariant 0 <= n <= |p| && (n > 0 ==> n < |p|)
      invariant best == [] ==> forall m | n < m < |p| :: !FullyUntracked(files, untracked, p[..m])
      invariant best != [] ==> n < |best| < |p| && best == p[..|best|] && FullyUntracked(files, untracked, best)
      invariant best != [] ==> forall m | n < m < |best| :: !FullyUntracked(files, untracked, p[..m])
    {
      var full := IsFullyUntrackedDirectory(local, untracked, p[..n]);
      if full {
        best := p[..n];
      }
      n := n - 1;
    }
    return if best == [] then FileEntry(p) else DirectoryEntry(best);
  }

  ghost predicate Justified(local: set<Location>, untracked: set<Location>, e: Entry) {
    exists p :: p in untracked && Represents(local, untracked, p, e)
  }

  ghost predicate Listed(local: set<Location>, untracked: set<Location>, entries: set<Entry>, p: Location) {
    exists e :: e in entries && Represents(local, untracked, p, e)
  }

  ghost predicate Compressed(local: set<Location>, untracked: set<Location>, entries: set<Entry>) {
    && (forall e {:trigger Justified(local, untracked, e)} | e in entries :: Justified(local, untracked, e))
    && (forall p {:trigger Listed(local, untracked, entries, p)} | p in untracked ::
        Listed(local, untracked, entries, p))
  }

  method CompressUntrackedPaths(local: seq<Location>, untracked: seq<Location>) returns (entries: set<Entry>)
    ensures Compressed((set p | p in local), (set p | p in untracked), entries)
  {
    var known := set p | p in untracked;
    ghost var files := set p | p in local;
    entries := {};
    var i := 0;
    while i < |untracked|
      invariant 0 <= i <= |untracked|
      invariant forall e {:trigger Justified(files, known, e)} | e in entries :: Justified(files, known, e)
      invariant forall p {:trigger Listed(files, known, entries, p)} | p in untracked[..i] ::
                Listed(files, known, entries, p)
    {
      var e := BestEntry(local, known, untracked[i]);
      assert untracked[..i + 1] == untracked[..i] + [untracked[i]];
      ghost var before := entries;
      entries := entries + {e};
      forall p | p in untracked[..i + 1] ensures Listed(files, known, entries, p) {
        if p in untracked[..i] { assert Listed(files, known, before, p); }
      }
      i := i + 1;
    }
    assert untracked[..i] == untracked;
  }

  // ----- The listing is lossless and minimal ----------------------------------------------

  function Expansion(local: set<Location>, entries: set<Entry>): set<Location> {
    set e, p | e in entries && p in Expand(local, e) :: p
  }

  // d is a directory at or above e.
  predicate Above(d: Entry, e: Entry) { d.DirectoryEntry? && (e.path == d.path || Under(e.path, d.path)) }

  lemma CompressionLossless(local: set<Location>, untracked: set<Location>, entries: set<Entry>)
    requires untracked <= local && Compressed(local, untracked, entries)
    ensures Expansion(local, entries) == untracked
  {
    forall p | p in untracked ensures p in Expansion(local, entries) {
      assert Listed(local, untracked, entries, p);
      var e :| e in entries && Represents(local, untracked, p, e);
      assert p in Expand(local, e);
    }
    forall e, p | e in entries && p in Expand(local, e) ensures p in untracked {
      assert Justified(local, untracked, e);
      var q :| q in untracked && Represents(local, untracked, q, e);
    }
  }

  // No file that is known, or staged, lies under a listed directory.
  lemma ListedDirectoriesAreClean(local: set<Location>, staged: set<Location>, tracked: set<Location>,
                                  entries: set<Entry>, d: Location, p: Location)
    requires Compressed(local, Untracked(local, staged, tracked), entries)
    requires DirectoryEntry(d) in entries && p in local && Under(p, d)
    ensures p !in staged && p !in tracked
  {
    assert Justified(local, Untracked(local, staged, tracked), DirectoryEntry(d));
    var untracked := Untracked(local, staged, tracked);
    var q :| q in untracked && Represents(local, untracked, q, DirectoryEntry(d));
    assert p in Untracked(local, staged, tracked);
  }

  // No entry lies at or under another: nothing is listed twice, and nothing that a listed
  // directory stands for is listed on its own.
  lemma EntriesAreAntichain(local: set<Location>, untracked: set<Location>, entries: set<Entry>, d: Entry, e: Entry)
    requires untracked <= local && Compressed(local, untracked, entries)
    requires d in entries && e in entries && d != e
    requires forall p, q | p in local && q in local :: !(Under(p, q))
    ensures !Above(d, e)
  {
    if d.DirectoryEntry? {
      assert Justified(local, untracked, e) && Justified(local, untracked, d);
      var p :| p in untracked && Represents(local, untracked, p, e);
      var q :| q in untracked && Represents(local, untracked, q, d);
      assert FullyUntracked(local, untracked, d.path) && Under(q, d.path);
      var n := if |d.path| < |p| then |d.path| else |p|;
      assert p[..n] == d.path || !(d.path < e.path);
      assert e == FileEntry(p) ==> !Under(q, p);
    }
  }

  lemma ExpansionMeans(local: set<Location>, entries: set<Entry>)
    ensures forall p :: p in Expansion(local, entries) <==>
              exists e | e in entries :: if e.FileEntry? then p == e.path else p in local && e.path < p
  {
    forall e, p | e in entries && (if e.FileEntry? then p == e.path else p in local && e.path < p)
      ensures p in Expansion(local, entries) { assert p in Expand(local, e); }
  }

  // There are files under the directory, none of them staged or tracked.
  ghost predicate AllNew(local: seq<Location>, staged: set<Location>, tracked: set<Location>, dir: Location) {
    (exists p :: p in local && dir < p) && forall q | q in local && dir < q :: q !in staged && q !in tracked
  }

  // A directory below the root in which every file is untracked, and there is one, is listed
  // or lies in one that is.
  lemma DirectoryIsListed(local: set<Location>, staged: set<Location>, tracked: set<Location>, entries: set<Entry>,
                          dir: Location, p: Location)
    requires Compressed(local, Untracked(local, staged, tracked), entries)
    requires dir != [] && p in local && dir < p
    requires forall q | q in local && dir < q :: q !in staged && q !in tracked
    ensures exists d :: DirectoryEntry(d) in entries && d <= dir
  {
    var untracked := Untracked(local, staged, tracked);
    assert Under(p, dir) && FullyUntracked(local, untracked, dir);
    assert p in untracked && Listed(local, untracked, entries, p);
    var e :| e in entries && Represents(local, untracked, p, e);
    assert p[..|dir|] == dir;
    assert e.DirectoryEntry? && |e.path| <= |dir|;
    assert e.path == p[..|e.path|] == dir[..|e.path|];
    assert DirectoryEntry(e.path) in entries;
  }

  // The untracked part of collect_status_info, from the three listings to the entries shown.
  method CollectUntracked(local: seq<Location>, staged: set<Location>, tracked: set<Location>)
    returns (entries: set<Entry>)
    requires forall p, q | p in local && q in local :: !Under(p, q)
    ensures Expansion((set p | p in local), entries) == Untracked((set p | p in local), staged, tracked)
    ensures forall d, e | d in entries && e in entries && d != e :: !Above(d, e)
    ensures forall p :: p in local && p !in staged && p !in tracked <==>
              exists e | e in entries :: if e.FileEntry? then p == e.path else p in local && e.path < p
    ensures forall d, e | DirectoryEntry(d) in entries && e in entries && e != DirectoryEntry(d) :: !(d <= e.path)
    ensures forall dir | dir != [] && AllNew(local, staged, tracked, dir) ::
              exists d :: DirectoryEntry(d) in entries && d <= dir
  {
    ghost var files := set p | p in local;
    var untracked := FindUntrackedPaths(local, staged, tracked);
    entries := CompressUntrackedPaths(local, untracked);
    ghost var wanted := Untracked(files, staged, tracked);
    assert (set p | p in untracked) == wanted;
    CompressionLossless(files, wanted, entries);
    forall d, e | d in entries && e in entries && d != e ensures !Above(d, e) {
      EntriesAreAntichain(files, wanted, entries, d, e);
    }
    ExpansionMeans(files, entries);
    forall d, e | DirectoryEntry(d) in entries && e in entries && e != DirectoryEntry(d) ensures !(d <= e.path) {
      assert !Above(DirectoryEntry(d), e);
    }
    forall dir | dir != [] && AllNew(local, staged, tracked, dir)
      ensures exists d :: DirectoryEntry(d) in entries && d <= dir
    {
      var p :| p in local && dir < p;
      DirectoryIsListed(files, staged, tracked, entries, dir, p);
    }
  }
}
