// The second half of sync_with_master: one read-only `.empty` file for every tracked path
// that is not in the workspace, and none besides.
module Placeholders {
  import opened Basics

  const SUFFIX: string := ".empty"

  // extension() == ".empty" of the last path component; a file named just ".empty" has none.
  predicate IsPlaceholder(p: Path) {
    |p| > |SUFFIX| && p[|p| - |SUFFIX|..] == SUFFIX && p[|p| - |SUFFIX| - 1] != '/'
  }

  function Base(p: Path): Path
    requires IsPlaceholder(p)
  {
    p[..|p| - |SUFFIX|]
  }

  lemma BaseOf(p: Path)
    ensures p != "" && p[|p| - 1] != '/' ==> IsPlaceholder(p + SUFFIX) && Base(p + SUFFIX) == p
    ensures IsPlaceholder(p) ==> Base(p) + SUFFIX == p
  {
    if p != "" { assert (p + SUFFIX)[|p|..] == SUFFIX; }
  }

  // A placeholder is a name with a non-empty last component before the suffix: neither
  // ".empty" nor "dir/.empty" is one.
  lemma PlaceholderMeans(p: Path)
    ensures IsPlaceholder(p) <==> exists q | q != "" && q[|q| - 1] != '/' :: p == q + ".empty"
    ensures !IsPlaceholder(".empty") && forall dir :: !IsPlaceholder(dir + "/.empty")
  {
    if IsPlaceholder(p) {
      BaseOf(p);
      assert p == Base(p) + ".empty";
    }
    forall q | q != "" && q[|q| - 1] != '/' ensures IsPlaceholder(q + ".empty") { BaseOf(q); }
    forall dir ensures !IsPlaceholder(dir + "/.empty") {
      assert (dir + "/.empty")[|dir|] == '/';
    }
  }

  // What run_add lets through: relative names of regular files, never a placeholder.
  predicate Trackable(p: Path) { p != "" && p[|p| - 1] != '/' && !IsPlaceholder(p) }

  // Placeholders as they should be: one for each tracked path that is missing.
  function Reconciled(files: set<Path>, tracked: set<Path>): set<Path> {
    (set p | p in files && !IsPlaceholder(p)) + (set p | p in tracked && p !in files :: p + SUFFIX)
  }

  // The regular files outside `.peer`.
  class WorkTree {
    var files: set<Path>

    constructor (files: set<Path>)
      ensures this.files == files
    {
      this.files := files;
    }

    // create_empty_file: an existing one is kept.
    method CreateEmptyFile(p: Path)
      modifies this
      ensures files == old(files) + {p + SUFFIX}
    {
      if p + SUFFIX in files {
        return;
      }
      files := files + {p + SUFFIX};
    }

    method CreateAllEmptyFiles(names: seq<Path>)
      modifies this
      ensures files == old(files) + (set p | p in names :: p + SUFFIX)
    {
      var i := 0;
      while i < |names|
        invariant 0 <= i <= |names|
        invariant files == old(files) + (set p | p in names[..i] :: p + SUFFIX)
      {
        assert names[..i + 1] == names[..i] + [names[i]];
        CreateEmptyFile(names[i]);
        i := i + 1;
      }
      assert names[..i] == names;
    }

    // Collect the tracked paths that are missing, walk the tree (in any order) removing
    // stray placeholders, then create those wanted.
    method ReconcilePlaceholders(tracked: seq<Path>, walk: seq<Path>)
      requires forall p | p in tracked :: Trackable(p)
      requires forall p :: p in walk <==> p in files
      modifies this
      ensures files == Reconciled(old(files), set p: Path | p in tracked)
    {
      var desired: set<Path> := {};
      var i := 0;
      while i < |tracked|
        invariant 0 <= i <= |tracked|
        invariant desired == set p: Path | p in tracked[..i] && p !in files
      {
        assert tracked[..i + 1] == tracked[..i] + [tracked[i]];
        if tracked[i] !in files {
          desired := desired + {tracked[i]};
        }
        i := i + 1;
      }
      assert tracked[..i] == tracked;
      var k := 0;
      while k < |walk|
        invariant 0 <= k <= |walk|
        invariant files == set p | p in old(files) && (p in walk[..k] ==> !IsPlaceholder(p) || Base(p) in desired)
      {
        assert walk[..k + 1] == walk[..k] + [walk[k]];
        if IsPlaceholder(walk[k]) && Base(walk[k]) !in desired {
          files := files - {walk[k]};
        }
        k := k + 1;
      }
      assert walk[..k] == walk;
      CreateAllEmptyFiles(SortText(desired));
      assert files == Reconciled(old(files), set p: Path | p in tracked) by {
        forall p | p in old(files) && IsPlaceholder(p) && Base(p) in desired
          ensures p == Base(p) + SUFFIX { BaseOf(p); }
      }
    }
  }

  // The placeholders are exactly those of the missing tracked paths, every other file is
  // as it was, and a second reconciliation finds nothing to do.
  lemma ReconciledMeans(files: set<Path>, tracked: set<Path>)
    requires forall p | p in tracked :: Trackable(p)
    ensures var after := Reconciled(files, tracked);
            && (forall q | IsPlaceholder(q) :: q in after <==> Base(q) in tracked && Base(q) !in files)
            && (forall q | !IsPlaceholder(q) :: q in after <==> q in files)
            && Reconciled(after, tracked) == after
  {
    var after := Reconciled(files, tracked);
    forall p | p in tracked ensures IsPlaceholder(p + SUFFIX) && Base(p + SUFFIX) == p { BaseOf(p); }
    forall q | IsPlaceholder(q) ensures q in after <==> Base(q) in tracked && Base(q) !in files { BaseOf(q); }
    forall p | p in tracked ensures p in after <==> p in files {}
  }

  // A tracked file whose own name ends in `.empty` would be taken for a stray placeholder
  // and lost, exactly unless the path it seems to stand for is tracked and missing.
  lemma PlaceholderNamedFile(files: set<Path>, tracked: set<Path>, q: Path)
    requires q in files && IsPlaceholder(q)
    ensures q in Reconciled(files, tracked) <==> Base(q) in tracked && Base(q) !in files
  {
    BaseOf(q);
    if q in Reconciled(files, tracked) {
      var p :| p in tracked && p !in files && q == p + SUFFIX;
      assert q[..|q| - |SUFFIX|] == p;
    }
  }
}
