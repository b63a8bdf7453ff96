/** Mirroring the panorama projects from one directory tree into another, and the
    two passes of the backup script (`backup.py`). */
module Backup {
  import opened Paths
  import opened Outcomes
  import opened Files
  import opened Glob

  /** `dir/'panoramas'`, the only subtree that is mirrored. */
  function Projects(dir: Path): Path
  {
    dir + ["panoramas"]
  }

  /** `not include_tif and f.suffix == '.tif'`. */
  predicate Skipped(includeTif: bool, f: Path)
  {
    !includeTif && Suffix(BaseName(f)) == ".tif"
  }

  /** `outdir/f.relative_to(indir)`. */
  function Dest(indir: Path, outdir: Path, f: Path): Path
    requires |indir| <= |f|
  {
    outdir + f[|indir|..]
  }

  /** `shutil.copy2(f, o)` for a file `f`: into `o` under the name of `f` when `o` is a
      directory, onto `o` otherwise; writing onto a directory raises. */
  function CopyInto(t: Tree, f: Path, o: Path, now: int): Effect
    requires IsFile(t, f)
  {
    var dst := if IsDir(t, o) then o + [BaseName(f)] else o;
    if IsDir(t, dst) then Effect(t, Fail(IsADirectory(dst)))
    else Effect(CopyFileStat(t, f, dst, now), Pass)
  }

  /** `f` is a directory, not skipped, whose copy exists and is older: the one case
      in which the script as written and the corrected rule part ways. */
  predicate NewerDirectory(t: Tree, indir: Path, outdir: Path, includeTif: bool, f: Path)
    requires f in t && |indir| <= |f|
  {
    var o := Dest(indir, outdir, f);
    !Skipped(includeTif, f) && t[f].Directory? && o in t && t[f].mtime > t[o].mtime
  }

  /** One entry `f` of the loop of `copy_projects` as the script has it: a directory
      that is newer than its existing copy goes to `shutil.copy2`, which raises; in
      every other case it does what the corrected rule `Mirror` does. */
  function MirrorAsWritten(t: Tree, indir: Path, outdir: Path, includeTif: bool, f: Path, now: int): (r: Effect)
    requires f in t && |indir| <= |f|
    ensures t.Keys <= r.tree.Keys
    ensures r.outcome.Fail? ==> r.tree == t
    ensures NewerDirectory(t, indir, outdir, includeTif, f) <==> r != Mirror(t, indir, outdir, includeTif, f, now)
    ensures r != Mirror(t, indir, outdir, includeTif, f, now) ==> r == Effect(t, Fail(IsADirectory(f)))
  {
    var o := Dest(indir, outdir, f);
    if Skipped(includeTif, f) then Effect(t, Pass)
    else if t[f].Directory? && o !in t then Effect(Mkdirs(t, o, now), Pass)
    else if o !in t || t[f].mtime > t[o].mtime then
      if t[f].Directory? then Effect(t, Fail(IsADirectory(f))) else CopyInto(t, f, o, now)
    else Effect(t, Pass)
  }

  /** One entry `f` of the loop of `copy_projects`, with directories only ever created:
      a missing directory is made, a file is copied when its copy is missing or older. */
  function Mirror(t: Tree, indir: Path, outdir: Path, includeTif: bool, f: Path, now: int): (r: Effect)
    requires f in t && |indir| <= |f|
    ensures t.Keys <= r.tree.Keys
  {
    var o := Dest(indir, outdir, f);
    if Skipped(includeTif, f) then Effect(t, Pass)
    else if t[f].Directory? then Effect(if o in t then t else Mkdirs(t, o, now), Pass)
    else if o !in t || t[f].mtime > t[o].mtime then CopyInto(t, f, o, now)
    else Effect(t, Pass)
  }

  /** A directory newer than its existing copy stops the script as written, while the
      corrected rule leaves both alone. */
  lemma {:induction false} NewerDirectoryStops(t: Tree, indir: Path, outdir: Path, includeTif: bool, f: Path, now: int)
    requires f in t && |indir| <= |f| && t[f].Directory? && !Skipped(includeTif, f)
    requires Dest(indir, outdir, f) in t && t[f].mtime > t[Dest(indir, outdir, f)].mtime
    ensures MirrorAsWritten(t, indir, outdir, includeTif, f, now) == Effect(t, Fail(IsADirectory(f)))
    ensures Mirror(t, indir, outdir, includeTif, f, now) == Effect(t, Pass)
  {
  }

  /** The plainest case: a project directory that gained a file after its backup was
      made is newer than its backup directory. */
  lemma {:induction false} NewerDirectoryExample()
    ensures var f := ["", "tmp", "panoramas", "p2024"];
      var t := map[f := Directory(50, 50), ["", "bak", "panoramas", "p2024"] := Directory(10, 10)];
      && MirrorAsWritten(t, ["", "tmp"], ["", "bak"], false, f, 60).outcome == Fail(IsADirectory(f))
      && Mirror(t, ["", "tmp"], ["", "bak"], false, f, 60) == Effect(t, Pass)
  {
    var f := ["", "tmp", "panoramas", "p2024"];
    var o := ["", "bak", "panoramas", "p2024"];
    assert Dest(["", "tmp"], ["", "bak"], f) == o;
    assert BaseName(f) == "p2024";
    assert Suffix("p2024") == "" by {
      assert RFind("p2024", '.') == -1 by {
        assert RFind("p2", '.') == -1;
        assert RFind("p20", '.') == -1;
        assert RFind("p202", '.') == -1;
      }
    }
  }

  /** Under the corrected rule every directory passes. */
  lemma {:induction false} DirectoriesPass(t: Tree, indir: Path, outdir: Path, includeTif: bool, f: Path, now: int)
    requires f in t && Projects(indir) < f && t[f].Directory?
    ensures var r := Mirror(t, indir, outdir, includeTif, f, now);
      && r.outcome == Pass
      && (!Skipped(includeTif, f) ==> Dest(indir, outdir, f) in r.tree)
  {
    var o := Dest(indir, outdir, f);
    if !Skipped(includeTif, f) && o !in t {
      assert IsAncestorOrSelf(o, o);
    }
  }

  /** What one entry does to the tree. */
  lemma {:induction false} MirrorEffect(t: Tree, indir: Path, outdir: Path, includeTif: bool, f: Path, now: int)
    requires f in t && Projects(indir) < f
    ensures var r := Mirror(t, indir, outdir, includeTif, f, now);
      var o := Dest(indir, outdir, f);
      && Projects(outdir) < o && BaseName(o) == BaseName(f)
      && (Skipped(includeTif, f) ==> r == Effect(t, Pass))
      // only the copy of `f`, or the entry of that name inside it, is written over
      && (forall q :: q in t && q != o && q != o + [BaseName(f)] ==> r.tree[q] == t[q])
      // what appears is a directory on the way to the copy, or a copy of `f`
      && (forall q :: q in r.tree && q !in t ==>
            || (IsAncestorOrSelf(q, o) && r.tree[q] == Directory(now, now))
            || ((q == o || q == o + [BaseName(f)]) && r.tree[q] == File(now, t[f].mtime, t[f].body)))
      // a file written is a copy of `f`
      && (forall q :: q in r.tree && r.tree[q].File? && (q !in t || r.tree[q] != t[q]) ==>
            !Skipped(includeTif, f) && t[f].File? && (q == o || q == o + [BaseName(f)]))
      && (r.outcome.Fail? ==> r.tree == t)
  {
    var o := Dest(indir, outdir, f);
    assert o == Projects(outdir) + f[|Projects(indir)|..];
    assert o[|o| - 1] == f[|f| - 1];
  }

  /** `copy_projects` as written, over the entries `fs` in the order the filesystem
      lists them; the first exception ends the loop. */
  function MirrorAll(t: Tree, indir: Path, outdir: Path, includeTif: bool, fs: seq<Path>, now: int): (r: Effect)
    requires forall i :: 0 <= i < |fs| ==> fs[i] in t && |indir| <= |fs[i]|
    ensures t.Keys <= r.tree.Keys
  {
    if fs == [] then Effect(t, Pass)
    else
      var prev := MirrorAll(t, indir, outdir, includeTif, fs[..|fs| - 1], now);
      if prev.outcome.Fail? then prev
      else MirrorAsWritten(prev.tree, indir, outdir, includeTif, fs[|fs| - 1], now)
  }

  /** Entries to mirror: all of them lie below `indir/panoramas` and exist. */
  predicate Sources(t: Tree, indir: Path, fs: seq<Path>)
  {
    forall i :: 0 <= i < |fs| ==> fs[i] in t && Projects(indir) < fs[i]
  }

  /** The script changes nothing outside `outdir/panoramas`; above it only missing
      directories appear. */
  lemma {:induction false} MirrorScope(t: Tree, indir: Path, outdir: Path, includeTif: bool, fs: seq<Path>, now: int)
    requires Sources(t, indir, fs)
    ensures var r := MirrorAll(t, indir, outdir, includeTif, fs, now);
      && (forall q :: q in t && !(Projects(outdir) < q) ==> r.tree[q] == t[q])
      && (forall q :: q in r.tree && q !in t ==> Projects(outdir) < q || (q <= Projects(outdir) && r.tree[q].Directory?))
  {
    if fs != [] {
      var init := fs[..|fs| - 1];
      var f := fs[|fs| - 1];
      MirrorScope(t, indir, outdir, includeTif, init, now);
      var prev := MirrorAll(t, indir, outdir, includeTif, init, now);
      if prev.outcome.Pass? {
        MirrorEffect(prev.tree, indir, outdir, includeTif, f, now);
      }
    }
  }

  /** Without `include_tif`, no `.tif` file is written. */
  lemma {:induction false} NoTifWritten(t: Tree, indir: Path, outdir: Path, fs: seq<Path>, now: int)
    requires Sources(t, indir, fs)
    ensures var r := MirrorAll(t, indir, outdir, false, fs, now);
      forall q :: q in r.tree && r.tree[q].File? && (q !in t || r.tree[q] != t[q]) ==> Suffix(BaseName(q)) != ".tif"
  {
    if fs != [] {
      var init := fs[..|fs| - 1];
      var f := fs[|fs| - 1];
      NoTifWritten(t, indir, outdir, init, now);
      var prev := MirrorAll(t, indir, outdir, false, init, now);
      if prev.outcome.Pass? {
        MirrorEffect(prev.tree, indir, outdir, false, f, now);
        var r := MirrorAsWritten(prev.tree, indir, outdir, false, f, now);
        forall q | q in r.tree && r.tree[q].File? && (q !in t || r.tree[q] != t[q])
          ensures Suffix(BaseName(q)) != ".tif"
        {
          if q !in prev.tree || r.tree[q] != prev.tree[q] {
            var o := Dest(indir, outdir, f);
            assert BaseName(q) == BaseName(f) by {
              if q == o + [BaseName(f)] {
                assert q[|q| - 1] == BaseName(f);
              }
            }
          }
        }
      }
    }
  }

  /** One more entry, after a run of the loop that passed. */
  lemma {:induction false} MirrorAllSnoc(t: Tree, indir: Path, outdir: Path, includeTif: bool, fs: seq<Path>, n: nat, now: int)
    requires forall i :: 0 <= i < |fs| ==> fs[i] in t && |indir| <= |fs[i]|
    requires n < |fs| && MirrorAll(t, indir, outdir, includeTif, fs[..n], now).outcome.Pass?
    ensures fs[n] in MirrorAll(t, indir, outdir, includeTif, fs[..n], now).tree
    ensures MirrorAll(t, indir, outdir, includeTif, fs[..n + 1], now)
      == MirrorAsWritten(MirrorAll(t, indir, outdir, includeTif, fs[..n], now).tree, indir, outdir, includeTif, fs[n], now)
  {
    assert fs[..n + 1][..n] == fs[..n];
  }

  /** After an exception the remaining entries are not visited. */
  lemma {:induction false} FailureStops(t: Tree, indir: Path, outdir: Path, includeTif: bool, fs: seq<Path>, n: nat, now: int)
    requires forall i :: 0 <= i < |fs| ==> fs[i] in t && |indir| <= |fs[i]|
    requires n <= |fs| && MirrorAll(t, indir, outdir, includeTif, fs[..n], now).outcome.Fail?
    ensures MirrorAll(t, indir, outdir, includeTif, fs, now) == MirrorAll(t, indir, outdir, includeTif, fs[..n], now)
    decreases |fs| - n
  {
    if n < |fs| {
      assert fs[..n + 1][..n] == fs[..n];
      FailureStops(t, indir, outdir, includeTif, fs, n + 1, now);
    } else {
      assert fs[..n] == fs;
    }
  }

  /** One entry `f` of the loop of `copy_projects` on the machine `host`, as written. */
  method MirrorOne(host: Host, indir: Path, outdir: Path, includeTif: bool, f: Path, now: int) returns (r: Outcome)
    requires f in host.tree && |indir| <= |f|
    modifies host
    ensures host.tree == MirrorAsWritten(old(host.tree), indir, outdir, includeTif, f, now).tree
    ensures r == MirrorAsWritten(old(host.tree), indir, outdir, includeTif, f, now).outcome
    ensures host.started == old(host.started)
  {
    r := Pass;
    if !includeTif && Suffix(BaseName(f)) == ".tif" {
      return;
    }
    var o := outdir + f[|indir|..];
    if host.tree[f].Directory? && o !in host.tree {
      host.MakeDirs(o, now);
    } else if o !in host.tree || host.tree[f].mtime > host.tree[o].mtime {
      if host.tree[f].Directory? {
        return Fail(IsADirectory(f));
      }
      var dst := o;
      if IsDir(host.tree, o) {
        dst := o + [BaseName(f)];
      }
      if IsDir(host.tree, dst) {
        return Fail(IsADirectory(dst));
      }
      host.Copy2(f, dst, now);
    }
  }

  /** Entry `n` of the loop of `copy_projects` over `fs`, which started on the tree `t0`. */
  method MirrorNext(host: Host, ghost t0: Tree, indir: Path, outdir: Path, includeTif: bool, fs: seq<Path>,
                    n: nat, now: int) returns (r: Outcome)
    requires forall i :: 0 <= i < |fs| ==> fs[i] in t0 && |indir| <= |fs[i]|
    requires n < |fs| && MirrorAll(t0, indir, outdir, includeTif, fs[..n], now).outcome == Pass
    requires host.tree == MirrorAll(t0, indir, outdir, includeTif, fs[..n], now).tree
    modifies host
    ensures host.tree == MirrorAll(t0, indir, outdir, includeTif, fs[..n + 1], now).tree
    ensures r == MirrorAll(t0, indir, outdir, includeTif, fs[..n + 1], now).outcome
    ensures host.started == old(host.started)
  {
    MirrorAllSnoc(t0, indir, outdir, includeTif, fs, n, now);
    r := MirrorOne(host, indir, outdir, includeTif, fs[n], now);
  }

  /** The loop of `copy_projects` over the entries `fs`, on the machine `host`. */
  method MirrorEach(host: Host, indir: Path, outdir: Path, includeTif: bool, fs: seq<Path>, now: int)
    returns (r: Outcome)
    requires forall i :: 0 <= i < |fs| ==> fs[i] in host.tree && |indir| <= |fs[i]|
    modifies host
    ensures host.tree == MirrorAll(old(host.tree), indir, outdir, includeTif, fs, now).tree
    ensures r == MirrorAll(old(host.tree), indir, outdir, includeTif, fs, now).outcome
    ensures host.started == old(host.started)
  {
    ghost var t0 := host.tree;
    r := Pass;
    var i := 0;
    while i < |fs|
      invariant 0 <= i <= |fs|
      invariant host.tree == MirrorAll(t0, indir, outdir, includeTif, fs[..i], now).tree
      invariant r == Pass && MirrorAll(t0, indir, outdir, includeTif, fs[..i], now).outcome == Pass
      invariant host.started == old(host.started)
    {
      r := MirrorNext(host, t0, indir, outdir, includeTif, fs, i, now);
      if r.Fail? {
        FailureStops(t0, indir, outdir, includeTif, fs, i + 1, now);
        return;
      }
      i := i + 1;
    }
    assert fs[..i] == fs;
  }

  /** `copy_projects(indir, outdir, include_tif)` on the machine `host`; `listing` is
      the order in which the recursive glob yields the entries below `indir/panoramas`. */
  method CopyProjects(host: Host, indir: Path, outdir: Path, includeTif: bool, now: int)
    returns (listing: seq<Path>, r: Outcome)
    modifies host
    ensures Enumerates(listing, Below(old(host.tree), Projects(indir)))
    ensures Sources(old(host.tree), indir, listing)
    ensures host.tree == MirrorAll(old(host.tree), indir, outdir, includeTif, listing, now).tree
    ensures r == MirrorAll(old(host.tree), indir, outdir, includeTif, listing, now).outcome
    ensures host.started == old(host.started)
  {
    listing := Listing(Below(host.tree, Projects(indir)));
    assert Sources(host.tree, indir, listing);
    r := MirrorEach(host, indir, outdir, includeTif, listing, now);
  }

  /** `main` of the backup script once the configuration is read: all three
      directories must exist; the work directory is mirrored into the project
      directory with `.tif` files, then the project directory into the backup
      directory without them. */
  method BackupMain(host: Host, tempdir: Path, project: Path, backedup: Path, now: int)
    returns (first: seq<Path>, second: seq<Path>, r: Outcome)
    modifies host
    ensures !IsDir(old(host.tree), tempdir) || !IsDir(old(host.tree), project) || !IsDir(old(host.tree), backedup) ==>
      && host.tree == old(host.tree) && first == [] && second == []
      && r == Fail(NoSuchDirectory(if !IsDir(old(host.tree), tempdir) then tempdir
                                   else if !IsDir(old(host.tree), project) then project else backedup))
    ensures IsDir(old(host.tree), tempdir) && IsDir(old(host.tree), project) && IsDir(old(host.tree), backedup) ==>
      && Enumerates(first, Below(old(host.tree), Projects(tempdir)))
      && Sources(old(host.tree), tempdir, first)
      && var e1 := MirrorAll(old(host.tree), tempdir, project, true, first, now);
      (if e1.outcome.Fail? then host.tree == e1.tree && r == e1.outcome && second == []
       else
         && Enumerates(second, Below(e1.tree, Projects(project)))
         && Sources(e1.tree, project, second)
         && host.tree == MirrorAll(e1.tree, project, backedup, false, second, now).tree
         && r == MirrorAll(e1.tree, project, backedup, false, second, now).outcome)
    ensures host.started == old(host.started)
  {
    first, second := [], [];
    var dirs := [tempdir, project, backedup];
    for k := 0 to 3
      invariant host.tree == old(host.tree)
      invariant forall j :: 0 <= j < k ==> IsDir(host.tree, dirs[j])
    {
      if !IsDir(host.tree, dirs[k]) {
        assert dirs[k] == if k == 0 then tempdir else if k == 1 then project else backedup;
        assert k > 0 ==> IsDir(host.tree, dirs[0]);
        assert k > 1 ==> IsDir(host.tree, dirs[1]);
        return first, second, Fail(NoSuchDirectory(dirs[k]));
      }
    }
    assert IsDir(host.tree, tempdir) && IsDir(host.tree, project) && IsDir(host.tree, backedup) by {
      assert dirs[0] == tempdir && dirs[1] == project && dirs[2] == backedup;
    }
    first, r := CopyProjects(host, tempdir, project, true, now);
    if r.Fail? {
      return;
    }
    second, r := CopyProjects(host, project, backedup, false, now);
  }

  /** After both passes, nothing outside `project/panoramas` and `backedup/panoramas`
      has changed (in particular the work directory, when it is apart from both), and
      no `.tif` file was written by the second pass. */
  lemma {:induction false} TwoPassScope(t: Tree, tempdir: Path, project: Path, backedup: Path, first: seq<Path>, second: seq<Path>, now: int)
    requires Sources(t, tempdir, first)
    requires MirrorAll(t, tempdir, project, true, first, now).outcome.Pass?
    requires Sources(MirrorAll(t, tempdir, project, true, first, now).tree, project, second)
    ensures var t1 := MirrorAll(t, tempdir, project, true, first, now).tree;
      var t2 := MirrorAll(t1, project, backedup, false, second, now).tree;
      && (forall q :: q in t && !(Projects(project) < q) && !(Projects(backedup) < q) ==> t2[q] == t[q])
      && (forall q :: q in t2 && t2[q].File? && (q !in t1 || t2[q] != t1[q]) ==> Suffix(BaseName(q)) != ".tif")
  {
    var t1 := MirrorAll(t, tempdir, project, true, first, now).tree;
    MirrorScope(t, tempdir, project, true, first, now);
    MirrorScope(t1, project, backedup, false, second, now);
    NoTifWritten(t1, project, backedup, second, now);
  }
}
