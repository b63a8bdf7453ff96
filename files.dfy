/** The filesystem the scripts read and change, and the machine they start processes on. */
module Files {
  import opened Paths
  import opened Outcomes
  import Xml

  /** What a file holds, as far as the scripts look at it. */
  datatype Body =
    | Data(origin: string)      // bytes the scripts only copy (images, bundled plugin files, downloads)
    | Text(text: string)       // a text file the scripts write themselves
    | Doc(root: Xml.Element)   // an XML scene document

  /** An entry with its status-change time (`st_ctime`) and modification time (`st_mtime`). */
  datatype Entry =
    | Directory(ctime: int, mtime: int)
    | File(ctime: int, mtime: int, body: Body)

  type Tree = map<Path, Entry>

  predicate IsFile(t: Tree, p: Path)
  {
    p in t && t[p].File?
  }

  predicate IsDir(t: Tree, p: Path)
  {
    p in t && t[p].Directory?
  }

  /** `q` is `p` or one of the directories above it. */
  predicate IsAncestorOrSelf(q: Path, p: Path)
  {
    0 < |q| <= |p| && q == p[..|q|]
  }

  /** `p.mkdir(parents=True, exist_ok=True)`: every missing directory on the way to `p`
      is created; nothing that exists changes. */
  function Mkdirs(t: Tree, p: Path, now: int): (r: Tree)
    ensures forall q :: q in t ==> q in r && r[q] == t[q]
    ensures forall q :: q in r ==> q in t || (IsAncestorOrSelf(q, p) && r[q] == Directory(now, now))
    ensures forall q :: IsAncestorOrSelf(q, p) ==> q in r
    decreases |p|
  {
    if p == [] then t
    else
      var r := Mkdirs(t, p[..|p| - 1], now);
      assert forall q :: IsAncestorOrSelf(q, p) && q != p ==> IsAncestorOrSelf(q, p[..|p| - 1]) by {
        forall q | IsAncestorOrSelf(q, p) && q != p ensures IsAncestorOrSelf(q, p[..|p| - 1]) {
          assert p[..|p| - 1][..|q|] == p[..|q|];
        }
      }
      if p in r then r else r[p := Directory(now, now)]
  }

  /** `if not p.exists(): p.mkdir(parents=True)`; `Path('.')` is taken to exist. */
  function EnsureDir(t: Tree, p: Path, now: int): (r: Tree)
    ensures p != [] ==> p in r
    ensures forall q :: q in t ==> q in r && r[q] == t[q]
    ensures forall q :: q in r && q !in t ==> IsAncestorOrSelf(q, p) && r[q] == Directory(now, now)
  {
    if p in t then t else Mkdirs(t, p, now)
  }

  /** Ensuring a directory that exists changes nothing. */
  lemma {:induction false} EnsureDirExisting(t: Tree, p: Path, now: int)
    requires p == [] || p in t
    ensures EnsureDir(t, p, now) == t
  {
  }

  /** Creating directories that all exist already changes nothing. */
  lemma {:induction false} MkdirsExisting(t: Tree, p: Path, now: int)
    requires forall q :: IsAncestorOrSelf(q, p) ==> q in t
    ensures Mkdirs(t, p, now) == t
  {
    var r := Mkdirs(t, p, now);
    assert r.Keys == t.Keys;
  }

  /** `shutil.copy(src, dst)`: the content is copied, both timestamps are `now`. */
  function CopyFile(t: Tree, src: Path, dst: Path, now: int): Tree
    requires IsFile(t, src)
  {
    t[dst := File(now, now, t[src].body)]
  }

  /** `shutil.copy2(src, dst)`: the content and the modification time are copied. */
  function CopyFileStat(t: Tree, src: Path, dst: Path, now: int): Tree
    requires IsFile(t, src)
  {
    t[dst := File(now, t[src].mtime, t[src].body)]
  }

  /** An entry after a rename: same kind, content and modification time; the status
      change time is `now`. */
  function Relocated(e: Entry, now: int): Entry
  {
    if e.File? then File(now, e.mtime, e.body) else Directory(now, e.mtime)
  }

  /** The outcome of a rename: the entry moves, keeping its modification time. */
  function Moved(t: Tree, src: Path, dst: Path, now: int): Tree
    requires src in t
  {
    (t - {src})[dst := Relocated(t[src], now)]
  }

  /** The filesystem after one step of a loop over files, and whether the loop goes
      on (`Pass`) or an exception ends it. */
  datatype Effect = Effect(tree: Tree, outcome: Outcome)

  /** The machine: its filesystem and the argument vectors of the child processes
      started on it, in order. */
  class Host {
    var tree: Tree
    var started: seq<seq<string>>

    constructor (tree: Tree)
      ensures this.tree == tree && started == []
    {
      this.tree := tree;
      started := [];
    }

    method MakeDirs(p: Path, now: int)
      modifies this
      ensures tree == Mkdirs(old(tree), p, now) && started == old(started)
    {
      tree := Mkdirs(tree, p, now);
    }

    method Copy(src: Path, dst: Path, now: int)
      requires IsFile(tree, src)
      modifies this
      ensures tree == CopyFile(old(tree), src, dst, now) && started == old(started)
    {
      tree := CopyFile(tree, src, dst, now);
    }

    method Copy2(src: Path, dst: Path, now: int)
      requires IsFile(tree, src)
      modifies this
      ensures tree == CopyFileStat(old(tree), src, dst, now) && started == old(started)
    {
      tree := CopyFileStat(tree, src, dst, now);
    }

    method Rename(src: Path, dst: Path, now: int)
      requires src in tree
      modifies this
      ensures tree == Moved(old(tree), src, dst, now) && started == old(started)
    {
      tree := Moved(tree, src, dst, now);
    }

    /** `p.unlink()`. */
    method Unlink(p: Path)
      requires p in tree
      modifies this
      ensures tree == old(tree) - {p} && started == old(started)
    {
      tree := tree - {p};
    }

    /** Writing a whole file, as `open(p, 'w')` followed by writes, or `et.write(p)`. */
    method Write(p: Path, body: Body, now: int)
      modifies this
      ensures tree == old(tree)[p := File(now, now, body)] && started == old(started)
    {
      tree := tree[p := File(now, now, body)];
    }

    /** One more `write(text)` on a text file opened for writing. */
    method AppendText(p: Path, text: string, now: int)
      requires IsFile(tree, p) && tree[p].body.Text?
      modifies this
      ensures tree == old(tree)[p := File(now, now, Body.Text(old(tree)[p].body.text + text))]
      ensures started == old(started)
    {
      tree := tree[p := File(now, now, Body.Text(tree[p].body.text + text))];
    }

    /** Starting a child process with argument vector `argv`; what it answers is
        supplied by the caller. */
    method Spawn(argv: seq<string>)
      modifies this
      ensures started == old(started) + [argv] && tree == old(tree)
    {
      started := started + [argv];
    }
  }
}
