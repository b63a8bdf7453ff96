/** `archive.py`: which raw photos are due for conversion to JPEG, and the glob pattern
    that selects a day, a month or a year of them. */
module Archive {
  import opened Text
  import opened Paths
  import opened Files
  import opened Glob
  import opened Outcomes

  /** The fields of `datetime.now()` the pattern uses. */
  datatype Today = Today(year: int, month: int, day: int)

  /** The year directory: the given year, or the current one. */
  function YearOf(today: Today, year: Option<int>): int
  {
    if year.None? then today.year else year.value
  }

  /** The beginning of a file name the pattern selects (the pattern without its final `*`). */
  function DayPrefix(today: Today, year: Option<int>, month: Option<int>, day: Option<int>): string
  {
    var y := YearOf(today, year);
    if year.None? && month.None? && day.None? then
      IntStr(today.year) + "-" + Pad2(today.month) + "-" + Pad2(today.day)
    else if month.None? then
      if day.None? then IntStr(y) + "-" else IntStr(y) + "-" + Pad2(today.month) + "-" + Pad2(day.value)
    else if day.None? then IntStr(y) + "-" + Pad2(month.value) + "-"
    else IntStr(y) + "-" + Pad2(month.value) + "-" + Pad2(day.value)
  }

  /** `Path(str(year), inpattern)`: the year directory, then the file-name pattern. */
  function Pattern(today: Today, year: Option<int>, month: Option<int>, day: Option<int>): (r: Path)
    ensures |r| == 2 && r[0] == IntStr(YearOf(today, year))
  {
    [IntStr(YearOf(today, year)), DayPrefix(today, year, month, day) + "*"]
  }

  lemma {:induction false} DecimalHasNoStar(n: nat)
    ensures '*' !in Decimal(n)
  {
  }

  /** The prefix is digits and dashes only, so `*` appears nowhere but at the end. */
  lemma {:induction false} NoStarInPrefix(today: Today, year: Option<int>, month: Option<int>, day: Option<int>)
    ensures '*' !in DayPrefix(today, year, month, day)
  {
    forall i: int ensures '*' !in IntStr(i) && '*' !in Pad2(i) {
      DecimalHasNoStar(if i < 0 then -i else i);
      if 0 <= i < 10 {
        assert Pad2(i) == "0" + Decimal(i);
      }
    }
  }

  /** A file name is selected by the pattern exactly when it starts with the prefix. */
  lemma {:induction false} PatternSelects(today: Today, year: Option<int>, month: Option<int>, day: Option<int>, name: string)
    ensures Matches(name, Pattern(today, year, month, day)[1]) <==> DayPrefix(today, year, month, day) <= name
  {
    NoStarInPrefix(today, year, month, day);
    PrefixStar(DayPrefix(today, year, month, day), name);
  }

  /** The five shapes of the pattern: today with no arguments; a year; a month of a year;
      a day of the current month; a day of a given month. Month and day are two digits. */
  lemma {:induction false} PatternCases(today: Today, year: Option<int>, month: Option<int>, day: Option<int>)
    ensures var y := IntStr(YearOf(today, year));
      var p := DayPrefix(today, year, month, day);
      && (year.None? && month.None? && day.None? ==>
            Pattern(today, year, month, day) ==
              [IntStr(today.year), IntStr(today.year) + "-" + Pad2(today.month) + "-" + Pad2(today.day) + "*"])
      && (year.Some? && month.None? && day.None? ==> p == y + "-")
      && (month.Some? && day.None? ==> p == y + "-" + Pad2(month.value) + "-")
      && (month.None? && day.Some? ==> p == y + "-" + Pad2(today.month) + "-" + Pad2(day.value))
      && (month.Some? && day.Some? ==> p == y + "-" + Pad2(month.value) + "-" + Pad2(day.value))
  {
  }

  /** A calendar month and day are written with exactly two digits, read back as themselves. */
  lemma {:induction false} TwoDigitFields(m: int, d: int)
    requires 1 <= m <= 12 && 1 <= d <= 31
    ensures |Pad2(m)| == 2 && DigitsValue(Pad2(m)) == m
    ensures |Pad2(d)| == 2 && DigitsValue(Pad2(d)) == d
  {
  }

  /** The suffixes of the raw files converted. */
  const RawSuffixes: seq<string> := [".RW2", ".nef"]

  /** `f.suffix in raw`. */
  predicate IsRaw(f: Path)
  {
    Suffix(BaseName(f)) in RawSuffixes
  }

  /** A raw file is one whose name ends in `.RW2` or `.nef` after at least one character;
      the comparison is case-sensitive. */
  lemma {:induction false} RawByName(f: Path)
    ensures IsRaw(f) <==>
      var name := BaseName(f);
      || (|name| > 4 && name[|name| - 4..] == ".RW2")
      || (|name| > 4 && name[|name| - 4..] == ".nef")
  {
    SuffixIs(BaseName(f), ".RW2");
    SuffixIs(BaseName(f), ".nef");
  }

  /** `PurePath.with_suffix` on a path with at least one component. */
  function PathWithSuffix(p: Path, suffix: string): (r: Path)
    requires p != []
    ensures |r| == |p| && r[..|p| - 1] == p[..|p| - 1]
  {
    p[..|p| - 1] + [WithSuffix(p[|p| - 1], suffix)]
  }

  /** `outdir/f.relative_to(indir).with_suffix('.jpg')`. */
  function OutputFor(f: Path, indir: Path, outdir: Path): Path
    requires indir < f
  {
    Div(outdir, PathWithSuffix(f[|indir|..], ".jpg"))
  }

  /** `Path(str(f)+'.xmp')`, the darktable sidecar. */
  function Sidecar(f: Path): Path
  {
    ParsePath(Str(f) + ".xmp")
  }

  /** The mtime test of `generate_tasks`: no JPEG yet, or the sidecar or the raw file
      changed after it. */
  predicate Due(t: Tree, f: Path, output: Path)
    requires f in t
  {
    output !in t
    || (Sidecar(f) in t && t[Sidecar(f)].mtime > t[output].mtime)
    || t[f].mtime > t[output].mtime
  }

  /** One conversion: the raw file and the JPEG to write. */
  datatype Task = Task(raw: Path, output: Path)

  /** Every path of `fs` is an entry strictly below `indir`, as the glob's results are. */
  predicate Within(t: Tree, indir: Path, fs: seq<Path>)
  {
    forall i :: 0 <= i < |fs| ==> fs[i] in t && indir < fs[i]
  }

  lemma {:induction false} WithinPrefix(t: Tree, indir: Path, fs: seq<Path>, n: nat)
    requires Within(t, indir, fs) && n <= |fs|
    ensures Within(t, indir, fs[..n])
  {
  }

  /** The conversion tasks `generate_tasks` yields when the glob produces `fs` in this order. */
  function TasksOf(t: Tree, indir: Path, outdir: Path, fs: seq<Path>): seq<Task>
    requires Within(t, indir, fs)
  {
    if fs == [] then []
    else
      var f := fs[|fs| - 1];
      TasksOf(t, indir, outdir, fs[..|fs| - 1]) +
        (if IsRaw(f) && Due(t, f, OutputFor(f, indir, outdir)) then [Task(f, OutputFor(f, indir, outdir))] else [])
  }

  /** Each task is a raw file from the listing that is due, paired with its JPEG; and every
      due raw file of the listing yields a task. */
  lemma {:induction false} TasksExactly(t: Tree, indir: Path, outdir: Path, fs: seq<Path>)
    requires Within(t, indir, fs)
    ensures forall k :: 0 <= k < |TasksOf(t, indir, outdir, fs)| ==>
      var task := TasksOf(t, indir, outdir, fs)[k];
      && task.raw in fs && indir < task.raw && task.raw in t
      && task.output == OutputFor(task.raw, indir, outdir)
      && IsRaw(task.raw) && Due(t, task.raw, task.output)
    ensures forall f :: f in fs && IsRaw(f) && Due(t, f, OutputFor(f, indir, outdir)) ==>
      Task(f, OutputFor(f, indir, outdir)) in TasksOf(t, indir, outdir, fs)
  {
    if fs != [] {
      var init := fs[..|fs| - 1];
      TasksExactly(t, indir, outdir, init);
      assert forall f :: f in fs ==> f in init || f == fs[|fs| - 1] by {
        assert fs == init + [fs[|fs| - 1]];
      }
    }
  }

  /** A path the glob yields lies strictly below the directory globbed. */
  lemma {:induction false} GlobBelow(t: Tree, base: Path, pat: seq<string>, f: Path)
    requires pat != [] && f in GlobSet(t, base, pat)
    ensures f in t && base < f
  {
  }

  /** One more globbed path adds its task, if any, at the end. */
  lemma {:induction false} TasksOfSnoc(t: Tree, indir: Path, outdir: Path, fs: seq<Path>, f: Path)
    requires Within(t, indir, fs)
    requires f in t && indir < f
    ensures Within(t, indir, fs + [f])
    ensures TasksOf(t, indir, outdir, fs + [f]) == TasksOf(t, indir, outdir, fs) +
      (if IsRaw(f) && Due(t, f, OutputFor(f, indir, outdir)) then [Task(f, OutputFor(f, indir, outdir))] else [])
  {
    assert (fs + [f])[..|fs|] == fs;
  }

  /** `generate_tasks(indir, outdir, pattern)` over the snapshot `t`: the glob
      `pattern/'*'` is walked in the order the filesystem returns (`visited`), and the
      tasks are the due raw files in that order. */
  method GenerateTasks(t: Tree, indir: Path, outdir: Path, pattern: Path)
    returns (visited: seq<Path>, tasks: seq<Task>)
    ensures Enumerates(visited, GlobSet(t, indir, pattern + ["*"]))
    ensures Within(t, indir, visited)
    ensures tasks == TasksOf(t, indir, outdir, visited)
  {
    visited := Listing(GlobSet(t, indir, pattern + ["*"]));
    forall i | 0 <= i < |visited|
      ensures visited[i] in t && indir < visited[i]
    {
      GlobBelow(t, indir, pattern + ["*"], visited[i]);
    }
    tasks := CollectTasks(t, indir, outdir, visited);
  }

  /** The loop of `generate_tasks` over the globbed paths `fs`, in order. */
  method CollectTasks(t: Tree, indir: Path, outdir: Path, fs: seq<Path>) returns (tasks: seq<Task>)
    requires Within(t, indir, fs)
    ensures tasks == TasksOf(t, indir, outdir, fs)
  {
    tasks := [];
    for n := 0 to |fs|
      invariant tasks == TasksOf(t, indir, outdir, fs[..n])
    {
      var f := fs[n];
      WithinPrefix(t, indir, fs, n);
      var more := TaskFor(t, indir, outdir, f);
      TasksOfSnoc(t, indir, outdir, fs[..n], f);
      TakeOneMore(fs, n);
      tasks := tasks + more;
    }
    assert fs[..|fs|] == fs;
  }

  /** The body of the loop of `generate_tasks` for one globbed path: a task when `f` is a
      raw file whose JPEG is missing or older than it or its sidecar. */
  method TaskFor(t: Tree, indir: Path, outdir: Path, f: Path) returns (more: seq<Task>)
    requires f in t && indir < f
    ensures more == if IsRaw(f) && Due(t, f, OutputFor(f, indir, outdir)) then [Task(f, OutputFor(f, indir, outdir))] else []
  {
    more := [];
    if IsRaw(f) {
      var xf := Sidecar(f);
      var output := OutputFor(f, indir, outdir);
      if output in t {
        if xf in t && t[xf].mtime > t[output].mtime {
          more := [Task(f, output)];
        } else if t[f].mtime > t[output].mtime {
          more := [Task(f, output)];
        }
      } else {
        more := [Task(f, output)];
      }
    }
  }
}
