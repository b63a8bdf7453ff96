/** Fetching the GPS tracks of a day, or of a range of days, from the WebDAV share
    of the tracking phone into the asset directory (`getgpx.py`). */
module GetGpx {
  import opened Text
  import opened Paths
  import opened Outcomes
  import opened Files

  /** A `datetime.date`. */
  datatype Date = Date(year: nat, month: nat, day: nat)

  /** `a < b` on dates: by year, then month, then day. */
  predicate Before(a: Date, b: Date)
  {
    a.year < b.year || (a.year == b.year && (a.month < b.month || (a.month == b.month && a.day < b.day)))
  }

  /** The day number of a date whose month and day are within calendar bounds,
      an independent measure of the order. */
  function DayNumber(d: Date): nat
  {
    (d.year * 13 + d.month) * 32 + d.day
  }

  /** Comparing dates is comparing their day numbers. */
  lemma {:induction false} BeforeIsDayOrder(a: Date, b: Date)
    requires a.month <= 12 && b.month <= 12 && a.day <= 31 && b.day <= 31
    ensures Before(a, b) <==> DayNumber(a) < DayNumber(b)
  {
    if a.year < b.year {
      assert DayNumber(a) < (a.year * 13 + 13) * 32;
      assert (a.year * 13 + 13) * 32 <= (b.year * 13) * 32;
    } else if a.year > b.year {
      assert DayNumber(b) < (b.year * 13 + 13) * 32;
      assert (b.year * 13 + 13) * 32 <= (a.year * 13) * 32;
    } else if a.month < b.month {
      assert DayNumber(a) < (a.year * 13 + a.month + 1) * 32;
    } else if a.month > b.month {
      assert DayNumber(b) < (b.year * 13 + b.month + 1) * 32;
    }
  }

  /** `date.strftime('%Y-%m-%d')`; `%Y` is written without padding, as the C library
      of Linux does. */
  function DayStamp(d: Date): string
  {
    Decimal(d.year) + "-" + Pad2(d.month) + "-" + Pad2(d.day)
  }

  /** The stamp reads back as the date: the year digits, a dash, two month digits,
      a dash, two day digits. */
  lemma {:induction false} DayStampFields(d: Date)
    requires 1 <= d.month <= 12 && 1 <= d.day <= 31
    ensures var s := DayStamp(d); var n := |Decimal(d.year)|;
      && |s| == n + 6 && s[n] == '-' && s[n + 3] == '-'
      && (forall k :: 0 <= k < |s| && k != n && k != n + 3 ==> IsDigit(s[k]))
      && DigitsValue(s[..n]) == d.year
      && DigitsValue(s[n + 1..n + 3]) == d.month
      && DigitsValue(s[n + 4..]) == d.day
  {
    var y := Decimal(d.year);
    var s := DayStamp(d);
    var n := |y|;
    DecimalRoundTrip(d.year);
    assert s == y + "-" + Pad2(d.month) + "-" + Pad2(d.day);
    assert s[..n] == y;
    assert s[n + 1..n + 3] == Pad2(d.month);
    assert s[n + 4..] == Pad2(d.day);
  }

  /** Where the tracks go: `outdir/YYYY/YYYY-MM-DD` of `date` with `add_datedir`,
      `outdir` itself otherwise. */
  function TargetDir(outdir: Path, date: Date, addDatedir: bool): (r: Path)
    ensures addDatedir ==> (|r| == |outdir| + 2 && r[..|outdir|] == outdir
      && r[|outdir|] == Decimal(date.year) && r[|outdir| + 1] == DayStamp(date)
      && r[|outdir| + 1][..|r[|outdir|]|] == r[|outdir|])
    ensures !addDatedir ==> r == outdir
  {
    if addDatedir then outdir + [Decimal(date.year), DayStamp(date)] else outdir
  }

  /** The filter of `download_gpx` on the date a file name denotes: with a start date,
      the inclusive range from `start` to `end`; without one, the single day `date`. */
  predicate Wanted(d: Date, date: Date, start: Option<Date>, end: Date)
  {
    if start.Some? then !Before(d, start.value) && !Before(end, d) else d == date
  }

  /** With a start date the range decides alone, and `date` plays no part. */
  lemma {:induction false} RangeIgnoresDate(d: Date, date1: Date, date2: Date, start: Date, end: Date)
    ensures Wanted(d, date1, Some(start), end) == Wanted(d, date2, Some(start), end)
  {
  }

  /** The range is inclusive at both ends, and nothing outside it passes. */
  lemma {:induction false} RangeBounds(d: Date, date: Date, start: Date, end: Date)
    requires start.month <= 12 && end.month <= 12 && d.month <= 12
    requires start.day <= 31 && end.day <= 31 && d.day <= 31
    ensures Wanted(d, date, Some(start), end) <==> DayNumber(start) <= DayNumber(d) <= DayNumber(end)
  {
    BeforeIsDayOrder(d, start);
    BeforeIsDayOrder(end, d);
  }

  /** `Path(gpx.name).name`: the last component of the name the share lists. */
  function LocalName(remote: string): string
  {
    BaseName(ParsePath(remote))
  }

  /** A listed file is fetched when its name parses as a track name (`parse` stands
      for `strptime` with `%Y-%m-%d_%H-%M_%a.gpx`) and its date passes the filter. */
  predicate Selected(parse: string -> Option<Date>, remote: string, date: Date, start: Option<Date>, end: Date)
  {
    parse(LocalName(remote)).Some? && Wanted(parse(LocalName(remote)).value, date, start, end)
  }

  /** `outdir/gpx.name`. */
  function Target(dir: Path, name: string): Path
  {
    Under(dir, name)
  }

  /** One selected file: nothing happens when its copy exists; otherwise the
      directory is created if it is missing and the file is downloaded. */
  function Fetch(t: Tree, dir: Path, name: string, now: int): Tree
  {
    if Target(dir, name) in t then t
    else EnsureDir(t, dir, now)[Target(dir, name) := File(now, now, Data(name))]
  }

  /** One entry `remote` of the listing. */
  function Visit(prev: Tree, dir: Path, remote: string, parse: string -> Option<Date>,
                 date: Date, start: Option<Date>, end: Date, now: int): Tree
  {
    if Selected(parse, remote, date, start, end) then Fetch(prev, dir, LocalName(remote), now) else prev
  }

  /** `download_gpx` over the listing `listing` of the share, in order. */
  function Download(t: Tree, dir: Path, listing: seq<string>, parse: string -> Option<Date>,
                    date: Date, start: Option<Date>, end: Date, now: int): Tree
  {
    if listing == [] then t
    else Visit(Download(t, dir, listing[..|listing| - 1], parse, date, start, end, now),
               dir, listing[|listing| - 1], parse, date, start, end, now)
  }

  /** What one entry does: it keeps every existing entry, gives a selected file its
      copy, adds nothing but that copy and the directory with its parents, and changes
      nothing when the entry is not selected or its copy exists. */
  lemma {:induction false} VisitEffect(prev: Tree, dir: Path, remote: string, parse: string -> Option<Date>,
                    date: Date, start: Option<Date>, end: Date, now: int)
    ensures var r := Visit(prev, dir, remote, parse, date, start, end, now);
      && (forall q :: q in prev ==> q in r && r[q] == prev[q])
      && (Selected(parse, remote, date, start, end) ==> Target(dir, LocalName(remote)) in r)
      && (forall q :: q in r && q !in prev ==>
            && Selected(parse, remote, date, start, end)
            && (|| (IsAncestorOrSelf(q, dir) && r[q] == Directory(now, now))
                || (q == Target(dir, LocalName(remote)) && r[q] == File(now, now, Data(LocalName(remote))))))
      && (!Selected(parse, remote, date, start, end) || Target(dir, LocalName(remote)) in prev ==> r == prev)
  {
  }

  /** An entry `q` that one listed entry keeps. */
  lemma {:induction false} VisitKeeps(prev: Tree, dir: Path, remote: string, parse: string -> Option<Date>,
                   date: Date, start: Option<Date>, end: Date, now: int, q: Path)
    requires q in prev
    ensures var r := Visit(prev, dir, remote, parse, date, start, end, now); q in r && r[q] == prev[q]
  {
    VisitEffect(prev, dir, remote, parse, date, start, end, now);
  }

  /** An entry `q` that one listed entry adds. */
  lemma {:induction false} VisitAdds(prev: Tree, dir: Path, remote: string, parse: string -> Option<Date>,
                  date: Date, start: Option<Date>, end: Date, now: int, q: Path)
    requires q in Visit(prev, dir, remote, parse, date, start, end, now) && q !in prev
    ensures var r := Visit(prev, dir, remote, parse, date, start, end, now);
      && Selected(parse, remote, date, start, end)
      && (|| (IsAncestorOrSelf(q, dir) && r[q] == Directory(now, now))
          || (q == Target(dir, LocalName(remote)) && r[q] == File(now, now, Data(LocalName(remote)))))
  {
    VisitEffect(prev, dir, remote, parse, date, start, end, now);
  }

  /** Existing files are never downloaded again or replaced, and nothing is removed. */
  lemma {:induction false} NeverOverwrites(t: Tree, dir: Path, listing: seq<string>, parse: string -> Option<Date>,
                                           date: Date, start: Option<Date>, end: Date, now: int)
    ensures var r := Download(t, dir, listing, parse, date, start, end, now);
      forall q :: q in t ==> q in r && r[q] == t[q]
  {
    if listing != [] {
      NeverOverwrites(t, dir, listing[..|listing| - 1], parse, date, start, end, now);
      VisitEffect(Download(t, dir, listing[..|listing| - 1], parse, date, start, end, now),
                  dir, listing[|listing| - 1], parse, date, start, end, now);
    }
  }

  /** Afterwards every selected file of the listing has its copy in the directory. */
  lemma {:induction false} SelectedPresent(t: Tree, dir: Path, listing: seq<string>, parse: string -> Option<Date>,
                                           date: Date, start: Option<Date>, end: Date, now: int)
    ensures var r := Download(t, dir, listing, parse, date, start, end, now);
      forall i :: 0 <= i < |listing| && Selected(parse, listing[i], date, start, end) ==>
        Target(dir, LocalName(listing[i])) in r
  {
    if listing != [] {
      var init := listing[..|listing| - 1];
      SelectedPresent(t, dir, init, parse, date, start, end, now);
      var prev := Download(t, dir, init, parse, date, start, end, now);
      var r := Download(t, dir, listing, parse, date, start, end, now);
      assert r == Visit(prev, dir, listing[|listing| - 1], parse, date, start, end, now);
      VisitEffect(prev, dir, listing[|listing| - 1], parse, date, start, end, now);
      assert prev.Keys <= r.Keys;
      forall i | 0 <= i < |listing| && Selected(parse, listing[i], date, start, end)
        ensures Target(dir, LocalName(listing[i])) in r
      {
        if i < |init| {
          assert listing[i] == init[i];
          assert Target(dir, LocalName(init[i])) in prev.Keys;
        } else {
          assert i == |listing| - 1;
        }
      }
    }
  }

  /** Everything that appears is the directory (with its parents) or the copy of a
      selected file of the listing, holding what was downloaded. */
  lemma {:induction false} OnlySelectedArrive(t: Tree, dir: Path, listing: seq<string>, parse: string -> Option<Date>,
                                              date: Date, start: Option<Date>, end: Date, now: int)
    ensures var r := Download(t, dir, listing, parse, date, start, end, now);
      forall q :: q in r && q !in t ==>
        || (IsAncestorOrSelf(q, dir) && r[q] == Directory(now, now))
        || exists i :: 0 <= i < |listing| && Selected(parse, listing[i], date, start, end)
             && q == Target(dir, LocalName(listing[i])) && r[q] == File(now, now, Data(LocalName(listing[i])))
  {
    var r := Download(t, dir, listing, parse, date, start, end, now);
    forall q | q in r && q !in t
      ensures || (IsAncestorOrSelf(q, dir) && r[q] == Directory(now, now))
        || exists i :: 0 <= i < |listing| && Selected(parse, listing[i], date, start, end)
             && q == Target(dir, LocalName(listing[i])) && r[q] == File(now, now, Data(LocalName(listing[i])))
    {
      OnlySelectedArrives(t, dir, listing, parse, date, start, end, now, q);
    }
  }

  /** The same, for one new entry `q`. */
  lemma {:induction false} OnlySelectedArrives(t: Tree, dir: Path, listing: seq<string>, parse: string -> Option<Date>,
                                               date: Date, start: Option<Date>, end: Date, now: int, q: Path)
    requires q in Download(t, dir, listing, parse, date, start, end, now) && q !in t
    ensures var r := Download(t, dir, listing, parse, date, start, end, now);
      || (IsAncestorOrSelf(q, dir) && r[q] == Directory(now, now))
      || exists i :: 0 <= i < |listing| && Selected(parse, listing[i], date, start, end)
           && q == Target(dir, LocalName(listing[i])) && r[q] == File(now, now, Data(LocalName(listing[i])))
  {
    var init := listing[..|listing| - 1];
    var last := |listing| - 1;
    var prev := Download(t, dir, init, parse, date, start, end, now);
    var r := Download(t, dir, listing, parse, date, start, end, now);
    assert r == Visit(prev, dir, listing[last], parse, date, start, end, now);
    if q in prev {
      VisitKeeps(prev, dir, listing[last], parse, date, start, end, now, q);
      OnlySelectedArrives(t, dir, init, parse, date, start, end, now, q);
      if !(IsAncestorOrSelf(q, dir) && prev[q] == Directory(now, now)) {
        var i :| 0 <= i < |init| && Selected(parse, init[i], date, start, end)
          && q == Target(dir, LocalName(init[i])) && prev[q] == File(now, now, Data(LocalName(init[i])));
        assert listing[i] == init[i];
      }
    } else {
      VisitAdds(prev, dir, listing[last], parse, date, start, end, now, q);
    }
  }

  /** When every selected file already has its copy, nothing changes: the directory
      is only created on the way to a download. */
  lemma {:induction false} NothingMissingNothingChanges(t: Tree, dir: Path, listing: seq<string>,
                                                        parse: string -> Option<Date>, date: Date,
                                                        start: Option<Date>, end: Date, now: int)
    requires forall i :: 0 <= i < |listing| && Selected(parse, listing[i], date, start, end) ==>
      Target(dir, LocalName(listing[i])) in t
    ensures Download(t, dir, listing, parse, date, start, end, now) == t
  {
    if listing != [] {
      var init := listing[..|listing| - 1];
      assert forall i :: 0 <= i < |init| ==> init[i] == listing[i];
      NothingMissingNothingChanges(t, dir, init, parse, date, start, end, now);
      VisitEffect(t, dir, listing[|listing| - 1], parse, date, start, end, now);
    }
  }

  /** The body of the loop of `download_gpx` for one listed name. */
  method FetchOne(host: Host, dir: Path, remote: string, parse: string -> Option<Date>,
                  date: Date, start: Option<Date>, end: Date, now: int)
    modifies host
    ensures host.tree == Visit(old(host.tree), dir, remote, parse, date, start, end, now)
    ensures host.started == old(host.started)
  {
    var name := LocalName(remote);
    var gpxDate := parse(name);
    if gpxDate.Some? {
      var keep := if start.Some? then !(Before(gpxDate.value, start.value) || Before(end, gpxDate.value))
                  else gpxDate.value == date;
      if keep {
        var o := Under(dir, name);
        if o !in host.tree {
          if dir !in host.tree {
            host.MakeDirs(dir, now);
          }
          host.Write(o, Data(name), now);
        }
      }
    }
  }

  /** `download_gpx(dav, date, (start, end), outdir, add_datedir)` on the machine
      `host`: `listing` is what `dav.ls()` returns, `parse` stands for `strptime`. */
  method DownloadGpx(host: Host, date: Date, start: Option<Date>, end: Date, outdir: Path, addDatedir: bool,
                     listing: seq<string>, parse: string -> Option<Date>, now: int)
    modifies host
    ensures host.tree == Download(old(host.tree), TargetDir(outdir, date, addDatedir), listing, parse, date, start, end, now)
    ensures host.started == old(host.started)
  {
    var dir := outdir;
    if addDatedir {
      dir := outdir + [Decimal(date.year), DayStamp(date)];
    }
    ghost var t0 := host.tree;
    for i := 0 to |listing|
      invariant host.tree == Download(t0, dir, listing[..i], parse, date, start, end, now)
      invariant host.started == old(host.started)
    {
      assert listing[..i + 1][..i] == listing[..i];
      FetchOne(host, dir, listing[i], parse, date, start, end, now);
    }
    assert listing[..|listing|] == listing;
  }
}
