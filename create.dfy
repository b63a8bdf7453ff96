/** Sorting freshly exported panorama sources into project folders by their
    keyword tags (`create.py`). */
module Create {
  import opened Text
  import opened Paths
  import opened Outcomes
  import opened Files
  import opened Glob

  /** Strips every piece of a split, keeping order. */
  function StripEach(pieces: seq<string>): (r: seq<string>)
    ensures |r| == |pieces|
    ensures forall i :: 0 <= i < |r| ==> r[i] == Strip(pieces[i])
  {
    if pieces == [] then [] else StripEach(pieces[..|pieces| - 1]) + [Strip(pieces[|pieces| - 1])]
  }

  lemma {:induction false} StripEachAppend(a: seq<string>, b: seq<string>)
    ensures StripEach(a + b) == StripEach(a) + StripEach(b)
  {
  }

  /** `get_image_tags` on the text `exiftool -Subject` printed: the second
      `:`-separated segment, split at commas, each piece stripped. Output without a
      colon has no second segment, and indexing it raises `IndexError`. */
  function ImageTags(output: string): (r: Result<seq<string>>)
    ensures r.Err? <==> ':' !in output
    ensures r.Err? ==> r.error == NoTagSegment
    ensures r.Ok? ==> |Split(output, ':')| >= 2 && |r.value| == Count(Split(output, ':')[1], ',') + 1
    ensures r.Ok? ==> forall i :: 0 <= i < |r.value| ==> Strip(r.value[i]) == r.value[i]
  {
    CountPositive(output, ':');
    if ':' in output then
      var pieces := Split(Split(output, ':')[1], ',');
      var tags := StripEach(pieces);
      assert forall i :: 0 <= i < |tags| ==> Strip(tags[i]) == tags[i] by {
        forall i | 0 <= i < |tags| ensures Strip(tags[i]) == tags[i] {
          StripPadded("", tags[i], "");
          assert "" + tags[i] + "" == tags[i];
        }
      }
      Ok(tags)
    else Err(NoTagSegment)
  }

  /** The loop of `get_image_tags` that collects the stripped pieces. */
  method ParseTags(output: string) returns (r: Result<seq<string>>)
    ensures r == ImageTags(output)
  {
    CountPositive(output, ':');
    if ':' !in output {
      return Err(NoTagSegment);
    }
    var segment := Split(output, ':')[1];
    var pieces := Split(segment, ',');
    var tags: seq<string> := [];
    for i := 0 to |pieces|
      invariant tags == StripEach(pieces[..i])
    {
      assert pieces[..i + 1][..i] == pieces[..i];
      tags := tags + [Strip(pieces[i])];
    }
    assert pieces[..|pieces|] == pieces;
    return Ok(tags);
  }

  /** `get_image_tags(image)`: runs `exiftool -Subject image`, whose printed text is
      `output`, and parses it. */
  method GetImageTags(host: Host, image: Path, output: string) returns (r: Result<seq<string>>)
    modifies host
    ensures host.started == old(host.started) + [ExifArgv(image)]
    ensures host.tree == old(host.tree)
    ensures r == ImageTags(output)
  {
    host.Spawn(ExifArgv(image));
    r := ParseTags(output);
  }

  /** The text before the first comma of a join, and the text after it. */
  lemma {:induction false} JoinSplitsAtComma(lead: string, tags: seq<string>, tail: string)
    requires |tags| > 1
    ensures lead + Join(", ", tags) + tail == (lead + tags[0]) + [','] + (" " + Join(", ", tags[1..]) + tail)
  {
    var j := Join(", ", tags[1..]);
    assert Join(", ", tags) == tags[0] + ", " + j;
    assert ", " == [','] + " ";
    calc {
      lead + Join(", ", tags) + tail;
      lead + (tags[0] + ([','] + " ") + j) + tail;
      (lead + tags[0]) + [','] + (" " + j + tail);
    }
  }

  /** No comma in a whitespace-padded comma-free text. */
  lemma {:induction false} NoCommaPadded(lead: string, tag: string, tail: string)
    requires forall i :: 0 <= i < |lead| ==> IsSpace(lead[i])
    requires forall i :: 0 <= i < |tail| ==> IsSpace(tail[i])
    requires ',' !in tag
    ensures Split(lead + tag + tail, ',') == [lead + tag + tail]
  {
    var s := lead + tag + tail;
    assert forall i :: 0 <= i < |s| ==> s[i] != ',' by {
      forall i | 0 <= i < |s| ensures s[i] != ',' {
        if i < |lead| { assert s[i] == lead[i]; }
        else if i < |lead| + |tag| { assert s[i] == tag[i - |lead|]; }
        else { assert s[i] == tail[i - |lead| - |tag|]; }
      }
    }
    SplitWithoutSeparator(s, ',');
  }

  /** The first piece of a comma-joined list is its first tag; the rest is read
      from what follows the first comma. */
  lemma {:induction false} SplitFirstTag(lead: string, tags: seq<string>, tail: string)
    requires forall i :: 0 <= i < |lead| ==> IsSpace(lead[i])
    requires |tags| > 1 && ',' !in tags[0] && Strip(tags[0]) == tags[0]
    ensures Split(lead + Join(", ", tags) + tail, ',') == [lead + tags[0]] + Split(" " + Join(", ", tags[1..]) + tail, ',')
    ensures Strip(lead + tags[0]) == tags[0]
  {
    var first := lead + tags[0];
    JoinSplitsAtComma(lead, tags, tail);
    SplitAround(first, ',', " " + Join(", ", tags[1..]) + tail);
    NoCommaPadded(lead, tags[0], "");
    StripPadded(lead, tags[0], "");
    assert lead + tags[0] + "" == first;
  }

  /** A single padded tag is one piece, read back as the tag. */
  lemma {:induction false} OneSpacedTag(lead: string, tags: seq<string>, tail: string)
    requires forall i :: 0 <= i < |lead| ==> IsSpace(lead[i])
    requires forall i :: 0 <= i < |tail| ==> IsSpace(tail[i])
    requires |tags| == 1 && ',' !in tags[0] && Strip(tags[0]) == tags[0]
    ensures StripEach(Split(lead + Join(", ", tags) + tail, ',')) == tags
  {
    var s := lead + Join(", ", tags) + tail;
    assert s == lead + tags[0] + tail;
    assert Split(s, ',') == [s] by {
      NoCommaPadded(lead, tags[0], tail);
    }
    assert Strip(s) == tags[0] by {
      StripPadded(lead, tags[0], tail);
    }
  }

  /** The first tag is read back from the first piece, and the others from the rest. */
  lemma {:induction false} NextSpacedTag(lead: string, tags: seq<string>, tail: string)
    requires forall i :: 0 <= i < |lead| ==> IsSpace(lead[i])
    requires |tags| > 1 && ',' !in tags[0] && Strip(tags[0]) == tags[0]
    requires StripEach(Split(" " + Join(", ", tags[1..]) + tail, ',')) == tags[1..]
    ensures StripEach(Split(lead + Join(", ", tags) + tail, ',')) == tags
  {
    var first := lead + tags[0];
    var pieces := Split(" " + Join(", ", tags[1..]) + tail, ',');
    SplitFirstTag(lead, tags, tail);
    calc {
      StripEach(Split(lead + Join(", ", tags) + tail, ','));
      StripEach([first] + pieces);
      { StripEachAppend([first], pieces); }
      StripEach([first]) + StripEach(pieces);
      { assert StripEach([first]) == [tags[0]]; }
      [tags[0]] + tags[1..];
      tags;
    }
  }

  /** Each piece between commas is read back as the tag it came from, whatever
      whitespace pads it. */
  lemma {:induction false} SpacedTags(lead: string, tags: seq<string>, tail: string)
    requires forall i :: 0 <= i < |lead| ==> IsSpace(lead[i])
    requires forall i :: 0 <= i < |tail| ==> IsSpace(tail[i])
    requires tags != []
    requires forall i :: 0 <= i < |tags| ==> ',' !in tags[i] && Strip(tags[i]) == tags[i]
    ensures StripEach(Split(lead + Join(", ", tags) + tail, ',')) == tags
    decreases |tags|
  {
    if |tags| == 1 {
      OneSpacedTag(lead, tags, tail);
    } else {
      var sp := " ";
      assert forall i :: 0 <= i < |sp| ==> IsSpace(sp[i]);
      SpacedTags(sp, tags[1..], tail);
      NextSpacedTag(lead, tags, tail);
    }
  }

  /** A text with one colon splits into what precedes and what follows it. */
  lemma {:induction false} SplitAtColon(header: string, body: string)
    requires ':' !in header && ':' !in body
    ensures Split(header + ":" + body, ':') == [header, body]
  {
    assert header + ":" + body == header + [':'] + body;
    SplitAround(header, ':', body);
    SplitWithoutSeparator(header, ':');
    SplitWithoutSeparator(body, ':');
  }

  /** The tags of a text with one colon are the stripped pieces of what follows it. */
  lemma {:induction false} TagsAfterColon(output: string, header: string, body: string)
    requires output == header + ":" + body
    requires ':' !in header && ':' !in body
    ensures ImageTags(output) == Ok(StripEach(Split(body, ',')))
  {
    SplitAtColon(header, body);
    CountPositive(output, ':');
  }

  lemma {:induction false} NoColonInList(tags: seq<string>, tail: string)
    requires forall i :: 0 <= i < |tags| ==> ':' !in tags[i]
    requires forall i :: 0 <= i < |tail| ==> IsSpace(tail[i])
    ensures ':' !in Join(", ", tags) + tail
  {
    var j := Join(", ", tags);
    JoinAvoids(", ", tags, ':');
    var body := j + tail;
    forall i | 0 <= i < |body| ensures body[i] != ':' {
      if i < |j| { assert body[i] == j[i]; } else { assert body[i] == tail[i - |j|]; }
    }
  }

  /** The stripped comma-separated pieces of a joined list are its tags. */
  lemma {:induction false} PiecesOf(body: string, tags: seq<string>, tail: string)
    requires body == Join(", ", tags) + tail
    requires tags != []
    requires forall i :: 0 <= i < |tags| ==> ',' !in tags[i] && Strip(tags[i]) == tags[i]
    requires forall i :: 0 <= i < |tail| ==> IsSpace(tail[i])
    ensures StripEach(Split(body, ',')) == tags
  {
    var lead: string := [];
    assert lead + Join(", ", tags) + tail == body by {
      assert lead + Join(", ", tags) == Join(", ", tags);
    }
    SpacedTags(lead, tags, tail);
  }

  /** Reading back what exiftool prints for a subject list (`Subject : a, b, c` and a
      line end) gives the list, in order, for tags without commas, colons or
      surrounding whitespace. */
  lemma {:induction false} TagsRoundTrip(output: string, header: string, tags: seq<string>, tail: string)
    requires output == header + ":" + Join(", ", tags) + tail
    requires ':' !in header
    requires tags != []
    requires forall i :: 0 <= i < |tags| ==> ',' !in tags[i] && ':' !in tags[i] && Strip(tags[i]) == tags[i]
    requires forall i :: 0 <= i < |tail| ==> IsSpace(tail[i])
    ensures ImageTags(output) == Ok(tags)
  {
    var list := Join(", ", tags);
    var body := list + tail;
    PiecesOf(body, tags, tail);
    NoColonInList(tags, tail);
    ConcatAssoc(header + ":", list, tail);
    TagsAfterColon(output, header, body);
  }

  /** `re.match('p[0-9]{8}.*', t)`: a `p` and eight ASCII digits at the start. */
  predicate IsPanoTag(t: string)
  {
    |t| >= 9 && t[0] == 'p' && forall k :: 1 <= k < 9 ==> IsDigit(t[k])
  }

  /** The marker tag itself never names a project folder. */
  lemma {:induction false} MarkerIsNoPanoTag()
    ensures !IsPanoTag("panorama")
  {
    assert "panorama"[1] == 'a';
  }

  /** The tag the `for`/`else` search of `create_folder` stops at: the first
      project tag in order, or none. */
  function FirstPanoTag(tags: seq<string>): (r: Option<string>)
    ensures r.None? <==> forall i :: 0 <= i < |tags| ==> !IsPanoTag(tags[i])
    ensures r.Some? ==> exists i :: (0 <= i < |tags| && tags[i] == r.value && IsPanoTag(tags[i])
      && forall j :: 0 <= j < i ==> !IsPanoTag(tags[j]))
  {
    if tags == [] then None
    else if IsPanoTag(tags[0]) then Some(tags[0])
    else
      var r := FirstPanoTag(tags[1..]);
      if r.Some? then
        var i :| 0 <= i < |tags[1..]| && tags[1..][i] == r.value && IsPanoTag(tags[1..][i])
          && forall j :: 0 <= j < i ==> !IsPanoTag(tags[1..][j]);
        assert tags[i + 1] == r.value && forall j :: 0 <= j < i + 1 ==> !IsPanoTag(tags[j]);
        r
      else
        r
  }

  /** The `for`/`else` loop over the tags. */
  method FindPanoTag(tags: seq<string>) returns (r: Option<string>)
    ensures r == FirstPanoTag(tags)
  {
    for i := 0 to |tags|
      invariant forall j :: 0 <= j < i ==> !IsPanoTag(tags[j])
    {
      if IsPanoTag(tags[i]) {
        var f := FirstPanoTag(tags);
        assert f.Some?;
        var k :| 0 <= k < |tags| && tags[k] == f.value && IsPanoTag(tags[k])
          && forall j :: 0 <= j < k ==> !IsPanoTag(tags[j]);
        assert k == i;
        return Some(tags[i]);
      }
    }
    return None;
  }

  /** What `create_folder` decides for a file from the text exiftool printed for it:
      the `IndexError` of a text without tags, no project (the file stays), or the
      project tag whose folder the file goes to. A file goes to a project only when
      its tags hold `panorama` and a project tag; the folder is that of the first
      project tag, never `panorama` itself. */
  function Selection(output: string): (r: Result<Option<string>>)
    ensures r.Err? <==> ImageTags(output).Err?
    ensures r.Err? ==> r.error == NoTagSegment
    ensures (r.Ok? && r.value.Some?) <==> (ImageTags(output).Ok? && "panorama" in ImageTags(output).value
      && exists i :: 0 <= i < |ImageTags(output).value| && IsPanoTag(ImageTags(output).value[i]))
    ensures r.Ok? && r.value.Some? ==>
      IsPanoTag(r.value.value) && r.value.value in ImageTags(output).value && r.value.value != "panorama"
    ensures r.Ok? && r.value.Some? ==> exists i :: (0 <= i < |ImageTags(output).value|
      && ImageTags(output).value[i] == r.value.value
      && forall j :: 0 <= j < i ==> !IsPanoTag(ImageTags(output).value[j]))
  {
    MarkerIsNoPanoTag();
    match ImageTags(output)
    case Err(e) => Err(e)
    case Ok(tags) => Ok(if "panorama" in tags then FirstPanoTag(tags) else None)
  }

  /** `outprefix/'panoramas'/t`. */
  function ProjectDir(outprefix: Path, tag: string): Path
  {
    Under(outprefix + ["panoramas"], tag)
  }

  /** Where `shutil.move(str(p), str(dir))` puts `p`: inside `dir`, under its own name. */
  function Destination(outprefix: Path, tag: string, p: Path): Path
  {
    ProjectDir(outprefix, tag) + [BaseName(p)]
  }

  /** One pass of the loop of `create_folder` for the file `p`, given what was
      decided for it (`sel`). */
  function Sort(t: Tree, outprefix: Path, p: Path, sel: Result<Option<string>>, now: int): (r: Effect)
    requires p in t
    ensures forall q :: q in t && q != p ==> q in r.tree && r.tree[q] == t[q]
  {
    match sel
    case Err(e) => Effect(t, Fail(e))
    case Ok(None) => Effect(t, Pass)
    case Ok(Some(tag)) =>
      var dir := ProjectDir(outprefix, tag);
      var t1 := Mkdirs(t, dir, now);
      var dst := dir + [BaseName(p)];
      if dst in t1 then Effect(t1, Fail(DestinationExists(dst)))
      else Effect(Moved(t1, p, dst, now), Pass)
  }

  /** What one pass does: an exception leaves the tree as it was; a file without a
      project stays; a file with a project is moved into a fresh place inside the
      project folder (created with its parents), unless something is there already,
      which raises and leaves the file where it was. */
  lemma {:induction false} SortEffect(t: Tree, outprefix: Path, p: Path, sel: Result<Option<string>>, now: int)
    requires p in t
    ensures var r := Sort(t, outprefix, p, sel, now);
      && (sel.Err? ==> r == Effect(t, Fail(sel.error)))
      && (sel == Ok(None) ==> r == Effect(t, Pass))
      && (sel.Ok? && sel.value.Some? ==>
        var tag := sel.value.value;
        var d := Destination(outprefix, tag, p);
        && (forall q :: q in r.tree && q !in t ==> q == d || IsAncestorOrSelf(q, ProjectDir(outprefix, tag)))
        && (r.outcome.Pass? <==> d !in Mkdirs(t, ProjectDir(outprefix, tag), now))
        && (r.outcome.Fail? ==> r.outcome.error == DestinationExists(d) && p in r.tree && r.tree[p] == t[p])
        && (r.outcome.Pass? ==> d !in t && d in r.tree && r.tree[d] == Relocated(t[p], now) && p !in r.tree))
  {
  }

  /** The loop of `create_folder` over the files in the order `fs`: each file in turn,
      stopping at the first exception. `decide` gives what is decided for a file. */
  function SortAll(t: Tree, outprefix: Path, fs: seq<Path>, decide: Path -> Result<Option<string>>, now: int): (r: Effect)
    requires forall i :: 0 <= i < |fs| ==> fs[i] in t
    requires forall i, j :: 0 <= i < j < |fs| ==> fs[i] != fs[j]
    ensures forall q :: q in t && q !in fs ==> q in r.tree && r.tree[q] == t[q]
    decreases |fs|
  {
    if fs == [] then Effect(t, Pass)
    else
      var init := fs[..|fs| - 1];
      var p := fs[|fs| - 1];
      var prev := SortAll(t, outprefix, init, decide, now);
      assert p !in init;
      if prev.outcome.Fail? then prev
      else
        assert forall q :: q in init ==> q in fs;
        Sort(prev.tree, outprefix, p, decide(p), now)
  }

  /** A file of the listing that is not moved stays where it was, unchanged: one
      without `panorama` in its tags, or without a project tag. */
  lemma {:induction false} UnsortedStay(t: Tree, outprefix: Path, fs: seq<Path>, decide: Path -> Result<Option<string>>, now: int)
    requires forall i :: 0 <= i < |fs| ==> fs[i] in t
    requires forall i, j :: 0 <= i < j < |fs| ==> fs[i] != fs[j]
    ensures forall q :: q in t && (q !in fs || decide(q) == Ok(None)) ==>
      q in SortAll(t, outprefix, fs, decide, now).tree && SortAll(t, outprefix, fs, decide, now).tree[q] == t[q]
  {
    forall q | q in t && (q !in fs || decide(q) == Ok(None))
      ensures q in SortAll(t, outprefix, fs, decide, now).tree && SortAll(t, outprefix, fs, decide, now).tree[q] == t[q]
    {
      UnsortedStays(t, outprefix, fs, decide, now, q);
    }
  }

  /** `UnsortedStay` for one entry `q`. */
  lemma {:induction false} UnsortedStays(t: Tree, outprefix: Path, fs: seq<Path>, decide: Path -> Result<Option<string>>, now: int, q: Path)
    requires forall i :: 0 <= i < |fs| ==> fs[i] in t
    requires forall i, j :: 0 <= i < j < |fs| ==> fs[i] != fs[j]
    requires q in t && (q !in fs || decide(q) == Ok(None))
    ensures q in SortAll(t, outprefix, fs, decide, now).tree && SortAll(t, outprefix, fs, decide, now).tree[q] == t[q]
  {
    if fs != [] {
      var init := fs[..|fs| - 1];
      var p := fs[|fs| - 1];
      assert fs == init + [p];
      assert q !in init || decide(q) == Ok(None);
      UnsortedStays(t, outprefix, init, decide, now, q);
      var prev := SortAll(t, outprefix, init, decide, now);
      assert p !in init;
      if prev.outcome.Pass? {
        SortEffect(prev.tree, outprefix, p, decide(p), now);
      }
    }
  }

  /** Once the whole listing went through without an exception, every file with a
      project tag sits in its project folder, carrying its content and modification
      time, at a place that held nothing in the snapshot (or a file moved away). */
  lemma {:induction false} SortedArrive(t: Tree, outprefix: Path, fs: seq<Path>, decide: Path -> Result<Option<string>>, now: int)
    requires forall i :: 0 <= i < |fs| ==> fs[i] in t
    requires forall i, j :: 0 <= i < j < |fs| ==> fs[i] != fs[j]
    ensures var r := SortAll(t, outprefix, fs, decide, now);
      r.outcome.Pass? ==> forall i :: 0 <= i < |fs| && decide(fs[i]).Ok? && decide(fs[i]).value.Some? ==>
        var d := Destination(outprefix, decide(fs[i]).value.value, fs[i]);
        && d in r.tree && r.tree[d] == Relocated(t[fs[i]], now)
        && (d !in t || d in fs)
  {
    var r := SortAll(t, outprefix, fs, decide, now);
    forall i | 0 <= i < |fs| && decide(fs[i]).Ok? && decide(fs[i]).value.Some? && r.outcome.Pass?
      ensures Destination(outprefix, decide(fs[i]).value.value, fs[i]) in r.tree
      ensures r.tree[Destination(outprefix, decide(fs[i]).value.value, fs[i])] == Relocated(t[fs[i]], now)
      ensures Destination(outprefix, decide(fs[i]).value.value, fs[i]) !in t
        || Destination(outprefix, decide(fs[i]).value.value, fs[i]) in fs
    {
      SortedArrives(t, outprefix, fs, decide, now, i);
    }
  }

  /** `SortedArrive` for the file at position `i`. */
  lemma {:induction false} SortedArrives(t: Tree, outprefix: Path, fs: seq<Path>, decide: Path -> Result<Option<string>>, now: int, i: nat)
    requires forall i :: 0 <= i < |fs| ==> fs[i] in t
    requires forall i, j :: 0 <= i < j < |fs| ==> fs[i] != fs[j]
    requires i < |fs| && decide(fs[i]).Ok? && decide(fs[i]).value.Some?
    requires SortAll(t, outprefix, fs, decide, now).outcome.Pass?
    ensures var r := SortAll(t, outprefix, fs, decide, now);
      var d := Destination(outprefix, decide(fs[i]).value.value, fs[i]);
      && d in r.tree && r.tree[d] == Relocated(t[fs[i]], now)
      && (d !in t || d in fs)
  {
    var init := fs[..|fs| - 1];
    var p := fs[|fs| - 1];
    if i < |init| {
      var prev := SortAll(t, outprefix, init, decide, now);
      var d := Destination(outprefix, decide(fs[i]).value.value, fs[i]);
      assert p !in init;
      assert prev.outcome.Pass?;
      var r := Sort(prev.tree, outprefix, p, decide(p), now);
      assert SortAll(t, outprefix, fs, decide, now) == r;
      assert fs[i] == init[i];
      SortedArrives(t, outprefix, init, decide, now, i);
      assert d in init ==> d in fs;
      assert d != p;
      assert d in r.tree && r.tree[d] == prev.tree[d];
    } else {
      assert fs[i] == p;
      SortedArrivesLast(t, outprefix, fs, decide, now);
    }
  }

  /** `SortedArrive` for the last file of the listing. */
  lemma {:induction false} SortedArrivesLast(t: Tree, outprefix: Path, fs: seq<Path>, decide: Path -> Result<Option<string>>, now: int)
    requires forall i :: 0 <= i < |fs| ==> fs[i] in t
    requires forall i, j :: 0 <= i < j < |fs| ==> fs[i] != fs[j]
    requires fs != [] && decide(fs[|fs| - 1]).Ok? && decide(fs[|fs| - 1]).value.Some?
    requires SortAll(t, outprefix, fs, decide, now).outcome.Pass?
    ensures var r := SortAll(t, outprefix, fs, decide, now);
      var p := fs[|fs| - 1];
      var d := Destination(outprefix, decide(p).value.value, p);
      && d in r.tree && r.tree[d] == Relocated(t[p], now)
      && (d !in t || d in fs)
  {
    var init := fs[..|fs| - 1];
    var p := fs[|fs| - 1];
    var prev := SortAll(t, outprefix, init, decide, now);
    var d := Destination(outprefix, decide(p).value.value, p);
    assert p !in init;
    assert prev.outcome.Pass?;
    assert p in prev.tree && prev.tree[p] == t[p];
    assert SortAll(t, outprefix, fs, decide, now) == Sort(prev.tree, outprefix, p, decide(p), now);
    SortEffect(prev.tree, outprefix, p, decide(p), now);
    assert d !in prev.tree;
    assert d in t && d !in init ==> d in prev.tree;
  }

  /** The decision for every file, from the text exiftool prints for it. */
  function Decisions(exif: Path -> string): Path -> Result<Option<string>>
  {
    p => Selection(exif(p))
  }

  /** `create_folder(indir, outprefix, glob)` on the machine `host`: the files the glob
      yields are taken in the order the filesystem returns them (`listing`), exiftool
      is run on each (`exif` gives what it prints), and the tagged ones are moved into
      their project folders. An exception ends the loop after `n` files. */
  method CreateFolder(host: Host, indir: Path, outprefix: Path, pattern: seq<string>,
                      exif: Path -> string, now: int)
    returns (listing: seq<Path>, n: nat, r: Outcome)
    modifies host
    ensures Enumerates(listing, GlobSet(old(host.tree), indir, pattern))
    ensures forall i :: 0 <= i < |listing| ==> listing[i] in old(host.tree)
    ensures n <= |listing| && (r.Pass? ==> n == |listing|)
    ensures host.tree == SortAll(old(host.tree), outprefix, listing[..n], Decisions(exif), now).tree
    ensures r == SortAll(old(host.tree), outprefix, listing[..n], Decisions(exif), now).outcome
    ensures host.started == old(host.started) + ExifRuns(listing[..n])
  {
    listing := Listing(GlobSet(host.tree, indir, pattern));
    n, r := SortEach(host, outprefix, listing, exif, now);
  }

  /** The loop of `create_folder` over the files `fs`, in order. */
  method SortEach(host: Host, outprefix: Path, fs: seq<Path>, exif: Path -> string, now: int)
    returns (n: nat, r: Outcome)
    requires forall i :: 0 <= i < |fs| ==> fs[i] in host.tree
    requires forall i, j :: 0 <= i < j < |fs| ==> fs[i] != fs[j]
    modifies host
    ensures n <= |fs| && (r.Pass? ==> n == |fs|)
    ensures host.tree == SortAll(old(host.tree), outprefix, fs[..n], Decisions(exif), now).tree
    ensures r == SortAll(old(host.tree), outprefix, fs[..n], Decisions(exif), now).outcome
    ensures host.started == old(host.started) + ExifRuns(fs[..n])
  {
    ghost var t0 := host.tree;
    ghost var decide := Decisions(exif);
    n, r := 0, Pass;
    while n < |fs| && r.Pass?
      invariant n <= |fs|
      invariant host.tree == SortAll(t0, outprefix, fs[..n], decide, now).tree
      invariant r == SortAll(t0, outprefix, fs[..n], decide, now).outcome
      invariant host.started == old(host.started) + ExifRuns(fs[..n])
    {
      var p := fs[n];
      assert p in host.tree && SortAll(t0, outprefix, fs[..n + 1], decide, now)
        == Sort(host.tree, outprefix, p, decide(p), now) by {
        assert p !in fs[..n];
        SortAllSnoc(t0, outprefix, fs[..n], p, decide, now);
        TakeOneMore(fs, n);
      }
      assert ExifRuns(fs[..n + 1]) == ExifRuns(fs[..n]) + [ExifArgv(p)] by {
        ExifRunsSnoc(fs[..n], p);
        TakeOneMore(fs, n);
      }
      r := SortStep(host, outprefix, p, exif, now);
      n := n + 1;
    }
  }

  /** One more file after a listing that went through. */
  lemma {:induction false} SortAllSnoc(t: Tree, outprefix: Path, fs: seq<Path>, p: Path, decide: Path -> Result<Option<string>>, now: int)
    requires forall i :: 0 <= i < |fs| ==> fs[i] in t
    requires forall i, j :: 0 <= i < j < |fs| ==> fs[i] != fs[j]
    requires p in t && p !in fs
    requires SortAll(t, outprefix, fs, decide, now).outcome == Pass
    ensures p in SortAll(t, outprefix, fs, decide, now).tree
    ensures SortAll(t, outprefix, fs + [p], decide, now) == Sort(SortAll(t, outprefix, fs, decide, now).tree, outprefix, p, decide(p), now)
  {
    assert (fs + [p])[..|fs|] == fs;
  }

  lemma {:induction false} ExifRunsSnoc(fs: seq<Path>, p: Path)
    ensures ExifRuns(fs + [p]) == ExifRuns(fs) + [ExifArgv(p)]
  {
    assert (fs + [p])[..|fs|] == fs;
  }

  /** The body of the loop of `create_folder` for one file. */
  method SortStep(host: Host, outprefix: Path, p: Path, exif: Path -> string, now: int) returns (r: Outcome)
    requires p in host.tree
    modifies host
    ensures host.tree == Sort(old(host.tree), outprefix, p, Decisions(exif)(p), now).tree
    ensures r == Sort(old(host.tree), outprefix, p, Decisions(exif)(p), now).outcome
    ensures host.started == old(host.started) + [ExifArgv(p)]
  {
    var output := exif(p);
    assert Decisions(exif)(p) == Selection(output);
    var tags := GetImageTags(host, p, output);
    if tags.Err? {
      return Fail(tags.error);
    }
    if "panorama" in tags.value {
      var tag := FindPanoTag(tags.value);
      if tag.Some? {
        var dir := ProjectDir(outprefix, tag.value);
        host.MakeDirs(dir, now);
        var dst := dir + [BaseName(p)];
        if dst in host.tree {
          return Fail(DestinationExists(dst));
        }
        host.Rename(p, dst, now);
      }
    }
    return Pass;
  }

  /** The command line that reads the keywords of `image`. */
  function ExifArgv(image: Path): seq<string>
  {
    ["exiftool", "-Subject", Str(image)]
  }

  /** The exiftool runs of a listing, one per file, in order. */
  function ExifRuns(fs: seq<Path>): seq<seq<string>>
  {
    if fs == [] then [] else ExifRuns(fs[..|fs| - 1]) + [ExifArgv(fs[|fs| - 1])]
  }
}
