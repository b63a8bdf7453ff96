/** `KRPano.run`: building one panorama scene, skipped when the scene is up to date. */
module Build {
  import opened Text
  import opened Paths
  import opened Outcomes
  import opened Files
  import opened Xml
  import opened KrpanoTool
  import opened Krpano
  import opened Scene
  import opened Staging

  /** Where the preview (`_small.jpg`) or the twitter card (`_tc.jpg`) is copied. */
  function CopyTarget(outdir: Path, pname: string, suffix: string): Path
  {
    Under(outdir, pname + suffix)
  }

  /** The preview or twitter-card step: when the descriptor names a file under `key`, it is
      looked up like the input and copied unless the copy is at least as recent. */
  function Refresh(t: Tree, k: KRPano, fields: map<string, string>, key: string, suffix: string,
                   outdir: Path, now: int): (r: Result<Tree>)
    requires "pname" in fields
    ensures !Given(fields, key) ==> r == Ok(t)
    ensures Given(fields, key) && Pname(t, k, fields[key]).Err? ==> r == Err(Pname(t, k, fields[key]).error)
    ensures r.Ok? ==> forall q :: q in t ==> q in r.value
    ensures r.Ok? ==> forall q :: q in r.value && q != CopyTarget(outdir, fields["pname"], suffix) ==>
      q in t && r.value[q] == t[q]
  {
    if !Given(fields, key) then Ok(t)
    else match Pname(t, k, fields[key])
      case Err(e) => Err(e)
      case Ok(src) =>
        var dst := CopyTarget(outdir, fields["pname"], suffix);
        if dst !in t || t[src].ctime > t[dst].ctime then Ok(CopyFile(t, src, dst, now)) else Ok(t)
  }

  /** The staleness gate of the copy: the copy is made, with the source's content and the
      current time, exactly when it is missing or the source's ctime is strictly greater. */
  lemma {:induction false} RefreshGate(t: Tree, k: KRPano, fields: map<string, string>, key: string, suffix: string,
                    outdir: Path, now: int)
    requires "pname" in fields && Given(fields, key) && Pname(t, k, fields[key]).Ok?
    ensures var src := Pname(t, k, fields[key]).value;
      var dst := CopyTarget(outdir, fields["pname"], suffix);
      var r := Refresh(t, k, fields, key, suffix, outdir, now);
      && r.Ok?
      && (dst !in t || t[src].ctime > t[dst].ctime ==> r.value == t[dst := File(now, now, t[src].body)])
      && (dst in t && t[src].ctime <= t[dst].ctime ==> r.value == t)
  {
  }

  /** What one call of `KRPano.run` leaves: the filesystem, the `makepano` argument vector
      when the tool was started (at most once), and how the call ended. */
  datatype Built = Built(tree: Tree, tool: Option<seq<string>>, outcome: Outcome)

  /** The tree the steps after the tool leave: the produced scene, the hotspot and debug
      files, and the edited scene written back. */
  function Finish(t: Tree, pano: Pano, outdir: Path, debug: bool, produced: Element, now: int): Tree
    requires "pname" in pano.fields
  {
    var outxml := SceneFile(outdir, pano.fields["pname"]);
    var written := t[outxml := File(now, now, Doc(produced))];
    Staged(written, pano, outdir, debug, now)[outxml := File(now, now, Doc(Mutate(produced, pano, debug)))]
  }

  /** The files staged beside the scene: the hotspot overlay when the descriptor has
      hotspots, then the debug helpers when `debug` is set. */
  function Staged(t: Tree, pano: Pano, outdir: Path, debug: bool, now: int): Tree
    requires "pname" in pano.fields
  {
    var withHotspots := if pano.hotspots.Some? then StageHotspots(t, pano, outdir, now) else t;
    if debug then StageDebug(withHotspots, outdir, now) else withHotspots
  }

  /** `KRPano.run(pano, outdir, debug, html)`. `reply` is what `makepano` answers and
      `produced` the scene document it writes; an exception ends the call with the effects
      made before it. */
  function RunSpec(t: Tree, k: KRPano, pano: Pano, outdir: Path, debug: bool, html: bool,
                   reply: ToolResult, produced: Element, now: int): Built
  {
    var fields := pano.fields;
    if "input" !in fields then Built(t, None, Fail(MissingKey("input")))
    else match Pname(t, k, fields["input"])
    case Err(e) => Built(t, None, Fail(e))
    case Ok(inpano) =>
      if "pname" !in fields then Built(t, None, Fail(MissingKey("pname")))
      else
        var outxml := SceneFile(outdir, fields["pname"]);
        var prepared := Prepared(t, k, fields, outdir, now);
        if prepared.outcome.Fail? then Built(prepared.tree, None, prepared.outcome)
        else
          var t3 := prepared.tree;
          if IsFile(t3, outxml) && t3[inpano].ctime <= t3[outxml].ctime then Built(t3, None, Pass)
          else
            Rebuild(Cleared(t3, outxml), k, pano, outdir, debug, html,
                    inpano, reply, produced, now)
  }

  /** A stale scene document is deleted before `makepano` runs. */
  function Cleared(t3: Tree, outxml: Path): (r: Tree)
    ensures !IsFile(r, outxml)
    ensures forall q :: q in t3 && q != outxml ==> q in r && r[q] == t3[q]
  {
    if IsFile(t3, outxml) then t3 - {outxml} else t3
  }

  /** A run that starts the tool has its keys and its input, and is the rebuild of the
      prepared tree with the stale scene document removed. */
  lemma {:induction false} RunIsRebuild(t: Tree, k: KRPano, pano: Pano, outdir: Path, debug: bool, html: bool,
                     reply: ToolResult, produced: Element, now: int)
    ensures RunSpec(t, k, pano, outdir, debug, html, reply, produced, now).tool.Some? ==>
      && "input" in pano.fields && "pname" in pano.fields && Pname(t, k, pano.fields["input"]).Ok?
      && RunSpec(t, k, pano, outdir, debug, html, reply, produced, now) ==
         Rebuild(Cleared(Prepared(t, k, pano.fields, outdir, now).tree, SceneFile(outdir, pano.fields["pname"])),
                 k, pano, outdir, debug, html, Pname(t, k, pano.fields["input"]).value, reply, produced, now)
  {
  }

  /** The steps of `KRPano.run` before the staleness test: the output directory is
      created, then the preview and the twitter card are copied; an exception keeps the
      effects made before it. No entry that existed is removed. */
  function Prepared(t: Tree, k: KRPano, fields: map<string, string>, outdir: Path, now: int): (r: Effect)
    requires "pname" in fields
    ensures forall q :: q in t ==> q in r.tree
  {
    var t1 := EnsureDir(t, outdir, now);
    match Refresh(t1, k, fields, "preview", "_small.jpg", outdir, now)
    case Err(e) => Effect(t1, Fail(e))
    case Ok(t2) =>
      match Refresh(t2, k, fields, "twittercard", "_tc.jpg", outdir, now)
      case Err(e) => Effect(t2, Fail(e))
      case Ok(t3) => Effect(t3, Pass)
  }

  /** The part of `KRPano.run` after a stale scene document has been removed: the
      arguments are worked out, `makepano` is started on the input `inpano`, and on
      success the scene is finished. */
  function Rebuild(t4: Tree, k: KRPano, pano: Pano, outdir: Path, debug: bool, html: bool,
                   inpano: Path, reply: ToolResult, produced: Element, now: int): Built
    requires "pname" in pano.fields
  {
    match MakepanoArguments(t4, k, pano, outdir, html)
    case Err(e) => Built(t4, None, Fail(e))
    case Ok(args) =>
      var argv := ToolArgv(k.base, "makepano", args + [Str(inpano)]);
      if reply.exitCode != 0 then Built(t4, Some(argv), Classify(reply))
      else Built(Finish(t4, pano, outdir, debug, produced, now), Some(argv), Pass)
  }

  /** Once the tool is started, its argument vector is `makepano`, the arguments, and the
      input last; a failing tool raises its output, leaving the tree as it was; a
      succeeding one leaves the edited document. */
  lemma {:induction false} RebuildEffect(t4: Tree, k: KRPano, pano: Pano, outdir: Path, debug: bool, html: bool,
                      inpano: Path, reply: ToolResult, produced: Element, now: int)
    requires "pname" in pano.fields
    ensures var e := Rebuild(t4, k, pano, outdir, debug, html, inpano, reply, produced, now);
      var outxml := SceneFile(outdir, pano.fields["pname"]);
      e.tool.Some? ==>
        && var argv := e.tool.value;
        && |argv| >= 12
        && argv[..2] == [Str(k.base.krpanotools), "makepano"]
        && argv[|argv| - 1] == Str(inpano)
        && (reply.exitCode != 0 ==> e.outcome == Fail(ToolFailed(FailureMessage(reply.stdout))) && e.tree == t4)
        && (reply.exitCode == 0 ==> e.outcome == Pass && outxml in e.tree && e.tree[outxml] == File(now, now, Doc(Mutate(produced, pano, debug))))
  {
    var e := Rebuild(t4, k, pano, outdir, debug, html, inpano, reply, produced, now);
    if e.tool.Some? {
      MakepanoLayout(t4, k, pano, outdir, html);
      var args := MakepanoArguments(t4, k, pano, outdir, html).value;
      assert e.tool.value == ToolArgv(k.base, "makepano", args + [Str(inpano)]);
    }
  }

  /** Without an `input` entry nothing happens; an input that cannot be found raises before
      anything changes, with a message naming both places looked at. */
  lemma {:induction false} RunInputErrors(t: Tree, k: KRPano, pano: Pano, outdir: Path, debug: bool, html: bool,
                       reply: ToolResult, produced: Element, now: int)
    ensures var e := RunSpec(t, k, pano, outdir, debug, html, reply, produced, now);
      && ("input" !in pano.fields ==> e == Built(t, None, Fail(MissingKey("input"))))
      && ("input" in pano.fields && Pname(t, k, pano.fields["input"]).Err? ==>
            var literal := ParsePath(pano.fields["input"]);
            var underRoot := Div(k.panoramas, literal);
            && e == Built(t, None, Fail(NoSuchFile(literal, underRoot)))
            && Message(e.outcome.error) == "no such file " + Str(literal) + " or " + Str(underRoot))
  {
  }

  /** A scene document at least as recent as the input is left alone: the tool is not
      started and the document is not touched. */
  lemma {:induction false} RunSkipsFreshScene(t: Tree, k: KRPano, pano: Pano, outdir: Path, debug: bool, html: bool,
                           reply: ToolResult, produced: Element, now: int)
    requires "input" in pano.fields && "pname" in pano.fields
    requires Pname(t, k, pano.fields["input"]).Ok?
    requires var inpano := Pname(t, k, pano.fields["input"]).value;
      var outxml := SceneFile(outdir, pano.fields["pname"]);
      && IsFile(t, outxml) && t[inpano].ctime <= t[outxml].ctime
      && inpano != CopyTarget(outdir, pano.fields["pname"], "_small.jpg")
      && inpano != CopyTarget(outdir, pano.fields["pname"], "_tc.jpg")
    ensures var e := RunSpec(t, k, pano, outdir, debug, html, reply, produced, now);
      var outxml := SceneFile(outdir, pano.fields["pname"]);
      && e.tool == None
      && outxml in e.tree && e.tree[outxml] == t[outxml]
      && (e.outcome.Pass? || e.outcome.error.NoSuchFile?)
  {
    SceneIsNoCopy(outdir, pano.fields["pname"], "_small.jpg");
    SceneIsNoCopy(outdir, pano.fields["pname"], "_tc.jpg");
    PreparedKeeps(t, k, pano.fields, outdir, now, SceneFile(outdir, pano.fields["pname"]));
  }

  /** The scene document is never one of the two copies: its name ends in `.xml`. */
  lemma {:induction false} SceneIsNoCopy(outdir: Path, pname: string, suffix: string)
    requires suffix == "_small.jpg" || suffix == "_tc.jpg"
    ensures SceneFile(outdir, pname) != CopyTarget(outdir, pname, suffix)
  {
    BaseNameUnder(outdir, pname, ".xml");
    BaseNameUnder(outdir, pname, suffix);
    var a := LastPiece(pname, '/') + ".xml";
    var b := LastPiece(pname, '/') + suffix;
    assert a[|a| - 1] != b[|b| - 1];
  }

  /** An entry other than the two copies survives the preparation unchanged, and an
      exception can only be a missing preview or twitter card. */
  lemma {:induction false} PreparedKeeps(t: Tree, k: KRPano, fields: map<string, string>, outdir: Path, now: int, q: Path)
    requires "pname" in fields
    requires q in t && q != CopyTarget(outdir, fields["pname"], "_small.jpg") && q != CopyTarget(outdir, fields["pname"], "_tc.jpg")
    ensures var r := Prepared(t, k, fields, outdir, now);
      && q in r.tree && r.tree[q] == t[q]
      && (r.outcome.Pass? || r.outcome.error.NoSuchFile?)
  {
    var t1 := EnsureDir(t, outdir, now);
    match Refresh(t1, k, fields, "preview", "_small.jpg", outdir, now) {
      case Err(_) =>
      case Ok(t2) =>
        match Refresh(t2, k, fields, "twittercard", "_tc.jpg", outdir, now) {
          case Err(_) =>
          case Ok(t3) =>
        }
    }
  }

  /** A stale or missing scene is rebuilt: once the tool is started its argument vector is
      `makepano`, the arguments, and the input last; a failing tool leaves no scene document
      (a stale one was removed first) and raises its output; a succeeding one leaves the
      edited document. */
  lemma {:induction false} RunRebuilds(t: Tree, k: KRPano, pano: Pano, outdir: Path, debug: bool, html: bool,
                    reply: ToolResult, produced: Element, now: int)
    ensures var e := RunSpec(t, k, pano, outdir, debug, html, reply, produced, now);
      e.tool.Some? ==>
        && "input" in pano.fields && "pname" in pano.fields && Pname(t, k, pano.fields["input"]).Ok?
        && var argv := e.tool.value;
           var outxml := SceneFile(outdir, pano.fields["pname"]);
        && |argv| >= 12
        && argv[..2] == [Str(k.base.krpanotools), "makepano"]
        && argv[|argv| - 1] == Str(Pname(t, k, pano.fields["input"]).value)
        && (reply.exitCode != 0 ==> e.outcome == Fail(ToolFailed(FailureMessage(reply.stdout))) && !IsFile(e.tree, outxml))
        && (reply.exitCode == 0 ==> e.outcome == Pass && outxml in e.tree && e.tree[outxml] == File(now, now, Doc(Mutate(produced, pano, debug))))
  {
    RunIsRebuild(t, k, pano, outdir, debug, html, reply, produced, now);
    var e := RunSpec(t, k, pano, outdir, debug, html, reply, produced, now);
    if e.tool.Some? {
      var fields := pano.fields;
      var inpano := Pname(t, k, fields["input"]).value;
      var t4 := Cleared(Prepared(t, k, fields, outdir, now).tree, SceneFile(outdir, fields["pname"]));
      RebuildEffect(t4, k, pano, outdir, debug, html, inpano, reply, produced, now);
    }
  }

  /** The input panorama is not written by a run, as long as it is none of the files the
      run writes: the scene document, the two copies and the hotspot overlay. */
  lemma {:induction false} RunKeepsInput(t: Tree, k: KRPano, pano: Pano, outdir: Path, debug: bool, html: bool,
                      reply: ToolResult, produced: Element, now: int)
    requires "input" in pano.fields && "pname" in pano.fields
    requires Pname(t, k, pano.fields["input"]).Ok?
    requires var inpano := Pname(t, k, pano.fields["input"]).value;
      var pname := pano.fields["pname"];
      && inpano != SceneFile(outdir, pname)
      && inpano != CopyTarget(outdir, pname, "_small.jpg") && inpano != CopyTarget(outdir, pname, "_tc.jpg")
      && inpano != HotspotsFile(outdir, pname)
    ensures var inpano := Pname(t, k, pano.fields["input"]).value;
      var e := RunSpec(t, k, pano, outdir, debug, html, reply, produced, now);
      inpano in e.tree && e.tree[inpano] == t[inpano]
  {
    var fields := pano.fields;
    var inpano := Pname(t, k, fields["input"]).value;
    var outxml := SceneFile(outdir, fields["pname"]);
    PreparedKeeps(t, k, fields, outdir, now, inpano);
    var prepared := Prepared(t, k, fields, outdir, now);
    var t3 := prepared.tree;
    if prepared.outcome.Pass? && !(IsFile(t3, outxml) && t3[inpano].ctime <= t3[outxml].ctime) {
      var t4 := Cleared(t3, outxml);
      assert RunSpec(t, k, pano, outdir, debug, html, reply, produced, now) ==
        Rebuild(t4, k, pano, outdir, debug, html, inpano, reply, produced, now);
      assert inpano in t4 && t4[inpano] == t[inpano];
      RebuildKeeps(t4, k, pano, outdir, debug, html, inpano, reply, produced, now, inpano);
    } else {
      assert RunSpec(t, k, pano, outdir, debug, html, reply, produced, now).tree == t3;
    }
  }

  /** The rebuild keeps every entry but the scene document and the overlay. */
  lemma {:induction false} RebuildKeeps(t4: Tree, k: KRPano, pano: Pano, outdir: Path, debug: bool, html: bool,
                     inpano: Path, reply: ToolResult, produced: Element, now: int, q: Path)
    requires "pname" in pano.fields
    requires q in t4 && q != SceneFile(outdir, pano.fields["pname"]) && q != HotspotsFile(outdir, pano.fields["pname"])
    ensures var e := Rebuild(t4, k, pano, outdir, debug, html, inpano, reply, produced, now);
      q in e.tree && e.tree[q] == t4[q]
  {
    if MakepanoArguments(t4, k, pano, outdir, html).Ok? && reply.exitCode == 0 {
      FinishKeeps(t4, pano, outdir, debug, produced, now, q);
    }
  }

  /** The steps after the tool keep every entry but the scene document and the overlay. */
  lemma {:induction false} FinishKeeps(t4: Tree, pano: Pano, outdir: Path, debug: bool, produced: Element, now: int, q: Path)
    requires "pname" in pano.fields
    requires q in t4 && q != SceneFile(outdir, pano.fields["pname"]) && q != HotspotsFile(outdir, pano.fields["pname"])
    ensures var f := Finish(t4, pano, outdir, debug, produced, now); q in f && f[q] == t4[q]
  {
    var outxml := SceneFile(outdir, pano.fields["pname"]);
    var written := t4[outxml := File(now, now, Doc(produced))];
    StagedKeeps(written, pano, outdir, debug, now, q);
  }

  /** Staging keeps every entry other than the overlay. */
  lemma {:induction false} StagedKeeps(t: Tree, pano: Pano, outdir: Path, debug: bool, now: int, q: Path)
    requires "pname" in pano.fields
    requires q in t && q != HotspotsFile(outdir, pano.fields["pname"])
    ensures q in Staged(t, pano, outdir, debug, now) && Staged(t, pano, outdir, debug, now)[q] == t[q]
  {
    var withHotspots := if pano.hotspots.Some? then StageHotspots(t, pano, outdir, now) else t;
    if pano.hotspots.Some? {
      StageHotspotsResult(t, pano, outdir, now);
    }
    assert q in withHotspots && withHotspots[q] == t[q];
    if debug {
      StageDebugResult(withHotspots, outdir, now, now);
    }
  }

  /** Building twice does the work once: after a run that started the tool and succeeded,
      a later run with the input unchanged finds a scene document at least as recent as
      the input, does not start the tool, and leaves the document alone. */
  lemma {:induction false} RunTwice(t: Tree, k: KRPano, pano: Pano, outdir: Path, debug: bool, html: bool,
                 reply: ToolResult, produced: Element, now: int,
                 reply2: ToolResult, produced2: Element, later: int)
    requires "input" in pano.fields && "pname" in pano.fields
    requires Pname(t, k, pano.fields["input"]).Ok?
    requires var inpano := Pname(t, k, pano.fields["input"]).value;
      var pname := pano.fields["pname"];
      && t[inpano].ctime <= now
      && inpano != SceneFile(outdir, pname) && inpano != HotspotsFile(outdir, pname)
      && inpano != CopyTarget(outdir, pname, "_small.jpg") && inpano != CopyTarget(outdir, pname, "_tc.jpg")
    requires var e := RunSpec(t, k, pano, outdir, debug, html, reply, produced, now);
      && e.tool.Some? && reply.exitCode == 0
      && Pname(e.tree, k, pano.fields["input"]) == Pname(t, k, pano.fields["input"])
    ensures var e := RunSpec(t, k, pano, outdir, debug, html, reply, produced, now);
      var e2 := RunSpec(e.tree, k, pano, outdir, debug, html, reply2, produced2, later);
      var outxml := SceneFile(outdir, pano.fields["pname"]);
      && e2.tool == None
      && outxml in e2.tree && e2.tree[outxml] == e.tree[outxml]
  {
    var e := RunSpec(t, k, pano, outdir, debug, html, reply, produced, now);
    RunRebuilds(t, k, pano, outdir, debug, html, reply, produced, now);
    RunKeepsInput(t, k, pano, outdir, debug, html, reply, produced, now);
    RunSkipsFreshScene(e.tree, k, pano, outdir, debug, html, reply2, produced2, later);
  }

  /** The preview or twitter-card step on the machine. */
  method RefreshOn(host: Host, k: KRPano, fields: map<string, string>, key: string, suffix: string,
                   outdir: Path, now: int) returns (r: Outcome)
    requires "pname" in fields
    modifies host
    ensures var s := Refresh(old(host.tree), k, fields, key, suffix, outdir, now);
      && (s.Ok? ==> r == Pass && host.tree == s.value)
      && (s.Err? ==> r == Fail(s.error) && host.tree == old(host.tree))
    ensures host.started == old(host.started)
  {
    if key in fields && fields[key] != "" {
      var found := Pname(host.tree, k, fields[key]);
      if found.Err? {
        return Fail(found.error);
      }
      var src := found.value;
      var dst := CopyTarget(outdir, fields["pname"], suffix);
      if dst !in host.tree || host.tree[src].ctime > host.tree[dst].ctime {
        host.Copy(src, dst, now);
      }
    }
    r := Pass;
  }

  /** The preparation of `KRPano.run`, on the machine. */
  method PrepareOn(host: Host, k: KRPano, fields: map<string, string>, outdir: Path, now: int) returns (r: Outcome)
    requires "pname" in fields
    modifies host
    ensures host.tree == Prepared(old(host.tree), k, fields, outdir, now).tree
    ensures r == Prepared(old(host.tree), k, fields, outdir, now).outcome
    ensures host.started == old(host.started)
  {
    if outdir !in host.tree {
      host.MakeDirs(outdir, now);
    }
    r := RefreshOn(host, k, fields, "preview", "_small.jpg", outdir, now);
    if r.Fail? {
      return;
    }
    r := RefreshOn(host, k, fields, "twittercard", "_tc.jpg", outdir, now);
  }

  /** `KRPano.run` step by step, on the machine. */
  method Run(host: Host, k: KRPano, pano: Pano, outdir: Path, debug: bool, html: bool,
             reply: ToolResult, produced: Element, now: int) returns (r: Outcome)
    modifies host
    ensures var e := RunSpec(old(host.tree), k, pano, outdir, debug, html, reply, produced, now);
      && host.tree == e.tree && r == e.outcome
      && host.started == old(host.started) + (if e.tool.Some? then [e.tool.value] else [])
  {
    var fields := pano.fields;
    if "input" !in fields {
      return Fail(MissingKey("input"));
    }
    var found := Pname(host.tree, k, fields["input"]);
    if found.Err? {
      return Fail(found.error);
    }
    var inpano := found.value;
    if "pname" !in fields {
      return Fail(MissingKey("pname"));
    }
    var outxml := SceneFile(outdir, fields["pname"]);
    var prepared := PrepareOn(host, k, fields, outdir, now);
    if prepared.Fail? {
      return prepared;
    }
    if IsFile(host.tree, outxml) {
      if host.tree[inpano].ctime > host.tree[outxml].ctime {
        host.Unlink(outxml);
      } else {
        return Pass;
      }
    }
    r := RebuildOn(host, k, pano, outdir, debug, html, inpano, reply, produced, now);
  }

  /** The rebuild of a stale or missing scene, on the machine. */
  method RebuildOn(host: Host, k: KRPano, pano: Pano, outdir: Path, debug: bool, html: bool,
                   inpano: Path, reply: ToolResult, produced: Element, now: int) returns (r: Outcome)
    requires "pname" in pano.fields
    modifies host
    ensures var e := Rebuild(old(host.tree), k, pano, outdir, debug, html, inpano, reply, produced, now);
      && host.tree == e.tree && r == e.outcome
      && host.started == old(host.started) + (if e.tool.Some? then [e.tool.value] else [])
  {
    var args := MakepanoArgs(host.tree, k, pano, outdir, html);
    if args.Err? {
      return Fail(args.error);
    }
    r := RunTool(k.base, host, "makepano", args.value + [Str(inpano)], reply);
    if r.Fail? {
      return;
    }
    Finishing(host, pano, outdir, debug, produced, now);
  }

  /** The steps of `KRPano.run` after a successful tool run: the produced document is
      edited in place while the hotspot and debug files are staged, then written back. */
  method Finishing(host: Host, pano: Pano, outdir: Path, debug: bool, produced: Element, now: int)
    requires "pname" in pano.fields
    modifies host
    ensures host.tree == Finish(old(host.tree), pano, outdir, debug, produced, now)
    ensures host.started == old(host.started)
  {
    var outxml := SceneFile(outdir, pano.fields["pname"]);
    // makepano leaves its scene document at the -xmlpath it was given
    host.Write(outxml, Doc(produced), now);
    var root := EditScene(host, pano, outdir, debug, produced, now);
    host.Write(outxml, Doc(root), now);
  }

  /** The produced document is edited in place while the hotspot and debug files are
      staged; the edited document is returned. */
  method EditScene(host: Host, pano: Pano, outdir: Path, debug: bool, produced: Element, now: int)
    returns (root: Element)
    requires "pname" in pano.fields
    modifies host
    ensures root == Mutate(produced, pano, debug)
    ensures host.tree == Staged(old(host.tree), pano, outdir, debug, now)
    ensures host.started == old(host.started)
  {
    var et := new ElementTree(produced);
    OverrideViewIn(et, pano.fields);
    ghost var viewed := et.root;
    HotspotStep(host, et, pano, outdir, now);
    ghost var mid := et.root.children;
    DebugStep(host, et, debug, outdir, now);
    root := et.root;
    assert root.children == viewed.children + Additions(pano, debug) by {
      assert root.children == mid + DebugAdditions(debug);
      assert mid == viewed.children + HotspotAdditions(pano);
      ConcatAssoc(viewed.children, HotspotAdditions(pano), DebugAdditions(debug));
    }
  }

  /** The hotspot branch: staging, then the include of the overlay. */
  method HotspotStep(host: Host, et: ElementTree, pano: Pano, outdir: Path, now: int)
    requires "pname" in pano.fields
    modifies host, et
    ensures host.tree == (if pano.hotspots.Some? then StageHotspots(old(host.tree), pano, outdir, now) else old(host.tree))
    ensures host.started == old(host.started)
    ensures et.root == old(et.root).(children := old(et.root.children) + HotspotAdditions(pano))
  {
    if pano.hotspots.Some? {
      StageHotspotsOn(host, pano, outdir, now);
      et.SubElement("include", map["url" := pano.fields["pname"] + "_hotspots.xml"]);
    }
  }

  /** The debug branch: trace events, the helper tool and the plugins, the toolbox include. */
  method DebugStep(host: Host, et: ElementTree, debug: bool, outdir: Path, now: int)
    modifies host, et
    ensures host.tree == (if debug then StageDebug(old(host.tree), outdir, now) else old(host.tree))
    ensures host.started == old(host.started)
    ensures et.root == old(et.root).(children := old(et.root.children) + DebugAdditions(debug))
  {
    if debug {
      ghost var before := et.root;
      et.SubElement("events", map["onviewchange" := TraceView]);
      et.SubElement("include", map["url" := HelperUrl]);
      StageDebugOn(host, outdir, now);
      et.SubElement("include", map["url" := ToolboxUrl]);
      AppendThree(before.children, Element("events", map["onviewchange" := TraceView], []),
                  Include(HelperUrl), Include(ToolboxUrl));
    }
  }
}
