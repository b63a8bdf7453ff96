/** The bundled data files and the hotspot overlay `KRPano` places beside a scene. */
module Staging {
  import opened Text
  import opened Paths
  import opened Outcomes
  import opened Files
  import opened Krpano

  /** The bundled copy of a data file, as the package resource `data/<name>` provides it. */
  function Bundled(name: string): Body
  {
    Data("photo_workflow/data/" + name)
  }

  /** `KRPano.add_data(name, dir)`: the directory is created when missing and the bundled
      file is copied into it unless a file of that name is there already. */
  function AddData(t: Tree, name: string, dir: Path, now: int): (r: Tree)
    ensures Under(dir, name) in r
    ensures Under(dir, name) in t ==> r[Under(dir, name)] == t[Under(dir, name)]
    ensures Under(dir, name) !in t && !IsAncestorOrSelf(Under(dir, name), dir) ==>
      r[Under(dir, name)] == File(now, now, Bundled(name))
    ensures forall q :: q in t ==> q in r && (q != Under(dir, name) ==> r[q] == t[q])
    ensures dir != [] ==> dir in r
    ensures forall q :: q in r && q !in t ==>
      q == Under(dir, name) || (IsAncestorOrSelf(q, dir) && r[q] == Directory(now, now))
  {
    var made := EnsureDir(t, dir, now);
    var target := Under(dir, name);
    if target in made then made else made[target := File(now, now, Bundled(name))]
  }

  /** Adding a data file that is already in place changes nothing. */
  lemma {:induction false} AddDataStable(t: Tree, name: string, dir: Path, now: int)
    requires Under(dir, name) in t && (dir == [] || dir in t)
    ensures AddData(t, name, dir, now) == t
  {
    EnsureDirExisting(t, dir, now);
  }

  /** A second `add_data` of the same file changes nothing. */
  lemma {:induction false} AddDataIdempotent(t: Tree, name: string, dir: Path, now: int, later: int)
    ensures AddData(AddData(t, name, dir, now), name, dir, later) == AddData(t, name, dir, now)
  {
    AddDataStable(AddData(t, name, dir, now), name, dir, later);
  }

  /** `add_data` for each name in turn, into the same directory. */
  function AddAll(t: Tree, names: seq<string>, dir: Path, now: int): (r: Tree)
    ensures forall n :: n in names ==> Under(dir, n) in r
    ensures forall q :: q in t ==> q in r
    ensures forall q :: q in t && (forall n :: n in names ==> q != Under(dir, n)) ==> r[q] == t[q]
    ensures names != [] && dir != [] ==> dir in r
  {
    if names == [] then t
    else
      var r := AddData(AddAll(t, names[..|names| - 1], dir, now), names[|names| - 1], dir, now);
      assert forall n :: n in names ==> n in names[..|names| - 1] || n == names[|names| - 1] by {
        assert names == names[..|names| - 1] + [names[|names| - 1]];
      }
      r
  }

  /** A bundled file already in the directory is never overwritten. */
  lemma {:induction false} AddAllKeeps(t: Tree, names: seq<string>, dir: Path, now: int, q: Path)
    requires q in t
    ensures q in AddAll(t, names, dir, now) && AddAll(t, names, dir, now)[q] == t[q]
  {
    if names != [] {
      AddAllKeeps(t, names[..|names| - 1], dir, now, q);
    }
  }

  /** Adding the same names again changes nothing. */
  lemma {:induction false} AddAllIdempotent(t: Tree, names: seq<string>, dir: Path, now: int, later: int)
    ensures AddAll(AddAll(t, names, dir, now), names, dir, later) == AddAll(t, names, dir, now)
  {
    var once := AddAll(t, names, dir, now);
    AddAllStable(once, names, dir, later);
  }

  /** Once every name is in the directory, adding them changes nothing. */
  lemma {:induction false} AddAllStable(t: Tree, names: seq<string>, dir: Path, now: int)
    requires forall n :: n in names ==> Under(dir, n) in t
    requires names != [] && dir != [] ==> dir in t
    ensures AddAll(t, names, dir, now) == t
  {
    if names != [] {
      var init := names[..|names| - 1];
      assert forall n :: n in init ==> n in names;
      AddAllStable(t, init, dir, now);
      AddDataStable(t, names[|names| - 1], dir, now);
    }
  }

  /** The names of the files and the plugin directory staged next to the scene. */
  const CircleImage: string := "hs_circle.png"
  const ShowText: string := "showtext.xml"
  const HelperTool: string := "partialpano_helpertool.xml"
  const PluginsDir: string := "plugins"

  /** The plugins the debug mode copies into `plugins`, in the order they are copied. */
  const DebugPlugins: seq<string> :=
    ["grid.xml", "polygonalhotspot_editor.xml", "stickie_data.xml",
     "stickies.xml", "numbers.xml", "scrollingtext.xml", "stickie_engine.xml",
     "toolbox.xml", "distortedhotspot_editor.xml"]

  /** The files the debug mode of `KRPano.run` adds beside the scene: the helper tool in
      the output directory and the plugins under `plugins`. */
  function StageDebug(t: Tree, outdir: Path, now: int): Tree
  {
    AddAll(AddData(t, HelperTool, outdir, now), DebugPlugins, Under(outdir, PluginsDir), now)
  }

  /** The debug files are all in place afterwards, nothing that existed is changed, and
      staging them again changes nothing. */
  lemma {:induction false} StageDebugResult(t: Tree, outdir: Path, now: int, later: int)
    ensures var r := StageDebug(t, outdir, now);
      && Under(outdir, HelperTool) in r
      && (forall n :: n in DebugPlugins ==> Under(Under(outdir, PluginsDir), n) in r)
      && (forall q :: q in t ==> q in r && r[q] == t[q])
      && StageDebug(r, outdir, later) == r
  {
    var r := StageDebug(t, outdir, now);
    var first := AddData(t, HelperTool, outdir, now);
    forall q | q in t ensures q in r && r[q] == t[q] {
      AddAllKeeps(first, DebugPlugins, Under(outdir, PluginsDir), now, q);
    }
    AddAllKeeps(first, DebugPlugins, Under(outdir, PluginsDir), now, Under(outdir, HelperTool));
    AddDataStable(r, HelperTool, outdir, later);
    AddAllIdempotent(first, DebugPlugins, Under(outdir, PluginsDir), now, later);
    assert StageDebug(r, outdir, later) == AddAll(r, DebugPlugins, Under(outdir, PluginsDir), later);
    AddAllStable(r, DebugPlugins, Under(outdir, PluginsDir), later);
  }

  /** The fixed head of the hotspot overlay, line by line: the `showtext` include, the
      styles, the toggle button and its action. */
  const PreambleLines: seq<string> := [
    "<krpano>",
    "  <include url=\"%VIEWER%/plugins/showtext.xml\" />",
    "  <style name=\"letter\"",
    "               capture=\"false\" handcursor=\"false\"",
    "               fillcolor=\"0xffff00\" fillalpha=\"0.30\"",
    "               bordercolor=\"0xffff00\" borderalpha=\"0.80\"",
    "               onover=\"tween(alpha, 0.1, 0.25);\"",
    "               onout=\"tween(alpha, 1.0, 0.25);\"",
    "               ondown.touch=\"onover(); asyncloop(pressed, onhover(); );\"",
    "               onup.touch=\"onout();\"",
    "               />",
    "  <textstyle name=\"STYLE7\"",
    "             font=\"Arial\" fontsize=\"14\" padding=\"4\" bold=\"false\"",
    "             edge=\"left\" textalign=\"left\" xoffset=\"15\" yoffset=\"0\"",
    "             />",
    "\t<style name=\"button_style\"",
    "               type=\"text\"",
    "               bgcolor=\"0x000000\"",
    "               bgalpha=\"0.5\"",
    "               bgroundedge=\"0\"",
    "               css=\"calc:'color:#FFFFFF;font-size:' + 20 + 'px;'\"",
    "               padding=\"calc:6 + ' ' + 10\"",
    "               />",
    "",
    "\t<layer name=\"hotspots\" style=\"button_style\" html=\"Toggle Hotspots\"     align=\"lefttop\" y=\"10\" x=\"10\"   onclick=\"toggle_hotspots();\"     />",
    "",
    "\t<action name=\"toggle_hotspots\">",
    "          for(set(i,0), i LT hotspot.count, inc(i),",
    "\t  if (hotspot[get(i)].alpha == 0,",
    "\t  set(hotspot[get(i)].alpha ,1);,",
    "\t  set(hotspot[get(i)].alpha ,0););",
    "          );",
    "        </action>"
  ]

  /** The head of the overlay as one text, every line ended by a newline. */
  const HotspotsPreamble: string := Join("\n", PreambleLines) + "\n"

  /** The name of the hotspot at position `n`. */
  function SpotName(n: nat): string
  {
    "spot" + Decimal(n)
  }

  /** Hotspots at different positions have different names. */
  lemma {:induction false} SpotNamesDistinct(m: nat, n: nat)
    requires m != n
    ensures SpotName(m) != SpotName(n)
  {
    if SpotName(m) == SpotName(n) {
      assert Decimal(m) == SpotName(m)[4..] == SpotName(n)[4..] == Decimal(n);
      DecimalInjective(m, n);
    }
  }

  /** The element written for the hotspot at position `n`. */
  function SpotText(n: nat, h: Hotspot): string
  {
    "  <hotspot name=\"" + SpotName(n) + "\" style=\"letter\" type=\"image\" url=\"hs_circle.png\"\n" +
    "           scale=\"0.3\" ath=\"" + h.ath + "\" atv=\"" + h.atv + "\"\n" +
    "           onhover=\"showtext(" + h.description + ", STYLE7);\"/>\n"
  }

  /** The hotspot elements for `hs`, numbered from 0 in list order. */
  function Spots(hs: seq<Hotspot>): string
  {
    if hs == [] then "" else Spots(hs[..|hs| - 1]) + SpotText(|hs| - 1, hs[|hs| - 1])
  }

  /** One more hotspot adds one more element, numbered by its position, at the end. */
  lemma {:induction false} SpotsAppend(hs: seq<Hotspot>, h: Hotspot)
    ensures Spots(hs + [h]) == Spots(hs) + SpotText(|hs|, h)
  {
    assert (hs + [h])[..|hs|] == hs;
  }

  /** Two hotspots give the elements `spot0` and `spot1`, in list order, each with its own
      angles. */
  lemma {:induction false} TwoSpots(a: Hotspot, b: Hotspot)
    ensures Spots([a, b]) == SpotText(0, a) + SpotText(1, b)
    ensures SpotName(0) == "spot0" && SpotName(1) == "spot1"
  {
    assert [a, b][..1] == [a];
    assert [a][..0] == [];
    assert Spots([a]) == "" + SpotText(0, a);
    assert "" + SpotText(0, a) == SpotText(0, a);
  }

  /** The text of the overlay: the head, one element per hotspot, the closing tag. */
  function HotspotsDocument(hs: seq<Hotspot>): string
  {
    HotspotsPreamble + Spots(hs) + "</krpano>"
  }

  /** Where the overlay is written. */
  function HotspotsFile(outdir: Path, pname: string): Path
  {
    Under(outdir, pname + "_hotspots.xml")
  }

  /** The first half of `KRPano.hotspots`: the output directory, the circle image and the
      `showtext` plugin, staged whether or not the descriptor has hotspots. */
  function StageSupport(t: Tree, outdir: Path, now: int): (r: Tree)
    ensures Under(outdir, CircleImage) in r
    ensures Under(Under(outdir, PluginsDir), ShowText) in r
    ensures forall q :: q in t ==> q in r && r[q] == t[q]
    ensures forall q :: q in r && q !in t ==>
      r[q].Directory? || q == Under(outdir, CircleImage) || q == Under(Under(outdir, PluginsDir), ShowText)
  {
    var withDir := EnsureDir(t, outdir, now);
    var withCircle := AddData(withDir, CircleImage, outdir, now);
    KeepsEntry(withCircle, ShowText, Under(outdir, PluginsDir), now, Under(outdir, CircleImage));
    AddData(withCircle, ShowText, Under(outdir, PluginsDir), now)
  }

  /** `KRPano.hotspots(pano, outdir)`: the supporting files, then the overlay when the
      descriptor has a hotspot list. */
  function StageHotspots(t: Tree, pano: Pano, outdir: Path, now: int): (r: Tree)
    requires "pname" in pano.fields
    ensures forall q :: q in r && q !in t ==>
      || r[q].Directory? || q == Under(outdir, CircleImage) || q == Under(Under(outdir, PluginsDir), ShowText)
      || (pano.hotspots.Some? && q == HotspotsFile(outdir, pano.fields["pname"]))
  {
    var support := StageSupport(t, outdir, now);
    if pano.hotspots.None? then support
    else support[HotspotsFile(outdir, pano.fields["pname"]) := File(now, now, Text(HotspotsDocument(pano.hotspots.value)))]
  }

  /** What staging the hotspots leaves: the circle image and the `showtext` plugin are in
      place; the overlay holds one element per hotspot when there is a list, and is not
      written without one; an entry other than the overlay that existed is unchanged. */
  lemma {:induction false} StageHotspotsResult(t: Tree, pano: Pano, outdir: Path, now: int)
    requires "pname" in pano.fields
    ensures var r := StageHotspots(t, pano, outdir, now);
      var overlay := HotspotsFile(outdir, pano.fields["pname"]);
      && Under(outdir, CircleImage) in r
      && Under(Under(outdir, PluginsDir), ShowText) in r
      && (pano.hotspots.Some? ==> r[overlay] == File(now, now, Text(HotspotsDocument(pano.hotspots.value))))
      && (pano.hotspots.None? ==> r == StageSupport(t, outdir, now))
      && (forall q :: q in t && q != overlay ==> q in r && r[q] == t[q])
      // what appears is a directory, one of the two support files, or the overlay of a list
      && (forall q :: q in r && q !in t ==>
            || r[q].Directory? || q == Under(outdir, CircleImage) || q == Under(Under(outdir, PluginsDir), ShowText)
            || (pano.hotspots.Some? && q == overlay))
  {
    StageHotspotsKeeps(t, pano, outdir, now);
  }

  /** Staging the hotspots changes no entry that existed, except the overlay. */
  lemma {:induction false} StageHotspotsKeeps(t: Tree, pano: Pano, outdir: Path, now: int)
    requires "pname" in pano.fields
    ensures var r := StageHotspots(t, pano, outdir, now);
      forall q :: q in t && q != HotspotsFile(outdir, pano.fields["pname"]) ==> q in r && r[q] == t[q]
  {
  }

  /** `add_data` changes no entry that exists already. */
  lemma {:induction false} KeepsEntry(t: Tree, name: string, dir: Path, now: int, q: Path)
    requires q in t
    ensures q in AddData(t, name, dir, now) && AddData(t, name, dir, now)[q] == t[q]
  {
  }

  /** A second write to the same path replaces the first. */
  lemma {:induction false} UpdateTwice(t: Tree, p: Path, a: Entry, b: Entry)
    ensures t[p := a][p := b] == t[p := b]
  {
  }

  /** The overlay is written with one `write` per piece, as the source does. */
  method WriteHotspots(host: Host, path: Path, hs: seq<Hotspot>, now: int)
    modifies host
    ensures host.tree == old(host.tree)[path := File(now, now, Text(HotspotsDocument(hs)))]
    ensures host.started == old(host.started)
  {
    WritePieces(host, path, HotspotsPreamble, hs, "</krpano>", now);
  }

  /** A text file written as `head`, then one element per hotspot, then `tail`. */
  method WritePieces(host: Host, path: Path, head: string, hs: seq<Hotspot>, tail: string, now: int)
    modifies host
    ensures host.tree == old(host.tree)[path := File(now, now, Text(head + Spots(hs) + tail))]
    ensures host.started == old(host.started)
  {
    ghost var t0 := host.tree;
    host.Write(path, Text(head), now);
    assert hs[..0] == [];
    AppendNothing(head, Spots(hs[..0]));
    for i := 0 to |hs|
      invariant host.tree == t0[path := File(now, now, Text(head + Spots(hs[..i])))]
      invariant host.started == old(host.started)
    {
      SpotsStep(head, hs, i);
      AppendOn(host, t0, path, head + Spots(hs[..i]), SpotText(i, hs[i]), now);
    }
    assert hs[..|hs|] == hs;
    AppendOn(host, t0, path, head + Spots(hs), tail, now);
  }

  /** One hotspot element more in the overlay written so far. */
  lemma {:induction false} SpotsStep(pre: string, hs: seq<Hotspot>, i: nat)
    requires i < |hs|
    ensures pre + Spots(hs[..i + 1]) == (pre + Spots(hs[..i])) + SpotText(i, hs[i])
  {
    assert hs[..i + 1] == hs[..i] + [hs[i]];
    SpotsAppend(hs[..i], hs[i]);
    ConcatAssoc(pre, Spots(hs[..i]), SpotText(i, hs[i]));
  }

  /** A piece appended to a text file written so far. */
  method AppendOn(host: Host, ghost t0: Tree, path: Path, ghost done: string, piece: string, now: int)
    requires host.tree == t0[path := File(now, now, Text(done))]
    modifies host
    ensures host.tree == t0[path := File(now, now, Text(done + piece))]
    ensures host.started == old(host.started)
  {
    ghost var before := host.tree;
    host.AppendText(path, piece, now);
    UpdateTwice(t0, path, before[path], host.tree[path]);
  }

  /** `KRPano.add_data` on the machine. */
  method AddDataOn(host: Host, name: string, dir: Path, now: int)
    modifies host
    ensures host.tree == AddData(old(host.tree), name, dir, now) && host.started == old(host.started)
  {
    if dir !in host.tree {
      host.MakeDirs(dir, now);
    }
    var target := Under(dir, name);
    if target !in host.tree {
      host.Write(target, Bundled(name), now);
    }
  }

  /** `KRPano.hotspots` on the machine. */
  method StageHotspotsOn(host: Host, pano: Pano, outdir: Path, now: int)
    requires "pname" in pano.fields
    modifies host
    ensures host.tree == StageHotspots(old(host.tree), pano, outdir, now) && host.started == old(host.started)
  {
    if outdir !in host.tree {
      host.MakeDirs(outdir, now);
    }
    AddDataOn(host, CircleImage, outdir, now);
    AddDataOn(host, ShowText, Under(outdir, PluginsDir), now);
    assert host.tree == StageSupport(old(host.tree), outdir, now);
    if pano.hotspots.Some? {
      WriteHotspots(host, HotspotsFile(outdir, pano.fields["pname"]), pano.hotspots.value, now);
    }
  }

  /** `add_data` for each name in turn, as a loop. */
  method AddAllOn(host: Host, names: seq<string>, dir: Path, now: int)
    modifies host
    ensures host.tree == AddAll(old(host.tree), names, dir, now) && host.started == old(host.started)
  {
    for i := 0 to |names|
      invariant host.tree == AddAll(old(host.tree), names[..i], dir, now)
      invariant host.started == old(host.started)
    {
      assert names[..i + 1][..i] == names[..i];
      AddDataOn(host, names[i], dir, now);
    }
    assert names[..|names|] == names;
  }

  /** The debug staging of `KRPano.run` on the machine. */
  method StageDebugOn(host: Host, outdir: Path, now: int)
    modifies host
    ensures host.tree == StageDebug(old(host.tree), outdir, now) && host.started == old(host.started)
  {
    AddDataOn(host, HelperTool, outdir, now);
    AddAllOn(host, DebugPlugins, Under(outdir, PluginsDir), now);
  }

}
