/** The panorama descriptor and the parts of `KRPano` that only compute: the template
    and input lookups and the `makepano` argument list. */
module Krpano {
  import opened Paths
  import opened Outcomes
  import opened Files
  import KrpanoTool

  /** One entry of the descriptor's `hotspots` list, each value as `str()` writes it. */
  datatype Hotspot = Hotspot(ath: string, atv: string, description: string)

  /** A panorama descriptor as loaded from YAML: each scalar entry under its key, as
      `str()` of its value, and the `hotspots` list when that key is present. */
  datatype Pano = Pano(fields: map<string, string>, hotspots: Option<seq<Hotspot>>)

  /** `key in pano and pano[key] != ''`. */
  predicate Given(fields: map<string, string>, key: string)
  {
    key in fields && fields[key] != ""
  }

  /** The settings a `KRPano` object is built with: tools binary, panorama root and template. */
  datatype KRPano = KRPano(base: KrpanoTool.KRPanoBase, panoramas: Path, template: Path)

  /** `KRPano.template`: the configured template if it exists, otherwise the file of that
      name in the `templates` directory beside the tools binary. */
  function TemplatePath(t: Tree, k: KRPano): (r: Path)
    ensures k.template in t ==> r == k.template
    ensures k.template !in t && !IsAbsolute(k.template) ==>
      r == Parent(k.base.krpanotools) + ["templates"] + k.template
  {
    if k.template in t then k.template
    else Div(Div(Parent(k.base.krpanotools), ["templates"]), k.template)
  }

  /** `KRPano.pname(fname)`: the literal path if it is a file, otherwise the path under the
      panorama root if that is a file; if neither is, the error names both. */
  function Pname(t: Tree, k: KRPano, fname: string): (r: Result<Path>)
    ensures r.Ok? ==> IsFile(t, r.value)
    ensures r.Ok? ==> r.value == ParsePath(fname) || r.value == Div(k.panoramas, ParsePath(fname))
    ensures IsFile(t, ParsePath(fname)) ==> r == Ok(ParsePath(fname))
    ensures r.Err? <==> !IsFile(t, ParsePath(fname)) && !IsFile(t, Div(k.panoramas, ParsePath(fname)))
    ensures r.Err? ==> r.error == NoSuchFile(ParsePath(fname), Div(k.panoramas, ParsePath(fname)))
  {
    var literal := ParsePath(fname);
    if IsFile(t, literal) then Ok(literal)
    else
      var underRoot := Div(k.panoramas, literal);
      if IsFile(t, underRoot) then Ok(underRoot) else Err(NoSuchFile(literal, underRoot))
  }

  /** The descriptor keys that become optional `makepano` flags, in the order they are added. */
  const ViewShapeKeys: seq<string> := ["vfov", "voffset"]

  /** One `-key=value` flag for each key given with a non-empty value, in key order. */
  function FlagsFor(fields: map<string, string>, keys: seq<string>): seq<string>
  {
    if keys == [] then []
    else
      var key := keys[|keys| - 1];
      FlagsFor(fields, keys[..|keys| - 1]) + (if Given(fields, key) then ["-" + key + "=" + fields[key]] else [])
  }

  /** `-vfov` and `-voffset` each appear exactly when given, `-vfov` first. */
  lemma {:induction false} ViewShapeFlags(fields: map<string, string>)
    ensures FlagsFor(fields, ViewShapeKeys) ==
      (if Given(fields, "vfov") then ["-vfov=" + fields["vfov"]] else []) +
      (if Given(fields, "voffset") then ["-voffset=" + fields["voffset"]] else [])
  {
    var keys := ViewShapeKeys;
    assert keys[..|keys| - 1] == ["vfov"];
    assert ["vfov"][..0] == [];
    var v := if Given(fields, "vfov") then ["-vfov=" + fields["vfov"]] else [];
    var w := if Given(fields, "voffset") then ["-voffset=" + fields["voffset"]] else [];
    assert "-" + "vfov" + "=" == "-vfov=";
    assert "-" + "voffset" + "=" == "-voffset=";
    assert keys[|keys| - 1] == "voffset";
    assert FlagsFor(fields, ["vfov"]) == [] + v;
    assert FlagsFor(fields, keys) == FlagsFor(fields, ["vfov"]) + w;
  }

  /** The scene document, `outdir/Path(pname + '.xml')`. */
  function SceneFile(outdir: Path, pname: string): Path
  {
    Under(outdir, pname + ".xml")
  }

  /** The directory of the generated tiles, by the f-string `{outdir}/{pname}.tiles`. */
  function TilesDir(outdir: Path, pname: string): string
  {
    Str(outdir) + "/" + pname + ".tiles"
  }

  /** The nine leading arguments, in their fixed order. */
  function FixedArgs(t: Tree, k: KRPano, fields: map<string, string>, outdir: Path): seq<string>
    requires "panotype" in fields && "hfov" in fields && "pname" in fields
  {
    var pname := fields["pname"];
    ShapeArgs(fields) + OutputArgs(outdir, pname) + ImageArgs(t, k, outdir, pname)
  }

  /** The first three: projection, field of view, no Flash viewer. */
  function ShapeArgs(fields: map<string, string>): seq<string>
    requires "panotype" in fields && "hfov" in fields
  {
    [ "-panotype=" + fields["panotype"],
      "-hfov=" + fields["hfov"],
      "-flash=false" ]
  }

  /** The next three: where the tiles, the scene document and the preview go. */
  function OutputArgs(outdir: Path, pname: string): seq<string>
  {
    [ "-tilepath=" + TilesDir(outdir, pname) + "/[mres_c/]l%Al/%Av/l%Al[_c]_%Av_%Ah.jpg",
      "-xmlpath=" + Str(SceneFile(outdir, pname)),
      "-previewpath=" + TilesDir(outdir, pname) + "/preview.jpg" ]
  }

  /** The last three: the mobile images, the template, the thumbnail. */
  function ImageArgs(t: Tree, k: KRPano, outdir: Path, pname: string): seq<string>
  {
    [ "-customimage[mobile].path=" + TilesDir(outdir, pname) + "/mobile_%s.jpg",
      "-config=" + Str(TemplatePath(t, k)),
      "-thumbpath=" + TilesDir(outdir, pname) + "/thumb.jpg" ]
  }

  function HtmlArgs(html: bool, outdir: Path, pname: string): seq<string>
  {
    if html then ["-html=true", "-htmlpath=" + Str(outdir) + "/" + pname + ".html"]
    else ["-html=false"]
  }

  /** The argument list `KRPano.run` passes to `makepano` before the input path; the
      list literal reads `panotype` and then `hfov`, and raises on the first missing. */
  function MakepanoArguments(t: Tree, k: KRPano, pano: Pano, outdir: Path, html: bool): Result<seq<string>>
    requires "pname" in pano.fields
  {
    var fields := pano.fields;
    if "panotype" !in fields then Err(MissingKey("panotype"))
    else if "hfov" !in fields then Err(MissingKey("hfov"))
    else Ok(FixedArgs(t, k, fields, outdir) + HtmlArgs(html, outdir, fields["pname"]) + FlagsFor(fields, ViewShapeKeys))
  }

  /** The order of the `makepano` arguments: the fixed nine, then the HTML flag (with its
      path when HTML is wanted), then `-vfov`/`-voffset` exactly when given. */
  lemma {:induction false} MakepanoLayout(t: Tree, k: KRPano, pano: Pano, outdir: Path, html: bool)
    requires "pname" in pano.fields
    ensures MakepanoArguments(t, k, pano, outdir, html).Ok? <==> "panotype" in pano.fields && "hfov" in pano.fields
    ensures MakepanoArguments(t, k, pano, outdir, html).Ok? ==>
      var a := MakepanoArguments(t, k, pano, outdir, html).value;
      var fields := pano.fields;
      var h := if html then 2 else 1;
      && |a| >= 9 + h
      && a[0] == "-panotype=" + fields["panotype"]
      && a[1] == "-hfov=" + fields["hfov"]
      && a[2] == "-flash=false"
      && a[3] == "-tilepath=" + TilesDir(outdir, fields["pname"]) + "/[mres_c/]l%Al/%Av/l%Al[_c]_%Av_%Ah.jpg"
      && a[4] == "-xmlpath=" + Str(SceneFile(outdir, fields["pname"]))
      && a[5] == "-previewpath=" + TilesDir(outdir, fields["pname"]) + "/preview.jpg"
      && a[6] == "-customimage[mobile].path=" + TilesDir(outdir, fields["pname"]) + "/mobile_%s.jpg"
      && a[7] == "-config=" + Str(TemplatePath(t, k))
      && a[8] == "-thumbpath=" + TilesDir(outdir, fields["pname"]) + "/thumb.jpg"
      && a[9] == (if html then "-html=true" else "-html=false")
      && (html ==> a[10] == "-htmlpath=" + Str(outdir) + "/" + fields["pname"] + ".html")
      && a[9 + h..] ==
           (if Given(fields, "vfov") then ["-vfov=" + fields["vfov"]] else []) +
           (if Given(fields, "voffset") then ["-voffset=" + fields["voffset"]] else [])
  {
    var fields := pano.fields;
    if "panotype" in fields && "hfov" in fields {
      ViewShapeFlags(fields);
      var fixed := FixedArgs(t, k, fields, outdir);
      var h := HtmlArgs(html, outdir, fields["pname"]);
      FixedLayout(t, k, fields, outdir);
      HtmlLayout(html, outdir, fields["pname"]);
      var a := fixed + h + FlagsFor(fields, ViewShapeKeys);
      assert MakepanoArguments(t, k, pano, outdir, html) == Ok(a);
      assert a[9 + |h|..] == FlagsFor(fields, ViewShapeKeys);
      assert a[0] == fixed[0] && a[1] == fixed[1] && a[2] == fixed[2];
      assert a[3] == fixed[3] && a[4] == fixed[4] && a[5] == fixed[5];
      assert a[6] == fixed[6] && a[7] == fixed[7] && a[8] == fixed[8];
      assert a[9] == h[0];
    }
  }

  /** The fixed arguments named by the layout. */
  lemma {:induction false} FixedLayout(t: Tree, k: KRPano, fields: map<string, string>, outdir: Path)
    requires "panotype" in fields && "hfov" in fields && "pname" in fields
    ensures var a := FixedArgs(t, k, fields, outdir);
      && |a| == 9
      && a[0] == "-panotype=" + fields["panotype"]
      && a[1] == "-hfov=" + fields["hfov"]
      && a[2] == "-flash=false"
      && a[3] == "-tilepath=" + TilesDir(outdir, fields["pname"]) + "/[mres_c/]l%Al/%Av/l%Al[_c]_%Av_%Ah.jpg"
      && a[4] == "-xmlpath=" + Str(SceneFile(outdir, fields["pname"]))
      && a[5] == "-previewpath=" + TilesDir(outdir, fields["pname"]) + "/preview.jpg"
      && a[6] == "-customimage[mobile].path=" + TilesDir(outdir, fields["pname"]) + "/mobile_%s.jpg"
      && a[7] == "-config=" + Str(TemplatePath(t, k))
      && a[8] == "-thumbpath=" + TilesDir(outdir, fields["pname"]) + "/thumb.jpg"
  {
    var pname := fields["pname"];
    var s, o, i := ShapeArgs(fields), OutputArgs(outdir, pname), ImageArgs(t, k, outdir, pname);
    assert |s| == 3 && s[0] == "-panotype=" + fields["panotype"] && s[1] == "-hfov=" + fields["hfov"] && s[2] == "-flash=false";
    assert |o| == 3 && |i| == 3;
    var a := s + o + i;
    assert a[0] == s[0] && a[1] == s[1] && a[2] == s[2];
    assert a[3] == o[0] && a[4] == o[1] && a[5] == o[2];
    assert a[6] == i[0] && a[7] == i[1] && a[8] == i[2];
  }

  /** The HTML flag, and its path when HTML is wanted. */
  lemma {:induction false} HtmlLayout(html: bool, outdir: Path, pname: string)
    ensures var h := HtmlArgs(html, outdir, pname);
      && |h| == (if html then 2 else 1)
      && h[0] == (if html then "-html=true" else "-html=false")
      && (html ==> h[1] == "-htmlpath=" + Str(outdir) + "/" + pname + ".html")
  {
  }

  /** The loop of `KRPano.run` that appends `-key=value` for each given key. */
  method AppendGiven(fields: map<string, string>, keys: seq<string>, args: seq<string>) returns (out: seq<string>)
    ensures out == args + FlagsFor(fields, keys)
  {
    out := args;
    for i := 0 to |keys|
      invariant out == args + FlagsFor(fields, keys[..i])
    {
      var key := keys[i];
      assert keys[..i + 1][..i] == keys[..i];
      if key in fields && fields[key] != "" {
        out := out + ["-" + key + "=" + fields[key]];
      }
    }
    assert keys[..|keys|] == keys;
  }

  /** `KRPano.run`'s construction of the argument list. */
  method MakepanoArgs(t: Tree, k: KRPano, pano: Pano, outdir: Path, html: bool) returns (r: Result<seq<string>>)
    requires "pname" in pano.fields
    ensures r == MakepanoArguments(t, k, pano, outdir, html)
  {
    var fields := pano.fields;
    if "panotype" !in fields {
      return Err(MissingKey("panotype"));
    }
    if "hfov" !in fields {
      return Err(MissingKey("hfov"));
    }
    var args := AppendGiven(fields, ViewShapeKeys, FixedArgs(t, k, fields, outdir) + HtmlArgs(html, outdir, fields["pname"]));
    r := Ok(args);
  }
}
