/** The changes `KRPano.run` makes to the scene document `makepano` writes: the initial
    view is overridden from the descriptor, and includes and events are appended. */
module Scene {
  import opened Outcomes
  import opened Xml
  import opened Krpano

  /** The view attributes a descriptor may override, in the order they are set. */
  const ViewKeys: seq<string> := ["hlookat", "vlookat", "fov"]

  /** `attrib` after `attrib[o] = pano[o]` for each key `o` in `keys` given in the descriptor. */
  function Overrides(attrib: map<string, string>, fields: map<string, string>, keys: seq<string>): (r: map<string, string>)
    ensures forall a :: a in r <==> a in attrib || (a in keys && Given(fields, a))
    ensures forall a :: a in r ==> r[a] == if a in keys && Given(fields, a) then fields[a] else attrib[a]
  {
    if keys == [] then attrib
    else
      var key := keys[|keys| - 1];
      var before := Overrides(attrib, fields, keys[..|keys| - 1]);
      assert forall a :: a in keys <==> a in keys[..|keys| - 1] || a == key by {
        assert keys == keys[..|keys| - 1] + [key];
      }
      if Given(fields, key) then before[key := fields[key]] else before
  }

  /** The first `view` child of the root with its attributes overridden; no `view`, no change. */
  function OverrideView(root: Element, fields: map<string, string>): Element
  {
    match FindFirst(root.children, "view")
    case None => root
    case Some(i) =>
      var view := root.children[i];
      root.(children := root.children[i := view.(attrib := Overrides(view.attrib, fields, ViewKeys))])
  }

  function Include(url: string): Element
  {
    Element("include", map["url" := url], [])
  }

  /** The `onviewchange` handler the debug mode installs, which traces the view. */
  const TraceView: string :=
    "showlog(true);trace('hlookat ',view.hlookat);trace('vlookat ',view.vlookat);trace('fov ',view.fov);"

  /** The include of the hotspot overlay, when the descriptor has a hotspot list. */
  function HotspotAdditions(pano: Pano): seq<Element>
    requires "pname" in pano.fields
  {
    if pano.hotspots.Some? then [Include(pano.fields["pname"] + "_hotspots.xml")] else []
  }

  /** The url under which the debug mode includes the helper tool. */
  const HelperUrl: string := "partialpano_helpertool.xml"

  /** The url under which the debug mode includes krpano's toolbox plugin. */
  const ToolboxUrl: string := "plugins/toolbox.xml"

  /** In debug mode, the trace events, the helper tool and the toolbox. */
  function DebugAdditions(debug: bool): seq<Element>
  {
    if debug
    then [Element("events", map["onviewchange" := TraceView], []),
          Include(HelperUrl),
          Include(ToolboxUrl)]
    else []
  }

  /** The children appended to the root, hotspot include first. */
  function Additions(pano: Pano, debug: bool): seq<Element>
    requires "pname" in pano.fields
  {
    HotspotAdditions(pano) + DebugAdditions(debug)
  }

  /** The document `KRPano.run` writes back, given the one `makepano` produced. */
  function Mutate(produced: Element, pano: Pano, debug: bool): Element
    requires "pname" in pano.fields
  {
    var viewed := OverrideView(produced, pano.fields);
    viewed.(children := viewed.children + Additions(pano, debug))
  }

  /** The root keeps its tag and attributes; its old children keep their places and, all
      but the view, their content; the additions come after them. */
  lemma {:induction false} MutateShape(produced: Element, pano: Pano, debug: bool)
    requires "pname" in pano.fields
    ensures var r := Mutate(produced, pano, debug);
      && r.tag == produced.tag && r.attrib == produced.attrib
      && |r.children| == |produced.children| + |Additions(pano, debug)|
      && r.children[|produced.children|..] == Additions(pano, debug)
      && forall j :: 0 <= j < |produced.children| && produced.children[j].tag != "view" ==>
           r.children[j] == produced.children[j]
  {
    var r := Mutate(produced, pano, debug);
    var viewed := OverrideView(produced, pano.fields);
    assert |viewed.children| == |produced.children|;
    assert r.children[|produced.children|..] == Additions(pano, debug);
  }

  /** The first `view` child carries each given `hlookat`/`vlookat`/`fov`, keeps every
      other attribute, and keeps its tag and children. */
  lemma {:induction false} MutateView(produced: Element, pano: Pano, debug: bool, i: nat)
    requires "pname" in pano.fields
    requires FindFirst(produced.children, "view") == Some(i)
    ensures var view := produced.children[i];
      var r := Mutate(produced, pano, debug).children[i];
      && r.tag == "view" && r.children == view.children
      && (forall a :: a in ViewKeys && Given(pano.fields, a) ==> a in r.attrib && r.attrib[a] == pano.fields[a])
      && (forall a :: a !in ViewKeys || !Given(pano.fields, a) ==>
            (a in r.attrib <==> a in view.attrib) && (a in view.attrib ==> r.attrib[a] == view.attrib[a]))
  {
  }

  /** Without a `view` child the produced children are kept exactly. */
  lemma {:induction false} MutateNoView(produced: Element, pano: Pano, debug: bool)
    requires "pname" in pano.fields
    requires forall j :: 0 <= j < |produced.children| ==> produced.children[j].tag != "view"
    ensures Mutate(produced, pano, debug).children == produced.children + Additions(pano, debug)
  {
  }

  /** Only a later `view` than the first is left alone. */
  lemma {:induction false} OnlyFirstView(produced: Element, pano: Pano, debug: bool, i: nat, j: nat)
    requires "pname" in pano.fields
    requires FindFirst(produced.children, "view") == Some(i)
    requires i < j < |produced.children|
    ensures Mutate(produced, pano, debug).children[j] == produced.children[j]
  {
  }

  /** Overriding the view a second time changes nothing. */
  lemma {:induction false} OverrideViewIdempotent(root: Element, fields: map<string, string>)
    ensures OverrideView(OverrideView(root, fields), fields) == OverrideView(root, fields)
  {
    match FindFirst(root.children, "view")
    case None =>
    case Some(i) =>
      var v0 := root.children[i];
      var o := Overrides(v0.attrib, fields, ViewKeys);
      var once := root.(children := root.children[i := v0.(attrib := o)]);
      assert once == OverrideView(root, fields);
      assert FindFirst(once.children, "view") == Some(i) by {
        SameTagsSameFind(root.children, once.children, "view");
      }
      assert Overrides(o, fields, ViewKeys) == o by {
        OverridesTwice(v0.attrib, fields, ViewKeys);
      }
      assert once.children[i] == v0.(attrib := o);
      assert once.children[i := v0.(attrib := o)] == once.children;
  }

  /** Setting the same attributes twice is setting them once. */
  lemma {:induction false} OverridesTwice(attrib: map<string, string>, fields: map<string, string>, keys: seq<string>)
    ensures Overrides(Overrides(attrib, fields, keys), fields, keys) == Overrides(attrib, fields, keys)
  {
    var once := Overrides(attrib, fields, keys);
    var twice := Overrides(once, fields, keys);
    assert twice.Keys == once.Keys;
  }

  /** `find` only looks at tags. */
  lemma {:induction false} SameTagsSameFind(a: seq<Element>, b: seq<Element>, tag: string)
    requires |a| == |b|
    requires forall j :: 0 <= j < |a| ==> a[j].tag == b[j].tag
    ensures FindFirst(a, tag) == FindFirst(b, tag)
  {
    if a != [] {
      SameTagsSameFind(a[1..], b[1..], tag);
    }
  }

  /** In debug mode the root ends with the trace events, the helper tool and the toolbox,
      after the hotspot include when there is one. */
  lemma {:induction false} DebugAdditionsLast(produced: Element, pano: Pano)
    requires "pname" in pano.fields
    ensures var r := Mutate(produced, pano, true).children;
      && |r| >= 3
      && r[|r| - 3].tag == "events" && r[|r| - 3].attrib == map["onviewchange" := TraceView]
      && r[|r| - 2] == Include(HelperUrl)
      && r[|r| - 1] == Include(ToolboxUrl)
      && (pano.hotspots.Some? ==> r[|r| - 4] == Include(pano.fields["pname"] + "_hotspots.xml"))
  {
    MutateShape(produced, pano, true);
  }

  /** A view whose `hlookat` is 0 and a descriptor giving `hlookat: 30` yield `hlookat="30"`. */
  lemma {:induction false} HlookatExample()
    ensures var view := Element("view", map["hlookat" := "0", "fov" := "90"], []);
      var produced := Element("krpano", map[], [Element("preview", map[], []), view]);
      var pano := Pano(map["pname" := "p", "hlookat" := "30"], None);
      Mutate(produced, pano, false) ==
        Element("krpano", map[], [Element("preview", map[], []),
                                  Element("view", map["hlookat" := "30", "fov" := "90"], [])])
  {
    var view := Element("view", map["hlookat" := "0", "fov" := "90"], []);
    var produced := Element("krpano", map[], [Element("preview", map[], []), view]);
    var fields := map["pname" := "p", "hlookat" := "30"];
    var pano := Pano(fields, None);
    assert FindFirst(produced.children, "view") == Some(1);
    HlookatAttributes();
    var viewed := produced.(children := produced.children[1 := view.(attrib := map["hlookat" := "30", "fov" := "90"])]);
    assert OverrideView(produced, fields) == viewed;
    assert Additions(pano, false) == [];
    assert viewed.children + [] == viewed.children;
  }

  /** The attributes of that example's view after the override. */
  lemma {:induction false} HlookatAttributes()
    ensures Overrides(map["hlookat" := "0", "fov" := "90"], map["pname" := "p", "hlookat" := "30"], ViewKeys)
      == map["hlookat" := "30", "fov" := "90"]
  {
    var fields := map["pname" := "p", "hlookat" := "30"];
    var o := Overrides(map["hlookat" := "0", "fov" := "90"], fields, ViewKeys);
    var target := map["hlookat" := "30", "fov" := "90"];
    assert !Given(fields, "vlookat") && !Given(fields, "fov");
    assert o.Keys == target.Keys;
  }

  /** One more key of the loop over `keys` sets that key when it is given. */
  lemma {:induction false} OverridesStep(attrib: map<string, string>, fields: map<string, string>, keys: seq<string>, n: nat)
    requires n < |keys|
    ensures var before := Overrides(attrib, fields, keys[..n]);
      Overrides(attrib, fields, keys[..n + 1]) ==
        if Given(fields, keys[n]) then before[keys[n] := fields[keys[n]]] else before
  {
    assert keys[..n + 1][..n] == keys[..n];
  }

  /** The view override step of `KRPano.run` on the parsed document, in place. */
  method OverrideViewIn(et: ElementTree, fields: map<string, string>)
    modifies et
    ensures et.root == OverrideView(old(et.root), fields)
  {
    var found := FindFirst(et.root.children, "view");
    if found.Some? {
      var i := found.value;
      ghost var start := et.root.children[i].attrib;
      for n := 0 to |ViewKeys|
        invariant |et.root.children| == |old(et.root.children)|
        invariant et.root == old(et.root).(children := old(et.root.children)[i := old(et.root.children[i]).(attrib := Overrides(start, fields, ViewKeys[..n]))])
      {
        var key := ViewKeys[n];
        OverridesStep(start, fields, ViewKeys, n);
        if key in fields && fields[key] != "" {
          et.SetAttribute(i, key, fields[key]);
        }
      }
      assert ViewKeys[..|ViewKeys|] == ViewKeys;
    }
  }
}
