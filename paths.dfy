/** pathlib paths as sequences of components. */
module Paths {
  import opened Text

  /** A path as its components; an absolute path starts with the component "".
      The empty sequence is pathlib's `Path('.')`. */
  type Path = seq<string>

  /** `str(path)`. */
  function Str(p: Path): string
  {
    if p == [] then "." else if p == [""] then "/" else Join("/", p)
  }

  /** The components pathlib keeps: empty ones and "." are dropped. */
  function Components(parts: seq<string>): (r: seq<string>)
    ensures |r| <= |parts|
    ensures forall i :: 0 <= i < |r| ==> r[i] != "" && r[i] != "."
  {
    if parts == [] then []
    else (if parts[0] == "" || parts[0] == "." then [] else [parts[0]]) + Components(parts[1..])
  }

  /** `Path(s)` for a string `s`. */
  function ParsePath(s: string): Path
  {
    var comps := Components(Split(s, '/'));
    if s != [] && s[0] == '/' then [""] + comps else comps
  }

  predicate IsAbsolute(p: Path)
  {
    p != [] && p[0] == ""
  }

  /** `a / b`: an absolute right-hand side replaces the left. */
  function Div(a: Path, b: Path): (r: Path)
    ensures !IsAbsolute(b) ==> a <= r
  {
    if IsAbsolute(b) then b else a + b
  }

  /** A plain file name, one that `Path` keeps as a single component. */
  predicate IsPlainName(name: string)
  {
    name != "" && name != "." && '/' !in name
  }

  /** `dir / name` for a string `name`; a plain name is one more component. */
  function Under(dir: Path, name: string): Path
  {
    if IsPlainName(name) then dir + [name] else Div(dir, ParsePath(name))
  }

  /** `Under` is pathlib's `/` applied to `Path(name)`. */
  lemma {:induction false} UnderIsDiv(dir: Path, name: string)
    ensures Under(dir, name) == Div(dir, ParsePath(name))
  {
    if IsPlainName(name) {
      SplitWithoutSeparator(name, '/');
      assert Split(name, '/') == [name];
      assert Components([name]) == [name] + Components([]);
    }
  }

  /** A last component that `Path` keeps is appended as it is. */
  lemma {:induction false} ComponentsSnoc(parts: seq<string>, x: string)
    requires x != "" && x != "."
    ensures Components(parts + [x]) == Components(parts) + [x]
  {
    if parts == [] {
      assert [x][1..] == [];
    } else {
      assert (parts + [x])[1..] == parts[1..] + [x];
      ComponentsSnoc(parts[1..], x);
    }
  }

  /** The name of `dir / (s + ext)`, for an extension `ext` without a slash, is the
      last piece of `s` followed by `ext`. */
  lemma {:induction false} BaseNameUnder(dir: Path, s: string, ext: string)
    requires ext != "" && ext != "." && '/' !in ext
    ensures BaseName(Under(dir, s + ext)) == LastPiece(s, '/') + ext
  {
    UnderIsDiv(dir, s + ext);
    SplitAppend(s, ext, '/');
    var parts := Split(s, '/');
    var last := LastPiece(s, '/') + ext;
    assert last != "" && last != ".";
    ComponentsSnoc(parts[..|parts| - 1], last);
    var comps := Components(Split(s + ext, '/'));
    assert comps[|comps| - 1] == last;
    var p := ParsePath(s + ext);
    assert p != [] && p[|p| - 1] == last;
  }

  /** `path.parent`. */
  function Parent(p: Path): (r: Path)
    ensures r <= p
  {
    if p == [] || p == [""] then p else p[..|p| - 1]
  }

  /** `path.name`. */
  function BaseName(p: Path): string
  {
    if p == [] then "" else p[|p| - 1]
  }

  /** `s.rfind(c)`: the last index holding `c`, or -1. */
  function RFind(s: string, c: char): (i: int)
    ensures -1 <= i < |s|
    ensures 0 <= i ==> s[i] == c && forall j :: i < j < |s| ==> s[j] != c
    ensures i == -1 ==> c !in s
  {
    if s == [] then -1
    else if s[|s| - 1] == c then |s| - 1
    else RFind(s[..|s| - 1], c)
  }

  /** `PurePath.suffix` of a file name: from its last dot on, if that dot is
      neither the first nor the last character; otherwise empty. */
  function Suffix(name: string): string
  {
    var i := RFind(name, '.');
    if 0 < i < |name| - 1 then name[i..] else ""
  }

  /** `PurePath.with_suffix` on a file name. */
  function WithSuffix(name: string, suffix: string): string
  {
    var current := Suffix(name);
    name[..|name| - |current|] + suffix
  }

  /** An extension such as ".jpg": a dot and then at least one character, none a dot. */
  predicate IsExtension(ext: string)
  {
    |ext| >= 2 && ext[0] == '.' && '.' !in ext[1..]
  }

  /** A name has suffix `ext` exactly when it ends with `ext` after at least one other character. */
  lemma {:induction false} SuffixIs(name: string, ext: string)
    requires IsExtension(ext)
    ensures Suffix(name) == ext <==> |name| > |ext| && name[|name| - |ext|..] == ext
  {
    var i := RFind(name, '.');
    if |name| > |ext| && name[|name| - |ext|..] == ext {
      var k := |name| - |ext|;
      assert name[k] == '.';
      forall j | k < j < |name| ensures name[j] != '.' {
        assert name[j] == ext[j - k];
        assert ext[1..][j - k - 1] == ext[j - k];
      }
      LastAt(name, '.', k);
    }
    if Suffix(name) == ext {
      assert 0 < i < |name| - 1;
      assert name[i..] == ext;
    }
  }

  /** An index holding `c` with no `c` after it is what `rfind` finds. */
  lemma {:induction false} LastAt(s: string, c: char, k: nat)
    requires k < |s| && s[k] == c && forall j :: k < j < |s| ==> s[j] != c
    ensures RFind(s, c) == k
  {
    var i := RFind(s, c);
    assert i != -1 by {
      assert c in s;
    }
    assert k <= i;
  }

  /** Replacing a known extension keeps everything before it. */
  lemma {:induction false} WithSuffixReplaces(name: string, ext: string, ext2: string)
    requires IsExtension(ext) && Suffix(name) == ext
    ensures WithSuffix(name, ext2) == name[..|name| - |ext|] + ext2
  {
  }
}
