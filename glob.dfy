/** pathlib's `glob` over a filesystem snapshot. */
module Glob {
  import opened Paths
  import opened Files

  /** `fnmatch` of one name against one pattern component whose only wildcard is `*`. */
  function Matches(name: string, pat: string): bool
    decreases |name| + |pat|
  {
    if pat == [] then name == []
    else if pat[0] == '*' then Matches(name, pat[1..]) || (name != [] && Matches(name[1..], pat))
    else name != [] && name[0] == pat[0] && Matches(name[1..], pat[1..])
  }

  /** A component without wildcards matches only itself. */
  lemma {:induction false} LiteralMatches(name: string, pat: string)
    requires '*' !in pat
    ensures Matches(name, pat) <==> name == pat
  {
    if pat != [] && name != [] {
      LiteralMatches(name[1..], pat[1..]);
      if name[0] == pat[0] && name[1..] == pat[1..] {
        assert name == [name[0]] + name[1..];
        assert pat == [pat[0]] + pat[1..];
      }
    }
  }

  lemma {:induction false} StarMatchesAll(name: string)
    ensures Matches(name, "*")
  {
    if name != [] {
      StarMatchesAll(name[1..]);
    }
  }

  /** `prefix*` selects exactly the names that start with `prefix`. */
  lemma {:induction false} PrefixStar(prefix: string, name: string)
    requires '*' !in prefix
    ensures Matches(name, prefix + "*") <==> prefix <= name
  {
    if prefix == [] {
      assert prefix + "*" == "*";
      StarMatchesAll(name);
    } else {
      assert (prefix + "*")[1..] == prefix[1..] + "*";
      if name != [] {
        PrefixStar(prefix[1..], name[1..]);
      }
    }
  }

  /** `*suffix` selects exactly the names that end with `suffix`. */
  lemma {:induction false} StarSuffix(suffix: string, name: string)
    requires '*' !in suffix
    ensures Matches(name, "*" + suffix) <==> |suffix| <= |name| && name[|name| - |suffix|..] == suffix
  {
    assert ("*" + suffix)[1..] == suffix;
    LiteralMatches(name, suffix);
    if name != [] {
      StarSuffix(suffix, name[1..]);
      if |suffix| < |name| {
        assert name[1..][|name[1..]| - |suffix|..] == name[|name| - |suffix|..];
      }
    }
  }

  /** `q` is a result of `base.glob('/'.join(pat))` for a pattern of `|pat|` components. */
  predicate GlobMatch(base: Path, pat: seq<string>, q: Path)
  {
    && |q| == |base| + |pat|
    && base <= q
    && forall i :: 0 <= i < |pat| ==> Matches(q[|base| + i], pat[i])
  }

  /** Everything `base.glob(pattern)` yields from the snapshot `t`. */
  function GlobSet(t: Tree, base: Path, pat: seq<string>): set<Path>
  {
    set q | q in t && GlobMatch(base, pat, q)
  }

  // Everything `base.glob('**/*')` yields: every entry strictly below `base`.
  function Below(t: Tree, base: Path): set<Path>
  {
    set q | q in t && base < q
  }

  /** `xs` lists the set `s` once each, in some order (the order the OS returns). */
  predicate Enumerates(xs: seq<Path>, s: set<Path>)
  {
    && (forall i, j :: 0 <= i < j < |xs| ==> xs[i] != xs[j])
    && (forall i :: 0 <= i < |xs| ==> xs[i] in s)
    && (forall q :: q in s ==> q in xs)
  }

  /** The order in which the filesystem hands out the entries of `s`: each once, in an
      order the model does not fix. */
  method Listing(s: set<Path>) returns (xs: seq<Path>)
    ensures Enumerates(xs, s)
  {
    var pending := s;
    xs := [];
    while pending != {}
      invariant pending <= s
      invariant forall q :: q in s ==> q in pending || q in xs
      invariant forall i :: 0 <= i < |xs| ==> xs[i] in s && xs[i] !in pending
      invariant forall i, j :: 0 <= i < j < |xs| ==> xs[i] != xs[j]
      decreases |pending|
    {
      var q :| q in pending;
      pending := pending - {q};
      xs := xs + [q];
    }
  }
}
