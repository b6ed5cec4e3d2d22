/**
  The part of Node's POSIX `path` module that the upload service relies on:
  `extname`, which gives the extension of the final component of a path.

  Node scans the path from the right: trailing `/` characters are skipped, the
  component ends at the next `/`, and the extension runs from the last `.` of
  that component to its end. It is empty when the component has no `.`, when
  its only `.` is its first character (`.bashrc`), and when the component is
  exactly `..`.
*/
module NodePath {
  import opened Wrappers

  /** `a` is a suffix of `b`. */
  predicate IsSuffix(a: string, b: string) {
    |a| <= |b| && b[|b| - |a|..] == a
  }

  /** The index of the last occurrence of `c` in `s`, if any. */
  function LastIndexOf(s: string, c: char): (r: Option<nat>)
    ensures r.None? <==> c !in s
    ensures r.Some? ==> r.value < |s| && s[r.value] == c
    ensures r.Some? ==> forall k :: r.value < k < |s| ==> s[k] != c
  {
    if s == [] then None
    else if s[|s| - 1] == c then Some(|s| - 1)
    else LastIndexOf(s[..|s| - 1], c)
  }

  /** `d` is the last index of `c` when `c` is at `d` and nowhere after it. */
  lemma LastIndexOfIs(s: string, c: char, d: nat)
    requires d < |s| && s[d] == c
    requires forall k :: d < k < |s| ==> s[k] != c
    ensures LastIndexOf(s, c) == Some(d)
  {
    assert s[d] in s;
  }

  /** The path without the run of `/` characters at its end. */
  function TrimTrailingSlashes(p: string): (r: string)
    ensures r <= p
    ensures r == [] || r[|r| - 1] != '/'
    ensures forall k :: |r| <= k < |p| ==> p[k] == '/'
  {
    if p != [] && p[|p| - 1] == '/' then TrimTrailingSlashes(p[..|p| - 1]) else p
  }

  /** The text after the last `/` of `t` (all of `t` if it has none). */
  function AfterLastSlash(t: string): (r: string)
    ensures '/' !in r
    ensures IsSuffix(r, t)
    ensures |r| < |t| ==> t[|t| - |r| - 1] == '/'
  {
    match LastIndexOf(t, '/')
    case None => t
    case Some(i) => t[i + 1..]
  }

  /** The last `/`-separated component of the path, trailing slashes ignored. */
  function BaseName(p: string): (r: string)
    ensures '/' !in r
    ensures IsSuffix(r, TrimTrailingSlashes(p))
    ensures var t := TrimTrailingSlashes(p); |r| < |t| ==> t[|t| - |r| - 1] == '/'
  {
    AfterLastSlash(TrimTrailingSlashes(p))
  }

  /**
    The extension of one path component: the suffix from its last `.`, or
    the empty string when there is no `.`, when the only `.` is the first
    character, or when the component is `..`. A non-empty extension is one
    `.` followed by no other `.`, and something precedes it in the component.
  */
  function ComponentExt(b: string): (r: string)
    ensures r == [] || (r[0] == '.' && '.' !in r[1..])
    ensures IsSuffix(r, b)
    ensures r != [] ==> |r| < |b|
  {
    match LastIndexOf(b, '.')
    case None => ""
    case Some(d) => if d == 0 || b == ".." then "" else b[d..]
  }

  /** Node's `path.extname`: the extension of the last component of the path. */
  function ExtName(p: string): (r: string)
    ensures r == [] || (r[0] == '.' && '.' !in r[1..])
    ensures IsSuffix(r, BaseName(p))
    ensures r != [] ==> |r| < |BaseName(p)|
  {
    ComponentExt(BaseName(p))
  }

  /**
    The extension is empty exactly when the base name has no `.` after its
    first character, or is the parent-directory name `..`.
  */
  lemma {:induction false} ExtNameEmptyIff(p: string)
    ensures ExtName(p) == [] <==>
              (forall k :: 0 < k < |BaseName(p)| ==> BaseName(p)[k] != '.') || BaseName(p) == ".."
  {
    var b := BaseName(p);
    match LastIndexOf(b, '.')
    case None =>
    case Some(d) =>
      if d == 0 {
        forall k | 0 < k < |b| ensures b[k] != '.' { }
      } else if b != ".." {
        assert b[d..] != [] && 0 < d < |b| && b[d] == '.';
      }
  }

  /**
    The extension never contains a `/` and is taken from the end of the path
    (after trailing slashes): no other part of the path reaches the result.
  */
  lemma {:induction false} ExtNameIsTailOfPath(p: string)
    ensures '/' !in ExtName(p)
    ensures IsSuffix(ExtName(p), TrimTrailingSlashes(p))
    ensures TrimTrailingSlashes(p) <= p
  {
    var e, b, t := ExtName(p), BaseName(p), TrimTrailingSlashes(p);
    NoSlashInSuffix(e, b);
    SuffixOfSuffix(e, b, t);
  }

  /** A suffix of a string free of `/` is free of `/`. */
  lemma NoSlashInSuffix(a: string, b: string)
    requires IsSuffix(a, b) && '/' !in b
    ensures '/' !in a
  {
    forall k | 0 <= k < |a| ensures a[k] != '/' {
      assert a[k] == b[|b| - |a| + k];
    }
  }

  /** Being a suffix is transitive. */
  lemma SuffixOfSuffix(a: string, b: string, c: string)
    requires IsSuffix(a, b) && IsSuffix(b, c)
    ensures IsSuffix(a, c)
  {
    assert c[|c| - |b|..][|b| - |a|..] == c[|c| - |a|..];
  }

  /** A string that holds no `/` is its own base name. */
  lemma BaseNameOfComponent(s: string)
    requires '/' !in s
    ensures TrimTrailingSlashes(s) == s
    ensures BaseName(s) == s
  {
    if s != [] {
      assert s[|s| - 1] in s;
    }
  }

  /** A stem free of `.` followed by an extension-shaped suffix has that suffix as its extension. */
  lemma ComponentExtOfStem(stem: string, ext: string)
    requires stem != [] && '.' !in stem
    requires ext == [] || (ext[0] == '.' && '.' !in ext[1..])
    ensures ComponentExt(stem + ext) == ext
  {
    var s := stem + ext;
    if ext == [] {
      assert s == stem;
    } else {
      var d := |stem|;
      assert s[d] == '.';
      forall k | d < k < |s| ensures s[k] != '.' {
        assert s[k] == ext[1..][k - d - 1];
      }
      LastIndexOfIs(s, '.', d);
      assert s[0] == stem[0];
      assert s[d..] == ext;
    }
  }

  /**
    On a string with no `/` made of a stem free of `.` followed by an
    extension (empty, or one `.` and then neither `.` nor `/`), `ExtName`
    gives back exactly that extension.
  */
  lemma ExtNameOfPlainName(stem: string, ext: string)
    requires stem != [] && '.' !in stem && '/' !in stem
    requires ext == [] || (ext[0] == '.' && '/' !in ext && '.' !in ext[1..])
    ensures ExtName(stem + ext) == ext
  {
    var s := stem + ext;
    forall k | 0 <= k < |s| ensures s[k] != '/' {
      if k < |stem| { assert s[k] == stem[k]; } else { assert s[k] == ext[k - |stem|]; }
    }
    BaseNameOfComponent(s);
    ComponentExtOfStem(stem, ext);
  }

  /** Only the last component counts: dots in directory names do not reach the extension. */
  lemma ExtNameOfLastComponent(dir: string, name: string)
    requires name != [] && '/' !in name
    ensures ExtName(dir + "/" + name) == ComponentExt(name)
  {
    var t := dir + "/" + name;
    assert t[|t| - 1] == name[|name| - 1];
    assert name[|name| - 1] in name;
    assert TrimTrailingSlashes(t) == t;
    forall k | |dir| < k < |t| ensures t[k] != '/' {
      assert t[k] == name[k - |dir| - 1] && name[k - |dir| - 1] in name;
    }
    assert t[|dir|] == '/';
    LastIndexOfIs(t, '/', |dir|);
    assert t[|dir| + 1..] == name;
  }

  /** A trailing `/` does not change the extension: `a.txt/` has extension `.txt`. */
  lemma ExtNameIgnoresTrailingSlash(p: string)
    ensures ExtName(p + "/") == ExtName(p)
  {
    var q := p + "/";
    assert q[..|q| - 1] == p;
    assert TrimTrailingSlashes(q) == TrimTrailingSlashes(p);
  }

  /**
    On a name with no `/` whose last `.` is at position `d > 0`, the
    extension is everything from that `.` on (unless the name is `..`).
  */
  lemma ExtNameFromLastDot(s: string, d: nat)
    requires '/' !in s && s != ".."
    requires 0 < d < |s| && s[d] == '.'
    requires forall k :: d < k < |s| ==> s[k] != '.'
    ensures ExtName(s) == s[d..]
  {
    BaseNameOfComponent(s);
    LastIndexOfIs(s, '.', d);
  }

  // The examples of Node's documentation of `path.extname`.

  lemma ExtNameOfDoubleExtension()
    ensures ExtName("index.coffee.md") == ".md"
  {
    ExtNameFromLastDot("index.coffee.md", 12);
  }

  lemma ExtNameOfTrailingDot()
    ensures ExtName("index.") == "."
  {
    ExtNameFromLastDot("index.", 5);
  }

  lemma ExtNameOfDottedHiddenFile()
    ensures ExtName(".index.md") == ".md"
  {
    ExtNameFromLastDot(".index.md", 6);
  }

  // Further cases: a plain name, a leading dot only, and the parent directory.

  lemma ExtNameOfTextFile()
    ensures ExtName("a.txt") == ".txt"
  {
    ExtNameFromLastDot("a.txt", 1);
  }

  lemma ExtNameOfHiddenFile()
    ensures ExtName(".bashrc") == ""
  {
    var s := ".bashrc";
    BaseNameOfComponent(s);
    LastIndexOfIs(s, '.', 0);
  }

  lemma ExtNameOfParentDir()
    ensures ExtName("..") == ""
  {
    var s := "..";
    BaseNameOfComponent(s);
    LastIndexOfIs(s, '.', 1);
  }
}
