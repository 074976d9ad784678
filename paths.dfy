/**
 * The POSIX path functions app.py relies on: `os.path.join` of two paths,
 * `os.path.splitext(...)[0]` and `os.path.basename`.
 */
module Paths {
  /** `s.rfind(c)`: the last position of `c`, or -1. */
  function RFind(s: string, c: char): (r: int)
    ensures -1 <= r < |s|
    ensures r >= 0 ==> s[r] == c
    ensures forall k :: r < k < |s| ==> s[k] != c
  {
    if |s| == 0 then -1
    else if s[|s| - 1] == c then |s| - 1
    else RFind(s[..|s| - 1], c)
  }

  /** `posixpath.join(a, b)`: an absolute `b` replaces `a`; otherwise one `/` between them. */
  function JoinPath(a: string, b: string): (r: string)
    ensures |b| > 0 && b[0] == '/' ==> r == b
    ensures (|b| == 0 || b[0] != '/') ==> |r| >= |a| + |b| && r[..|a|] == a && r[|r| - |b|..] == b
  {
    if |b| > 0 && b[0] == '/' then b
    else if a == "" || a[|a| - 1] == '/' then a + b
    else a + "/" + b
  }

  /**
   * `posixpath.splitext(p)[0]`: the path without its extension, which runs
   * from the last `.` of the last component, unless that component is only
   * dots up to there (a leading-dot name such as `.bashrc` has none).
   */
  function SplitExtRoot(p: string): (r: string)
    ensures |r| <= |p| && r == p[..|r|]
    ensures var ext := p[|r|..];
      ext == "" || (ext[0] == '.' && forall k :: 0 < k < |ext| ==> ext[k] != '.' && ext[k] != '/')
  {
    var sepIndex := RFind(p, '/');
    var dotIndex := RFind(p, '.');
    if dotIndex > sepIndex && exists k :: sepIndex + 1 <= k < dotIndex && p[k] != '.' then p[..dotIndex]
    else p
  }

  /** `posixpath.basename(p)`: what follows the last `/`. */
  function Basename(p: string): (r: string)
    ensures '/' !in r
    ensures |r| <= |p| && r == p[|p| - |r|..]
  {
    p[RFind(p, '/') + 1..]
  }

  /** The extension of `root + ext` is cut off again when the root ends in a proper name. */
  lemma SplitExtAppended(root: string, ext: string)
    requires |root| > 0 && root[|root| - 1] != '.' && root[|root| - 1] != '/'
    requires |ext| > 0 && ext[0] == '.' && forall k :: 0 < k < |ext| ==> ext[k] != '.' && ext[k] != '/'
    ensures SplitExtRoot(root + ext) == root
  {
    var p := root + ext;
    var dotIndex := RFind(p, '.');
    assert p[|root|] == '.';
    assert dotIndex == |root| by {
      forall k | |root| < k < |p| ensures p[k] != '.' {
        assert p[k] == ext[k - |root|];
      }
    }
    assert RFind(p, '/') < |root| - 1 by {
      forall k | |root| - 1 <= k < |p| ensures p[k] != '/' {
        if k >= |root| {
          assert p[k] == ext[k - |root|];
        }
      }
    }
    assert p[|root| - 1] != '.';
  }

  /** The base name of `dir/name` is `name` when `name` holds no `/`. */
  lemma BasenameOfJoin(dir: string, name: string)
    requires |name| > 0 && '/' !in name
    ensures Basename(JoinPath(dir, name)) == name
  {
    var p := JoinPath(dir, name);
    var i := RFind(p, '/');
    assert p[|p| - |name|..] == name;
    forall k | |p| - |name| <= k < |p| ensures p[k] != '/' {
      assert p[k] == name[k - (|p| - |name|)];
    }
    if |p| > |name| {
      assert p[|p| - |name| - 1] == '/';
    }
  }
}
