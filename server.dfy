/**
 * The route path of a REST handler: the handler's registered name and the handler's own
 * sub-path, each stripped of the '/' characters at both ends and joined under a leading '/'.
 */
module Server {

  /** Drops every leading '/'. */
  function TrimLeft(s: string): (t: string)
    ensures |t| <= |s| && t == s[|s| - |t|..]
    ensures forall i | 0 <= i < |s| - |t| :: s[i] == '/'
    ensures |t| == 0 || t[0] != '/'
    decreases |s|
  {
    if |s| > 0 && s[0] == '/' then TrimLeft(s[1..]) else s
  }

  /** Drops every trailing '/'. */
  function TrimRight(s: string): (t: string)
    ensures |t| <= |s| && t == s[..|t|]
    ensures forall i | |t| <= i < |s| :: s[i] == '/'
    ensures |t| == 0 || t[|t| - 1] != '/'
    decreases |s|
  {
    if |s| > 0 && s[|s| - 1] == '/' then TrimRight(s[..|s| - 1]) else s
  }

  /** Go's strings.Trim(s, "/"): the part of `s` between its leading and trailing runs of '/'. */
  function Trim(s: string): (t: string)
    ensures |t| == 0 || (t[0] != '/' && t[|t| - 1] != '/')
  {
    TrimRight(TrimLeft(s))
  }

  /** buildPath: "/name" when the sub-path is only slashes, "/name/sub" otherwise. */
  function BuildPath(name: string, subPath: string): (r: string)
    ensures |r| > 0 && r[0] == '/'
    ensures |Trim(subPath)| > 0 || |Trim(name)| > 0 ==> r[|r| - 1] != '/'
  {
    var sub := Trim(subPath);
    if |sub| == 0 then "/" + Trim(name) else "/" + Trim(name) + "/" + sub
  }

  // ---------------------------------------------------------------------------
  // Trimming

  lemma TrimLeftOfTrimmed(s: string)
    requires |s| == 0 || s[0] != '/'
    ensures TrimLeft(s) == s
  {
  }

  lemma TrimRightOfTrimmed(s: string)
    requires |s| == 0 || s[|s| - 1] != '/'
    ensures TrimRight(s) == s
  {
  }

  /** A trailing '/' survives trimming on the left unless nothing but slashes was there. */
  lemma {:induction false} TrimLeftAppendSlash(s: string)
    ensures TrimLeft(s + "/") == if TrimLeft(s) == [] then [] else TrimLeft(s) + "/"
    decreases |s|
  {
    if |s| == 0 {
      assert TrimLeft("/") == TrimLeft("/"[1..]);
      assert "/"[1..] == [];
    } else if s[0] == '/' {
      assert (s + "/")[1..] == s[1..] + "/";
      TrimLeftAppendSlash(s[1..]);
    } else {
      assert (s + "/")[0] == s[0];
    }
  }

  /** An extra leading '/' does not change the trimmed string. */
  lemma TrimPrependSlash(s: string)
    ensures Trim("/" + s) == Trim(s)
  {
    assert ("/" + s)[1..] == s;
  }

  /** An extra trailing '/' does not change the trimmed string. */
  lemma TrimAppendSlash(s: string)
    ensures Trim(s + "/") == Trim(s)
  {
    TrimLeftAppendSlash(s);
    var t := TrimLeft(s);
    if t != [] {
      assert (t + "/")[..|t + "/"| - 1] == t;
    }
  }

  /** Trimming twice is trimming once. */
  lemma TrimIdempotent(s: string)
    ensures Trim(Trim(s)) == Trim(s)
  {
    var t := Trim(s);
    TrimLeftOfTrimmed(t);
    TrimRightOfTrimmed(t);
  }

  // ---------------------------------------------------------------------------
  // Building paths

  /** Leading or trailing slashes on either argument do not change the path. */
  lemma BuildPathIgnoresBoundarySlashes(name: string, subPath: string)
    ensures BuildPath("/" + name, subPath) == BuildPath(name, subPath)
    ensures BuildPath(name + "/", subPath) == BuildPath(name, subPath)
    ensures BuildPath(name, "/" + subPath) == BuildPath(name, subPath)
    ensures BuildPath(name, subPath + "/") == BuildPath(name, subPath)
  {
    TrimPrependSlash(name);
    TrimAppendSlash(name);
    TrimPrependSlash(subPath);
    TrimAppendSlash(subPath);
  }

  /** A name made only of slashes leaves an empty segment: the sub-path follows "//". */
  lemma BuildPathEmptyName(subPath: string)
    requires |Trim(subPath)| > 0
    ensures BuildPath("/", subPath) == "//" + Trim(subPath)
  {
    assert "/"[1..] == [];
  }

  /** "/x/" trims to "x" for any single character x other than '/'. */
  lemma TrimSlashed(x: char)
    requires x != '/'
    ensures Trim(['/', x, '/']) == [x]
  {
    assert ['/', x, '/'][1..] == [x, '/'];
    assert [x, '/'][..1] == [x];
    assert TrimLeft([x, '/']) == [x, '/'];
    assert TrimRight([x]) == [x];
  }

  /** A one-character name with no sub-path, bare or between slashes: "a" and "/a/" both give "/a". */
  lemma BuildPathSingle(x: char)
    requires x != '/'
    ensures BuildPath([x], []) == ['/', x]
    ensures BuildPath(['/', x, '/'], []) == ['/', x]
  {
    assert TrimLeft([x]) == [x];
    assert TrimRight([x]) == [x];
    assert Trim([]) == [];
    TrimSlashed(x);
  }

  /** One-character name and sub-path between slashes: "/a/" and "/b/" give "/a/b". */
  lemma BuildPathPair(x: char, y: char)
    requires x != '/' && y != '/'
    ensures BuildPath(['/', x, '/'], ['/', y, '/']) == ['/', x, '/', y]
  {
    TrimSlashed(x);
    TrimSlashed(y);
  }
}
