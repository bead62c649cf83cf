/**
 * The POSIX `path.extname` rule of Node.js, which the upload route uses to
 * carry the uploaded file's extension over to its temporary copy.
 */
module NodePath {
  import opened Outcomes

  /** Index of the last occurrence of `c` in `s`, if any. */
  function LastIndexOf(s: string, c: char): (k: Option<nat>)
    ensures k.Some? ==> k.value < |s| && s[k.value] == c
    ensures k.Some? ==> forall j :: k.value < j < |s| ==> s[j] != c
    ensures k.None? ==> forall j :: 0 <= j < |s| ==> s[j] != c
  {
    if |s| == 0 then None
    else if s[|s| - 1] == c then Some(|s| - 1)
    else LastIndexOf(s[..|s| - 1], c)
  }

  /** The path without its run of trailing separators. */
  function TrimTrailingSlashes(p: string): (q: string)
    ensures q <= p
    ensures |q| == 0 || q[|q| - 1] != '/'
    ensures forall j :: |q| <= j < |p| ==> p[j] == '/'
  {
    if |p| > 0 && p[|p| - 1] == '/' then TrimTrailingSlashes(p[..|p| - 1]) else p
  }

  /** The last path component, trailing separators ignored. */
  function LastComponent(p: string): (b: string)
    ensures forall j :: 0 <= j < |b| ==> b[j] != '/'
  {
    var t := TrimTrailingSlashes(p);
    match LastIndexOf(t, '/')
    case None => t
    case Some(k) => t[k + 1..]
  }

  predicate NoDotOrSlash(s: string)
  {
    forall j :: 0 <= j < |s| ==> s[j] != '.' && s[j] != '/'
  }

  /**
   * `path.extname(p)`: the last component's text from its last '.', or "" when
   * it has no '.', when that '.' is its first character, or when it is "..".
   */
  function Extname(p: string): (e: string)
    ensures e == "" || (e[0] == '.' && NoDotOrSlash(e[1..]))
  {
    var b := LastComponent(p);
    match LastIndexOf(b, '.')
    case None => ""
    case Some(k) => if k == 0 || b == ".." then "" else b[k..]
  }

  /** A name "stem.ext" whose stem is not empty has extension ".ext". */
  lemma ExtnameOfStemAndExtension(stem: string, ext: string)
    requires |stem| > 0 && stem + "." + ext != ".."
    requires forall j :: 0 <= j < |stem| ==> stem[j] != '/'
    requires NoDotOrSlash(ext)
    ensures Extname(stem + "." + ext) == "." + ext
  {
    var p := stem + "." + ext;
    assert forall j :: 0 <= j < |p| ==> p[j] != '/' by {
      forall j | 0 <= j < |p| ensures p[j] != '/' {
        if j < |stem| { assert p[j] == stem[j]; }
        else if j > |stem| { assert p[j] == ext[j - |stem| - 1]; }
      }
    }
    assert forall j :: |stem| < j < |p| ==> p[j] != '.' by {
      forall j | |stem| < j < |p| ensures p[j] != '.' {
        assert p[j] == ext[j - |stem| - 1];
      }
    }
    assert TrimTrailingSlashes(p) == p;
    assert LastComponent(p) == p;
    assert p[|stem|] == '.';
    var k := LastIndexOf(p, '.').value;
    assert k == |stem|;
    assert p[k..] == "." + ext;
  }
}
