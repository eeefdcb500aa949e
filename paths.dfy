/** `posixpath.dirname` and `posixpath.join`, as the directory listing uses them. */
module PosixPath {
  import opened Wrappers
  import opened Text

  /** `p.rfind('/') + 1`: the length of the head that ends at the last slash. */
  function HeadLength(p: string): (n: nat)
    ensures n <= |p|
    ensures n > 0 ==> p[n - 1] == '/'
    ensures forall i :: n <= i < |p| ==> p[i] != '/'
  {
    if p == [] then 0
    else if p[|p| - 1] == '/' then |p|
    else HeadLength(p[..|p| - 1])
  }

  predicate AllSlashes(s: string)
  {
    forall i :: 0 <= i < |s| ==> s[i] == '/'
  }

  /** `s.rstrip('/')`. */
  function RStripSlashes(s: string): (r: string)
    ensures r <= s
    ensures r == [] || r[|r| - 1] != '/'
    ensures forall i :: |r| <= i < |s| ==> s[i] == '/'
  {
    if s == [] || s[|s| - 1] != '/' then s else RStripSlashes(s[..|s| - 1])
  }

  /** `posixpath.dirname`: the head up to the last slash, without its
      trailing slashes unless it is made of slashes only. */
  function Dirname(p: string): (d: string)
    ensures d <= p
    ensures '/' !in p ==> d == []
  {
    var head := p[..HeadLength(p)];
    if head != [] && !AllSlashes(head) then RStripSlashes(head) else head
  }

  /** `posixpath.join(a, b)` for two components. */
  function Join(a: string, b: string): (r: string)
    ensures |b| <= |r|
  {
    if StartsWith(b, "/") then b
    else if a == [] || EndsWith(a, "/") then a + b
    else a + "/" + b
  }

  lemma {:induction false} HeadLengthAfterSlash(a: string, name: string)
    requires '/' !in name
    ensures HeadLength(a + "/" + name) == |a| + 1
    decreases |name|
  {
    var p := a + "/" + name;
    if name != [] {
      assert p[|p| - 1] == name[|name| - 1];
      assert p[..|p| - 1] == a + "/" + name[..|name| - 1];
      HeadLengthAfterSlash(a, name[..|name| - 1]);
    }
  }

  /** The directory of a path joined to a plain name is that path again. */
  lemma DirnameOfJoin(dir: string, name: string)
    requires dir != [] && !EndsWith(dir, "/")
    requires name != [] && '/' !in name
    ensures Join(dir, name) == dir + "/" + name
    ensures Dirname(Join(dir, name)) == dir
  {
    var p := dir + "/" + name;
    assert !StartsWith(name, "/") by { assert name[0] != '/'; }
    HeadLengthAfterSlash(dir, name);
    assert p[..|dir| + 1] == dir + "/";
    assert dir[|dir| - 1] != '/' by { assert dir[|dir| - 1..] == [dir[|dir| - 1]]; }
    assert (dir + "/")[..|dir|] == dir;
    assert !AllSlashes(dir + "/") by { assert (dir + "/")[|dir| - 1] != '/'; }
    assert RStripSlashes(dir + "/") == dir;
  }

  /** The parent shown for a URL path: `/a/b` has `/a`, `/a` has `/`, and
      `/a/b/` has `/a/b` itself, because only the trailing slash is cut. */
  lemma DirnameExamples()
    ensures Dirname("/a/b") == "/a"
    ensures Dirname("/a") == "/"
    ensures Dirname("/a/b/") == "/a/b"
    ensures Dirname("/") == "/"
  {
    DirnameOfJoin("/a", "b");
    assert "/a" + "/" + "b" == "/a/b";
    assert HeadLength("/a") == 1 by { assert "/a"[..1] == "/"; }
    assert "/a"[..1] == "/";
    assert "/a/b/"[..5] == "/a/b/";
    assert "/a/b/"[..4] == "/a/b";
    assert !AllSlashes("/a/b/") by { assert "/a/b/"[1] == 'a'; }
  }

  /** For a URL path ending in a slash, the parent is the path without that slash. */
  lemma DirnameOfTrailingSlash(p: string)
    requires EndsWith(p, "/") && !AllSlashes(p)
    ensures Dirname(p) == RStripSlashes(p)
  {
    assert p[|p| - 1] == '/' by { assert p[|p| - 1..] == "/"; }
    assert p[..|p|] == p;
  }
}
