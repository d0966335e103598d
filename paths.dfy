/**
 * The local file paths the client builds (imaging-edge.py, lines 93, 115
 * and 121), and Python's `os.path.dirname` and `os.makedirs` read as
 * operations on path strings. Paths are not normalised: `a//b` and `a/b`
 * are different strings here.
 */
module Paths {

  /** The download target of an item: `output_dir/dirname/filename` (line 93). */
  function ItemPath(outputDir: string, dirname: string, filename: string): string
  {
    outputDir + "/" + dirname + "/" + filename
  }

  /** The target used when none is given: `output_dir/` then the URL's decoded path (line 115). */
  function FallbackPath(outputDir: string, urlPath: string): string
  {
    outputDir + "/" + urlPath
  }

  /** Length of `p` up to and including its last '/', or 0 when it has none. */
  function HeadLength(p: string): (k: nat)
    ensures k <= |p| && (k > 0 ==> p[k - 1] == '/') && '/' !in p[k..]
    decreases |p|
  {
    if p == [] then 0
    else if p[|p| - 1] == '/' then |p|
    else
      var k := HeadLength(p[..|p| - 1]);
      assert p[k..] == p[..|p| - 1][k..] + [p[|p| - 1]];
      k
  }

  predicate AllSlashes(s: string)
  {
    forall i :: 0 <= i < |s| ==> s[i] == '/'
  }

  /** `s.rstrip('/')`. */
  function RStripSlashes(s: string): (r: string)
    ensures |r| <= |s| && r == s[..|r|]
    ensures r == [] || r[|r| - 1] != '/'
    ensures AllSlashes(s[|r|..])
    decreases |s|
  {
    if s != [] && s[|s| - 1] == '/' then RStripSlashes(s[..|s| - 1]) else s
  }

  /** `os.path.dirname` on POSIX: the part before the last '/', trailing slashes removed unless only slashes are left. */
  function Dirname(p: string): (r: string)
    ensures |r| <= |p| && r == p[..|r|]
    ensures AllSlashes(r) || r[|r| - 1] != '/'
  {
    var head := p[..HeadLength(p)];
    if head != [] && !AllSlashes(head) then RStripSlashes(head) else head
  }

  /** The directories `os.makedirs(d)` ensures: `d` and each prefix of it that ends before a '/'. */
  function Ancestors(d: string): set<string>
  {
    set i | 0 < i <= |d| && (i == |d| || d[i] == '/') :: d[..i]
  }

  lemma {:induction false} HeadLengthAfterSlash(x: string, t: string)
    requires '/' !in t
    ensures HeadLength(x + "/" + t) == |x| + 1
    decreases |t|
  {
    var p := x + "/" + t;
    if t != [] {
      assert p[..|p| - 1] == x + "/" + t[..|t| - 1];
      HeadLengthAfterSlash(x, t[..|t| - 1]);
    }
  }

  /**
   * The parent directory of an item's target is `output_dir/dirname`,
   * when the title has no '/' and the directory name is not empty and
   * does not end in '/'.
   */
  lemma DirnameOfItemPath(outputDir: string, dirname: string, filename: string)
    requires '/' !in filename
    requires dirname != [] && dirname[|dirname| - 1] != '/'
    ensures Dirname(ItemPath(outputDir, dirname, filename)) == outputDir + "/" + dirname
  {
    var x := outputDir + "/" + dirname;
    var p := ItemPath(outputDir, dirname, filename);
    assert p == x + "/" + filename;
    HeadLengthAfterSlash(x, filename);
    var head := p[..|x| + 1];
    assert head == x + "/";
    assert x[|x| - 1] == dirname[|dirname| - 1];
    assert head[|head| - 2] != '/';
    assert !AllSlashes(head);
    assert head[..|head| - 1] == x;
    assert RStripSlashes(x) == x;
    assert RStripSlashes(head) == RStripSlashes(x);
  }

  /** `os.makedirs(d)` leaves `d` itself a directory. */
  lemma AncestorsHasSelf(d: string)
    requires d != []
    ensures d in Ancestors(d)
  {
    assert d[..|d|] == d;
  }

  /** `os.path.dirname(p)` is empty exactly when `p` holds no '/'. */
  lemma DirnameEmpty(p: string)
    ensures Dirname(p) == [] <==> '/' !in p
  {
    if '/' in p {
      var j :| 0 <= j < |p| && p[j] == '/';
      assert j < HeadLength(p);
    }
  }
}
