/** The path trees of src/permission/fs_permission.cc and
    src/policy/policy_deny_fs.cc, seen from outside: a tree is the set of
    patterns inserted into it, and a lookup succeeds when one of them
    matches. A pattern matches a path when the pattern's text before its
    first '*' is a prefix of the path; a pattern without '*' matches only
    itself. */
module PathPatterns {

  /** The patterns inserted so far; the empty tree has no children. */
  type Tree = set<string>

  /** The index of the first '*', or |p| when there is none. */
  function FirstWildcard(p: string): (w: nat)
    ensures w <= |p|
    ensures forall j :: 0 <= j < w ==> p[j] != '*'
    ensures w < |p| ==> p[w] == '*'
    decreases |p|
  {
    if p == [] then 0
    else if p[0] == '*' then 0
    else 1 + FirstWildcard(p[1..])
  }

  predicate Matches(pattern: string, path: string) {
    var w := FirstWildcard(pattern);
    if w < |pattern| then pattern[..w] <= path else pattern == path
  }

  /** `RadixTree::Lookup`. */
  predicate Lookup(tree: Tree, path: string) {
    exists pattern :: pattern in tree && Matches(pattern, path)
  }

  /** `RadixTree::Insert`. */
  function Insert(tree: Tree, pattern: string): (t: Tree)
    ensures forall path :: Lookup(t, path) <==> Lookup(tree, path) || Matches(pattern, path)
  {
    tree + {pattern}
  }

  /** Every path matches itself as a pattern. */
  lemma MatchesItself(p: string)
    ensures Matches(p, p)
  {
    var w := FirstWildcard(p);
    if w < |p| {
      assert p[..w] <= p;
    }
  }

  /** A tree with nothing inserted matches nothing. */
  lemma EmptyTreeMatchesNothing(path: string)
    ensures !Lookup({}, path)
  {
  }

  /** `path / "*"` for a directory: std::filesystem appends "*" after a
      trailing '/', and a '/' then "*" otherwise. */
  function WithWildcard(dir: string): (p: string)
    ensures |p| > |dir| && p[|p| - 1] == '*'
  {
    if dir != [] && dir[|dir| - 1] == '/' then dir + "*" else dir + "/*"
  }

  /** The directory itself with a trailing '/'. */
  function DirPrefix(dir: string): string {
    if dir != [] && dir[|dir| - 1] == '/' then dir else dir + "/"
  }

  /** A directory stored with its wildcard covers every path below it and
      nothing outside it. */
  lemma WildcardCoversDirectory(dir: string, path: string)
    requires forall j :: 0 <= j < |dir| ==> dir[j] != '*'
    ensures Matches(WithWildcard(dir), path) <==> DirPrefix(dir) <= path
  {
    var p := WithWildcard(dir);
    var d := DirPrefix(dir);
    assert p == d + "*";
    assert FirstWildcard(p) == |d| by {
      assert forall j :: 0 <= j < |d| ==> p[j] == d[j];
      FirstWildcardAt(p, |d|);
    }
    assert p[..|d|] == d;
  }

  lemma FirstWildcardAt(p: string, w: nat)
    requires w < |p| && p[w] == '*'
    requires forall j :: 0 <= j < w ==> p[j] != '*'
    ensures FirstWildcard(p) == w
  {
  }

  /** The wildcard example of the fs tests: "/example/foo*" covers
      "/example/foo2" and "/example/foo/file" but not "/example/for". */
  lemma WildcardExample()
    ensures Matches("/example/foo*", "/example/foo2")
    ensures Matches("/example/foo*", "/example/foo/file")
    ensures !Matches("/example/foo*", "/example/for")
  {
    FirstWildcardAt("/example/foo*", 12);
    assert "/example/foo*"[..12] == "/example/foo";
    assert "/example/foo"[11] != "/example/for"[11];
  }
}
