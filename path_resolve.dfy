/** The POSIX `PathResolve` of src/util.cc: the arguments are scanned
    right to left, the current working directory standing in front of
    them, until one of them is absolute; the gathered path is then
    normalized. The working directory is an input of the model. */
module PathResolve {
  import opened PathUtil

  predicate Absolute(p: string) {
    p != [] && p[0] == '/'
  }

  /** The path the loop gathers from `args` (the working directory first,
      then the arguments) and whether it became absolute: each non-empty
      argument, scanning from the right, is put in front followed by '/',
      and the scan stops after the first absolute one. */
  function Gather(args: seq<string>): (string, bool)
    decreases |args|
  {
    if args == [] then ("", false)
    else
      var last := args[|args| - 1];
      if last == "" then Gather(args[..|args| - 1])
      else if Absolute(last) then (last + "/", true)
      else
        var (p, abs) := Gather(args[..|args| - 1]);
        (p + last + "/", abs)
  }

  /** What PathResolve returns. */
  function Resolved(paths: seq<string>, cwd: string): string {
    var (p, abs) := Gather([cwd] + paths);
    var n := Normalized(p, !abs, '/', Posix);
    if abs then "/" + n
    else if n != "" then n
    else "."
  }

  /** The loop of util.cc: `i` runs from the last argument down to -1,
      which stands for the working directory, and stops once the gathered
      path is absolute. */
  method PathResolve(paths: seq<string>, cwd: string) returns (r: string)
    ensures r == Resolved(paths, cwd)
  {
    ghost var args := [cwd] + paths;
    var resolvedPath := "";
    var resolvedAbsolute := false;
    var i := |paths| - 1;
    assert args[..i + 2] == args;
    assert Gather(args).0 + resolvedPath == Gather(args).0;
    while i >= -1 && !resolvedAbsolute
      invariant -2 <= i <= |paths| - 1
      invariant resolvedAbsolute ==> Gather(args) == (resolvedPath, true)
      invariant !resolvedAbsolute ==>
        Gather(args) == (Gather(args[..i + 2]).0 + resolvedPath, Gather(args[..i + 2]).1)
      decreases i + 2
    {
      var path := if i >= 0 then paths[i] else cwd;
      assert path == args[i + 1];
      assert args[..i + 2][..i + 1] == args[..i + 1];
      ghost var before := Gather(args[..i + 1]);
      if path != [] {
        assert !Absolute(path) ==> Gather(args[..i + 2]) == (before.0 + path + "/", before.1);
        assert before.0 + path + "/" + resolvedPath == before.0 + (path + "/" + resolvedPath);
        resolvedPath := path + "/" + resolvedPath;
        resolvedAbsolute := path[0] == '/';
      }
      i := i - 1;
    }
    if !resolvedAbsolute {
      assert args[..i + 2] == [];
      assert "" + resolvedPath == resolvedPath;
    }
    resolvedPath := NormalizeString(resolvedPath, !resolvedAbsolute, '/', Posix);
    if resolvedAbsolute {
      return "/" + resolvedPath;
    }
    return if resolvedPath != [] then resolvedPath else ".";
  }

  /** The gathered path is absolute exactly when some argument is. */
  lemma {:induction false} GatherAbsoluteIff(args: seq<string>)
    ensures Gather(args).1 <==> exists k :: 0 <= k < |args| && Absolute(args[k])
    decreases |args|
  {
    if args != [] {
      var init := args[..|args| - 1];
      GatherAbsoluteIff(init);
      assert forall k :: 0 <= k < |init| ==> init[k] == args[k];
      if exists k :: 0 <= k < |args| && Absolute(args[k]) {
        var k :| 0 <= k < |args| && Absolute(args[k]);
        if k < |init| {
          assert Absolute(init[k]);
        }
      }
    }
  }

  /** PathResolve never returns the empty string, and its result starts
      with '/' exactly when the working directory or one of the arguments
      is absolute. */
  lemma ResolvedShape(paths: seq<string>, cwd: string)
    ensures Resolved(paths, cwd) != ""
    ensures Absolute(Resolved(paths, cwd)) <==>
      Absolute(cwd) || exists k :: 0 <= k < |paths| && Absolute(paths[k])
  {
    var args := [cwd] + paths;
    var (p, abs) := Gather(args);
    NormalizedShape(p, !abs, '/', Posix);
    GatherAbsoluteIff(args);
    assert args[0] == cwd;
    assert forall k :: 0 <= k < |paths| ==> args[k + 1] == paths[k];
    if exists k :: 0 <= k < |args| && Absolute(args[k]) {
      var k :| 0 <= k < |args| && Absolute(args[k]);
      if k > 0 {
        assert Absolute(paths[k - 1]);
      }
    }
  }

  /** An absolute result has no ".." segment: nothing climbs above the
      root. */
  lemma AbsoluteHasNoParent(paths: seq<string>, cwd: string)
    requires Gather([cwd] + paths).1
    ensures var r := Resolved(paths, cwd);
      forall k :: 0 <= k < |Split(r[1..], Posix)| ==> Split(r[1..], Posix)[k] != ".."
  {
    var (p, abs) := Gather([cwd] + paths);
    var n := Normalized(p, false, '/', Posix);
    NormalizedShape(p, false, '/', Posix);
    assert Resolved(paths, cwd)[1..] == n;
    if n == [] {
      assert Split(n, Posix) == [""];
    }
  }

  /** Once an argument is absolute, the scan stops there: nothing to its
      left, the working directory included, is consulted. */
  lemma {:induction false} GatherStopsAtAbsolute(front: seq<string>, front': seq<string>, rest: seq<string>)
    requires exists k :: 0 <= k < |rest| && Absolute(rest[k])
    ensures Gather(front + rest) == Gather(front' + rest)
    decreases |rest|
  {
    var last := rest[|rest| - 1];
    var init := rest[..|rest| - 1];
    assert (front + rest)[..|front + rest| - 1] == front + init;
    assert (front' + rest)[..|front' + rest| - 1] == front' + init;
    if !Absolute(last) {
      var k :| 0 <= k < |rest| && Absolute(rest[k]);
      assert init[k] == rest[k];
      GatherStopsAtAbsolute(front, front', init);
    }
  }

  lemma CwdIgnoredWhenAbsolute(paths: seq<string>, cwd: string, cwd': string)
    requires exists k :: 0 <= k < |paths| && Absolute(paths[k])
    ensures Resolved(paths, cwd) == Resolved(paths, cwd')
  {
    GatherStopsAtAbsolute([cwd], [cwd'], paths);
  }

  /** The working directory decides the result when no argument is
      absolute and it is. */
  lemma {:induction false} GatherFromCwd(paths: seq<string>, cwd: string)
    requires forall k :: 0 <= k < |paths| ==> !Absolute(paths[k])
    requires Absolute(cwd)
    ensures Gather([cwd] + paths).1
    decreases |paths|
  {
    if paths == [] {
      assert [cwd] + paths == [cwd];
    } else {
      var init := paths[..|paths| - 1];
      assert ([cwd] + paths)[..|paths|] == [cwd] + init;
      assert ([cwd] + paths)[|paths|] == paths[|paths| - 1];
      GatherFromCwd(init, cwd);
    }
  }

  lemma CwdUsedWhenRelative(paths: seq<string>, cwd: string)
    requires forall k :: 0 <= k < |paths| ==> !Absolute(paths[k])
    requires Absolute(cwd)
    ensures Absolute(Resolved(paths, cwd))
  {
    GatherFromCwd(paths, cwd);
    ResolvedShape(paths, cwd);
  }
}
