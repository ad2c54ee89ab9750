/** `FSPermission` of src/permission/fs_permission.cc: two deny-all flags,
    two deny trees and two grant trees, one of each for reading (scope
    FileSystemIn) and writing (FileSystemOut).

    The state is also given as a value, `FsState`, and each operation as a
    function on it; the class's methods are proved to update their fields
    exactly as those functions say, and the lemmas state what the functions
    promise. `std::filesystem::is_directory` is the set `dirs` of paths that
    are directories when the call is made. */
module FsPermission {
  import opened Scopes
  import opened PathPatterns
  import opened PathUtil

  datatype FsState = FsState(
    denyAllIn: bool, denyAllOut: bool,
    denyIn: Tree, denyOut: Tree,
    grantedIn: Tree, grantedOut: Tree)

  /** The state of a handler nothing has been applied to or denied. */
  const Initial := FsState(false, false, {}, {}, {}, {})

  /** The pattern stored for `res`: a directory gets a wildcard below it. */
  function Stored(res: string, dirs: set<string>): string {
    if res in dirs then WithWildcard(res) else res
  }

  /** `GrantAccess`: insert into the grant tree of the scope, if it is
      FileSystemIn or FileSystemOut. */
  function GrantAccessSpec(st: FsState, perm: Scope, res: string, dirs: set<string>): FsState {
    var p := Stored(res, dirs);
    if perm == FileSystemIn then st.(grantedIn := Insert(st.grantedIn, p))
    else if perm == FileSystemOut then st.(grantedOut := Insert(st.grantedOut, p))
    else st
  }

  /** One ','-separated item of `Apply`, split at ':': the first token
      names the scope ("fs" clears both flags and ends the whole Apply,
      "read" and "write" clear their flag, anything else ends the whole
      Apply), and the following tokens are granted. The boolean tells
      whether Apply ends here. */
  function ApplyOpts(st: FsState, perm: Scope, opts: seq<string>, dirs: set<string>): (FsState, bool)
    decreases |opts|
  {
    if opts == [] then (st, false)
    else if perm == PermissionsRoot then
      if opts[0] == "fs" then (st.(denyAllIn := false, denyAllOut := false), true)
      else if opts[0] == "read" then ApplyOpts(st.(denyAllIn := false), FileSystemIn, opts[1..], dirs)
      else if opts[0] == "write" then ApplyOpts(st.(denyAllOut := false), FileSystemOut, opts[1..], dirs)
      else (st, true)
    else ApplyOpts(GrantAccessSpec(st, perm, opts[0], dirs), perm, opts[1..], dirs)
  }

  function ApplyNames(st: FsState, names: seq<string>, dirs: set<string>): FsState
    decreases |names|
  {
    if names == [] then st
    else
      var (st', stop) := ApplyOpts(st, PermissionsRoot, Tokens(names[0], {':'}), dirs);
      if stop then st' else ApplyNames(st', names[1..], dirs)
  }

  /** `Apply`: the CLI value, split at ','. */
  function ApplySpec(st: FsState, allow: string, dirs: set<string>): FsState {
    ApplyNames(st, Tokens(allow, {','}), dirs)
  }

  function InsertAll(tree: Tree, params: seq<string>): Tree {
    tree + set p | p in params
  }

  /** `Deny`: the new state and the result. */
  function DenySpec(st: FsState, perm: Scope, params: seq<string>): (FsState, bool) {
    if perm == FileSystem then (st.(denyAllIn := true, denyAllOut := true), true)
    else if perm == FileSystemIn then
      var st1 := if params == [] then st.(denyAllIn := true) else st;
      if st1.denyAllIn then (st1, true) else (st1.(denyIn := InsertAll(st1.denyIn, params)), true)
    else if perm == FileSystemOut then
      var st1 := if params == [] then st.(denyAllOut := true) else st;
      if st1.denyAllOut then (st1, true) else (st1.(denyOut := InsertAll(st1.denyOut, params)), true)
    else (st, false)
  }

  /** `is_granted`. */
  predicate Granted(st: FsState, perm: Scope, param: string) {
    match perm
    case FileSystem => !(st.denyAllIn && st.denyAllOut)
    case FileSystemIn =>
      !st.denyAllIn && (param == "" || (!Lookup(st.denyIn, param) && Lookup(st.grantedIn, param)))
    case FileSystemOut =>
      !st.denyAllOut && (param == "" || (!Lookup(st.denyOut, param) && Lookup(st.grantedOut, param)))
    case _ => false
  }

  class FSPermission {
    var denyAllIn: bool
    var denyAllOut: bool
    var denyIn: Tree
    var denyOut: Tree
    var grantedIn: Tree
    var grantedOut: Tree

    function State(): FsState
      reads this
    {
      FsState(denyAllIn, denyAllOut, denyIn, denyOut, grantedIn, grantedOut)
    }

    constructor()
      ensures State() == Initial
    {
      denyAllIn, denyAllOut := false, false;
      denyIn, denyOut, grantedIn, grantedOut := {}, {}, {}, {};
    }

    predicate IsGranted(perm: Scope, param: string)
      reads this
    {
      Granted(State(), perm, param)
    }

    method GrantAccess(perm: Scope, res: string, dirs: set<string>)
      modifies this
      ensures State() == GrantAccessSpec(old(State()), perm, res, dirs)
    {
      var p := if res in dirs then WithWildcard(res) else res;
      if perm == FileSystemIn {
        grantedIn := grantedIn + {p};
      } else if perm == FileSystemOut {
        grantedOut := grantedOut + {p};
      }
    }

    /** The inner loop of `Apply` over one ','-separated item, split at
        ':'; `stop` tells whether it returned from the whole Apply. */
    method ApplyItem(opts: seq<string>, dirs: set<string>) returns (stop: bool)
      modifies this
      ensures (State(), stop) == ApplyOpts(old(State()), PermissionsRoot, opts, dirs)
    {
      var perm := PermissionsRoot;
      var j := 0;
      while j < |opts|
        invariant 0 <= j <= |opts|
        invariant perm == PermissionsRoot || perm == FileSystemIn || perm == FileSystemOut
        invariant ApplyOpts(State(), perm, opts[j..], dirs) == ApplyOpts(old(State()), PermissionsRoot, opts, dirs)
      {
        var opt := opts[j];
        assert opts[j..][1..] == opts[j + 1..];
        if perm == PermissionsRoot {
          if opt == "fs" {
            denyAllIn, denyAllOut := false, false;
            return true;
          }
          if opt == "read" {
            perm := FileSystemIn;
            denyAllIn := false;
          } else if opt == "write" {
            perm := FileSystemOut;
            denyAllOut := false;
          } else {
            return true;
          }
        } else {
          GrantAccess(perm, opt, dirs);
        }
        j := j + 1;
      }
      return false;
    }

    method Apply(allow: string, dirs: set<string>)
      modifies this
      ensures State() == ApplySpec(old(State()), allow, dirs)
    {
      var names := SplitString(allow, {','});
      var i := 0;
      while i < |names|
        invariant 0 <= i <= |names|
        invariant ApplyNames(State(), names[i..], dirs) == ApplySpec(old(State()), allow, dirs)
      {
        var opts := SplitString(names[i], {':'});
        var stop := ApplyItem(opts, dirs);
        if stop {
          return;
        }
        assert names[i..][1..] == names[i + 1..];
        i := i + 1;
      }
    }

    method Deny(perm: Scope, params: seq<string>) returns (ok: bool)
      modifies this
      ensures (State(), ok) == DenySpec(old(State()), perm, params)
    {
      if perm == FileSystem {
        denyAllIn, denyAllOut := true, true;
        return true;
      }
      var denyAll := |params| == 0;
      if perm == FileSystemIn {
        if denyAll {
          denyAllIn := true;
        }
        if denyAllIn {
          return true;
        }
        var i := 0;
        while i < |params|
          invariant 0 <= i <= |params|
          invariant State() == old(State()).(denyIn := InsertAll(old(denyIn), params[..i]))
        {
          assert params[..i + 1] == params[..i] + [params[i]];
          denyIn := Insert(denyIn, params[i]);
          i := i + 1;
        }
        assert params[..i] == params;
        return true;
      }
      if perm == FileSystemOut {
        if denyAll {
          denyAllOut := true;
        }
        if denyAllOut {
          return true;
        }
        var i := 0;
        while i < |params|
          invariant 0 <= i <= |params|
          invariant State() == old(State()).(denyOut := InsertAll(old(denyOut), params[..i]))
        {
          assert params[..i + 1] == params[..i] + [params[i]];
          denyOut := Insert(denyOut, params[i]);
          i := i + 1;
        }
        assert params[..i] == params;
        return true;
      }
      return false;
    }
  }

  // ---------------------------------------------------------------------
  // What the operations promise
  // ---------------------------------------------------------------------

  /** Deny never grants: whatever is refused before is refused after. */
  lemma DenyMonotone(st: FsState, perm: Scope, params: seq<string>, q: Scope, param: string)
    ensures Granted(DenySpec(st, perm, params).0, q, param) ==> Granted(st, q, param)
  {
    var st' := DenySpec(st, perm, params).0;
    InsertAllGrows(st.denyIn, params, param);
    InsertAllGrows(st.denyOut, params, param);
  }

  lemma InsertAllGrows(tree: Tree, params: seq<string>, path: string)
    ensures Lookup(tree, path) ==> Lookup(InsertAll(tree, params), path)
  {
    if Lookup(tree, path) {
      var w :| w in tree && Matches(w, path);
      assert w in InsertAll(tree, params);
    }
  }

  /** Denying the same thing twice is the same as denying it once. */
  lemma DenyIdempotent(st: FsState, perm: Scope, params: seq<string>)
    ensures var (st1, ok1) := DenySpec(st, perm, params);
      DenySpec(st1, perm, params) == (st1, ok1)
  {
    var st1 := DenySpec(st, perm, params).0;
    if perm == FileSystemIn && !st1.denyAllIn {
      assert InsertAll(st1.denyIn, params) == st1.denyIn;
    }
    if perm == FileSystemOut && !st1.denyAllOut {
      assert InsertAll(st1.denyOut, params) == st1.denyOut;
    }
  }

  /** Deny answers true exactly for the three filesystem scopes, and
      changes nothing for any other scope. */
  lemma DenyResult(st: FsState, perm: Scope, params: seq<string>)
    ensures DenySpec(st, perm, params).1 <==> perm in {FileSystem, FileSystemIn, FileSystemOut}
    ensures !DenySpec(st, perm, params).1 ==> DenySpec(st, perm, params).0 == st
  {
  }

  /** After Deny(FileSystem) every filesystem check fails. */
  lemma DenyFileSystemClosesAll(st: FsState, params: seq<string>, q: Scope, param: string)
    ensures !Granted(DenySpec(st, FileSystem, params).0, q, param)
  {
  }

  /** Deny(FileSystemIn) without paths sets the read flag; while that flag
      is set, denying paths adds nothing. */
  lemma DenyReadAll(st: FsState, params: seq<string>)
    ensures DenySpec(st, FileSystemIn, []).0 == st.(denyAllIn := true)
    ensures st.denyAllIn ==> DenySpec(st, FileSystemIn, params) == (st, true)
    ensures !st.denyAllIn && params != [] ==>
      forall p :: p in params ==> !Granted(DenySpec(st, FileSystemIn, params).0, FileSystemIn, p) || p == ""
  {
    if !st.denyAllIn && params != [] {
      var st' := DenySpec(st, FileSystemIn, params).0;
      forall p | p in params && p != ""
        ensures !Granted(st', FileSystemIn, p)
      {
        MatchesItself(p);
        assert p in st'.denyIn;
      }
    }
  }

  /** The checks in terms of flags and trees: an empty resource asks only
      for the flag; with a resource, deny overrides grant. */
  lemma GrantedByFlagsAndTrees(st: FsState, param: string)
    ensures Granted(st, FileSystemIn, "") <==> !st.denyAllIn
    ensures Granted(st, FileSystemOut, "") <==> !st.denyAllOut
    ensures param != "" && Lookup(st.denyIn, param) ==> !Granted(st, FileSystemIn, param)
    ensures param != "" && !Lookup(st.grantedIn, param) ==> !Granted(st, FileSystemIn, param)
    ensures Granted(st, FileSystem, param) <==> !st.denyAllIn || !st.denyAllOut
    ensures !Granted(st, PermissionsRoot, param) && !Granted(st, ChildProcess, param) &&
      !Granted(st, WorkerThreads, param)
  {
  }

  /** Apply only ever lifts restrictions: it clears deny flags and adds
      to the grant trees, so whatever is granted before is granted after. */
  lemma {:induction false} ApplyOptsOnlyGrants(st: FsState, perm: Scope, opts: seq<string>, dirs: set<string>,
                                              q: Scope, param: string)
    requires Granted(st, q, param)
    ensures Granted(ApplyOpts(st, perm, opts, dirs).0, q, param)
    decreases |opts|
  {
    if opts != [] {
      if perm == PermissionsRoot {
        if opts[0] == "read" {
          ApplyOptsOnlyGrants(st.(denyAllIn := false), FileSystemIn, opts[1..], dirs, q, param);
        } else if opts[0] == "write" {
          ApplyOptsOnlyGrants(st.(denyAllOut := false), FileSystemOut, opts[1..], dirs, q, param);
        }
      } else {
        var st' := GrantAccessSpec(st, perm, opts[0], dirs);
        assert Granted(st', q, param) by {
          if q == FileSystemIn && param != "" {
            var w :| w in st.grantedIn && Matches(w, param);
            assert w in st'.grantedIn;
          }
          if q == FileSystemOut && param != "" {
            var w :| w in st.grantedOut && Matches(w, param);
            assert w in st'.grantedOut;
          }
        }
        ApplyOptsOnlyGrants(st', perm, opts[1..], dirs, q, param);
      }
    }
  }

  lemma {:induction false} ApplyNamesOnlyGrants(st: FsState, names: seq<string>, dirs: set<string>,
                                               q: Scope, param: string)
    requires Granted(st, q, param)
    ensures Granted(ApplyNames(st, names, dirs), q, param)
    decreases |names|
  {
    if names != [] {
      var opts := Tokens(names[0], {':'});
      ApplyOptsOnlyGrants(st, PermissionsRoot, opts, dirs, q, param);
      var (st', stop) := ApplyOpts(st, PermissionsRoot, opts, dirs);
      if !stop {
        ApplyNamesOnlyGrants(st', names[1..], dirs, q, param);
      }
    }
  }

  lemma ApplyOnlyGrants(st: FsState, allow: string, dirs: set<string>, q: Scope, param: string)
    requires Granted(st, q, param)
    ensures Granted(ApplySpec(st, allow, dirs), q, param)
  {
    ApplyNamesOnlyGrants(st, Tokens(allow, {','}), dirs, q, param);
  }

  /** Apply never touches the deny trees. */
  lemma {:induction false} ApplyOptsKeepsDenyTrees(st: FsState, perm: Scope, opts: seq<string>, dirs: set<string>)
    ensures ApplyOpts(st, perm, opts, dirs).0.denyIn == st.denyIn
    ensures ApplyOpts(st, perm, opts, dirs).0.denyOut == st.denyOut
    decreases |opts|
  {
    if opts != [] {
      if perm == PermissionsRoot {
        if opts[0] == "read" {
          ApplyOptsKeepsDenyTrees(st.(denyAllIn := false), FileSystemIn, opts[1..], dirs);
        } else if opts[0] == "write" {
          ApplyOptsKeepsDenyTrees(st.(denyAllOut := false), FileSystemOut, opts[1..], dirs);
        }
      } else {
        ApplyOptsKeepsDenyTrees(GrantAccessSpec(st, perm, opts[0], dirs), perm, opts[1..], dirs);
      }
    }
  }

  /** A granted directory covers everything below it. */
  lemma GrantDirectory(st: FsState, dir: string, dirs: set<string>, path: string)
    requires dir in dirs && forall j :: 0 <= j < |dir| ==> dir[j] != '*'
    requires DirPrefix(dir) <= path
    ensures Lookup(GrantAccessSpec(st, FileSystemIn, dir, dirs).grantedIn, path)
  {
    WildcardCoversDirectory(dir, path);
    assert WithWildcard(dir) in GrantAccessSpec(st, FileSystemIn, dir, dirs).grantedIn;
  }
}
