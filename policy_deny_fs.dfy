/** `PolicyDenyFs` of src/policy/policy_deny_fs.cc: the deny-list variant
    of the filesystem handler, with two deny-all flags and two deny trees
    (no grant trees). A path given to "in" or "out" is denied on its own
    and lifts the deny-all flag of its scope.

    As in FsPermission, the state is also a value, `PolicyFsState`, and
    `std::filesystem::is_directory` is the set `dirs`. */
module PolicyFs {
  import opened Scopes
  import opened PathPatterns
  import opened PathUtil

  datatype PolicyFsState = PolicyFsState(denyAllIn: bool, denyAllOut: bool, denyIn: Tree, denyOut: Tree)

  /** The state `make_shared` value-initialises: flags false, trees empty. */
  const Initial := PolicyFsState(false, false, {}, {})

  /** The pattern stored for `res`: a directory gets a wildcard below it. */
  function Stored(res: string, dirs: set<string>): string {
    if res in dirs then WithWildcard(res) else res
  }

  /** `RestrictAccess` for one path: clear the scope's deny-all flag and
      deny the path. */
  function RestrictSpec(st: PolicyFsState, perm: Scope, res: string, dirs: set<string>): PolicyFsState {
    var p := Stored(res, dirs);
    if perm == FileSystemIn then st.(denyAllIn := false, denyIn := Insert(st.denyIn, p))
    else if perm == FileSystemOut then st.(denyAllOut := false, denyOut := Insert(st.denyOut, p))
    else st
  }

  /** `RestrictAccess` for a list of paths, in order. */
  function RestrictAllSpec(st: PolicyFsState, perm: Scope, params: seq<string>, dirs: set<string>): PolicyFsState
    decreases |params|
  {
    if params == [] then st
    else RestrictAllSpec(RestrictSpec(st, perm, params[0], dirs), perm, params[1..], dirs)
  }

  /** One ','-separated item of `Apply`, split at ':': "fs" sets both
      flags and ends the whole Apply, "in" and "out" set their flag,
      anything else ends the whole Apply; the following tokens are
      restricted. The boolean tells whether Apply ends here. */
  function ApplyOpts(st: PolicyFsState, perm: Scope, opts: seq<string>, dirs: set<string>): (PolicyFsState, bool)
    decreases |opts|
  {
    if opts == [] then (st, false)
    else if perm == PermissionsRoot then
      if opts[0] == "fs" then (st.(denyAllIn := true, denyAllOut := true), true)
      else if opts[0] == "in" then ApplyOpts(st.(denyAllIn := true), FileSystemIn, opts[1..], dirs)
      else if opts[0] == "out" then ApplyOpts(st.(denyAllOut := true), FileSystemOut, opts[1..], dirs)
      else (st, true)
    else ApplyOpts(RestrictSpec(st, perm, opts[0], dirs), perm, opts[1..], dirs)
  }

  function ApplyNames(st: PolicyFsState, names: seq<string>, dirs: set<string>): PolicyFsState
    decreases |names|
  {
    if names == [] then st
    else
      var (st', stop) := ApplyOpts(st, PermissionsRoot, Tokens(names[0], {':'}), dirs);
      if stop then st' else ApplyNames(st', names[1..], dirs)
  }

  /** `Apply`: the CLI value, split at ','. */
  function ApplySpec(st: PolicyFsState, deny: string, dirs: set<string>): PolicyFsState {
    ApplyNames(st, Tokens(deny, {','}), dirs)
  }

  /** `Deny`: the new state and the result. */
  function DenySpec(st: PolicyFsState, perm: Scope, params: seq<string>, dirs: set<string>): (PolicyFsState, bool) {
    if perm == FileSystem then (st.(denyAllIn := true, denyAllOut := true), true)
    else if perm == FileSystemIn then
      var st1 := if params == [] then st.(denyAllIn := true) else st;
      if st1.denyAllIn then (st1, true) else (RestrictAllSpec(st1, perm, params, dirs), true)
    else if perm == FileSystemOut then
      var st1 := if params == [] then st.(denyAllOut := true) else st;
      if st1.denyAllOut then (st1, true) else (RestrictAllSpec(st1, perm, params, dirs), true)
    else (st, false)
  }

  /** This handler's `RadixTree::Lookup`. Its tree starts with a root node
      of prefix "/", and the walk's first test compares the whole path
      with that prefix, so "/" is found in every tree, the fresh one
      included; other paths are found by the stored patterns. */
  predicate DenyLookup(tree: Tree, param: string) {
    param == "/" || Lookup(tree, param)
  }

  /** `is_granted`: there is no grant list, only flags and deny trees. */
  predicate Granted(st: PolicyFsState, perm: Scope, param: string) {
    match perm
    case FileSystem => !(st.denyAllIn && st.denyAllOut)
    case FileSystemIn => !st.denyAllIn && (param == "" || !DenyLookup(st.denyIn, param))
    case FileSystemOut => !st.denyAllOut && (param == "" || !DenyLookup(st.denyOut, param))
    case _ => false
  }

  class PolicyDenyFs {
    var denyAllIn: bool
    var denyAllOut: bool
    var denyIn: Tree
    var denyOut: Tree

    function State(): PolicyFsState
      reads this
    {
      PolicyFsState(denyAllIn, denyAllOut, denyIn, denyOut)
    }

    constructor()
      ensures State() == Initial
    {
      denyAllIn, denyAllOut, denyIn, denyOut := false, false, {}, {};
    }

    predicate IsGranted(perm: Scope, param: string)
      reads this
    {
      Granted(State(), perm, param)
    }

    method RestrictAccess(perm: Scope, res: string, dirs: set<string>)
      modifies this
      ensures State() == RestrictSpec(old(State()), perm, res, dirs)
    {
      var p := if res in dirs then WithWildcard(res) else res;
      if perm == FileSystemIn {
        denyAllIn := false;
        denyIn := denyIn + {p};
      } else if perm == FileSystemOut {
        denyAllOut := false;
        denyOut := denyOut + {p};
      }
    }

    method RestrictAccessAll(perm: Scope, params: seq<string>, dirs: set<string>)
      modifies this
      ensures State() == RestrictAllSpec(old(State()), perm, params, dirs)
    {
      var i := 0;
      while i < |params|
        invariant 0 <= i <= |params|
        invariant RestrictAllSpec(State(), perm, params[i..], dirs) == RestrictAllSpec(old(State()), perm, params, dirs)
      {
        assert params[i..][1..] == params[i + 1..];
        RestrictAccess(perm, params[i], dirs);
        i := i + 1;
      }
    }

    /** The inner loop of `Apply` over one ','-separated item, split at
        ':'; `stop` tells whether it returned from the whole Apply. */
    method ApplyItem(opts: seq<string>, dirs: set<string>) returns (stop: bool)
      modifies this
      ensures (State(), stop) == ApplyOpts(old(State()), PermissionsRoot, opts, dirs)
    {
      var perm := PermissionsRoot;
      var j := 0;
      while j < |opts|
        invariant 0 <= j <= |opts|
        invariant perm == PermissionsRoot || perm == FileSystemIn || perm == FileSystemOut
        invariant ApplyOpts(State(), perm, opts[j..], dirs) == ApplyOpts(old(State()), PermissionsRoot, opts, dirs)
      {
        var opt := opts[j];
        assert opts[j..][1..] == opts[j + 1..];
        if perm == PermissionsRoot {
          if opt == "fs" {
            denyAllIn, denyAllOut := true, true;
            return true;
          }
          if opt == "in" {
            perm := FileSystemIn;
            denyAllIn := true;
          } else if opt == "out" {
            perm := FileSystemOut;
            denyAllOut := true;
          } else {
            return true;
          }
        } else {
          RestrictAccess(perm, opt, dirs);
        }
        j := j + 1;
      }
      return false;
    }

    method Apply(deny: string, dirs: set<string>)
      modifies this
      ensures State() == ApplySpec(old(State()), deny, dirs)
    {
      var names := SplitString(deny, {','});
      var i := 0;
      while i < |names|
        invariant 0 <= i <= |names|
        invariant ApplyNames(State(), names[i..], dirs) == ApplySpec(old(State()), deny, dirs)
      {
        var opts := SplitString(names[i], {':'});
        var stop := ApplyItem(opts, dirs);
        if stop {
          return;
        }
        assert names[i..][1..] == names[i + 1..];
        i := i + 1;
      }
    }

    method Deny(perm: Scope, params: seq<string>, dirs: set<string>) returns (ok: bool)
      modifies this
      ensures (State(), ok) == DenySpec(old(State()), perm, params, dirs)
    {
      if perm == FileSystem {
        denyAllIn, denyAllOut := true, true;
        return true;
      }
      var denyAll := |params| == 0;
      if perm == FileSystemIn {
        if denyAll {
          denyAllIn := true;
        }
        if denyAllIn {
          return true;
        }
        RestrictAccessAll(perm, params, dirs);
        return true;
      }
      if perm == FileSystemOut {
        if denyAll {
          denyAllOut := true;
        }
        if denyAllOut {
          return true;
        }
        RestrictAccessAll(perm, params, dirs);
        return true;
      }
      return false;
    }
  }

  // ---------------------------------------------------------------------
  // What the operations promise
  // ---------------------------------------------------------------------

  /** Restricting a list of paths denies each of them (as stored), keeps
      every earlier denial and leaves the other scope alone. */
  lemma {:induction false} RestrictAllDenies(st: PolicyFsState, perm: Scope, params: seq<string>, dirs: set<string>)
    requires perm == FileSystemIn || perm == FileSystemOut
    ensures var st' := RestrictAllSpec(st, perm, params, dirs);
      (perm == FileSystemIn ==>
        st'.denyIn == st.denyIn + (set p | p in params :: Stored(p, dirs)) &&
        st'.denyOut == st.denyOut && st'.denyAllOut == st.denyAllOut &&
        (st'.denyAllIn <==> st.denyAllIn && params == [])) &&
      (perm == FileSystemOut ==>
        st'.denyOut == st.denyOut + (set p | p in params :: Stored(p, dirs)) &&
        st'.denyIn == st.denyIn && st'.denyAllIn == st.denyAllIn &&
        (st'.denyAllOut <==> st.denyAllOut && params == []))
    decreases |params|
  {
    if params != [] {
      var st1 := RestrictSpec(st, perm, params[0], dirs);
      RestrictAllDenies(st1, perm, params[1..], dirs);
      assert params == [params[0]] + params[1..];
      assert (set p | p in params :: Stored(p, dirs)) ==
        {Stored(params[0], dirs)} + (set p | p in params[1..] :: Stored(p, dirs));
      if params[1..] == [] {
        assert (set p | p in params[1..] :: Stored(p, dirs)) == {};
      }
    }
  }

  /** Deny never grants: whatever is refused before is refused after. */
  lemma DenyMonotone(st: PolicyFsState, perm: Scope, params: seq<string>, dirs: set<string>, q: Scope, param: string)
    ensures Granted(DenySpec(st, perm, params, dirs).0, q, param) ==> Granted(st, q, param)
  {
    if perm == FileSystemIn || perm == FileSystemOut {
      RestrictAllDenies(st, perm, params, dirs);
    }
  }

  /** Denying the same thing twice is the same as denying it once. */
  lemma DenyIdempotent(st: PolicyFsState, perm: Scope, params: seq<string>, dirs: set<string>)
    ensures var (st1, ok1) := DenySpec(st, perm, params, dirs);
      DenySpec(st1, perm, params, dirs) == (st1, ok1)
  {
    var st1 := DenySpec(st, perm, params, dirs).0;
    if (perm == FileSystemIn && !st1.denyAllIn) || (perm == FileSystemOut && !st1.denyAllOut) {
      var st0 := if perm == FileSystemIn then (if params == [] then st.(denyAllIn := true) else st)
                 else (if params == [] then st.(denyAllOut := true) else st);
      RestrictAllDenies(st0, perm, params, dirs);
      RestrictAllDenies(st1, perm, params, dirs);
    }
  }

  /** Deny answers true exactly for the three filesystem scopes, and
      changes nothing for any other scope. */
  lemma DenyResult(st: PolicyFsState, perm: Scope, params: seq<string>, dirs: set<string>)
    ensures DenySpec(st, perm, params, dirs).1 <==> perm in {FileSystem, FileSystemIn, FileSystemOut}
    ensures !DenySpec(st, perm, params, dirs).1 ==> DenySpec(st, perm, params, dirs).0 == st
  {
  }

  /** After Deny(FileSystem) every filesystem check fails. */
  lemma DenyFileSystemClosesAll(st: PolicyFsState, params: seq<string>, dirs: set<string>, q: Scope, param: string)
    ensures !Granted(DenySpec(st, FileSystem, params, dirs).0, q, param)
  {
  }

  /** Deny(FileSystemIn) without paths sets the flag; while it is set,
      denying paths changes nothing. */
  lemma DenyInAll(st: PolicyFsState, params: seq<string>, dirs: set<string>)
    ensures DenySpec(st, FileSystemIn, [], dirs).0 == st.(denyAllIn := true)
    ensures st.denyAllIn ==> DenySpec(st, FileSystemIn, params, dirs) == (st, true)
  {
  }

  /** Denying a directory denies every path below it. */
  lemma DenyDirectory(st: PolicyFsState, dir: string, dirs: set<string>, path: string)
    requires !st.denyAllIn
    requires dir in dirs && forall j :: 0 <= j < |dir| ==> dir[j] != '*'
    requires DirPrefix(dir) <= path
    ensures !Granted(DenySpec(st, FileSystemIn, [dir], dirs).0, FileSystemIn, path)
  {
    RestrictAllDenies(st, FileSystemIn, [dir], dirs);
    WildcardCoversDirectory(dir, path);
    assert dir in [dir];
    assert WithWildcard(dir) in DenySpec(st, FileSystemIn, [dir], dirs).0.denyIn;
  }

  /** The checks in terms of flags and trees. */
  lemma GrantedByFlagsAndTree(st: PolicyFsState, param: string)
    ensures Granted(st, FileSystemIn, param) <==> !st.denyAllIn && (param == "" || !DenyLookup(st.denyIn, param))
    ensures Granted(st, FileSystemOut, param) <==> !st.denyAllOut && (param == "" || !DenyLookup(st.denyOut, param))
    ensures Granted(st, FileSystem, param) <==> !st.denyAllIn || !st.denyAllOut
    ensures !Granted(st, PermissionsRoot, param) && !Granted(st, ChildProcess, param) &&
      !Granted(st, WorkerThreads, param)
  {
  }

  /** The root path is refused by fs.in and fs.out in every state, even a
      fresh one with nothing denied, while fs itself answers by the flags
      alone; any other path is refused on a fresh state only by a flag. */
  lemma RootPathRefused(st: PolicyFsState, param: string)
    ensures !Granted(st, FileSystemIn, "/") && !Granted(st, FileSystemOut, "/")
    ensures Granted(Initial, FileSystem, "/")
    ensures param != "/" ==> Granted(Initial, FileSystemIn, param) && Granted(Initial, FileSystemOut, param)
  {
    if param != "/" && param != "" {
      EmptyTreeMatchesNothing(param);
    }
  }

  /** Apply only adds to the deny trees: every restricted path is
      inserted and nothing is removed. */
  lemma {:induction false} ApplyOptsGrowsDenyTrees(st: PolicyFsState, perm: Scope, opts: seq<string>, dirs: set<string>)
    ensures st.denyIn <= ApplyOpts(st, perm, opts, dirs).0.denyIn
    ensures st.denyOut <= ApplyOpts(st, perm, opts, dirs).0.denyOut
    decreases |opts|
  {
    if opts != [] {
      if perm == PermissionsRoot {
        if opts[0] == "in" {
          ApplyOptsGrowsDenyTrees(st.(denyAllIn := true), FileSystemIn, opts[1..], dirs);
        } else if opts[0] == "out" {
          ApplyOptsGrowsDenyTrees(st.(denyAllOut := true), FileSystemOut, opts[1..], dirs);
        }
      } else {
        ApplyOptsGrowsDenyTrees(RestrictSpec(st, perm, opts[0], dirs), perm, opts[1..], dirs);
      }
    }
  }

  lemma {:induction false} ApplyNamesGrowsDenyTrees(st: PolicyFsState, names: seq<string>, dirs: set<string>)
    ensures st.denyIn <= ApplyNames(st, names, dirs).denyIn
    ensures st.denyOut <= ApplyNames(st, names, dirs).denyOut
    decreases |names|
  {
    if names != [] {
      var opts := Tokens(names[0], {':'});
      ApplyOptsGrowsDenyTrees(st, PermissionsRoot, opts, dirs);
      var (st', stop) := ApplyOpts(st, PermissionsRoot, opts, dirs);
      if !stop {
        ApplyNamesGrowsDenyTrees(st', names[1..], dirs);
      }
    }
  }

  /** Applied to a state with neither deny-all flag set, as at startup,
      any CLI value keeps every denial: a check that fails before fails
      after, and both deny trees only grow. (From a state whose flag is
      set this does not hold: a restricted path lifts the flag, see
      ApplyOptsLiftsDenyAll.) */
  lemma ApplyOnlyDenies(st: PolicyFsState, deny: string, dirs: set<string>, q: Scope, param: string)
    requires !st.denyAllIn && !st.denyAllOut
    ensures st.denyIn <= ApplySpec(st, deny, dirs).denyIn && st.denyOut <= ApplySpec(st, deny, dirs).denyOut
    ensures !Granted(st, q, param) ==> !Granted(ApplySpec(st, deny, dirs), q, param)
  {
    var st' := ApplySpec(st, deny, dirs);
    ApplyNamesGrowsDenyTrees(st, Tokens(deny, {','}), dirs);
    if !Granted(st, q, param) && q == FileSystemIn && param != "/" {
      var w :| w in st.denyIn && Matches(w, param);
      assert w in st'.denyIn;
    }
    if !Granted(st, q, param) && q == FileSystemOut && param != "/" {
      var w :| w in st.denyOut && Matches(w, param);
      assert w in st'.denyOut;
    }
  }

  /** A restricted path clears the deny-all flag of its scope, so after
      an earlier "in" the item "in:a" refuses only "a". */
  lemma ApplyOptsLiftsDenyAll()
    ensures var st := Initial.(denyAllIn := true);
      !Granted(st, FileSystemIn, "b") &&
      Granted(ApplyOpts(st, PermissionsRoot, ["in", "a"], {}).0, FileSystemIn, "b")
  {
    var st' := ApplyOpts(Initial.(denyAllIn := true), PermissionsRoot, ["in", "a"], {}).0;
    assert ["in", "a"][1..] == ["a"] && ["a"][1..] == [];
    assert st'.denyIn == {"a"};
    assert FirstWildcard("a") == 1;
  }

  /** The CLI value "in" closes reading only. */
  lemma CliExampleIn()
    ensures var st := ApplySpec(Initial, "in", {});
      Granted(st, FileSystem, "") && !Granted(st, FileSystemIn, "") && Granted(st, FileSystemOut, "")
  {
    TokensOfJoin(["in"], ',', {','});
    assert JoinWith(["in"], ',') == "in";
    TokensOfJoin(["in"], ':', {':'});
    assert JoinWith(["in"], ':') == "in";
  }

  /** "out,in" closes both and so the whole filesystem. */
  lemma CliExampleOutIn()
    ensures var st := ApplySpec(Initial, "out,in", {});
      !Granted(st, FileSystem, "") && !Granted(st, FileSystemIn, "") && !Granted(st, FileSystemOut, "")
  {
    TokensOfJoin(["out", "in"], ',', {','});
    assert JoinWith(["out", "in"], ',') == "out,in";
    TokensOfJoin(["in"], ':', {':'});
    TokensOfJoin(["out"], ':', {':'});
    assert JoinWith(["out"], ':') == "out";
    assert JoinWith(["in"], ':') == "in";
  }

  /** "in:a:b" denies a and b for reading and nothing else. */
  lemma CliExampleInAB()
    ensures var st := ApplySpec(Initial, "in:a:b", {});
      Granted(st, FileSystemIn, "") && !Granted(st, FileSystemIn, "a") && !Granted(st, FileSystemIn, "b") &&
      (forall w :: w in st.denyIn ==> w == "a" || w == "b")
  {
    TokensOfJoin(["in:a:b"], ',', {','});
    assert JoinWith(["in:a:b"], ',') == "in:a:b";
    TokensOfJoin(["in", "a", "b"], ':', {':'});
    assert JoinWith(["in", "a", "b"], ':') == "in:a:b";
    MatchesItself("a");
    MatchesItself("b");
  }
}
