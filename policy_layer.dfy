/** `Policy` of src/policy/policy.h and src/policy/policy.cc: the map
    `deny_policies` from scope to handler, filled by the constructor, and
    the operations that route a call to the handler registered for its
    scope; also the `deny` and `check` bindings and the
    THROW_IF_INSUFFICIENT_PERMISSIONS macro. */
module PolicyLayer {
  import opened Wrappers
  import opened Scopes
  import PolicyFs
  import PathPatterns
  import opened DenyAll

  /** Which of the three shared handlers a scope is routed to. */
  datatype Handler = FsHandler | ChildHandler | WorkerHandler

  /** The constructor's wiring: one `PolicyDenyFs` shared by the three
      filesystem scopes, and one handler each for child and worker. */
  function Wiring(): (m: map<Scope, Handler>)
    ensures PermissionsRoot !in m
  {
    map[FileSystem := FsHandler, FileSystemIn := FsHandler, FileSystemOut := FsHandler,
        ChildProcess := ChildHandler, WorkerThreads := WorkerHandler]
  }

  /** Every scope but the root has a handler. */
  lemma WiringCoversScopes(s: Scope)
    ensures s in Wiring() <==> s != PermissionsRoot
  {
    match s
    case PermissionsRoot =>
    case _ =>
  }

  /** The three handlers' state, as a value. */
  datatype PolicyState = PolicyState(fs: PolicyFs.PolicyFsState, childDenied: bool, workerDenied: bool)

  function HandlerGranted(h: Handler, st: PolicyState, scope: Scope, res: string): bool {
    match h
    case FsHandler => PolicyFs.Granted(st.fs, scope, res)
    case ChildHandler => !st.childDenied
    case WorkerHandler => !st.workerDenied
  }

  /** `is_granted`: the registered handler's answer, false when none is. */
  function GrantedSpec(st: PolicyState, scope: Scope, res: string): bool {
    if scope in Wiring() then HandlerGranted(Wiring()[scope], st, scope, res) else false
  }

  /** `Deny`: the registered handler's Deny, false when none is. */
  function DenySpec(st: PolicyState, scope: Scope, params: seq<string>, dirs: set<string>): (PolicyState, bool) {
    if scope !in Wiring() then (st, false)
    else match Wiring()[scope]
      case FsHandler =>
        var (fs', ok) := PolicyFs.DenySpec(st.fs, scope, params, dirs);
        (st.(fs := fs'), ok)
      case ChildHandler => (st.(childDenied := true), true)
      case WorkerHandler => (st.(workerDenied := true), true)
  }

  /** `Apply`: the registered handler's Apply, nothing when none is. */
  function ApplySpec(st: PolicyState, deny: string, scope: Scope, dirs: set<string>): PolicyState {
    if scope in Wiring() && Wiring()[scope] == FsHandler then st.(fs := PolicyFs.ApplySpec(st.fs, deny, dirs))
    else st
  }

  /** What THROW_IF_INSUFFICIENT_PERMISSIONS does: carry on, or throw an
      access-denied error naming the scope and return. */
  datatype Outcome = Proceed | AccessDenied(permission: Option<string>)

  class Policy {
    const fs: PolicyFs.PolicyDenyFs
    const childProcess: DenyAllHandler
    const worker: DenyAllHandler
    const denyPolicies: map<Scope, Handler>

    ghost predicate Valid()
      reads this
    {
      childProcess != worker && denyPolicies == Wiring()
    }

    function State(): PolicyState
      reads this, fs, childProcess, worker
    {
      PolicyState(fs.State(), childProcess.denyAll, worker.denyAll)
    }

    constructor()
      ensures Valid() && fresh(fs) && fresh(childProcess) && fresh(worker)
      ensures State() == PolicyState(PolicyFs.Initial, false, false)
    {
      fs := new PolicyFs.PolicyDenyFs();
      childProcess := new DenyAllHandler();
      worker := new DenyAllHandler();
      denyPolicies := map[FileSystem := FsHandler, FileSystemIn := FsHandler, FileSystemOut := FsHandler,
                          ChildProcess := ChildHandler, WorkerThreads := WorkerHandler];
    }

    /** `is_granted(permission, res)`; the string overload with its
        default "" is `IsGranted(scope, "")`. The handler takes a
        std::string built from `res` as a C string. */
    predicate IsGranted(scope: Scope, res: string)
      requires Valid()
      reads this, fs, childProcess, worker
    {
      if scope in denyPolicies then
        match denyPolicies[scope]
        case FsHandler => fs.IsGranted(scope, CStr(res))
        case ChildHandler => childProcess.IsGranted(scope, CStr(res))
        case WorkerHandler => worker.IsGranted(scope, CStr(res))
      else false
    }

    method Apply(deny: string, scope: Scope, dirs: set<string>)
      requires Valid()
      modifies fs, childProcess, worker
      ensures State() == ApplySpec(old(State()), deny, scope, dirs)
    {
      if scope in denyPolicies {
        match denyPolicies[scope]
        case FsHandler => fs.Apply(deny, dirs);
        case ChildHandler => childProcess.Apply(deny);
        case WorkerHandler => worker.Apply(deny);
      }
    }

    method Deny(scope: Scope, params: seq<string>, dirs: set<string>) returns (ok: bool)
      requires Valid()
      modifies fs, childProcess, worker
      ensures (State(), ok) == DenySpec(old(State()), scope, params, dirs)
    {
      if scope in denyPolicies {
        match denyPolicies[scope]
        case FsHandler => ok := fs.Deny(scope, params, dirs);
        case ChildHandler => ok := childProcess.Deny(scope, params);
        case WorkerHandler => ok := worker.Deny(scope, params);
      } else {
        ok := false;
      }
    }

    /** The `deny` binding: an unknown scope name answers false and
        touches nothing. The scope name and each path are copied out of
        their UTF-8 buffers as C strings. */
    method DenyBinding(scopeName: string, params: seq<string>, dirs: set<string>) returns (ok: bool)
      requires Valid()
      modifies fs, childProcess, worker
      ensures var scope := StringToPermission(CStr(scopeName));
        (State(), ok) == (if scope == PermissionsRoot then (old(State()), false)
                          else DenySpec(old(State()), scope, CStrs(params), dirs))
    {
      var scope := StringToPermission(CStr(scopeName));
      if scope == PermissionsRoot {
        return false;
      }
      var copied: seq<string> := [];
      var i := 0;
      while i < |params|
        invariant 0 <= i <= |params|
        invariant |copied| == i && forall j :: 0 <= j < i ==> copied[j] == CStr(params[j])
      {
        copied := copied + [CStr(params[i])];
        i := i + 1;
      }
      assert copied == CStrs(params);
      ok := Deny(scope, copied, dirs);
    }

    /** The `check` binding: with a resource it asks about the resource,
        without one about the scope as a whole. Both strings are read as C
        strings. */
    method CheckBinding(scopeName: string, resource: Option<string>) returns (granted: bool)
      requires Valid()
      ensures var scope := StringToPermission(CStr(scopeName));
        granted == (scope != PermissionsRoot &&
                    GrantedSpec(State(), scope, if resource.Some? then CStr(resource.value) else ""))
    {
      var scope := StringToPermission(CStr(scopeName));
      if scope == PermissionsRoot {
        return false;
      }
      if resource.Some? {
        return IsGranted(scope, resource.value);
      }
      return IsGranted(scope, "");
    }

    /** THROW_IF_INSUFFICIENT_PERMISSIONS. */
    method ThrowIfInsufficient(scope: Scope, res: string) returns (r: Outcome)
      requires Valid()
      ensures r == (if GrantedSpec(State(), scope, CStr(res)) then Proceed else AccessDenied(PermissionToString(scope)))
    {
      if !IsGranted(scope, res) {
        return AccessDenied(PermissionToString(scope));
      }
      return Proceed;
    }
  }

  /** The class's check is the specification's for the resource up to
      its first NUL, for a valid policy. */
  lemma IsGrantedMatchesSpec(p: Policy, scope: Scope, res: string)
    requires p.Valid()
    ensures p.IsGranted(scope, res) == GrantedSpec(p.State(), scope, CStr(res))
  {
  }

  /** A resource is checked only up to its first NUL, so whatever
      follows a NUL never changes an answer: once a non-empty path is
      denied for reading, that path followed by a NUL and anything else
      is refused too. */
  lemma CheckStopsAtNul(st: PolicyState, scope: Scope, path: string, tail: string)
    requires '\0' !in path
    ensures GrantedSpec(st, scope, CStr(path + ['\0'] + tail)) == GrantedSpec(st, scope, path)
    ensures var st' := DenySpec(st, FileSystemIn, CStrs([path]), {}).0;
      !st.fs.denyAllIn && path != "" ==> !GrantedSpec(st', FileSystemIn, CStr(path + ['\0'] + tail))
  {
    CStrCuts(path, tail);
    assert CStrs([path]) == [path];
    PolicyFs.RestrictAllDenies(st.fs, FileSystemIn, [path], {});
    assert path in [path];
    PathPatterns.MatchesItself(path);
    if !st.fs.denyAllIn {
      var st' := DenySpec(st, FileSystemIn, [path], {}).0;
      assert path in st'.fs.denyIn;
      assert PathPatterns.Lookup(st'.fs.denyIn, path);
    }
  }

  // ---------------------------------------------------------------------
  // What the dispatch promises
  // ---------------------------------------------------------------------

  /** No handler is registered for the root: it is never granted and
      Deny refuses it. */
  lemma RootRefused(st: PolicyState, res: string, params: seq<string>, dirs: set<string>)
    ensures !GrantedSpec(st, PermissionsRoot, res)
    ensures DenySpec(st, PermissionsRoot, params, dirs) == (st, false)
  {
  }

  /** Every real scope gets its handler's own answer. */
  lemma Delegates(st: PolicyState, scope: Scope, res: string)
    requires scope != PermissionsRoot
    ensures GrantedSpec(st, scope, res) ==
      (if scope == ChildProcess then !st.childDenied
       else if scope == WorkerThreads then !st.workerDenied
       else PolicyFs.Granted(st.fs, scope, res))
  {
  }

  /** The filesystem scopes share one handler: denying reading and then
      writing closes FileSystem too, and closing FileSystem closes both. */
  lemma FsHandlerShared(st: PolicyState, dirs: set<string>, res: string)
    ensures var st1 := DenySpec(st, FileSystemIn, [], dirs).0;
      var st2 := DenySpec(st1, FileSystemOut, [], dirs).0;
      !GrantedSpec(st2, FileSystem, res)
    ensures var st1 := DenySpec(st, FileSystem, [], dirs).0;
      !GrantedSpec(st1, FileSystemIn, res) && !GrantedSpec(st1, FileSystemOut, res)
  {
  }

  /** Deny never grants, whatever scope it is called for. */
  lemma DenyMonotone(st: PolicyState, scope: Scope, params: seq<string>, dirs: set<string>, q: Scope, res: string)
    ensures GrantedSpec(DenySpec(st, scope, params, dirs).0, q, res) ==> GrantedSpec(st, q, res)
  {
    if scope in Wiring() && Wiring()[scope] == FsHandler {
      PolicyFs.DenyMonotone(st.fs, scope, params, dirs, q, res);
    }
  }

  /** Apply at startup only denies: while neither filesystem deny-all
      flag is set, no check that fails before succeeds after, whatever the
      CLI value and the scope it is applied to. */
  lemma ApplyOnlyDenies(st: PolicyState, deny: string, scope: Scope, dirs: set<string>, q: Scope, res: string)
    requires !st.fs.denyAllIn && !st.fs.denyAllOut
    ensures !GrantedSpec(st, q, res) ==> !GrantedSpec(ApplySpec(st, deny, scope, dirs), q, res)
  {
    if scope in Wiring() && Wiring()[scope] == FsHandler {
      PolicyFs.ApplyOnlyDenies(st.fs, deny, dirs, q, res);
    }
  }

  /** Deny on one handler leaves the others' answers alone. */
  lemma DenyIsolated(st: PolicyState, scope: Scope, params: seq<string>, dirs: set<string>, q: Scope, res: string)
    requires scope in Wiring() && q in Wiring() && Wiring()[scope] != Wiring()[q]
    ensures GrantedSpec(DenySpec(st, scope, params, dirs).0, q, res) == GrantedSpec(st, q, res)
  {
  }
}
