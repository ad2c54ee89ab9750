/** The two allow-list dispatchers: `Permission` of
    src/permission/permission.h and `PermissionHandler` of
    src/permissions/permission_handler.h. Both route a check to the node
    registered for its scope, answer false for a scope with no node, and
    answer true for everything while the layer is not enabled.

    `Permission`'s constructor lives in permission.cc, which is not part of
    this model, so its node map and `enabled_` flag are constructor
    arguments here. `PermissionHandler`'s filesystem node is the
    FSPermission of src/permission/fs_permission.cc (the one in
    src/permissions is not part of this model). */
module PermissionLayer {
  import opened Scopes
  import FsPermission
  import PathPatterns
  import opened DenyAll

  /** Which of the three shared nodes a scope is routed to. */
  datatype Node = FsNode | ChildNode | WorkerNode

  /** The nodes' state, as a value. */
  datatype NodesState = NodesState(fs: FsPermission.FsState, childDenied: bool, workerDenied: bool)

  /** `PermissionHandler`'s wiring: one FSPermission shared by the three
      filesystem scopes, and one node each for child and worker. */
  function HandlerWiring(): (m: map<Scope, Node>)
    ensures PermissionsRoot !in m
  {
    map[FileSystem := FsNode, FileSystemIn := FsNode, FileSystemOut := FsNode,
        ChildProcess := ChildNode, WorkerThreads := WorkerNode]
  }

  function NodeGranted(n: Node, st: NodesState, scope: Scope, res: string): bool {
    match n
    case FsNode => FsPermission.Granted(st.fs, scope, res)
    case ChildNode => !st.childDenied
    case WorkerNode => !st.workerDenied
  }

  /** `is_granted` of both dispatchers. */
  function GrantedSpec(enabled: bool, nodes: map<Scope, Node>, st: NodesState, scope: Scope, res: string): bool {
    if !enabled then true
    else if scope in nodes then NodeGranted(nodes[scope], st, scope, res)
    else false
  }

  /** What THROW_IF_INSUFFICIENT_PERMISSIONS does. In permission.h the
      error carries the resource as well as the scope. */
  datatype Outcome = Proceed | AccessDenied(scope: Scope, resource: string)

  class Permission {
    const fs: FsPermission.FSPermission
    const childProcess: DenyAllHandler
    const worker: DenyAllHandler
    const nodes: map<Scope, Node>
    const enabled: bool

    ghost predicate Valid()
      reads this
    {
      childProcess != worker
    }

    function State(): NodesState
      reads this, fs, childProcess, worker
    {
      NodesState(fs.State(), childProcess.denyAll, worker.denyAll)
    }

    constructor(nodes: map<Scope, Node>, enabled: bool)
      ensures Valid() && this.nodes == nodes && this.enabled == enabled
      ensures State() == NodesState(FsPermission.Initial, false, false)
    {
      fs := new FsPermission.FSPermission();
      childProcess := new DenyAllHandler();
      worker := new DenyAllHandler();
      this.nodes := nodes;
      this.enabled := enabled;
    }

    /** `is_granted(permission, res)`; the string overload with its
        default "" is `IsGranted(scope, "")`. The node takes a std::string
        built from `res` as a C string. */
    predicate IsGranted(scope: Scope, res: string)
      reads this, fs, childProcess, worker
    {
      if !enabled then true
      else if scope in nodes then
        match nodes[scope]
        case FsNode => fs.IsGranted(scope, CStr(res))
        case ChildNode => childProcess.IsGranted(scope, CStr(res))
        case WorkerNode => worker.IsGranted(scope, CStr(res))
      else false
    }

    /** THROW_IF_INSUFFICIENT_PERMISSIONS of permission.h. */
    method ThrowIfInsufficient(scope: Scope, res: string) returns (r: Outcome)
      ensures r == (if GrantedSpec(enabled, nodes, State(), scope, CStr(res)) then Proceed else AccessDenied(scope, res))
    {
      if !IsGranted(scope, res) {
        return AccessDenied(scope, res);
      }
      return Proceed;
    }
  }

  class PermissionHandler {
    const fs: FsPermission.FSPermission
    const childProcess: DenyAllHandler
    const worker: DenyAllHandler
    const perm: map<Scope, Node>
    var enabled: bool

    ghost predicate Valid()
      reads this
    {
      childProcess != worker && perm == HandlerWiring()
    }

    function State(): NodesState
      reads this, fs, childProcess, worker
    {
      NodesState(fs.State(), childProcess.denyAll, worker.denyAll)
    }

    /** The constructor leaves the layer disabled. */
    constructor()
      ensures Valid() && !enabled
      ensures State() == NodesState(FsPermission.Initial, false, false)
    {
      fs := new FsPermission.FSPermission();
      childProcess := new DenyAllHandler();
      worker := new DenyAllHandler();
      perm := map[FileSystem := FsNode, FileSystemIn := FsNode, FileSystemOut := FsNode,
                  ChildProcess := ChildNode, WorkerThreads := WorkerNode];
      enabled := false;
    }

    /** `is_granted`, passing `res` on as a C string as well. */
    predicate IsGranted(scope: Scope, res: string)
      reads this, fs, childProcess, worker
    {
      if !enabled then true
      else if scope in perm then
        match perm[scope]
        case FsNode => fs.IsGranted(scope, CStr(res))
        case ChildNode => childProcess.IsGranted(scope, CStr(res))
        case WorkerNode => worker.IsGranted(scope, CStr(res))
      else false
    }

    /** THROW_IF_INSUFFICIENT_PERMISSIONS of permission_handler.h: the
        error names the scope only. */
    method ThrowIfInsufficient(scope: Scope, res: string) returns (r: Outcome)
      ensures r == (if GrantedSpec(enabled, perm, State(), scope, CStr(res)) then Proceed else AccessDenied(scope, ""))
    {
      if !IsGranted(scope, res) {
        return AccessDenied(scope, "");
      }
      return Proceed;
    }
  }

  /** Both classes' checks are the specification's for the resource up
      to its first NUL. */
  lemma IsGrantedMatchesSpec(p: Permission, h: PermissionHandler, scope: Scope, res: string)
    ensures p.IsGranted(scope, res) == GrantedSpec(p.enabled, p.nodes, p.State(), scope, CStr(res))
    ensures h.IsGranted(scope, res) == GrantedSpec(h.enabled, h.perm, h.State(), scope, CStr(res))
  {
  }

  // ---------------------------------------------------------------------
  // What the dispatch promises
  // ---------------------------------------------------------------------

  /** A disabled layer grants everything. */
  lemma DisabledGrantsAll(nodes: map<Scope, Node>, st: NodesState, scope: Scope, res: string)
    ensures GrantedSpec(false, nodes, st, scope, res)
  {
  }

  /** An enabled layer refuses a scope with no node, and otherwise gives
      the node's own answer unchanged. */
  lemma EnabledDelegates(nodes: map<Scope, Node>, st: NodesState, scope: Scope, res: string)
    ensures scope !in nodes ==> !GrantedSpec(true, nodes, st, scope, res)
    ensures scope in nodes ==> GrantedSpec(true, nodes, st, scope, res) == NodeGranted(nodes[scope], st, scope, res)
  {
  }

  /** With PermissionHandler's wiring, the root is refused once enabled,
      and the filesystem scopes read one shared state. */
  lemma HandlerWiringAnswers(st: NodesState, res: string)
    ensures !GrantedSpec(true, HandlerWiring(), st, PermissionsRoot, res)
    ensures GrantedSpec(true, HandlerWiring(), st, FileSystem, res) <==> !st.fs.denyAllIn || !st.fs.denyAllOut
    ensures GrantedSpec(true, HandlerWiring(), st, ChildProcess, res) <==> !st.childDenied
    ensures GrantedSpec(true, HandlerWiring(), st, WorkerThreads, res) <==> !st.workerDenied
  {
  }

  /** The answers of the state PermissionHandler's constructor builds:
      everything while it is disabled; once enabled, with nothing applied,
      fs, child and worker are granted, fs.in and fs.out only for the empty
      resource (no path has been granted yet), and the root is refused. */
  lemma FreshHandlerAnswers(scope: Scope, res: string)
    ensures var st := NodesState(FsPermission.Initial, false, false);
      GrantedSpec(false, HandlerWiring(), st, scope, res) &&
      (GrantedSpec(true, HandlerWiring(), st, scope, res) <==>
        scope == FileSystem || scope == ChildProcess || scope == WorkerThreads ||
        ((scope == FileSystemIn || scope == FileSystemOut) && res == ""))
  {
    if res != "" {
      PathPatterns.EmptyTreeMatchesNothing(res);
    }
  }
}
