/** The one-flag handlers: `ChildProcessPermission` and `WorkerPermission`
    of src/permission and of src/permissions, and `PolicyDenyChildProcess`
    and `PolicyDenyWorker` of src/policy. All six have the same body: one
    `deny_all` flag that `Deny` sets, that nothing resets, and that
    `is_granted` reports negated, whatever scope and resource it is asked
    about. `Apply` does nothing. */
module DenyAll {
  import opened Scopes

  /** The calls a handler receives. */
  datatype Call = ApplyCall(arg: string) | DenyCall(scope: Scope, params: seq<string>)

  /** The flag after one call. */
  function After(denied: bool, call: Call): bool {
    match call
    case ApplyCall(_) => denied
    case DenyCall(_, _) => true
  }

  /** The flag after a sequence of calls. */
  function AfterAll(denied: bool, calls: seq<Call>): bool
    decreases |calls|
  {
    if calls == [] then denied else AfterAll(After(denied, calls[0]), calls[1..])
  }

  /** Once denied, always denied. */
  lemma {:induction false} OnceDeniedAlwaysDenied(calls: seq<Call>)
    ensures AfterAll(true, calls)
    decreases |calls|
  {
    if calls != [] {
      OnceDeniedAlwaysDenied(calls[1..]);
    }
  }

  /** From a fresh handler, the flag is set exactly when some Deny was
      called; Apply never sets it. */
  lemma {:induction false} DeniedIffSomeDeny(calls: seq<Call>)
    ensures AfterAll(false, calls) <==> exists k :: 0 <= k < |calls| && calls[k].DenyCall?
    decreases |calls|
  {
    if calls != [] {
      if calls[0].DenyCall? {
        OnceDeniedAlwaysDenied(calls[1..]);
      } else {
        DeniedIffSomeDeny(calls[1..]);
        if exists k :: 0 <= k < |calls| && calls[k].DenyCall? {
          var k :| 0 <= k < |calls| && calls[k].DenyCall?;
          assert calls[1..][k - 1] == calls[k];
        }
        if exists k :: 0 <= k < |calls[1..]| && calls[1..][k].DenyCall? {
          var k :| 0 <= k < |calls[1..]| && calls[1..][k].DenyCall?;
          assert calls[k + 1] == calls[1..][k];
        }
      }
    }
  }

  class DenyAllHandler {
    var denyAll: bool

    /** `make_shared` value-initialises the flag to false. */
    constructor()
      ensures !denyAll
    {
      denyAll := false;
    }

    method Apply(deny: string)
      modifies this
      ensures denyAll == After(old(denyAll), ApplyCall(deny))
    {
    }

    method Deny(scope: Scope, params: seq<string>) returns (ok: bool)
      modifies this
      ensures denyAll == After(old(denyAll), DenyCall(scope, params))
      ensures ok
    {
      denyAll := true;
      return true;
    }

    /** `is_granted`: the scope and the resource are not consulted. */
    predicate IsGranted(scope: Scope, param: string)
      reads this
    {
      !denyAll
    }
  }
}
