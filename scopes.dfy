/** The scope table of src/policy/policy_deny.h (the `PERMISSIONS` macro
    and the `Permission` enum) and the two conversions of
    src/policy/policy.cc, `PermissionToString` and `StringToPermission`.
    All three permission layers are modelled over this one scope set. */
module Scopes {
  import opened Wrappers

  /** `Permission`: the root and the five scopes, in enum order. */
  datatype Scope = PermissionsRoot | FileSystem | FileSystemIn | FileSystemOut | ChildProcess | WorkerThreads

  /** `kPermissionsCount`, the value after the last scope. */
  const PermissionsCount: int := 5

  /** The enum's underlying values: the root is -1 and the scopes count up
      from 0 in macro order. */
  function Ordinal(s: Scope): (n: int)
    ensures s == PermissionsRoot <==> n == -1
    ensures -1 <= n < PermissionsCount
  {
    match s
    case PermissionsRoot => -1
    case FileSystem => 0
    case FileSystemIn => 1
    case FileSystemOut => 2
    case ChildProcess => 3
    case WorkerThreads => 4
  }

  lemma OrdinalInjective(s: Scope, t: Scope)
    ensures Ordinal(s) == Ordinal(t) <==> s == t
  {
  }

  /** The name column of the macro table. */
  function Label(s: Scope): string
    requires s != PermissionsRoot
  {
    match s
    case FileSystem => "fs"
    case FileSystemIn => "fs.in"
    case FileSystemOut => "fs.out"
    case ChildProcess => "child"
    case WorkerThreads => "worker"
  }

  /** The parent column of the macro table. */
  function Parent(s: Scope): (p: Scope)
    requires s != PermissionsRoot
    ensures p == FileSystem <==> s == FileSystemIn || s == FileSystemOut
    ensures p == FileSystem || p == PermissionsRoot
  {
    match s
    case FileSystemIn => FileSystem
    case FileSystemOut => FileSystem
    case _ => PermissionsRoot
  }

  /** `PermissionToString`: the scope's name, and nullptr for the root. */
  function PermissionToString(s: Scope): (r: Option<string>)
    ensures r == None <==> s == PermissionsRoot
  {
    match s
    case PermissionsRoot => None
    case FileSystem => Some("FileSystem")
    case FileSystemIn => Some("FileSystemIn")
    case FileSystemOut => Some("FileSystemOut")
    case ChildProcess => Some("ChildProcess")
    case WorkerThreads => Some("WorkerThreads")
  }

  /** `StringToPermission`: the scope whose label is `name`, tried in
      macro order, and the root when no name matches. */
  function StringToPermission(name: string): (s: Scope)
    ensures s != PermissionsRoot ==> Label(s) == name
    ensures s == PermissionsRoot ==> forall t :: t != PermissionsRoot ==> Label(t) != name
  {
    if name == "fs" then FileSystem
    else if name == "fs.in" then FileSystemIn
    else if name == "fs.out" then FileSystemOut
    else if name == "child" then ChildProcess
    else if name == "worker" then WorkerThreads
    else PermissionsRoot
  }

  /** Every scope is found again from its name, so labels are distinct. */
  lemma LabelRoundTrip(s: Scope)
    requires s != PermissionsRoot
    ensures StringToPermission(Label(s)) == s
  {
  }

  lemma LabelsDistinct(s: Scope, t: Scope)
    requires s != PermissionsRoot && t != PermissionsRoot
    ensures Label(s) == Label(t) <==> s == t
  {
    LabelRoundTrip(s);
    LabelRoundTrip(t);
  }

  /** Names are distinct as well. */
  lemma NamesDistinct(s: Scope, t: Scope)
    ensures PermissionToString(s) == PermissionToString(t) <==> s == t
  {
  }

  // ---------------------------------------------------------------------
  // C strings
  // ---------------------------------------------------------------------

  /** The std::string built from a `const char*`: the characters before
      the first NUL. Resources reach the handlers through `c_str()` or
      through String::Utf8Value's buffer, so this is what they see. */
  function CStr(s: string): (r: string)
    ensures r <= s && '\0' !in r
    ensures |r| < |s| ==> s[|r|] == '\0'
    decreases |s|
  {
    if s == [] || s[0] == '\0' then [] else [s[0]] + CStr(s[1..])
  }

  /** A string without NUL passes unchanged, and anything after the first
      NUL is lost. */
  lemma CStrCuts(a: string, b: string)
    requires '\0' !in a
    ensures CStr(a) == a
    ensures CStr(a + ['\0'] + b) == a
  {
    var s := a + ['\0'] + b;
    assert s[|a|] == '\0';
    assert s[..|a|] == a;
  }

  /** Each string of a list through CStr. */
  function CStrs(params: seq<string>): (r: seq<string>)
    ensures |r| == |params| && forall i :: 0 <= i < |params| ==> r[i] == CStr(params[i])
    decreases |params|
  {
    if params == [] then [] else [CStr(params[0])] + CStrs(params[1..])
  }
}
