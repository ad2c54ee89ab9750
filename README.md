# Node.js benchmark engine, permission layers and path utilities in Dafny

This project models three self-contained parts of the Node.js repository and
proves properties of each.

- **The experimental benchmark engine** (`lib/internal/benchmark`). It covers:
  - the append-then-seal `StatisticalHistogram`, with its outlier filter, its
    statistics and `percentile`;
  - the `ManagedTimer` start/end state machine and the unit choice of
    `Timer.format`;
  - the choice between managed and unmanaged runners;
  - the calibration loop of `runBenchmark`;
  - the `Suite` registry with its option defaults, validation and run order.

  Clock readings, the benchmarked function and the outcome of each cycle are
  inputs. They are supplied as sequences rather than read from a clock.
- **The permission layers.** The repository holds three historical copies of
  one design:
  - `src/policy`: `Policy` and `PolicyDenyFs`;
  - `src/permission`: `Permission` and `FSPermission`;
  - `src/permissions`: `PermissionHandler`.

  Each has a filesystem handler of deny-all flags and path-pattern trees, and
  one-flag child-process and worker handlers. A dispatcher routes a check to
  the handler registered for its scope. The scope table and its labels live in
  `Scopes`. Path trees are abstracted to sets of patterns with a wildcard-prefix
  match.
- **Path utilities of `src/util.cc`**: `SplitString`, `IsPathSeparator`,
  `NormalizeString` and the POSIX `PathResolve`. Each looping function is a
  method proved against a specification function. The promised properties are
  proved about that function: the shape of the result, idempotence, and when
  the working directory is consulted.

Modules:

| file | module |
|---|---|
| `wrappers.dfy` | `Wrappers`: `Option`, `Result` |
| `scopes.dfy` | the `Permission` enum of `src/policy/policy_deny.h` and its labels |
| `path_util.dfy` | `SplitString`, `IsPathSeparator` and `NormalizeString` |
| `path_resolve.dfy` | the POSIX `PathResolve` |
| `path_patterns.dfy` | the radix trees as pattern sets |
| `fs_permission.dfy` | `FSPermission` of `src/permission/fs_permission.cc` |
| `policy_deny_fs.dfy` | `PolicyDenyFs` of `src/policy/policy_deny_fs.cc` |
| `deny_all.dfy` | the six identical one-flag child-process and worker handlers |
| `policy_layer.dfy` | `Policy` of `src/policy/policy.h` and `policy.cc` |
| `permission_layer.dfy` | `Permission` and `PermissionHandler` |
| `histogram.dfy` | `StatisticalHistogram` |
| `clock.dfy` | `Timer.format`, `ManagedTimer`, `createRunner`, `clockBenchmark` |
| `lifecycle.dfy` | `getItersForOpDuration`, `getInitialIterations`, `runBenchmark` |
| `runner.dfy` | `Suite` and `Benchmark` |

Stateful classes keep their fields as in the source. Each has a `State()`
function returning a value. Every method's contract ties the new state to a
specification function of the old one. The lemmas about those functions carry
the properties.

## Model

| member | source | states |
|---|---|---|
| `Scopes.Ordinal` | src/policy/policy_deny.h:29-34 | the root scope is -1, and every real scope numbers between -1 and the count |
| `Scopes.OrdinalInjective` | src/policy/policy_deny.h:29-34 | distinct scopes have distinct enum values, so the root differs from every real scope |
| `Scopes.Parent` | src/policy/policy_deny.h:14-22 | fs.in and fs.out have parent fs; every other scope has the root as parent |
| `Scopes.PermissionToString` | src/policy/policy.cc:98-104 | a scope's name is absent (nullptr) exactly for the root |
| `Scopes.StringToPermission` | src/policy/policy.cc:106-112 | a label maps to the scope carrying it; a string that is no label maps to the root |
| `Scopes.LabelRoundTrip` | src/policy/policy.cc:106-112 | mapping a scope's label back gives the scope itself |
| `Scopes.LabelsDistinct` | src/policy/policy_deny.h:14-22 | the five labels are pairwise distinct |
| `Scopes.NamesDistinct` | src/policy/policy.cc:98-104 | the printed names are pairwise distinct |
| `Scopes.CStr` | src/policy/policy.h:60-63 | the string a handler receives through `c_str()` is the longest NUL-free prefix of the resource |
| `Scopes.CStrCuts` | src/policy/policy.cc:86-90 | a NUL-free string passes unchanged, and everything from the first NUL on is lost |
| `Scopes.CStrs` | src/policy/policy.cc:51-61 | each deny path is copied as a C string, in order |
| `PathUtil.SeparatorsByPlatform` | src/util.cc:653-662 | POSIX accepts only '/'; Windows accepts '/' and '\\'; every POSIX separator is a Windows one |
| `PathUtil.PlatformSeparator` | src/util.cc:679 | the separator substituted at end of input is a separator of the platform |
| `PathUtil.FindFirstOfFinds` | src/util.cc:181-182 | the search passes over no delimiter and stops at a delimiter or at the end |
| `PathUtil.FindFirstOfAt` | src/util.cc:181-182 | conversely, the first delimiter at or after the start (or the end when there is none) is the index returned |
| `PathUtil.FindFirstOfSuffix` | src/util.cc:179-182 | searching from `first` finds the same delimiter as searching the suffix that starts at `first` |
| `PathUtil.TokensWellFormed` | src/util.cc:174-190 | every token is non-empty and holds no delimiter |
| `PathUtil.TokensKeepEverythingElse` | src/util.cc:174-190 | concatenating the tokens gives the input with every delimiter removed |
| `PathUtil.TokensOfJoin` | src/util.cc:174-190 | splitting non-empty delimiter-free tokens joined by a delimiter gives those tokens back |
| `PathUtil.SplitAdvance` | src/util.cc:181-186 | a pass that stops at a delimiter past `first` moves the token before it to the output and leaves the tokens after it to come |
| `PathUtil.SplitFinish` | src/util.cc:178-186 | a pass that reaches the end without a delimiter moves the last token to the output, which is then all the tokens |
| `PathUtil.SplitSkip` | src/util.cc:184-186 | a delimiter right at `first` adds no token |
| `PathUtil.SplitString` | src/util.cc:174-190 | the loop returns exactly the tokens in order; empty input gives an empty list |
| `PathUtil.SplitSegmentsSeparatorFree` | src/util.cc:673-684 | the segments between separators hold no separator |
| `PathUtil.DotCountNames` | src/util.cc:725-729 | the loop's `dots` counter is 1 exactly for "." and 2 exactly for "..", so "..." and ".x" are ordinary segments |
| `PathUtil.JoinLastSegment` | src/util.cc:686-698 | in a joined result, the last separator is where the last segment begins, and there is none for a single segment |
| `PathUtil.CloseSegment` | src/util.cc:682-724 | a segment closed at a separator updates `res` and `lastSegmentLength` to the join and last length of the kept segments after that segment |
| `PathUtil.ParentSegment` | src/util.cc:685-714 | ".." drops the last kept segment unless there is none or it is ".."; the result and last length match |
| `PathUtil.KeepParent` | src/util.cc:711-714 | with nothing to drop, ".." is appended only when `allowAboveRoot` holds |
| `PathUtil.DropLastSegment` | src/util.cc:689-698 | cutting at the last separator drops exactly the last segment; the npos case yields the whole length |
| `PathUtil.SegmentGrows` | src/util.cc:725-729 | a non-separator character extends the current segment and updates its dot count |
| `PathUtil.SegmentCloses` | src/util.cc:682-684 | a separator closes the current segment and opens an empty one |
| `PathUtil.SegmentEnds` | src/util.cc:677-684 | the segment that ends at a separator or at the end is separator-free, its dot count is `dots`, Collapse takes one more step for it, and at the end the closed segments are all the segments of the path |
| `PathUtil.NormalizeString` | src/util.cc:664-733 | the loop returns the join of the collapsed segments of the input, treating the end as one more separator |
| `PathUtil.CollapseClean` | src/util.cc:682-724 | no kept segment is empty or "."; a ".." is kept only at the front, and only when `allowAboveRoot` holds |
| `PathUtil.CollapseWellFormed` | src/util.cc:682-724 | every kept segment is non-empty and free of separators |
| `PathUtil.CollapseClean_Identity` | src/util.cc:682-724 | collapsing segments that are already clean changes nothing |
| `PathUtil.SplitJoin` | src/util.cc:715-722 | joining kept segments with the separator and splitting again gives the segments back |
| `PathUtil.JoinTidy` | src/util.cc:715-722 | a join never starts or ends with the separator and never has two adjacent separators |
| `PathUtil.NormalizedShape` | src/util.cc:664-733 | a normalized path is tidy, and its segments are clean |
| `PathUtil.NormalizeIdempotent` | src/util.cc:664-733 | normalizing a normalized path returns it unchanged |
| `PathResolve.PathResolve` | src/util.cc:879-902 | the loop returns the specification's resolved path: arguments scanned right to left, then the working directory, then normalization |
| `PathResolve.GatherAbsoluteIff` | src/util.cc:885-893 | the gathered path is absolute exactly when some argument, the working directory included, is absolute |
| `PathResolve.ResolvedShape` | src/util.cc:879-901 | the result is never empty, and it starts with '/' exactly when the working directory or some argument is absolute |
| `PathResolve.AbsoluteHasNoParent` | src/util.cc:896-899 | an absolute result holds no ".." segment, since normalization does not climb above the root |
| `PathResolve.GatherStopsAtAbsolute` | src/util.cc:885-893 | once an absolute argument is met, nothing to its left is consulted |
| `PathResolve.CwdIgnoredWhenAbsolute` | src/util.cc:885-893 | with an absolute argument, the working directory does not affect the result |
| `PathResolve.GatherFromCwd` | src/util.cc:885-893 | with only relative arguments, an absolute working directory makes the gathered path absolute |
| `PathResolve.CwdUsedWhenRelative` | src/util.cc:885-901 | with only relative arguments and an absolute working directory, the result is absolute |
| `PathPatterns.FirstWildcard` | src/permission/fs_permission.cc:166-178 | the index is the first '*' of the pattern, or its length when there is none |
| `PathPatterns.Insert` | src/permission/fs_permission.cc:159-180 | after an insert, a path is found exactly when it was found before or it matches the new pattern |
| `PathPatterns.MatchesItself` | src/permission/fs_permission.cc:131-157 | an inserted path is found again |
| `PathPatterns.EmptyTreeMatchesNothing` | src/permission/fs_permission.cc:133-135 | a tree with nothing inserted matches no path |
| `PathPatterns.WithWildcard` | src/permission/fs_permission.cc:81-84 | a directory is stored as a longer pattern ending in '*' |
| `PathPatterns.WildcardCoversDirectory` | src/policy/policy_deny_fs.cc:77-81 | a stored directory matches exactly the paths that start with the directory followed by '/' |
| `PathPatterns.FirstWildcardAt` | src/permission/fs_permission.cc:166-178 | a pattern whose first '*' is at w has w as its first wildcard |
| `PathPatterns.WildcardExample` | src/permission/fs_permission.cc:131-157 | '/example/foo*' matches '/example/foo2' and '/example/foo/file' but not '/example/for' |
| `FsPermission.FSPermission.constructor` | src/permission/fs_permission.cc:125 | a new handler has both flags clear and empty trees |
| `FsPermission.FSPermission.GrantAccess` | src/permission/fs_permission.cc:78-90 | a directory is granted as dir/"*", a file as itself, in the read or write grant tree; other scopes change nothing |
| `FsPermission.FSPermission.ApplyItem` | src/permission/fs_permission.cc:23-43 | one item: fs clears both flags and ends Apply; read/write clear their flag and grant the following paths; anything else ends Apply |
| `FsPermission.FSPermission.Apply` | src/permission/fs_permission.cc:21-45 | the state after the loop is the specification's: read/write clear their flag and grant the following paths; fs clears both and stops; anything else stops |
| `FsPermission.FSPermission.Deny` | src/permission/fs_permission.cc:47-76 | new state and result are the specification's |
| `FsPermission.DenyMonotone` | src/permission/fs_permission.cc:47-106 | after any deny, a check that was false stays false |
| `FsPermission.InsertAllGrows` | src/permission/fs_permission.cc:61-62 | inserting paths never makes a path unfound |
| `FsPermission.DenyIdempotent` | src/permission/fs_permission.cc:55-74 | repeating a deny with the same arguments changes nothing more and returns the same result |
| `FsPermission.DenyResult` | src/permission/fs_permission.cc:47-76 | deny returns true exactly for the three filesystem scopes (fs, fs.in and fs.out); otherwise the state is unchanged |
| `FsPermission.DenyFileSystemClosesAll` | src/permission/fs_permission.cc:49-53 | after denying fs, every check on every scope is false |
| `FsPermission.DenyReadAll` | src/permission/fs_permission.cc:55-64 | an empty read deny sets the flag; with the flag set, a deny inserts nothing; otherwise each path becomes refused |
| `FsPermission.GrantedByFlagsAndTrees` | src/permission/fs_permission.cc:92-106 | empty resource: the flag alone decides; otherwise deny overrides grant and an ungranted path is refused; fs is false only with both flags; other scopes give false |
| `FsPermission.ApplyOptsOnlyGrants` | src/permission/fs_permission.cc:24-43 | one item of the allow list never turns a true check false |
| `FsPermission.ApplyNamesOnlyGrants` | src/permission/fs_permission.cc:22-44 | a run of items never turns a true check false |
| `FsPermission.ApplyOnlyGrants` | src/permission/fs_permission.cc:21-45 | applying an allow string never turns a true check false |
| `FsPermission.ApplyOptsKeepsDenyTrees` | src/permission/fs_permission.cc:24-43 | applying an allow list never touches the deny trees |
| `FsPermission.GrantDirectory` | src/permission/fs_permission.cc:78-86 | granting a directory grants every path under it |
| `PolicyFs.PolicyDenyFs.constructor` | src/policy/policy_deny_fs.cc:132 | a new handler has both flags clear and deny trees holding only their root node "/", which nothing has been inserted under |
| `PolicyFs.PolicyDenyFs.RestrictAccess` | src/policy/policy_deny_fs.cc:76-91 | the flag for the scope is cleared and the path, or dir/"*", is inserted into its deny tree |
| `PolicyFs.PolicyDenyFs.RestrictAccessAll` | src/policy/policy_deny_fs.cc:93-98 | every path in turn goes through the single-path restriction |
| `PolicyFs.PolicyDenyFs.ApplyItem` | src/policy/policy_deny_fs.cc:22-42 | one item: fs sets both flags and ends Apply; in/out set their flag and restrict the following paths; anything else ends Apply |
| `PolicyFs.PolicyDenyFs.Apply` | src/policy/policy_deny_fs.cc:20-44 | the state after the loop is the specification's: fs sets both flags and stops; in/out set their flag and restrict to the following paths; anything else stops |
| `PolicyFs.PolicyDenyFs.Deny` | src/policy/policy_deny_fs.cc:46-74 | new state and result are the specification's |
| `PolicyFs.RestrictAllDenies` | src/policy/policy_deny_fs.cc:76-98 | restricting a list of paths adds exactly their stored patterns to the scope's deny tree, leaves the scope's deny-all flag set only when the list is empty, and leaves the other scope alone |
| `PolicyFs.DenyMonotone` | src/policy/policy_deny_fs.cc:46-113 | a deny never turns a false check true |
| `PolicyFs.DenyIdempotent` | src/policy/policy_deny_fs.cc:54-71 | repeating a deny changes nothing more and returns the same result |
| `PolicyFs.DenyResult` | src/policy/policy_deny_fs.cc:46-74 | deny returns true exactly for fs, fs.in and fs.out; otherwise the state is unchanged |
| `PolicyFs.DenyFileSystemClosesAll` | src/policy/policy_deny_fs.cc:48-52 | after denying fs, every check is false |
| `PolicyFs.DenyInAll` | src/policy/policy_deny_fs.cc:54-58 | an empty in-deny sets the flag; with the flag set, a deny returns true and changes nothing |
| `PolicyFs.DenyDirectory` | src/policy/policy_deny_fs.cc:77-81 | denying a directory refuses every path under it |
| `PolicyFs.GrantedByFlagsAndTree` | src/policy/policy_deny_fs.cc:100-113 | in/out need a clear flag and an empty or unmatched resource, where "/" always matches; fs is false only with both flags; other scopes give false |
| `PolicyFs.RootPathRefused` | src/policy/policy_deny_fs.cc:100-147 | in every state, a fresh one included, fs.in and fs.out refuse "/", because the tree's root node "/" matches it; on a fresh state fs is granted and every other path is granted |
| `PolicyFs.CliExampleIn` | src/policy/policy_deny_fs.cc:20-44 | the CLI value "in" leaves fs and fs.out true and fs.in false |
| `PolicyFs.CliExampleOutIn` | src/policy/policy_deny_fs.cc:20-44 | the CLI value "out,in" makes fs, fs.in and fs.out all false |
| `PolicyFs.CliExampleInAB` | src/policy/policy_deny_fs.cc:20-44 | the CLI value "in:a:b" refuses a and b for reading, denies nothing else, and leaves reading open otherwise |
| `PolicyFs.ApplyOptsGrowsDenyTrees` | src/policy/policy_deny_fs.cc:23-41 | one item of the deny list never removes a pattern from either deny tree |
| `PolicyFs.ApplyNamesGrowsDenyTrees` | src/policy/policy_deny_fs.cc:21-43 | a run of items never removes a pattern from either deny tree |
| `PolicyFs.ApplyOnlyDenies` | src/policy/policy_deny_fs.cc:20-44 | from a state with both deny-all flags clear, any CLI value only grows the deny trees and never turns a false check true |
| `PolicyFs.ApplyOptsLiftsDenyAll` | src/policy/policy_deny_fs.cc:32-41 | a restricted path clears a deny-all flag set earlier, so from a state with a flag set Apply can turn a false check true |
| `DenyAll.OnceDeniedAlwaysDenied` | src/permission/child_process_permission.cc:11-24 | once the flag is set, no sequence of calls clears it |
| `DenyAll.DeniedIffSomeDeny` | src/permission/worker_permission.cc:11-24 | from a fresh handler, the flag is set exactly when some call was a deny |
| `DenyAll.DenyAllHandler.constructor` | src/policy/policy.h:34-37 | a new handler starts with the flag clear |
| `DenyAll.DenyAllHandler.Apply` | src/permissions/child_process_permission.cc:13 | apply leaves the flag as it was |
| `DenyAll.DenyAllHandler.Deny` | src/policy/policy_deny_worker.cc:15-19 | deny sets the flag and returns true, whatever the scope and parameters |
| `PolicyLayer.Wiring` | src/policy/policy.h:32-50 | the root scope has no handler |
| `PolicyLayer.WiringCoversScopes` | src/policy/policy.h:32-50 | exactly the five real scopes have a handler |
| `PolicyLayer.Policy.constructor` | src/policy/policy.h:32-50 | three fresh handlers are built, with filesystem, child and worker states all initial |
| `PolicyLayer.Policy.Apply` | src/policy/policy.cc:127-132 | the state after apply is the specification's: forwarded to the scope's handler |
| `PolicyLayer.Policy.Deny` | src/policy/policy.cc:134-140 | the new state and result are the specification's: the handler's result, or false with no handler |
| `PolicyLayer.Policy.DenyBinding` | src/policy/policy.cc:34-65 | an unrecognised scope string gives false and changes nothing; otherwise the deny of that scope, with the scope name and every path cut at its first NUL |
| `PolicyLayer.Policy.CheckBinding` | src/policy/policy.cc:69-94 | an unrecognised scope string gives false; otherwise the check with the given resource cut at its first NUL, or with "" when none is given |
| `PolicyLayer.Policy.ThrowIfInsufficient` | src/policy/policy.h:22-28 | access is denied, naming the scope, exactly when the check of the resource up to its first NUL fails |
| `PolicyLayer.IsGrantedMatchesSpec` | src/policy/policy.h:52-63 | the class's check equals the specification's for the resource up to its first NUL |
| `PolicyLayer.CheckStopsAtNul` | src/policy/policy.cc:86-90 | what follows a NUL in a resource never changes an answer: a denied non-empty path stays refused with a NUL and any suffix appended |
| `PolicyLayer.RootRefused` | src/policy/policy.h:52-58 | the root scope is refused, and denying it returns false and changes nothing |
| `PolicyLayer.Delegates` | src/policy/policy.h:53-55 | a real scope gets its handler's answer unchanged |
| `PolicyLayer.FsHandlerShared` | src/policy/policy.h:32-41 | denying fs.in and then fs.out closes fs, and denying fs closes fs.in and fs.out, since one handler serves all three |
| `PolicyLayer.DenyMonotone` | src/policy/policy.cc:134-140 | a deny through the policy never turns a false check true |
| `PolicyLayer.ApplyOnlyDenies` | src/policy/policy.cc:127-132 | applied with both filesystem deny-all flags clear, a CLI value never turns a false check true, whatever the scope |
| `PolicyLayer.DenyIsolated` | src/policy/policy.h:32-49 | a deny on one handler's scopes does not change the checks of another handler |
| `PermissionLayer.HandlerWiring` | src/permissions/permission_handler.h:33-47 | the root scope has no node |
| `PermissionLayer.Permission.constructor` | src/permission/permission.h:31-33 | the node map and the enabled flag are as given, and every node starts in its initial state |
| `PermissionLayer.Permission.ThrowIfInsufficient` | src/permission/permission.h:22-29 | access is denied, carrying the scope and the resource, exactly when the check of the resource up to its first NUL fails |
| `PermissionLayer.PermissionHandler.constructor` | src/permissions/permission_handler.h:32-48 | the layer starts disabled, with the fixed wiring and initial nodes |
| `PermissionLayer.PermissionHandler.ThrowIfInsufficient` | src/permissions/permission_handler.h:22-28 | access is denied, naming only the scope, exactly when the check of the resource up to its first NUL fails |
| `PermissionLayer.IsGrantedMatchesSpec` | src/permission/permission.h:35-47 | both dispatchers' checks equal the specification's for the resource up to its first NUL |
| `PermissionLayer.DisabledGrantsAll` | src/permission/permission.h:35-36 | a disabled layer grants every scope and resource |
| `PermissionLayer.EnabledDelegates` | src/permission/permission.h:37-41 | enabled: an unregistered scope is refused, and a registered one gets its node's answer |
| `PermissionLayer.HandlerWiringAnswers` | src/permissions/permission_handler.h:50-60 | with the handler's wiring: the root is refused, fs reads the shared flags, child and worker read their own flag |
| `PermissionLayer.FreshHandlerAnswers` | src/permissions/permission_handler.h:32-48 | the constructor's state grants everything while disabled; once enabled with nothing applied, fs, child and worker are granted, fs.in and fs.out only for the empty resource, and the root is refused |
| `Histogram.SortedCons` | lib/internal/benchmark/histogram.js:135 | a sample no greater than the head of a sorted sequence keeps it sorted when put in front |
| `Histogram.InsertSpecPermutes` | lib/internal/benchmark/histogram.js:135 | inserting into sorted samples adds exactly that sample |
| `Histogram.InsertSpecSorted` | lib/internal/benchmark/histogram.js:135 | inserting into sorted samples keeps them sorted |
| `Histogram.SortSpecSorted` | lib/internal/benchmark/histogram.js:135 | the numeric sort gives an ascending permutation of the samples |
| `Histogram.QuartileIndicesInBounds` | lib/internal/benchmark/histogram.js:144-150 | for every size of at least 4, all four quartile indices lie inside the samples |
| `Histogram.KeepBetweenMembers` | lib/internal/benchmark/histogram.js:156-159 | the filter keeps exactly the samples within the fence |
| `Histogram.KeepBetweenSubMultiset` | lib/internal/benchmark/histogram.js:156-159 | the filter only removes samples |
| `Histogram.KeepBetweenSorted` | lib/internal/benchmark/histogram.js:156-159 | filtering sorted samples keeps them sorted |
| `Histogram.KeepBetweenAll` | lib/internal/benchmark/histogram.js:156-159 | when every sample is within the fence, nothing is removed |
| `Histogram.RetainedFacts` | lib/internal/benchmark/histogram.js:134-160 | fewer than 4 samples are all kept; otherwise exactly those within the fence are; the kept samples are sorted and drawn from the input |
| `Histogram.QuartilesOrdered` | lib/internal/benchmark/histogram.js:142-154 | on sorted samples Q1 is at most Q3, and the fence encloses both quartiles |
| `Histogram.InterquartileKept` | lib/internal/benchmark/histogram.js:142-159 | every sorted sample between Q1 and Q3 survives the filter |
| `Histogram.AllEqualKeepsAll` | lib/internal/benchmark/histogram.js:142-159 | samples that are all equal lose nothing |
| `Histogram.MinMaxFacts` | lib/internal/benchmark/histogram.js:162-170 | no samples give min +Infinity and max -Infinity; otherwise both are samples and bound every sample |
| `Histogram.MeanUnsetForOneSample` | lib/internal/benchmark/histogram.js:172-186 | as written, one sample leaves the mean unset while the intended mean is that sample; from two samples on both agree |
| `Histogram.SumBounds` | lib/internal/benchmark/histogram.js:181-185 | a sum of n samples within bounds lies between n times each bound |
| `Histogram.AverageBounds` | lib/internal/benchmark/histogram.js:181-185 | a sum within n times two bounds, divided by n, lies within those bounds |
| `Histogram.MeanBetweenMinMax` | lib/internal/benchmark/histogram.js:162-186 | the mean of non-empty samples lies between their min and max |
| `Histogram.SquaresStep` | lib/internal/benchmark/histogram.js:194-199 | one more sample keeps n times the sum of squares at least the squared sum |
| `Histogram.SquaresDominate` | lib/internal/benchmark/histogram.js:194-199 | n times the sum of squares is at least the square of the sum |
| `Histogram.VarianceNonNegative` | lib/internal/benchmark/histogram.js:188-202 | the quantity under the square root is never negative, so the standard deviation is defined |
| `Histogram.NearestRankFacts` | lib/internal/benchmark/histogram.js:117-119 | for p in [0, 100] the index never passes the end; p = 100 gives the largest sample; p = 0 gives undefined |
| `Histogram.FinishedSamples` | lib/internal/benchmark/histogram.js:122-170 | after finish the samples are sorted, drawn from those recorded, all kept below 4, and bounded by min and max |
| `Histogram.StatisticalHistogram.constructor` | lib/internal/benchmark/histogram.js:28-49 | a new histogram is open and holds no samples |
| `Histogram.StatisticalHistogram.Samples` | lib/internal/benchmark/histogram.js:54-59 | throws not-finished before finish; afterwards the number of retained samples |
| `Histogram.StatisticalHistogram.Min` | lib/internal/benchmark/histogram.js:64-69 | throws not-finished before finish; afterwards the least retained sample |
| `Histogram.StatisticalHistogram.Max` | lib/internal/benchmark/histogram.js:74-79 | throws not-finished before finish; afterwards the greatest retained sample |
| `Histogram.StatisticalHistogram.Mean` | lib/internal/benchmark/histogram.js:84-89 | throws not-finished before finish; afterwards the mean of the retained samples |
| `Histogram.StatisticalHistogram.GetCv` | lib/internal/benchmark/histogram.js:94-99 | throws not-finished before finish; afterwards the variance and mean of the retained samples, and zero exactly below two samples |
| `Histogram.StatisticalHistogram.Record` | lib/internal/benchmark/histogram.js:104-111 | an invalid value is rejected first and changes nothing; then a sealed histogram throws finished; otherwise exactly that value is appended |
| `Histogram.StatisticalHistogram.Percentile` | lib/internal/benchmark/histogram.js:113-120 | throws not-finished before finish, then rejects p outside [0, 100], then returns the nearest-rank retained sample |
| `Histogram.StatisticalHistogram.Finish` | lib/internal/benchmark/histogram.js:122-132 | a second call throws finished and changes nothing; the first seals the histogram with the statistics of the retained samples |
| `Histogram.StatisticalHistogram.RemoveOutliers` | lib/internal/benchmark/histogram.js:134-160 | the samples become the retained part of their sorted order; nothing else changes |
| `Histogram.StatisticalHistogram.CalculateMinMax` | lib/internal/benchmark/histogram.js:162-170 | the loop sets min and max to the least and greatest sample; nothing else changes |
| `Histogram.StatisticalHistogram.CalculateMean` | lib/internal/benchmark/histogram.js:172-186 | the mean is set for every sample count, the single sample included; nothing else changes |
| `Histogram.StatisticalHistogram.CalculateCv` | lib/internal/benchmark/histogram.js:188-202 | cv is zero below two samples, otherwise the variance and mean it divides; nothing else changes |
| `Clock.Format` | lib/internal/benchmark/clock.js:25-39 | the value in the chosen unit times the unit's scale is the time; two decimals except for ns |
| `Clock.FormatRanges` | lib/internal/benchmark/clock.js:25-39 | the thresholds are strict: s above 1e9, ms above 1e6, us above 1e3, else ns; exactly 1e9 ns is 1000.00 ms |
| `Clock.CheckIterationsAccepts` | lib/internal/benchmark/clock.js:90-91 | end accepts exactly the safe integers from 1 and the missing argument, which counts as 1 |
| `Clock.Steps` | lib/internal/benchmark/clock.js:81-95 | calls never record an iteration count without an end time |
| `Clock.StepsFromFresh` | lib/internal/benchmark/clock.js:81-95 | after any calls the timer holds the last start, and the time and count of the last accepted end |
| `Clock.FirstRejected` | lib/internal/benchmark/clock.js:90-91 | the position found is within the calls, and a call there is an end whose count is rejected |
| `Clock.FirstRejectedIs` | lib/internal/benchmark/clock.js:90-91 | a position is the first throwing call exactly when every call before it is accepted and the call there, if any, throws |
| `Clock.ResultAfterCalls` | lib/internal/benchmark/clock.js:97-105 | when no end throws, the result is forgot-end when no end was made, before looking at start; then forgot-start; otherwise the last end minus the last start, with the last count |
| `Clock.OutcomeThrows` | lib/internal/benchmark/clock.js:90-122 | the first end with a rejected count decides the cycle: its validation error, whatever calls follow |
| `Clock.OutcomeExamples` | lib/internal/benchmark/clock.js:90-124 | a NaN end after a good one fails with out-of-range; a non-number end fails with a type error rather than forgot-end; one good end measures |
| `Clock.ManagedTimer.constructor` | lib/internal/benchmark/clock.js:65-76 | a new timer has nothing recorded and its count is the recommended count |
| `Clock.ManagedTimer.Start` | lib/internal/benchmark/clock.js:81-83 | start records the clock and nothing else |
| `Clock.ManagedTimer.End` | lib/internal/benchmark/clock.js:90-95 | an invalid count throws before anything changes; otherwise the end time and count are recorded |
| `Clock.ManagedTimer.Result` | lib/internal/benchmark/clock.js:97-105 | the result is the specification's for the recorded state |
| `Clock.CreateRunner` | lib/internal/benchmark/clock.js:135-155 | managed mode exactly when the function declares a parameter; a warning exactly above one; await exactly for async functions |
| `Clock.Workload.Call` | lib/internal/benchmark/clock.js:113 | each call of the benchmarked function is counted once |
| `Clock.RunUnmanaged` | lib/internal/benchmark/clock.js:108-118 | the loop calls the function exactly count times and reports the elapsed time with count iterations |
| `Clock.RunManaged` | lib/internal/benchmark/clock.js:120-126 | the benchmark's calls run up to the first end that throws, whose error is the result; the timer keeps the state of the calls before it; with no such end the result is the timer's |
| `Clock.ClockBenchmark` | lib/internal/benchmark/clock.js:161-168 | a function with a parameter gets the outcome of its timer calls, a rejected end included, and is not called by the loop; one without is called count times and reports count |
| `Lifecycle.ItersForOpDuration` | lib/internal/benchmark/lifecycle.js:19-23 | never fewer than 10 iterations, and infinite exactly when an operation takes no time |
| `Lifecycle.DivideAntitone` | lib/internal/benchmark/lifecycle.js:20 | a larger divisor never gives a larger quotient |
| `Lifecycle.ItersForOpDurationFacts` | lib/internal/benchmark/lifecycle.js:19-23 | slower operations never get more iterations; the count is the rounded number filling minTime whenever that is at least 10 |
| `Lifecycle.FirstBad` | lib/internal/benchmark/lifecycle.js:80-92 | the index found is the first cycle that fails, or none when all succeed |
| `Lifecycle.RunTotals` | lib/internal/benchmark/lifecycle.js:85-89 | one per-op sample per cycle, each its duration over its iterations; the totals are non-negative |
| `Lifecycle.RequestsChain` | lib/internal/benchmark/lifecycle.js:82-91 | the first cycle asks for the probe's count, and each later one for the count its predecessor's per-op time gives |
| `Lifecycle.BenchmarkResult.constructor` | lib/internal/benchmark/lifecycle.js:39-43 | the result holds the given opsSec, iterations and histogram |
| `Lifecycle.GetInitialIterations` | lib/internal/benchmark/lifecycle.js:25-32 | the probe measures 10 iterations; a failed probe throws; otherwise the count is derived from the probe's time per operation |
| `Lifecycle.RunBenchmark` | lib/internal/benchmark/lifecycle.js:67-99 | a failed probe of 10 iterations throws before any cycle; otherwise the measuring loop's outcome with the first cycle sized by that probe |
| `Lifecycle.MeasureCycles` | lib/internal/benchmark/lifecycle.js:72-98 | the loop runs until the wall time reaches maxTime; the first failing cycle throws; otherwise the totals, one recorded sample per cycle, a finished histogram and opsSec |
| `Lifecycle.WallRunsOut` | lib/internal/benchmark/lifecycle.js:80 | cycles whose wall time reaches the budget stop the loop before they run out |
| `Lifecycle.PerOpSign` | lib/internal/benchmark/lifecycle.js:87 | a per-op time is negative exactly when the duration is |
| `Lifecycle.PrefixStep` | lib/internal/benchmark/lifecycle.js:82-91 | one more cycle extends the totals, samples and requested counts by that cycle |
| `Lifecycle.ThrewRun` | lib/internal/benchmark/lifecycle.js:82-89 | a cycle that fails ends the run with its error |
| `Lifecycle.CompletedRun` | lib/internal/benchmark/lifecycle.js:94-98 | a loop that stops with all cycles good yields the completed result |
| `Lifecycle.StopsAtUnique` | lib/internal/benchmark/lifecycle.js:80 | the loop stops after one cycle count only |
| `Lifecycle.FindStop` | lib/internal/benchmark/lifecycle.js:80 | cycles reaching the budget make the loop stop somewhere |
| `Lifecycle.StopsAtExists` | lib/internal/benchmark/lifecycle.js:73-80 | the loop stops, and with a positive maxTime only after at least one cycle |
| `Lifecycle.StopsAfterBad` | lib/internal/benchmark/lifecycle.js:80-89 | a failing cycle that ran lies before the stop point |
| `Runner.ValidateTimeAccepts` | lib/internal/benchmark/runner.js:40-41 | accepted are exactly the numbers from 1e-7 on and +Infinity; NaN, -Infinity and smaller numbers are out of range; non-numbers are of the wrong type |
| `Runner.AddAccepts` | lib/internal/benchmark/runner.js:30-52 | an accepted benchmark has a string name, a function and finite times of at least 1e-7 or infinite ones; without options the default times; arrays are refused as options; valid times are taken as given |
| `Runner.AddAcceptsUnboundedMaxTime` | lib/internal/benchmark/runner.js:37-41 | a maxTime of +Infinity is accepted, giving a benchmark with no wall-time budget |
| `Runner.AddWritesDefaults` | lib/internal/benchmark/runner.js:35-38 | missing times are written into the caller's object even when add then fails; nothing else of it changes |
| `Runner.AddErrorOrder` | lib/internal/benchmark/runner.js:31-45 | options are checked first (arrays and null refused), then minTime, then the name, then the function |
| `Runner.RunReportsAll` | lib/internal/benchmark/runner.js:54-61 | with a function reporter and every measurement completing, each benchmark is reported once, in order, and run resolves to undefined |
| `Runner.NonFunctionReporterThrows` | lib/internal/benchmark/runner.js:59 | a reporter that is not a function throws at the first completed measurement, reporting nothing |
| `Runner.ReporterFinding` | lib/internal/benchmark/runner.js:20 | with the reporter kept as written, a suite built with options throws at its first benchmark; the intended reporter would report it |
| `Runner.Suite.constructor` | lib/internal/benchmark/runner.js:11-14 | a new suite holds its name and reporter and no benchmarks |
| `Runner.Suite.Add` | lib/internal/benchmark/runner.js:30-52 | a failed add changes no benchmark; a successful one appends exactly one at the end and returns the suite; defaults are written into the options |
| `Runner.Suite.Run` | lib/internal/benchmark/runner.js:54-61 | the loop makes exactly the reporter calls the specification gives, in order, and settles as it does |
| `Runner.NewSuite` | lib/internal/benchmark/runner.js:11-24 | null throws; an object, an array included, gets the console reporter by default and must hold a function; anything else gets the console reporter |
| `Runner.BuiltSuiteReports` | lib/internal/benchmark/runner.js:15-18 | a built suite's reporter is a function, and the console reporter when none was given |

## Left out

- PathUtil.NormalizeString: the separator is a `char`, while src/util.cc:666 takes a `std::string`. Every caller passes a one-character string; a longer separator, which `find_last_of` would treat as a set, is not modelled.
- PathUtil.SplitString: src/permission/fs_permission.cc:22-24 and src/policy/policy_deny_fs.cc:21-23 call a `(std::string, char)` overload whose body is in a header that is not part of this model. Both handlers' `Tokens` follow the `string_view` overload of src/util.cc:174-190 with a one-character delimiter set, skipping empty pieces.
- Windows `PathResolve` (src/util.cc:742-876) is compiled only under `_WIN32` and is not part of this model. `Platform` covers both separators for `IsPathSeparator` and `NormalizeString`.
- The radix trees' node walks (`CreateChild`, `NextNode`, `CreateWildcardChild`, `FreeRecursivelyNode`) live in headers that are not part of this model. Each tree is a set of inserted patterns with a wildcard-prefix match, so the split arithmetic at src/permission/fs_permission.cc:171 and src/policy/policy_deny_fs.cc:180 is not modelled. The one walk step that does not depend on those headers is modelled: `PolicyDenyFs`'s root node "/" matches the path "/" (`PolicyFs.DenyLookup`).
- `std::filesystem::is_directory` is a parameter: `dirs` is the set of paths that are directories.
- src/permission/permission.cc, permission_handler.cc, src/permission/fs_permission.h and src/permissions/fs_permission.h are not part of this model. The initial clear deny-all flags of `FSPermission` are taken from the value-initialisation of `make_shared`, since the header that declares them is not part of this model. `Permission`'s node map and `enabled_` flag are constructor arguments, and `PermissionHandler`'s filesystem node is the `FSPermission` of src/permission.
- Enabling permissions, and `Apply`/`Deny` of `Permission` and `PermissionHandler`, are only declared in the headers, so they are not modelled.
- V8 and N-API argument marshalling in the bindings, `ThrowAccessDenied`'s error object, `Initialize` and `RegisterExternalReferences` are left out. The bindings are modelled from the scope string and resource on.
- The `std::cout` debug prints are left out. So is the stale src/policy/policy_deny_fs.h, whose declared members the .cc does not use.
- `debugBench` calls are treated as no-ops. As written the import is broken: report.js (lines 33-35) exports only `reportConsoleBench` and clock.js (lines 170-173) does not export `debugBench`, yet clock.js:9, lifecycle.js:7 and runner.js:2 import it. So `createRunner` (clock.js:152), `getInitialIterations` (lifecycle.js:29) and `run` (runner.js:56) each throw a TypeError when they reach the call. The model follows the evident intent that these calls only log.
- Floating point is modelled by exact reals. `Math.sqrt`, `Math.pow` and `toFixed` are left out:
  - cv is kept as the variance under the root together with the mean it divides;
  - `Timer.format` gives the unit, the scaled value and the number of decimals, not the rendered string.
- Histogram.StatisticalHistogram.Record: samples are finite reals, so Infinity and NaN samples are not modelled.
- Async benchmarks and `await` are only a flag of the plan. The runner bodies compiled from strings are modelled as the loops they compile to.
- The clock is an input. Each timer call carries its reading, and each cycle of `runBenchmark` carries its measurement and its wall time.
- `Suite.run` takes the outcome of each `runBenchmark` as input. The two are connected through `Lifecycle.Outcome`.
- Lifecycle.RunBenchmark: the supplied cycles' wall times must reach `maxTime`, because the model has no clock that keeps advancing.
- Lifecycle.RunBenchmark: an infinite iteration count, after a cycle measured at zero time per operation, is passed on as requested and never run.
- Lifecycle.RunBenchmark: `Limits` holds finite times. `add` accepts +Infinity for either time (`Runner.AddAcceptsUnboundedMaxTime`). A maxTime of +Infinity makes `maxDuration` infinite, so the loop at lifecycle.js:80 never ends. A minTime of +Infinity makes every count after the probe infinite. Neither run is modelled.
- Clock.ClockBenchmark: a benchmark function that throws an error of its own is not modelled. Only the errors of `end`'s validation and of the timer's result are.
- `Scopes.CStr` models only the NUL cut of the char* conversions. UTF-8 encoding by String::Utf8Value, and its null buffer for a failed conversion, are not modelled.
- The validators in lib/internal/validators are not part of this model. Their behaviour for the arguments used here is restated in `ValidateNumber`, `CheckIterations` and `ValidateTime`.
- lifecycle.js imports `kStatisticalHistogramRecord` and `kStatisticalHistogramFinish`, which histogram.js does not export. They are modelled as `record` and `finish`.
- `reportConsoleBench` is modelled by its identity only: report.js's console output is not part of this model.
- `run` resolving to undefined is modelled as written, although test/benchmark/module/test-managed-benchmark.js:11-14 expects an array.

## Findings

| source | as written | input that shows it | evidently intended | confidence | as-written member | corrected member |
|---|---|---|---|---|---|---|
| lib/internal/benchmark/histogram.js:172-186 | `#calculateMean` returns early for 0 or 1 samples without assigning `#mean`, so `mean` reads undefined | record one sample, then `finish()` and read `mean` | the mean is that single sample, or 0 for none | not executed | `Histogram.MeanAsWritten` (`Histogram.MeanUnsetForOneSample`) | `Histogram.MeanOf` (`Histogram.StatisticalHistogram.CalculateMean`) |
| lib/internal/benchmark/runner.js:20 | the constructor keeps `options.reportConsoleBench` rather than the validated `options.reporter` | `new Suite('s', {})`, add one benchmark, then `run()`: the reporter call throws a TypeError | keep `options.reporter` | not executed | `Runner.ReporterAsWritten` (`Runner.ReporterFinding`) | `Runner.ReporterIntended` (`Runner.NewSuite`) |
