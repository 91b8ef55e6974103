# Tsuzuri: verified models of the compiler's hard parts

Tsuzuri is a compiler for a functional language with ownership. This project models nine of its
self-contained algorithms in Dafny and proves what they are for. `dafny verify dfyconfig.toml` checks
everything.

- **Closure lowering** (`LetRec*.dfy`). Lambdas and local `let rec` groups become functions of the program that
  take their captures first. The model has one small call-by-value language, one evaluator with fuel for
  programs before and after lowering, and the lowering itself: frames, the shared captures of a group, the
  functions it can call directly, the reserved function ids and the rewriting of lifted bodies. The main result
  is that every well-scoped program is lowered and that each call ends in the same way before and after, with
  the same fuel. The proof is a simulation; it needs that the lowered program never writes to a local that is
  outside the set of mutated ones, which is why a function may be called directly only when none of its by-value
  captures is ever mutated, and a concrete program shows that this test cannot be dropped.
- **Callback specialization** (`Eligibility*.dfy`, `Workers.dfy`, `ReferenceOrder.dfy`). The escape analysis is a
  greatest fixed point; no run lets an eligible callback escape; the request table and its two orders of
  emission; the iterative depth-first walk.
- **Capabilities** (`Policy.dfy`, `StdCapabilities.dfy`). Grants are the meet over all paths, blame is exact, and
  the capabilities of the standard library are a least fixed point with well-founded witnesses.
- **The build cache** (`CacheProtocol.dfy`, `Eviction.dfy`, `Sha256.dfy`). Processes interleave file system steps;
  a hit is one earlier store. Cleanup removes least recently used entries. Streaming SHA-256 is the one-shot
  definition.
- **Bundle identity** (`BundleFiles.dfy`, `BundleMemo.dfy`, `BundleStale.dfy`, `ParallelHash.dfy`). Files are inodes
  with times under directories that name them, and may be written, made, removed, moved and linked between any two
  steps of the processes. A recalled tool was there and is not stale, exactly if changes get times that are less than
  the racy window behind and the signature covers the directories on the way to the tool. Hashing on threads ends
  and is hashing one after the other.
- **The API diff** (`ApiRenaming.dfy`, `ApiCompare.dfy`, `ApiFlag.dfy`). Canonical names decide alpha-equivalence;
  exactly the changes that there are get reported; and it is shown exactly how far "no breaking change" is a
  preorder.
- **Two bounded cores** (`Utf8.dfy`; `CConstant.dfy`, `CLexer.dfy`, `CMacro.dfy`). The UTF-8 validator of the C++
  bindings, and the value of C macros: from the text of a body over its tokens and constants to a value.

`Basics.dfy` holds what several modules share.

Where a property of the code holds only under a condition, the model keeps the code as it is, and the condition is
shown to be exact:

- `CurrentExactly`: for any clocks and any tool that the signature covers, a recalled digest is always that of a file
  which is there, exactly if the window is positive, every change gets a time that is less than the window behind, and
  every directory on the way to the tool is one that the signature covers where it exists: the root, or one at most
  two levels down that is not skipped. The compiler's own tools are of that kind (`ToolsAreVisible`). Otherwise
  `SecondUnseen` (two writes at one moment) and `HiddenRecalled` (a tool that is there only while it is hashed) give
  the runs.
- `TransitiveExactly`: where neither of two steps of an API breaks, both together break exactly if a version without
  a namespace stands between two different ones, or an item gets effect attributes in the first step and has the
  callbacks flag at the end. `NamespaceMatters` and `FlagMatters` are instances. The flag looks at the parameters as
  they are written while the header is flattened; `FlagsDiffer` says for which spellings of one signature it differs.
- `UnenforcedBlocker`: a policy that is not enforced still names limits, exactly for the packages that some entry
  does not grant the capability to.
- `TestIsNeeded`: direct calls need the mutation test; a program shows that lowering without it changes a result.

## Model

| member | source | states |
|---|---|---|
| LetRecProgram.LoweringPreservesMeaning | src/closures_rec.rs:305-546 | for every well-formed program, function, fuel and first-order arguments: lowering succeeds, and the call ends alike before and after (result, every cell of the store, out of fuel, or error) |
| LetRecProgram.LoweringIsSound | src/closures_rec.rs:261-289 | lowering a well-scoped program never fails, and each function of the result stands for the source function, lambda or group member it was made from |
| LetRecProgram.MutatesFound | src/closures_rec.rs:142-187 | the mutated set has every local that any part of the body assigns or borrows exclusively |
| LetRecProgram.MutatesLeast | src/closures_rec.rs:142-187 | it is the least such set |
| LetRecNeeded.TestIsNeeded | src/closures_rec.rs:127-142 | a well-formed program that returns 1, and returns 2 when it is lowered without the test that by-value captures are never mutated |
| LetRecClosed.LoweredIsClosed | src/closures_rec.rs:36-78 | every function of the lowered program reads only its parameters and its own bindings at their types, and every direct call and closure supplies exactly the captures, in order and mode, through any nesting |
| LetRecClosed.RelClosed | src/closures_rec.rs:465-546 | what stands for a well-scoped expression is closed in the frame it runs in |
| LetRecClosed.GroupHeld | src/closures_rec.rs:314-346 | the frame that binds a group holds each capture of the group, as a value or as a reference |
| LetRecSimulation.SimApply | src/closures_rec.rs:409-437 | calling related function values with related arguments gives related results with the same fuel |
| LetRecSimulation.Sim | src/closures_rec.rs:481-546 | a lowered expression evaluates to what its source evaluates to |
| LetRecSimulation.SimMembers | src/closures_rec.rs:426-437 | binding the closures of a group one after the other simulates binding the group at once |
| LetRecFrozen.EvalKeeps | src/closures_rec.rs:127-142 | evaluating lowered code, unknown calls included, never changes a cell that is out of reach of mutated locals and exclusive references |
| LetRecBinding.BindGroupInv | src/closures_rec.rs:314-346 | after a group is bound the two frames still agree, whether its captures come from the frame or are taken over |
| LetRecBinding.SelectTaken | src/closures_rec.rs:331-338 | the closure that a member builds from the group's captures is the closure of the function whose captures were taken over |
| LetRecBinding.SharedFrom | src/closures_rec.rs:317-346 | the shared captures are ordered by local, and each is a capture that is not called directly or one of a function that is |
| LetRecBinding.SharedHas | src/closures_rec.rs:317-346 | nothing that a member needs is missing from the shared captures |
| LetRecEntry.GroupFrame | src/closures_rec.rs:352-400 | the frame of a lifted member, with captures as leading parameters, agrees with the frame of the source function |
| LetRecSound.LowerSound | src/closures.rs:318-396 | the lowered expression stands for its source, and so does every function made on the way |
| LetRecSound.GroupSound | src/closures_rec.rs:305-437 | the same for a group: closures, reserved functions, lowered and rewritten bodies, and what is callable afterwards |
| LetRecStatic.RewriteSound | src/closures_rec.rs:484-546 | rewriting turns what stands for the source in a plain frame into what stands for it in a member's frame |
| LetRecStatic.GroupIsOk | src/closures_rec.rs:314-346 | a group's captures are plain locals, distinct, and offer what every directly called function needs |
| LetRecStatic.AfterGroupStatic | src/closures_rec.rs:127-142 | after a group, exactly its members with unmutated by-value captures are added to what can be called directly |
| LetRecGrowth.LowerGrows | src/closures.rs:318-396 | lowering appends functions and changes none that exist, and restores the frame |
| LetRecGrowth.MembersSlots | src/closures_rec.rs:347-400 | the ids reserved for a group stay its own, and only their bodies change |
| LetRecLoops.Mutated | src/closures_rec.rs:146-187 | the worklist computes the mutated set, empty when no group is bound |
| LetRecLoops.Collect | src/closures_rec.rs:312-346 | the loops over members and captures compute the shared captures and the directly called functions |
| LetRecLoops.CollectedGroup | src/closures_rec.rs:312-346 | what the loops collect is what the group is lifted with |
| LetRecLoops.InsertedStays | src/closures_rec.rs:489-546 | going on into what rewriting has inserted changes nothing |
| LetRecSyntax.GroupLenIs | src/closures_rec.rs:190-212 | a group is found exactly where its members are bound together, all of them, under the names and in the order of the group; zero exactly for bindings that belong to none; unbound exactly where a member is not bound with all the others |
| Eligibility.Choose | src/call_specialization.rs:61-80 | the removal loop ends with the greatest consistent choice among the candidates |
| Eligibility.NonEscapingMonotone | src/call_specialization.rs:439-482 | more eligible parameters let fewer callbacks escape |
| Eligibility.Reject | src/call_specialization.rs:62-75 | one pass finds exactly the eligible parameters that escape |
| EligibilityRuns.NothingEscapes | src/call_specialization.rs:439-482 | in every run an eligible callback is only called with all its arguments, used as an initializer or handed to an eligible parameter |
| EligibilityRuns.MarkingChangesNothing | src/call_specialization.rs:439-482 | the runs with marked callbacks are the ordinary runs |
| Workers.Specializations.Request | src/call_specialization.rs:112-125 | equal requests share an id, new ones get the next, and none is refused before the budget is spent |
| Workers.Specializations.NextWorker | src/call_specialization.rs:133-152 | hands out the next worker of the drain order |
| Workers.Specializations.EmitWorkers | src/call_specialization.rs:174-200 | emission ends, and has handed out every request once, those made meanwhile included, whatever each emission requests in reply to the ids and refusals that came before |
| Workers.ExactlyOnce | src/call_specialization.rs:112-152 | in any run at most 1,024 distinct requests exist, none is handed out twice, and none is left out at the end |
| Workers.IdsStay | src/call_specialization.rs:112-125 | a request keeps its id |
| Workers.DescendantsFirst | src/call_specialization.rs:143-150 | depth first: everything requested after a worker was handed out is handed out before anything that waited then |
| Workers.EmissionsEnd | src/call_specialization.rs:174-200 | no run hands out more workers than the budget |
| ReferenceOrder.Order | src/call_specialization.rs:157-171 | the iterative walk with duplicates on its stack is the recursive depth-first preorder |
| ReferenceOrder.VisitRoot | src/call_specialization.rs:161-169 | the stack of one root visits what the recursion visits, in its order |
| ReferenceOrder.PreorderPermutes | src/call_specialization.rs:157-171 | the order is a permutation of all functions |
| Policy.Build | src/capabilities.rs:225-259 | settling packages after their parents solves the equation of every package, for every acyclic graph reachable from the root |
| Policy.MeetOverPaths | src/capabilities.rs:225-259 | a capability is effective exactly when the root allows it and every edge of every path grants it |
| Policy.BlameIsExact | src/capabilities.rs:291-320 | a limit is named exactly when the capability is missing, it is a real limit on a way to the package, and more depth would find the same |
| Policy.UnenforcedBlocker | src/capabilities.rs:281-320 | without enforcement everything is allowed, and a limit is named exactly when some entry of the package does not grant the capability |
| StdCapabilities.Analyze | src/capabilities.rs:656-691 | the loop ends, and a function has a capability exactly when a reference path leads to a source of it |
| StdCapabilities.LeastFixedPoint | src/capabilities.rs:672-691 | what the loop leaves is the least fixed point |
| StdCapabilities.Chain | src/capabilities.rs:692-714 | following first steps visits distinct functions, each referring to the next, and reaches a source within the number of functions |
| CacheProtocol.HitIsOneStore | src/cache.rs:725-924 | in every run of any number of processes, what a read has found, before, during and after a touch that may fail, is exactly the files and messages of one earlier store of that key, if no digests collide |
| CacheProtocol.OtherFileIsMiss | src/cache.rs:762-790 | a missing, mixed, damaged or evicted file makes the read a miss |
| CacheProtocol.IntactIsHit | src/cache.rs:739-823 | a read that nothing disturbs returns an intact entry, in any order of its files, whether or not its time of use is due |
| CacheProtocol.DueIsHit | src/cache.rs:725-833 | if the time of use is due, the touch then ends in the hit, leaves the entry intact and changes nothing else |
| CacheProtocol.RunKeeps | src/cache.rs:826-924 | metadata in place always describes one store of its key, and staging directories belong to one process |
| Eviction.Evict | src/cache.rs:941-1016 | removed entries were listed and matched, key entries among them are a least-recently-used prefix, each expired or over budget, young locks and staging stay, and afterwards nothing expired is left and the rest fits |
| Sha256.Stream.Update | src/cache.rs:1056-1076 | more bytes are folded and buffered, with less than a block left in the buffer |
| Sha256.Stream.Finalize | src/cache.rs:1129-1144 | for messages below 2^61 bytes the digest is the one-shot one, and nothing is left over after padding |
| Sha256.Stream.CompressBlock | src/cache.rs:1085-1127 | one block is compressed as section 6.2.2 of FIPS 180-4 says |
| Sha256.HashParts | src/cache.rs:1044-1144 | every split into updates gives the digest of the whole message |
| BundleMemo.NeverStale | src/bundle_identity.rs:390-476 | over every interleaving of changes and steps, if changes get times less than the racy window behind: every recalled tool that the signature covers with the directories on its way was there, as a file, when its status was checked; its recalled digest is that of what it held then, and of what it holds as long as its path shows the status |
| BundleMemo.HashedWay | src/bundle_identity.rs:240-327 | a tool that is hashed was reached through directories that are in the signature and have not changed since the clock was read, or a comparison that is still to come fails |
| BundleMemo.ListStep | src/bundle_identity.rs:240-291 | one directory at a time, listing finds every directory on the way to a tool, unless a change shows above it |
| BundleMemo.ToolsAreVisible | src/cache.rs:235-241 | the launcher, Clang and Zig of a bundle have only directories on their way that the signature covers |
| BundleFiles.CalmBefore | src/bundle_identity.rs:11-20 | whatever is moved, made or removed, a path through directories that show no change leads where it led before |
| BundleStale.CurrentExactly | src/bundle_identity.rs:8-22 | for every clock, compiler and tool: no run recalls a stale or missing tool exactly when the window is positive, every change gets a time less than the window behind, and the signature covers the directories on the way to the tool where they exist |
| BundleStale.SecondUnseen | src/bundle_identity.rs:363-368 | if a change is old enough to be trusted when it is made, a second one at that moment goes unseen |
| BundleStale.HiddenRecalled | src/bundle_identity.rs:11-20 | where a directory on the way is not covered, as more than two levels down, a tool that was there only while it was hashed is recalled although it is gone, under any clocks |
| ParallelHash.Inventory | src/bundle_identity.rs:121-169 | for any number of threads and any scheduler, the threads finish and the result is the sequential one, none exactly when a file cannot be hashed |
| ParallelHash.TurnsBounded | src/bundle_identity.rs:139-153 | in every interleaving, late loads of the flag included, the threads take at most three turns for each file and two for each thread |
| ParallelHash.TurnUsed | src/bundle_identity.rs:139-153 | every turn of a thread that has not finished brings all of them nearer to the end |
| ParallelHash.HashedOnce | src/bundle_identity.rs:141-153 | no file is hashed twice |
| ParallelHash.NoneLeftOut | src/bundle_identity.rs:139-161 | when the threads have finished, every file was hashed and its digest is recorded, unless one has failed, which happens exactly if a file cannot be hashed |
| ParallelHash.Join | src/bundle_identity.rs:156-160 | the digests of the threads land in their places |
| ApiRenaming.CanonicalDecides | src/api_diff.rs:343-515 | equal canonical forms exactly when the flattened signatures differ only by one-to-one changes of variable and region names |
| ApiRenaming.CanonicalOfFlat | src/api_diff.rs:577-610 | renaming and flattening commute |
| ApiRenaming.FlattenIdempotent | src/api_diff.rs:564-575 | flattening again changes nothing |
| ApiRenaming.FlattenLoop | src/api_diff.rs:564-575 | the loop splices results in until none can be |
| ApiRenaming.RenameIs | src/api_diff.rs:343-478 | what renaming makes is the type with its names changed by the final numbering, which is one-to-one |
| ApiCompare.Compare | src/api_diff.rs:1519-1566 | exactly the changes between the APIs are reported, one of them is breaking exactly when the new API is not compatible, and comparing an API with itself reports nothing |
| ApiCompare.CompareItems | src/api_diff.rs:1413-1516 | exactly the changes of header, members, derives, contracts and notes are reported, and one is breaking exactly when the item is not compatible |
| ApiCompare.CompareMembers | src/api_diff.rs:1165-1254 | exactly the removed, added, changed and reordered fields, cases and methods are reported, and one is breaking exactly when they are not compatible |
| ApiCompare.TransitiveExactly | src/api_diff.rs:1519-1566 | where old to mid and mid to new break nothing, old to new breaks nothing exactly if no namespace was forgotten in between and no item with the callbacks flag got attributes in the first step |
| ApiCompare.CompatibleTransitive | src/api_diff.rs:1519-1566 | in particular if mid has a namespace and the flags of mid and new agree |
| ApiCompare.CompatibleReflexive | src/api_diff.rs:1519-1566 | an API is compatible with itself |
| ApiCompare.NamespaceMatters | src/api_diff.rs:1521-1538 | transitivity fails when the API between has no namespace |
| ApiFlag.FlagOfCanonical | src/api_diff.rs:726-731 | the callbacks flag is told by the canonical form and by how many parameters are written before the result |
| ApiFlag.FlagsDiffer | src/api_diff.rs:1254-1410 | two spellings with one header have different flags exactly if nothing in it is generic, no parameter that both write carries a function, and one that only the longer spelling writes does |
| ApiFlag.SpellingMatters | src/api_diff.rs:1425-1435 | a new attribute breaks exactly if the flag is set, a new spelling does not break, and both together break exactly if the flag of the new spelling is set |
| ApiFlag.FlagMatters | src/api_diff.rs:726-731 | an integer with a result that takes a callback, and an integer and a callback, share a header, differ in the flag and break transitivity |
| Utf8.ValidUtf8 | src/bindings_native.rs:1481-1516 | accepts exactly the concatenations of encodings of Unicode scalar values, without reading past the end |
| Utf8.OneCharacter | src/bindings_native.rs:1485-1513 | a text is well formed exactly when it starts with an encoding and the rest is well formed |
| CMacro.MacroValueOf | src/bindgen.rs:690-727 | an integer value exactly for texts that spell an expression with an integer constant, equal to the value minus by minus, without overflow; invalid exactly for texts that spell one with a number that is neither a constant nor floating |
| CLexer.MacroTokens | src/bindgen.rs:734-772 | the tokens are the split of the body into longest C tokens, if there is one into parentheses, minus signs and preprocessing numbers with at most 64 of them |
| CMacro.ParityIsEnough | src/bindgen.rs:715-724 | counting signs is applying each of them at the constant's type |
| CMacro.StripSpelled | src/bindgen.rs:694-711 | every spelled expression is stripped to its constant and its signs |
| CMacro.StrippedIsSpelled | src/bindgen.rs:694-711 | nothing else is |
| CMacro.Closing | src/bindgen.rs:775-792 | the parenthesis that closes the first one |
| CConstant.IntegerLiteral | src/bindgen.rs:797-884 | a constant exactly for the texts of the grammar of section 6.4.4.1 of C17 with GNU binary constants, with their positional value and the first type of the table that fits on LP64 |
| CConstant.LiteralIsConstant | src/bindgen.rs:800-857 | the scan for prefix, digits and suffix finds exactly the spellings of the grammar |
| CConstant.TypeOfConstant | src/bindgen.rs:858-878 | the candidate list gives the first type of the standard's table that fits |
| CConstant.Accumulate | src/bindgen.rs:833-841 | the digits' value, or none when a digit is wrong or 64 bits do not suffice, with no overflow on the way |

## Left out

- Lowering works on trees and a function list as values; that nodes are replaced in place and that the vector of
  functions is shared is not captured. The worklist of `mutated` and the capture loops are modelled as loops; the
  walk over a block's bindings and the explicit stack of `rewrite` are modelled by recursion, and `InsertedStays`
  shows that visiting what `rewrite` has inserted changes nothing.
- The lowered language has locals, literals, arithmetic, calls, pipes, conditionals, lambdas, blocks, assignment,
  borrow and dereference. Fields, indexing, loops, matches, tuples, casts, `once` lambdas, owned captures and
  compiler-made wrappers of builtins and union cases are not part of it. A reference to a local that is never
  reassigned is modelled as its value.
- The `origin` of a function in the lowered program is bookkeeping of the model: it says what a function was made
  from, and evaluation does not look at it.
- The diagnostics about moving out of a `let rec` function, type inference, ownership checking and the computation
  of capture lists by the checker; well-scoped programs are assumed to have passed them.
- `readable`, closure targets and the emission of code in `src/call_specialization.rs`: only what decides
  eligibility, requests and orders is modelled; an emission is any function of what happened before, with an end.
- Whether a result type carries loans is a flag of each function in the eligibility model.
- Reading manifests, package names, the order of edges and report rendering in `src/capabilities.rs`.
- The limits on nodes and functions, spans, and the merging of shown names in capability chains.
- CacheProtocol.HitIsOneStore: serialization of metadata is assumed to round-trip, a file is read in one step, and a
  cleanup may remove anything at any time.
- Eviction.Evict: entries that disappear between the listing and the removal are not modelled.
- BundleMemo.NeverStale: symbolic links, tools outside the bundle, the fingerprint of all files and the version output of
  a memo are not covered; a directory is listed, a status taken and a file read in one step; a directory that is moved to
  the path of the root is taken to get a new status-change time; and statuses are those of Unix, with inodes.
- Length parameters, constraints and resolved names in the API renaming, the text of reports in the API diff, and
  default borrowing conventions in the items of `ApiFlag`, which are those of an edition without borrowing.
- The form of floating constants: what has a dot or the letter of an exponent is left to them without a check, as in
  the source.
- Generated bindings other than the UTF-8 validator, tool discovery, keys of the cache, and the language runtime.
