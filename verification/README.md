# Verified models of the GPU module's control logic

The GPU module for Kubernetes consists of a control plane, node agents and DRA drivers,
and a proxy that renames API resources between clients and the API server. This project
models the parts of it whose correctness is hard to see from one function, and proves
what they promise, for all inputs, all runs and all interleavings.

| file | what it models |
|---|---|
| `QueueSpec`, `HeapOrder`, `PriorityHeap`, `PriorityQueue` | the priority work queue: a heap of node objects with back-indices beside four maps, with container/heap's sift-up, sift-down, Fix, Push and Pop written out |
| `QueueRuns` | all client runs of that queue; every method holds one lock, so a run is a sequence of atomic steps |
| `NameRewriter`, `RuleHits`, `LabelRewriting` | renaming and restoring of label names and values, and of label maps |
| `LabelSelectors`, `SelectorRequirements`, `SelectorMeaning` | renaming of label selectors, and exactly which keep their meaning |
| `JsonPointer`, `JsonPatch`, `MetadataPatch` | JSON Pointer escaping, patch application (sections 4.1, 4.2, 4.3 and 4.6 of RFC 6902), and the generated metadata patch |
| `ClaimStatus` | several drivers reading, merging and writing back one claim under version checks with retry |
| `SyncLoop` | the debounced sync loop with its one-slot channel and its timer |
| `ApiPath` | API path parsing, printing and rewriting |
| `Discovery`, `DiscoveryLaws` | regrouping of aggregated discovery, and what it conserves, adds and loses |
| `PciIds`, `PciIdsFile` | the pci.ids line state machine and its lookups; files that render a database |
| `ModuleConfig`, `ModuleConfigMeaning` | module configuration parsing and its sanitized form; what a parsed state says and what is rejected |
| `DeviceConfig`, `HandlerChain` | device configuration precedence; the reconcile handler chain and result merging |
| `GoStrings`, `Sequences`, `Common` | Go string functions, list helpers and small definitions the models share |

`dafny verify dfyconfig.toml` checks the whole project.

Code that updates state in place is modelled by classes and methods proved against
functions on values; the promises are then proved about those functions. The steps of a
concurrent protocol are a relation on states, and the theorems range over all runs.

Where the code differs from what one would expect of it:

- Calling `Done` on an item that is queued puts a second node for it into the heap. The
  queue's invariant survives `Done` if and only if the item is not queued
  (`PriorityQueue.Queue.Done`, `PriorityQueue.DoneTooEarly`).
- A priority requested while an item is processed is lost when the worker calls `Forget`
  before `Done` (`QueueRuns.ForgetBeforeDone`). An item is queued at exactly the greatest
  priority requested since its last `Forget` (`QueueRuns.QueuedAtGreatestRequested`).
- The branch of `Add` that lifts the priority of an item already queued is never needed:
  `ensurePriority` has always lifted it already (`QueueRuns.RepeatedAddChangesNothing`).
- With value-specific rename rules two server labels can be restored to one client name,
  and one of them is lost; one such rule is enough (`LabelRewriting.OneRuleCanLoseEntries`).
  A label map survives the round trip if and only if no two of its labels clash in a way
  read off the rules (`LabelRewriting.MapReturnsExactly`).
- A selector requirement on values that value-specific rules send to different names is
  rewritten to one name with all the new values, and no longer means what it did
  (`SelectorRequirements.SplitRequirement`). `SelectorRequirements.RequirementIsSafeExactly`
  and `SelectorMeaning.MatchLabelsAreSafeExactly` say exactly when meaning survives, for a
  requirement and for the equality terms. Terms on labels the client is never shown and terms
  renamed to one name fail (`SelectorMeaning.HiddenTerm`, `SelectorMeaning.ClashingTerms`).
- A metadata patch that fills a non-nil empty map tests for an empty object. When the
  stored document leaves the empty map out, the whole patch fails; this is the only way it
  can fail on the current document (`MetadataPatch.UpdateReachesDesired`,
  `MetadataPatch.FirstLabelFails`).
- A cluster-scoped path longer than its subresource overwrites the name and loses
  segments (`ApiPath.NameOverwritten`); `ApiPath.PathOfParsed` gives the exact set of paths
  that print back.
- A cluster-scoped resource renamed to `namespaces` makes a path with name and subresource
  read as a namespaced one; rewriting keeps everything else in place if and only if that is
  not so (`ApiPath.RewriteChangesTwoSegments`, `ApiPath.NameTakenForNamespace`).
- A discovered resource without a rule adds no resource entry, but it does add a group
  with an empty name to the list, and nothing else does (`DiscoveryLaws.NamelessGroupExactly`,
  `DiscoveryLaws.StrayResource`). The freshness of a version is kept if and only if its group
  is neither renamed nor bears an original name (`DiscoveryLaws.FreshnessKeptExactly`,
  `DiscoveryLaws.CurrentIsLost`).

Assumptions, each an explicit precondition or type of the model:

- Names of labels, annotations and finalizers hold no `=`, prefixes of rules no `/`; rules
  have distinct keys on each side (`NameRewriter.WellFormed`, `LabelSelectors.Sound`).
- Rename rules are keyed by the group they are about, and a plural name belongs to one
  group, so the group index is a function (`ApiPath.RewriteRules`, `Discovery.Rules`).
- Selectors are judged on objects none of whose labels was lost on the way to the client;
  where labels clash, what the client is shown depends on a map's iteration order.
- The rules of discovery name their groups (`DiscoveryLaws.GroupsAreNamed`), where a result
  speaks of the group without a name.
- A device type is Physical or MIG by case-insensitive comparison, never both.
- The API server gives a changed claim a new version and refuses a write made under an
  old one.

## Model

| member | source | states |
|---|---|---|
| `PriorityHeap.Heap.RanksBefore` | images/gpu-control-plane-artifact/pkg/controller/reconciler/queue.go:131-136 | the comparison the heap runs on node fields is the order (priority descending, sequence number ascending) of the recorded ranks |
| `PriorityHeap.Heap.Swap` | images/gpu-control-plane-artifact/pkg/controller/reconciler/queue.go:138-142 | two nodes change places and every node still knows its own position |
| `HeapOrder.SiftUpStep` | images/gpu-control-plane-artifact/pkg/controller/reconciler/queue.go:127-142 | one sift-up swap moves the only possible disorder from a node to its parent |
| `HeapOrder.SiftDownStep` | images/gpu-control-plane-artifact/pkg/controller/reconciler/queue.go:127-142 | one sift-down swap with the first child moves the only possible disorder to that child |
| `HeapOrder.RankChanged` | images/gpu-control-plane-artifact/pkg/controller/reconciler/queue.go:195-198 | changing one rank disturbs the heap only between that node, its parent and its children, which is what Fix expects |
| `PriorityHeap.Heap.Up` | images/gpu-control-plane-artifact/pkg/controller/reconciler/queue.go:144-148 | sift-up turns a heap disordered at one node into a heap |
| `PriorityHeap.Heap.Sink` | images/gpu-control-plane-artifact/pkg/controller/reconciler/queue.go:127-142 | one turn of sift-down: a node changes places with its first child and the disorder moves there, or nothing moves and the order below the node is whole |
| `PriorityHeap.Heap.Down` | images/gpu-control-plane-artifact/pkg/controller/reconciler/queue.go:150-157 | sift-down restores the order below a node, or moves nothing and says so; the part behind n is untouched |
| `PriorityHeap.Heap.Fix` | images/gpu-control-plane-artifact/pkg/controller/reconciler/queue.go:195-198 | sift-down, and sift-up if nothing moved, restore the heap after a rank changed either way |
| `PriorityHeap.Heap.Push` | images/gpu-control-plane-artifact/pkg/controller/reconciler/queue.go:144-148 | the heap gains exactly the given node at its own rank and stays ordered and indexed |
| `PriorityHeap.Heap.Pop` | images/gpu-control-plane-artifact/pkg/controller/reconciler/queue.go:150-157 | the heap loses exactly one node, before which none ranks; the rest stays ordered and indexed and the node taken out has index -1 |
| `PriorityHeap.Heap.RootIsLeast` | images/gpu-control-plane-artifact/pkg/controller/reconciler/queue.go:127-136 | in an ordered heap no node ranks before the root |
| `PriorityHeap.Heap.Raise` | images/gpu-control-plane-artifact/pkg/controller/reconciler/queue.go:195-198 | setting a node's priority and fixing the heap at its own index changes that one rank and keeps the heap |
| `PriorityQueue.Queue.constructor` | images/gpu-control-plane-artifact/pkg/controller/reconciler/queue.go:171-180 | a new queue is valid and empty |
| `PriorityQueue.Queue.EnsurePriority` | images/gpu-control-plane-artifact/pkg/controller/reconciler/queue.go:182-199 | the state becomes the specified one (record only a greater clamped priority, lift the queued entry and keep its place in line) and the joint invariant holds |
| `PriorityQueue.Queue.ClearPriority` | images/gpu-control-plane-artifact/pkg/controller/reconciler/queue.go:201-205 | only the recorded priority of the item goes |
| `PriorityQueue.Queue.Enqueue` | images/gpu-control-plane-artifact/pkg/controller/reconciler/queue.go:230-237 | a fresh node at the recorded priority and the next sequence number; `pending` stays a bijection with the heap exactly when the item was not queued yet |
| `PriorityQueue.Queue.Add` | images/gpu-control-plane-artifact/pkg/controller/reconciler/queue.go:207-238 | the state becomes the specified one and the joint invariant holds: refused when shutting down, lifted when queued, only marked while being processed, queued otherwise |
| `PriorityQueue.Queue.Get` | images/gpu-control-plane-artifact/pkg/controller/reconciler/queue.go:246-262 | hands out the item with the greatest priority, among equals the earliest queued, and moves it to `processing`; reports shutdown exactly when nothing is queued |
| `PriorityQueue.Queue.HandOutBest` | images/gpu-control-plane-artifact/pkg/controller/reconciler/queue.go:257-261 | the item taken is the best queued one, and the invariant survives the hand-out |
| `PriorityQueue.Queue.LeastIsBest` | images/gpu-control-plane-artifact/pkg/controller/reconciler/queue.go:131-136 | with distinct sequence numbers a node before which none ranks holds the one item all others rank behind |
| `PriorityQueue.Queue.Done` | images/gpu-control-plane-artifact/pkg/controller/reconciler/queue.go:264-284 | the invariant survives if and only if the item is not queued; then the item leaves `processing` and is queued again when it became dirty meanwhile |
| `PriorityQueue.DoneTooEarly` | images/gpu-control-plane-artifact/pkg/controller/reconciler/queue.go:268-279 | the failing case occurs: Add and then Done of the same item leave a queue without its invariant |
| `PriorityQueue.Queue.ShutDown` | images/gpu-control-plane-artifact/pkg/controller/reconciler/queue.go:286-291 | only the shutdown flag changes |
| `PriorityQueue.Queue.BeginDrain` | images/gpu-control-plane-artifact/pkg/controller/reconciler/queue.go:293-302 | both flags are set; the drain need not wait exactly when nothing is queued or processed, and then nothing is dirty either |
| `PriorityQueue.Queue.Len` | images/gpu-control-plane-artifact/pkg/controller/reconciler/queue.go:240-244 | the heap length is the number of queued items |
| `QueueSpec.AddKeeps` | images/gpu-control-plane-artifact/pkg/controller/reconciler/queue.go:207-238 | Add keeps queued and processing disjoint, dirty between queued and queued-or-processing, and sequence numbers distinct and issued |
| `QueueSpec.DoneKeeps` | images/gpu-control-plane-artifact/pkg/controller/reconciler/queue.go:264-284 | so does Done on any item that is not queued |
| `QueueRuns.InvariantHolds` | images/gpu-control-plane-artifact/pkg/controller/reconciler/queue.go:127-320 | every state of every run satisfies the joint invariant, and every queued priority is at least the recorded one |
| `QueueRuns.RepeatedAddChangesNothing` | images/gpu-control-plane-artifact/pkg/controller/reconciler/queue.go:215-223 | in no run does an Add of a dirty item change anything: its lifting branch is never needed |
| `QueueRuns.CounterWithinSteps` | images/gpu-control-plane-artifact/pkg/controller/reconciler/queue.go:317-320 | the sequence counter is at most the number of steps, so 64 bits do not wrap in fewer than 2^64 steps |
| `QueueRuns.StaysQueued` | images/gpu-control-plane-artifact/pkg/controller/reconciler/queue.go:182-262 | a queued item keeps its place in line and never loses priority until it is handed out |
| `QueueRuns.NoOvertaking` | images/gpu-control-plane-artifact/pkg/controller/reconciler/queue.go:131-136 | an item queued behind another and not lifted is handed out after it |
| `QueueRuns.FirstInFirstOut` | images/gpu-control-plane-artifact/pkg/controller/reconciler/queue.go:230-262 | within one priority items leave in the order in which they were queued |
| `QueueRuns.GreatestLeavesFirst` | images/gpu-control-plane-artifact/pkg/controller/reconciler/queue.go:131-136 | in every run the item handed out has a greater priority than each other waiting item, or the same priority and an earlier sequence number |
| `QueueRuns.LaterQueuedRanksBehind` | images/gpu-control-plane-artifact/pkg/controller/reconciler/queue.go:317-320 | an item queued later gets a greater sequence number than every item already waiting |
| `QueueRuns.RecordedIsGreatestRequested` | images/gpu-control-plane-artifact/pkg/controller/reconciler/queue.go:182-205 | the recorded priority is the greatest clamped priority requested since the last Forget, and there is one exactly when one was requested |
| `QueueRuns.PrioritiesAreRequested` | images/gpu-control-plane-artifact/pkg/controller/reconciler/queue.go:186-193 | no priority is made up: a recorded or waiting priority is never negative, and is 0 or one that was requested for the item |
| `QueueRuns.RequestIsHonoured` | images/gpu-control-plane-artifact/pkg/controller/reconciler/queue.go:110-118 | until the next Forget an item never waits below a priority that was requested for it |
| `QueueRuns.QueuedAtGreatestRequested` | images/gpu-control-plane-artifact/pkg/controller/reconciler/queue.go:230-234 | an item is queued at exactly the greatest clamped priority requested since its last Forget, or at 0 when none was |
| `QueueRuns.WaitsAtGreatest` | images/gpu-control-plane-artifact/pkg/controller/reconciler/queue.go:182-199 | while an item waits, its priority is exactly the greatest of the one recorded when it was queued and the clamped requests since, whatever is forgotten meanwhile |
| `QueueRuns.ForgetBeforeDone` | images/gpu-control-plane-artifact/pkg/controller/reconciler/queue.go:201-205 | in the run Add, Get, request of 10, Add, Forget, Done the item is queued again at priority 0 |
| `QueueRuns.OneWorkerAtATime` | images/gpu-control-plane-artifact/pkg/controller/reconciler/queue.go:246-284 | between two hand-outs of an item it was returned |
| `QueueRuns.AddIsAnswered` | images/gpu-control-plane-artifact/pkg/controller/reconciler/queue.go:207-284 | after an accepted Add the item has been handed out since or is still owed a hand-out, also when it was being processed |
| `QueueRuns.HandOutsWithinAdds` | images/gpu-control-plane-artifact/pkg/controller/reconciler/queue.go:207-284 | hand-outs of an item, with the one still owed, never exceed its accepted Adds |
| `QueueRuns.RefinesPlainQueue` | images/gpu-control-plane-artifact/pkg/controller/reconciler/queue.go:207-302 | forgetting priorities, every step is a step of a plain de-duplicating work queue |
| `QueueRuns.HandOutsAfterShutdown` | images/gpu-control-plane-artifact/pkg/controller/reconciler/queue.go:211-213 | once shutting down, hand-outs plus what is still dirty never exceed what was dirty then |
| `QueueRuns.DrainedStaysEmpty` | images/gpu-control-plane-artifact/pkg/controller/reconciler/queue.go:293-302 | after a drain returned, queue, dirty and processing stay empty, nothing is handed out and every Get reports shutdown |
| `QueueRuns.DrainIsWoken` | images/gpu-control-plane-artifact/pkg/controller/reconciler/queue.go:281-283 | the step that makes a drain's condition true is a Done that broadcasts |
| `NameRewriter.IndexRules` | images/kube-api-rewriter/pkg/rewriter/prefixed_name_rewriter.go:255-266 | the loop builds the index from original to renamed keys, later rules winning |
| `NameRewriter.IndexRulesReverse` | images/kube-api-rewriter/pkg/rewriter/prefixed_name_rewriter.go:268-279 | the loop builds the index from renamed to original keys |
| `NameRewriter.IndexHit` | images/kube-api-rewriter/pkg/rewriter/prefixed_name_rewriter.go:255-279 | every hit in an index comes from a rule |
| `NameRewriter.RuleIndexed` | images/kube-api-rewriter/pkg/rewriter/prefixed_name_rewriter.go:255-279 | with distinct keys every rule is found in the index |
| `NameRewriter.LaterRuleWins` | images/kube-api-rewriter/pkg/rewriter/prefixed_name_rewriter.go:255-279 | a rule is found in the index when no later rule has its key |
| `RuleHits.LookupExactly` | images/kube-api-rewriter/pkg/rewriter/prefixed_name_rewriter.go:161-279 | the indices answer for a name and value exactly when some rule is about it: for the name with this value, for the name, or for the prefix |
| `RuleHits.OneRulePerName` | images/kube-api-rewriter/pkg/rewriter/prefixed_name_rewriter.go:161-241 | one name is answered for by one rule, or by value-specific rules only |
| `RuleHits.SameLanding` | images/kube-api-rewriter/pkg/rewriter/prefixed_name_rewriter.go:161-215 | in either direction two names are rewritten to one only through value-specific rules |
| `RuleHits.LookupBack` | images/kube-api-rewriter/pkg/rewriter/prefixed_name_rewriter.go:161-241 | in either direction, looking up the other end of a hit gives the name and the value back |
| `RuleHits.RenameUndoesRestore` | images/kube-api-rewriter/pkg/rewriter/prefixed_name_rewriter.go:161-215 | under well-formed rules, value-specific ones included, renaming a restored name and value gives them back |
| `LabelRewriting.RewriteMap` | images/kube-api-rewriter/pkg/rewriter/prefixed_name_rewriter.go:135-145 | every entry leads to its rewritten name, and every entry of the result comes from one, whatever the iteration order |
| `LabelRewriting.OneSurvivor` | images/kube-api-rewriter/pkg/rewriter/prefixed_name_rewriter.go:135-145 | of the labels restored to one name exactly one survives |
| `LabelRewriting.NoCollisionExactly` | images/kube-api-rewriter/pkg/rewriter/prefixed_name_rewriter.go:190-215 | two labels are restored to one name if and only if they clash: a value-specific rule restores one of them, and its original name is taken by another label so restored or by a label of that name that no rule is about |
| `LabelRewriting.MapReturnsExactly` | images/kube-api-rewriter/pkg/rewriter/prefixed_name_rewriter.go:108-145 | the label map comes back, for every iteration order, if and only if no two of its labels clash |
| `LabelRewriting.EntryRestored` | images/kube-api-rewriter/pkg/rewriter/prefixed_name_rewriter.go:135-145 | without value-specific rules restoring a label map loses no entry and changes no value |
| `LabelRewriting.RenameMapUndoesRestoreMap` | images/kube-api-rewriter/pkg/rewriter/prefixed_name_rewriter.go:108-145 | without value-specific rules renaming a restored label map gives the map back, for every iteration order |
| `LabelRewriting.OneRuleCanLoseEntries` | images/kube-api-rewriter/pkg/rewriter/prefixed_name_rewriter.go:195-201 | one value-specific rule is enough for a clash: its renamed label beside a label of its original name with another value |
| `LabelRewriting.TwoRulesCanLoseEntries` | images/kube-api-rewriter/pkg/rewriter/prefixed_name_rewriter.go:195-201 | two value-specific rules with one original name make their renamed labels clash |
| `LabelSelectors.RewriteNameValues` | images/kube-api-rewriter/pkg/rewriter/prefixed_name_rewriter.go:59-133 | the name becomes the first new name any value leads to, and each value is rewritten on its own |
| `LabelSelectors.RewriteLabelSelector` | images/kube-api-rewriter/pkg/rewriter/rule_rewriter.go:199-211 | match labels and every expression are renamed, operators and order stay |
| `LabelSelectors.RulesAreApplied` | images/kube-api-rewriter/pkg/rewriter/prefixed_name_rewriter.go:161-215 | each rule renames its original to its renamed name (and value), restoring gives it back, and an original found on the server is escaped |
| `LabelSelectors.PrefixesAreApplied` | images/kube-api-rewriter/pkg/rewriter/prefixed_name_rewriter.go:177-185 | the same for every name under a prefix rule, whatever follows the slash |
| `LabelSelectors.OthersPass` | images/kube-api-rewriter/pkg/rewriter/prefixed_name_rewriter.go:185-214 | labels no rule is about pass unchanged both ways, and an escaped name loses its escape |
| `LabelSelectors.OperatorsMean` | images/kube-api-rewriter/pkg/rewriter/rule_rewriter.go:201-206 | what the four selector operators ask of an object |
| `LabelSelectors.RestoreUndoesRename` | images/kube-api-rewriter/pkg/rewriter/prefixed_name_rewriter.go:161-215 | under sound rules, value-specific ones included, restoring a renamed client label gives it back |
| `LabelSelectors.ClientLabelsAreRestored` | images/kube-api-rewriter/pkg/rewriter/prefixed_name_rewriter.go:190-241 | the client labels are exactly what restoring server labels produces |
| `LabelSelectors.LabelCorresponds` | images/kube-api-rewriter/pkg/rewriter/prefixed_name_rewriter.go:119-215 | a label is on the object the client is shown if and only if its renaming is on the server object |
| `SelectorRequirements.SameTargetExactly` | images/kube-api-rewriter/pkg/rewriter/prefixed_name_rewriter.go:161-186 | two values of a key are renamed to one name if and only if value-specific rules treat them alike |
| `SelectorRequirements.RequirementCorresponds` | images/kube-api-rewriter/pkg/rewriter/rule_rewriter.go:201-206 | a readable requirement (In, NotIn, Exists, DoesNotExist) holds of the server labels after renaming if and only if it held of the labels shown |
| `SelectorRequirements.RequirementIsSafeExactly` | images/kube-api-rewriter/pkg/rewriter/prefixed_name_rewriter.go:116-133 | with value-specific rules a requirement keeps its meaning on all objects if and only if the client can see its key with every value that counts and value-specific rules send all these values to one name or none of them anywhere |
| `SelectorRequirements.KeyIsSafeExactly` | images/kube-api-rewriter/pkg/rewriter/prefixed_name_rewriter.go:59-70 | asking whether a key exists keeps its meaning if and only if the client can see the key and no value-specific rule names it (or the key is escaped twice and never occurs) |
| `SelectorRequirements.SplitRequirement` | images/kube-api-rewriter/pkg/rewriter/prefixed_name_rewriter.go:123-132 | under o=a to r=x and o=b to s=y, "o In (a, b)" becomes "r In (x, y)" and loses its meaning |
| `SelectorMeaning.MatchLabelsCorrespond` | images/kube-api-rewriter/pkg/rewriter/rule_rewriter.go:199-199 | equality terms that do not clash hold of the server labels after renaming if and only if they held of the labels shown |
| `SelectorMeaning.MatchLabelsAreSafeExactly` | images/kube-api-rewriter/pkg/rewriter/rule_rewriter.go:199-199 | equality terms on labels the client can see keep their meaning if and only if no two of them clash, the clash read off the rules; with a term on a label the client is never shown, if and only if no server object can carry the renamed terms |
| `SelectorMeaning.HiddenTerm` | images/kube-api-rewriter/pkg/rewriter/rule_rewriter.go:199-199 | under the rule o to r the term r=v is sent as it is and selects an object the client is shown with o=v |
| `SelectorMeaning.ClashingTerms` | images/kube-api-rewriter/pkg/rewriter/rule_rewriter.go:199-199 | under the rule o=a to r=x the terms o=a and r=y are both renamed to r and lose their meaning |
| `SelectorMeaning.SelectorKeepsMeaning` | images/kube-api-rewriter/pkg/rewriter/rule_rewriter.go:182-220 | a renamed selector selects a server object if and only if the client's selector selects the object as shown, value-specific rules included |
| `SelectorMeaning.PlainSelectorKeepsMeaning` | images/kube-api-rewriter/pkg/rewriter/rule_rewriter.go:182-220 | without value-specific rules it is enough that the client can see the keys |
| `JsonPointer.EncodeIsEscape` | images/kube-api-rewriter/pkg/rewriter/metadata.go:139-143 | the two passes escape each character on its own, as section 3 of RFC 6901 says; EscapeJSONPointer is the same function |
| `JsonPointer.DecodeUndoesEncode` | images/kube-api-rewriter/pkg/rewriter/metadata.go:131-143 | decoding undoes encoding for every string |
| `JsonPointer.EncodeUndoesDecodeExactly` | images/kube-api-rewriter/pkg/rewriter/metadata.go:131-143 | encoding undoes decoding if and only if the token has no slash and each tilde starts ~0 or ~1; there decoding is the one-pass unescaping |
| `JsonPointer.EncodedHasNoSlash` | images/gpu-artifact/pkg/common/patch/patch.go:99-103 | an escaped key holds no slash |
| `JsonPointer.KeyTokens` | images/gpu-artifact/pkg/controller/reconciler/resource_patch.go:62-67 | a path built from two plain names and an escaped key has exactly these three reference tokens, whatever characters the key holds |
| `JsonPatch.MemberOperations` | images/gpu-artifact/pkg/common/patch/patch.go:60-73 | the operations on a member, by sections 4.1, 4.2, 4.3 and 4.6 of RFC 6902: removing and replacing need the member, testing its value |
| `JsonPatch.ApplyConcat` | images/gpu-artifact/pkg/common/patch/patch.go:81-83 | applying appended operations is applying one list after the other, and fails when either fails |
| `MetadataPatch.JsonPatchOpsForMap` | images/gpu-artifact/pkg/controller/reconciler/resource_patch.go:44-77 | the operations are one of those the two map loops may produce, each key once |
| `MetadataPatch.RemovalOps` | images/gpu-artifact/pkg/controller/reconciler/resource_patch.go:58-63 | exactly the current keys that are not desired are removed, each once |
| `MetadataPatch.SettingOps` | images/gpu-artifact/pkg/controller/reconciler/resource_patch.go:65-74 | exactly the new and differing keys are set, new ones added and known ones replaced |
| `MetadataPatch.Patch.Append` | images/gpu-artifact/pkg/common/patch/patch.go:81-83 | the operations are appended in order |
| `MetadataPatch.BuildMetadataPatch` | images/gpu-artifact/pkg/controller/reconciler/resource_update.go:51-61 | the patch is the finalizer part, the annotation part and the label part, each empty when nothing differs |
| `MetadataPatch.DiffGivesDesired` | images/gpu-artifact/pkg/controller/reconciler/resource_patch.go:54-76 | removing and then setting gives the desired map for every pair of maps and every pair of orders |
| `MetadataPatch.DiffIsMinimal` | images/gpu-artifact/pkg/controller/reconciler/resource_patch.go:54-76 | a test of the current map and then exactly one operation for each key that differs: remove, add or replace as it is undesired, new or changed |
| `MetadataPatch.FinalizerOperation` | images/gpu-artifact/pkg/controller/reconciler/resource_patch.go:21-34 | no operation when the lists agree, else one that adds, removes or replaces the whole list |
| `MetadataPatch.DiffApplies` | images/gpu-artifact/pkg/controller/reconciler/resource_patch.go:54-76 | a patch between two non-nil maps applies exactly to documents holding the current map, and puts the desired one there |
| `MetadataPatch.DifferingMapIsRefused` | images/gpu-artifact/pkg/controller/reconciler/resource_patch.go:54-56 | on a document holding another map the patch fails its test |
| `MetadataPatch.FieldPatchApplies` | images/gpu-artifact/pkg/controller/reconciler/resource_patch.go:36-77 | one map field: failure exactly when stuck, otherwise the desired content and nothing else touched |
| `MetadataPatch.FinalizerPatchApplies` | images/gpu-artifact/pkg/controller/reconciler/resource_patch.go:21-34 | the finalizer part always applies, gives the desired list and touches nothing else |
| `MetadataPatch.UpdateReachesDesired` | images/gpu-artifact/pkg/controller/reconciler/resource_update.go:51-65 | the same for the three fields the code patches: finalizers, annotations and labels |
| `MetadataPatch.FirstLabelFails` | images/gpu-artifact/pkg/controller/reconciler/resource_patch.go:54-56 | the failing case occurs: on a stored object without labels, read as one with an empty label map, adding the first label fails |
| `MetadataPatch.MetadataPatchReachesDesired` | images/gpu-artifact/pkg/controller/reconciler/resource_update.go:51-65 | the whole patch gives the desired finalizers, annotations and labels and leaves the rest of the document alone; it fails if and only if a map to be filled is non-nil, empty and left out of the stored document |
| `ClaimStatus.BuildDeviceConditions` | images/gpu-artifact/pkg/dra/driver/device_status_build.go:57-84 | Ready and the binding conditions, without blanks, each once in first-occurrence order, all at the same time |
| `ClaimStatus.ConditionsListed` | images/gpu-artifact/pkg/dra/driver/device_status_build.go:78-81 | Ready is first, and the kinds are Ready and the binding conditions that are not blank, each once |
| `ClaimStatus.ConditionOrder` | images/gpu-artifact/pkg/dra/driver/device_status_build.go:78-81 | after Ready the kinds are in the order in which the result first names them |
| `ClaimStatus.BuildDeviceStatuses` | images/gpu-artifact/pkg/dra/driver/device_status_build.go:35-54 | one status per result of this driver, in order, with the driver, pool, device and share of the result |
| `ClaimStatus.MergeDeviceStatuses` | images/gpu-artifact/pkg/dra/driver/device_status_build.go:86-99 | the foreign entries in order, and behind them the desired ones |
| `ClaimStatus.MergeOwn` | images/gpu-artifact/pkg/dra/driver/device_status_build.go:86-99 | after a merge the writer's entries are the desired ones and every other driver's are what they were |
| `ClaimStatus.InvariantHolds` | images/gpu-artifact/pkg/dra/driver/device_status.go:52-70 | in every reachable state what a worker holds under the current version is current, and the stored entries are the successful writes replayed in order |
| `ClaimStatus.EachDriverKeepsItsLastWrite` | images/gpu-artifact/pkg/dra/driver/device_status.go:34-70 | in every reachable state, under any interleaving, each driver's entries are exactly those of its last successful write, in order |
| `ClaimStatus.WriteTouchesOnlyItsDriver` | images/gpu-artifact/pkg/dra/driver/device_status.go:45-70 | a successful write keeps all foreign entries in order; a clear leaves only those |
| `ClaimStatus.AtMostFiveAttempts` | images/gpu-artifact/pkg/dra/driver/device_status.go:57-69 | a call tries to write at most five times, always the statuses it was called with; a refused write is retried unless the claim is gone or it was the fifth |
| `ClaimStatus.ConflictMeansProgress` | images/gpu-artifact/pkg/dra/driver/device_status.go:57-69 | a write is refused only when the claim changed since this worker read it |
| `SyncLoop.Loop.Send` | images/gpu-artifact/pkg/gpuhandler/notifier.go:28-36 | a non-blocking send leaves exactly one token |
| `SyncLoop.Loop.OnToken` | images/gpu-artifact/pkg/gpuhandler/loop.go:88-95 | stop, drain of a stale tick and reset give a running timer with no tick left behind |
| `SyncLoop.Loop.Expire` | images/gpu-artifact/pkg/gpuhandler/loop.go:74-75 | an armed timer expires and leaves its tick in the channel |
| `SyncLoop.Loop.OnTick` | images/gpu-artifact/pkg/gpuhandler/loop.go:96-97 | the tick is consumed and a sync begins |
| `SyncLoop.Loop.AfterSync` | images/gpu-artifact/pkg/nodeagent/loop.go:76-83 | a failed sync leaves a token |
| `SyncLoop.NothingIsLost` | images/gpu-artifact/pkg/gpuhandler/loop.go:74-104 | in every reachable state, after a notification since the last sync began or a failed last sync, a token waits or the timer is armed or has fired |
| `SyncLoop.QuietPeriodFirst` | images/gpu-artifact/pkg/gpuhandler/loop.go:88-97 | after a token is taken the timer runs out once more before a sync begins: a quiet period always passes |
| `SyncLoop.FirstSyncIsDue` | images/gpu-artifact/pkg/gpuhandler/loop.go:74-75 | the first sync needs no notification: until it begins the timer runs or has fired |
| `SyncLoop.NotifiedSinceLastSync` | images/gpu-artifact/pkg/gpuhandler/loop.go:74-104 | the model's record of a pending notification is a notification with no sync begun since |
| `SyncLoop.FailedLastTime` | images/gpu-artifact/pkg/gpuhandler/loop.go:96-102 | the model's record of a failure is a failed sync with none ended since |
| `SyncLoop.CalmsDown` | images/gpu-artifact/pkg/gpuhandler/loop.go:74-104 | from any state, without outside events or failures, at most eight steps and two syncs are left, and the loop can stop only when idle |
| `SyncLoop.IdleOwesNothing` | images/gpu-artifact/pkg/nodeagent/loop.go:41-84 | at an idle moment every earlier notification was followed by the begin of a sync, and the last sync to end since then succeeded |
| `ApiPath.Shift` | images/kube-api-rewriter/pkg/rewriter/api_endpoint.go:301-313 | the first item, whether it was the last, and the rest |
| `ApiPath.ParseAPIsEndpoint` | images/kube-api-rewriter/pkg/rewriter/api_endpoint.go:190-260 | every field of the endpoint by its position in the path, for namespaced and cluster-scoped paths of any length |
| `ApiPath.Path` | images/kube-api-rewriter/pkg/rewriter/api_endpoint.go:267-298 | the loop prints the non-empty parts joined with slashes |
| `ApiPath.NamespacedFields` | images/kube-api-rewriter/pkg/rewriter/api_endpoint.go:231-259 | which segment of a namespaced path is the group, version, namespace, resource type, name, subresource and remainder |
| `ApiPath.ClusterFields` | images/kube-api-rewriter/pkg/rewriter/api_endpoint.go:212-244 | the same for a cluster-scoped path |
| `ApiPath.CrdNameParts` | images/kube-api-rewriter/pkg/rewriter/api_endpoint.go:214-226 | the name of a CRD is split at its first dot into resource type and group |
| `ApiPath.OtherPathsUnchanged` | images/kube-api-rewriter/pkg/rewriter/api_endpoint.go:96-120 | paths that are not under /apis are printed as they came |
| `ApiPath.PathIsSegments` | images/kube-api-rewriter/pkg/rewriter/api_endpoint.go:272-297 | the namespace part counts as two segments of the printed path |
| `ApiPath.PathOfParsed` | images/kube-api-rewriter/pkg/rewriter/api_endpoint.go:88-298 | printing a parsed /apis path gives it back, outer slashes normalised, if and only if no segment is empty and it is namespaced or ends with the subresource |
| `ApiPath.SegmentsDropped` | images/kube-api-rewriter/pkg/rewriter/api_endpoint.go:246-259 | on every other path a segment is lost |
| `ApiPath.PrintedPathSplits` | images/kube-api-rewriter/pkg/rewriter/api_endpoint.go:93-298 | splitting a printed path finds its segments again |
| `ApiPath.RewriteCRApiEndpoint` | images/kube-api-rewriter/pkg/rewriter/rule_rewriter.go:109-149 | a ruled group, with no resource or a ruled one, is renamed; anything else passes unchanged |
| `ApiPath.RewrittenSegments` | images/kube-api-rewriter/pkg/rewriter/rule_rewriter.go:109-149 | which paths are rewritten, and to what: the group segment becomes the renamed group of its rule and the resource segment gets the prefix |
| `ApiPath.RewriteChangesTwoSegments` | images/kube-api-rewriter/pkg/rewriter/rule_rewriter.go:109-149 | only the group and resource-type segments change, and reparsing finds namespace, name, subresource and remainder if and only if the path does not come to read as a namespaced one |
| `ApiPath.RewrittenPathParses` | images/kube-api-rewriter/pkg/rewriter/rule_rewriter.go:109-149 | the same on whole path strings: print, parse again, and all but group and resource type is where it was, with that one exception |
| `ApiPath.NameOverwritten` | images/kube-api-rewriter/pkg/rewriter/api_endpoint.go:246-250 | a cluster-scoped path one segment too long loses its name to the last segment |
| `ApiPath.NameTakenForNamespace` | images/kube-api-rewriter/pkg/rewriter/rule_rewriter.go:132-143 | a resource "spaces" under the prefix "name" comes to be called "namespaces", and reparsing takes the name for a namespace |
| `ApiPath.LooksNamespacedSegments` | images/kube-api-rewriter/pkg/rewriter/api_endpoint.go:233-240 | the exception: a resource renamed to "namespaces", with name and subresource, has its name taken for a namespace |
| `Discovery.SliceBuilder.Write` | images/kube-api-rewriter/pkg/rewriter/discovery.go:282-291 | the buffer is the join of the non-empty pieces so far |
| `Discovery.SliceBuilder.Complete` | images/kube-api-rewriter/pkg/rewriter/discovery.go:293-300 | the result is exactly the non-empty pieces joined with commas, in brackets |
| `Discovery.RestoreUndoesRenaming` | images/kube-api-rewriter/pkg/rewriter/discovery.go:481-562 | the server form of an original resource (prefixed names, renamed group, kinds and categories) is restored to exactly that resource, under the group of its rule |
| `Discovery.Insert` | images/kube-api-rewriter/pkg/rewriter/discovery.go:403-409 | the index holds every non-empty (group, version) bucket, in order, and nothing else |
| `Discovery.IndexResources` | images/kube-api-rewriter/pkg/rewriter/discovery.go:379-411 | so it does for all resources of all named versions |
| `Discovery.BuildGroups` | images/kube-api-rewriter/pkg/rewriter/discovery.go:413-449 | each group with entries appears once, each of its versions once, in any map order |
| `Discovery.RestoreGroup` | images/kube-api-rewriter/pkg/rewriter/discovery.go:366-452 | a regrouping of all entries; nothing exactly when there are no versions |
| `Discovery.RewriteDiscoveryList` | images/kube-api-rewriter/pkg/rewriter/discovery.go:302-343 | each list item is kept, dropped as a duplicate, or replaced by its regrouping, in order |
| `DiscoveryLaws.RegroupingConserves` | images/kube-api-rewriter/pkg/rewriter/discovery.go:366-562 | the resources of a regrouped item are, as a multiset, the restored resources with a rule in named versions, each under its original group and its version |
| `DiscoveryLaws.ListConserves` | images/kube-api-rewriter/pkg/rewriter/discovery.go:302-343 | the whole rewritten list holds, as a multiset, the resources of the items passed on and the ruled resources of renamed groups; groups that bear an original name are dropped |
| `DiscoveryLaws.OrderWithinVersion` | images/kube-api-rewriter/pkg/rewriter/discovery.go:397-410 | the resources of a version item come from strictly increasing positions of the input, restored, and every input resource that belongs there is among them |
| `DiscoveryLaws.NamelessGroupExactly` | images/kube-api-rewriter/pkg/rewriter/discovery.go:490-493 | a group with an empty name is listed if and only if a named version holds a resource without a rule |
| `DiscoveryLaws.NamelessInListExactly` | images/kube-api-rewriter/pkg/rewriter/discovery.go:302-343 | the same for the whole list: a renamed group holds such a resource, or a group without a name is passed on |
| `DiscoveryLaws.NamelessGroupIsEmpty` | images/kube-api-rewriter/pkg/rewriter/discovery.go:427-438 | that group holds no resource |
| `DiscoveryLaws.OneRegrouping` | images/kube-api-rewriter/pkg/rewriter/discovery.go:379-449 | a single resource has exactly one regrouping |
| `DiscoveryLaws.StrayResource` | images/kube-api-rewriter/pkg/rewriter/discovery.go:403-418 | one version with one resource and no rule: every result is the list of exactly one group without a name and without resources |
| `DiscoveryLaws.FreshnessIsLost` | images/kube-api-rewriter/pkg/rewriter/discovery.go:422-441 | a version of the rewritten list has a freshness only in groups that are passed on unchanged |
| `DiscoveryLaws.FreshnessKeptExactly` | images/kube-api-rewriter/pkg/rewriter/discovery.go:317-340 | a group with a freshness stays in the list if and only if it is neither renamed nor bears an original name |
| `DiscoveryLaws.CurrentIsLost` | images/kube-api-rewriter/pkg/rewriter/discovery.go:387-441 | a ruled resource under a version marked "Current": every result lists it under its original group with no freshness |
| `PciIds.LeadingIndent` | images/gpu-artifact/pkg/sys/pciids/parse_helpers.go:19-31 | the number of tabs and of spaces before the first other character |
| `PciIds.CheckHex` | images/gpu-artifact/pkg/sys/pciids/parse_helpers.go:33-47 | true exactly for non-empty strings over 0-9, a-f and A-F |
| `PciIds.Resolver.ParsePCIIDs` | images/gpu-artifact/pkg/sys/pciids/parse.go:24-113 | the loop on the resolver's maps is the line state machine |
| `PciIds.Resolver.ParseTop` | images/gpu-artifact/pkg/sys/pciids/parse.go:37-68 | a line at the margin starts a class block, a vendor block, or ends the current one |
| `PciIds.Resolver.ParseSub` | images/gpu-artifact/pkg/sys/pciids/parse.go:73-109 | an indented line adds a device or a subclass to the current block, or nothing |
| `PciIds.ParseKeepsWellFormed` | images/gpu-artifact/pkg/sys/pciids/parse.go:24-113 | after any input all identifiers are lower-case hex of the right length and every table belongs to a recorded vendor or class |
| `PciIdsFile.StepRendered` | images/gpu-artifact/pkg/sys/pciids/parse.go:29-110 | in every state the parser does to a rendered line, indented by a tab or by spaces, what the line means |
| `PciIdsFile.NoiseStep` | images/gpu-artifact/pkg/sys/pciids/parse.go:29-34 | blank lines, comments, lines indented by two tabs and subsystem lines indented by spaces are passed over in every state |
| `PciIdsFile.JunkEndsBlock` | images/gpu-artifact/pkg/sys/pciids/parse.go:37-62 | a line at the margin that is no header records nothing and ends the block before it |
| `PciIdsFile.ParsedFileIsDatabase` | images/gpu-artifact/pkg/sys/pciids/parse.go:24-113 | any rendering of a database, blocks in any order and noise anywhere, is parsed to exactly that database |
| `PciIdsFile.VendorLookup` | images/gpu-artifact/pkg/sys/pciids/pciids.go:30-35 | a vendor's name comes back for its identifier in any letter case, other identifiers give nothing |
| `PciIdsFile.DeviceLookup` | images/gpu-artifact/pkg/sys/pciids/pciids.go:38-49 | a device's name comes back for its vendor's identifier and its own, unknown devices give nothing |
| `PciIdsFile.ClassLookup` | images/gpu-artifact/pkg/sys/pciids/pciids.go:52-68 | a class code of any length from four is looked up by its first four digits, an unknown subclass giving the name of the class |
| `PciIdsFile.UnknownLookups` | images/gpu-artifact/pkg/sys/pciids/pciids.go:38-68 | devices of unknown vendors, unknown classes and codes shorter than four digits have no name |
| `ModuleConfig.CleanTolerationKeys` | images/gpu-control-plane-artifact/pkg/controller/moduleconfig/parse_placement.go:33-46 | the loop trims, drops blanks and keeps each key at its first occurrence |
| `ModuleConfig.CleanKeysAreClean` | images/gpu-control-plane-artifact/pkg/controller/moduleconfig/parse_placement.go:33-46 | toleration keys are trimmed, non-empty and distinct |
| `ModuleConfig.CleanListStays` | images/gpu-control-plane-artifact/pkg/controller/moduleconfig/parse_placement.go:33-46 | a clean list is left as it is |
| `ModuleConfig.TrimLabels` | images/gpu-control-plane-artifact/pkg/controller/moduleconfig/parse_device_approval.go:87-100 | accepted exactly when no key or value is blank; the result holds the trimmed entries |
| `ModuleConfig.ParseSelector` | images/gpu-control-plane-artifact/pkg/controller/moduleconfig/parse_device_approval.go:73-143 | the selector, or an error exactly for blank labels, bad expressions or an empty selector |
| `ModuleConfig.SelectorReturns` | images/gpu-control-plane-artifact/pkg/controller/moduleconfig/parse_device_approval.go:73-158 | parsing a clean selector again gives the same selector |
| `ModuleConfig.ApprovalReturns` | images/gpu-control-plane-artifact/pkg/controller/moduleconfig/parse_device_approval.go:26-158 | parsing a clean approval section again gives the same approval |
| `ModuleConfig.ParseApproval` | images/gpu-control-plane-artifact/pkg/controller/moduleconfig/parse_device_approval.go:26-56 | mode, optional selector, or the error of the section |
| `ModuleConfig.HttpsReturns` | images/gpu-control-plane-artifact/pkg/controller/moduleconfig/parse_https.go:24-95 | parsing a clean HTTPS section again gives the same settings whatever the global values are then |
| `ModuleConfig.SchedulingReturns` | images/gpu-control-plane-artifact/pkg/controller/moduleconfig/parse_scheduling.go:23-59 | parsing a clean scheduling section again gives the same settings |
| `ModuleConfig.InventoryReturns` | images/gpu-control-plane-artifact/pkg/controller/moduleconfig/parse_inventory.go:27-48 | a kept resync period is accepted again unchanged |
| `ModuleConfig.LogLevelReturns` | images/gpu-control-plane-artifact/pkg/controller/moduleconfig/parse_loglevel.go:23-57 | the canonical level is accepted again unchanged |
| `ModuleConfig.ManagedReturns` | images/gpu-control-plane-artifact/pkg/controller/moduleconfig/parse_managed.go:23-42 | a clean managed-nodes section parses to the same settings |
| `ModuleConfig.Parse` | images/gpu-control-plane-artifact/pkg/controller/moduleconfig/parse.go:22-100 | the sections in order, the first failing one deciding, with the clean settings beside the state |
| `ModuleConfigMeaning.ParsedMeans` | images/gpu-control-plane-artifact/pkg/controller/moduleconfig/parse.go:22-100 | parsing fails exactly on rejected inputs, and otherwise every field is what the input says: given values, else global ones, else the defaults |
| `ModuleConfigMeaning.ModeRecognised` | images/gpu-control-plane-artifact/pkg/controller/moduleconfig/parse_device_approval.go:58-71 | an approval mode is recognised exactly when it is the canonical word up to case and outer blanks |
| `ModuleConfigMeaning.OperatorRecognised` | images/gpu-control-plane-artifact/pkg/controller/moduleconfig/parse_device_approval.go:145-158 | the same for selector operators |
| `ModuleConfigMeaning.StrategyRecognised` | images/gpu-control-plane-artifact/pkg/controller/moduleconfig/parse_scheduling.go:48-59 | the same for strategies |
| `ModuleConfigMeaning.LevelRecognised` | images/gpu-control-plane-artifact/pkg/controller/moduleconfig/parse_loglevel.go:42-57 | the same for log levels |
| `ModuleConfigMeaning.HttpsModeRecognised` | images/gpu-control-plane-artifact/pkg/controller/moduleconfig/parse_https.go:80-95 | the same for HTTPS modes |
| `ModuleConfigMeaning.CanonicalWords` | images/gpu-control-plane-artifact/pkg/controller/moduleconfig/parse_device_approval.go:145-158 | the canonical words |
| `ModuleConfigMeaning.HttpsMeans` | images/gpu-control-plane-artifact/pkg/controller/moduleconfig/parse_https.go:24-78 | the mode is the one the section names, else a valid global one, else CertManager; issuer and secret likewise; rejected exactly for a strange mode or a custom certificate without a secret |
| `ModuleConfigMeaning.SchedulingMeans` | images/gpu-control-plane-artifact/pkg/controller/moduleconfig/parse_scheduling.go:23-46 | the strategy named or Spread, the topology key given or for Spread the zone; rejected exactly for a strange strategy |
| `ModuleConfigMeaning.ManagedMeans` | images/gpu-control-plane-artifact/pkg/controller/moduleconfig/parse_managed.go:23-42 | label key and flag as given, else the defaults |
| `ModuleConfigMeaning.LevelMeans` | images/gpu-control-plane-artifact/pkg/controller/moduleconfig/parse_loglevel.go:23-40 | the level named or Info; rejected exactly for a strange level |
| `ModuleConfigMeaning.InventoryMeans` | images/gpu-control-plane-artifact/pkg/controller/moduleconfig/parse_inventory.go:27-48 | the period given, trimmed; rejected exactly when it is not digits and one of s, m, h within 64 bits of nanoseconds |
| `ModuleConfigMeaning.ExpressionMeans` | images/gpu-control-plane-artifact/pkg/controller/moduleconfig/parse_device_approval.go:104-134 | operator, key and values as given, trimmed and without blanks; rejected exactly for an unknown operator, a blank key, or values against the operator |
| `ModuleConfigMeaning.SelectorMeans` | images/gpu-control-plane-artifact/pkg/controller/moduleconfig/parse_device_approval.go:73-143 | all labels and expressions as given; rejected exactly for a blank label, a rejected expression or an empty selector |
| `ModuleConfigMeaning.ApprovalMeans` | images/gpu-control-plane-artifact/pkg/controller/moduleconfig/parse_device_approval.go:26-56 | the mode named or Manual, with a selector exactly when the mode asks for one and it is given |
| `ModuleConfigMeaning.KeyOrder` | images/gpu-control-plane-artifact/pkg/controller/moduleconfig/parse_placement.go:33-46 | toleration keys are in the order in which they first occur |
| `ModuleConfig.ParseIsProjection` | images/gpu-control-plane-artifact/pkg/controller/moduleconfig/parse.go:22-100 | for every input that parses, feeding the sanitized settings back parses to the same state, whatever the global values are then |
| `DeviceConfig.DecodeDeviceConfigs` | images/gpu-artifact/pkg/dra/driver/device_config_decode.go:35-82 | class configurations before claim configurations, each in order, foreign drivers passed over; the error cases decide for the whole list |
| `DeviceConfig.DecodedExactly` | images/gpu-artifact/pkg/dra/driver/device_config_decode.go:35-82 | fails exactly for an unknown source, missing parameters or own parameters that do not decode; else the decoded configurations of this driver and no other, class ones in order and then claim ones |
| `DeviceConfig.NameAppliesExactly` | images/gpu-artifact/pkg/dra/driver/device_config_decode.go:104-115 | a name applies to the request of that name and to its children behind a slash, and to nothing else |
| `DeviceConfig.ConfigAppliesToRequest` | images/gpu-artifact/pkg/dra/driver/device_config_decode.go:96-117 | true exactly when the request is not blank and the list is empty or names it or a parent of it |
| `DeviceConfig.InterleavingDoesNotMatter` | images/gpu-artifact/pkg/dra/driver/device_config_decode.go:40-53 | the result depends only on the class subsequence and the claim subsequence |
| `DeviceConfig.ApplyDeviceConfigs` | images/gpu-artifact/pkg/dra/driver/device_config_apply.go:27-56 | fails exactly when some applicable non-VFIO configuration has the wrong kind; otherwise every device gets its selected configuration and keeps the rest |
| `DeviceConfig.Precedence` | images/gpu-artifact/pkg/dra/driver/device_config_apply.go:38-53 | the last applicable claim configuration; if none applies, the last applicable class configuration; if none applies either, the default of the type |
| `DeviceConfig.LastRelevantIsLast` | images/gpu-artifact/pkg/dra/driver/device_config_apply.go:38-52 | the one taken applies, and no later one does |
| `DeviceConfig.SelectedMatches` | images/gpu-artifact/pkg/dra/driver/device_config_apply.go:48-78 | a selected configuration has the kind its device type asks for |
| `DeviceConfig.VfioIsIgnored` | images/gpu-artifact/pkg/dra/driver/device_config_apply.go:42-44 | VFIO configurations play no part in what is selected or in whether it fails |
| `DeviceConfig.Defaults` | images/gpu-artifact/pkg/dra/driver/device_config_apply.go:58-78 | Physical and MIG have their defaults, and a type has one exactly when some configuration fits it |
| `HandlerChain.MergeResults` | images/gpu-control-plane-artifact/pkg/controller/reconciler/resource.go:198-216 | the loop with its early return is the fold of pairwise merging |
| `HandlerChain.StepDemand` | images/gpu-control-plane-artifact/pkg/controller/reconciler/resource.go:200-214 | each merge takes the sooner of the two requeue demands |
| `HandlerChain.MergePair` | images/gpu-control-plane-artifact/pkg/controller/reconciler/resource.go:198-216 | merging a list of two results is the pairwise merge |
| `HandlerChain.MergeFromConcat` | images/gpu-control-plane-artifact/pkg/controller/reconciler/resource.go:198-216 | merging a concatenation is merging one list after the other |
| `HandlerChain.MergeAssociative` | images/gpu-control-plane-artifact/pkg/controller/reconciler/resource.go:198-216 | merging is associative |
| `HandlerChain.RunHandlers` | images/gpu-control-plane-artifact/pkg/controller/reconciler/base.go:90-121 | which handlers run, what their results merge to, and whether one failed for good |
| `HandlerChain.Reconcile` | images/gpu-control-plane-artifact/pkg/controller/reconciler/base.go:74-156 | handlers, then the update once, then every finalizer; an error gives the zero result |
| `HandlerChain.FailureSources` | images/gpu-control-plane-artifact/pkg/controller/reconciler/base.go:111-149 | a handler that ran and failed for good, an update failed other than by conflict, or a failed finalizer each make it fail, and nothing else does |
| `HandlerChain.ExecutedIsPrefix` | images/gpu-control-plane-artifact/pkg/controller/reconciler/base.go:90-121 | exactly the handlers up to the first fatal error or stop signal run |
| `HandlerChain.FinalizationsOf` | images/gpu-control-plane-artifact/pkg/controller/reconciler/base.go:135-144 | exactly the finalizing handlers are finalized, whatever went wrong before |
| `HandlerChain.FinalizationsAreOrdered` | images/gpu-control-plane-artifact/pkg/controller/reconciler/base.go:135-144 | each of them once, in order |
| `HandlerChain.ContributionsAreSoonest` | images/gpu-control-plane-artifact/pkg/controller/reconciler/base.go:99-116 | the merged demand is made by some handler that ran and none asks for less, conflict delays included |
| `HandlerChain.ReconcileDemand` | images/gpu-control-plane-artifact/pkg/controller/reconciler/base.go:124-133 | a conflicting update adds its own delay to the demand |

## Left out

- Waiting, signalling and fairness of `sync.Cond`: `Get` and drain are steps that happen once they can return; of the wake-ups only the drain's is stated (`QueueRuns.DrainIsWoken`).
- The client-go delaying and rate-limiting queues around the priority queue: `AddAfter` and `AddRateLimited` are a priority request now and an Add at some later step.
- The 64-bit width of the sequence counter: it is a natural number in the model, with `QueueRuns.CounterWithinSteps` bounding it.
- Query strings: parsing and encoding of selectors, field selectors, and the rewriting of CRD endpoints; selectors are modelled after parsing. Name lists (`RewriteSlice`) are the value-free case of one name.
- The difference between nil and empty maps in label rewriting, and the order in which colliding entries overwrite each other beyond "some order".
- JSON and YAML bytes (gjson, sjson): documents are values; only the comma joining of `sliceBytesBuilder` works on text. Patch operations on array elements or on the whole document fail in the model, and none is generated.
- The status update and the API calls in `Update`; the metadata patch itself is modelled.
- API errors in the claim protocol are one step that ends a call; a write that succeeds while its response is lost counts as a success followed by nothing. That an update with no statuses of its own writes nothing is not modelled separately from a clear. Status, reason and message of conditions are constants and left out.
- Real time, context cancellation and source errors in the sync loops: the timer is armed, fired or spent, and the loop runs on.
- Fields of core (`/api`) endpoints, which are printed from the raw path, the watch flag and the query.
- Other discovery lists (APIGroupList, APIGroup, APIResourceList), and scope and verbs, which are passed through.
- Scanner limits in pci.ids parsing, and lower-casing of non-ASCII letters beyond those that map to ASCII.
- JSON decoding of module settings: each section is absent, undecodable or decoded. `Values()`, `Clone` and the store.
- Decoding, normalising and validating of opaque device parameters: their outcome is an input.
- Outcomes of handlers, of the update and of finalizers are inputs of the chain; logging and error texts.
- HTTP proxying, watch streams, NVML, CDI, MIG, VFIO and MPS adapters, sysfs access, controller wiring, hooks and generated code.
