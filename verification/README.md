# Tailor, modelled in Dafny

Tailor compares the resources that templates describe (desired state) with the resources in an OpenShift cluster
(current state), plans the changes that bring the cluster in line, and applies them. This project models that core
and proves what it is meant to guarantee.

A resource is a JSON document. A comparison flattens the template's and the platform's document into two lists of
JSON pointers, in the arbitrary order of Go's maps, and works through the lists while it edits the template's
document in place. The edited document becomes the desired state. Nowhere does the code say which document that
is; here it is the recursive function `Merge`:

- a member that both sides have is merged in turn; scalars are the template's;
- a member only the template has is kept, unless it is the empty string;
- a member only the platform has is taken over if it is `{}` or `[]`, and left out otherwise;
- lists are merged index by index, with the template's length.

`dafny verify dfyconfig.toml` verifies the whole project.

## Structure

- `Wrappers`, `Text`, `Decimal`, `Documents`, `Pointers`: strings, JSON documents, and pointers with the
  evaluation of section 4 of RFC 6901. A document is determined by its labels (`SameLabels`), so edits are
  specified position by position.
- `Walking`, `Managed`, `Preparing`, `Platform`, `Items`: the resource item with its document and path list:
  the tree walk, the removal of platform-managed fields, preserved paths, unmanaged annotations.
- `Merging`, `Comparison`, `Loops`, `Changes`: the two path loops as methods that edit the item, proved against
  two functions (`TemplateLoop`, `PlatformLoop`) for all inputs, and against `Merge` under the conditions below.
- `Laws`, `Hiding`, `Exactness`: consequences, and exactly when the loops do arrive at `Merge`, for any two path lists.
- `Arranging`, `Choices`: which path lists Go's map iteration can lead to: walks for any ranking of the members of
  objects, with list elements by index, and what preparing appends to them.
- `Orders`, `Overlooked`, `Agreement`: what some order, or every order, passes over, as conditions on the documents
  alone: when all orders merge, when all orders agree, and when some order overlooks an immutable field.
- `OneRun`: exactly when what a comparison ended with leaves nothing to do.
- `Preserving`, `Changesets`, `Planning`, `Conservation`: preserve arguments, the sorted changeset, the plan for
  all resources, and what every plan conserves.
- `Guarantees`: what every comparison and every plan keeps to, in any order and whatever is hidden.
- `Convergence`, `Cluster`, `Reconciled`: an idealised cluster, and why a second comparison finds nothing to do.
- `Asking`, `Executing`, `Diffing`, `Applying`: questions and the lines typed in reply, the client, the comparison of
  everything with the cluster, and the `apply` command with its failures and verification.
- `Params`, `ParamLaws`, `Templating`: encrypted parameter files, and namespaces in exported templates.

## Conditions that the code does not check

`WellBehaved` collects what a comparison relies on. `Correct` is what it then guarantees.

- *Nothing hidden.* `IncludesPrefix` compares pointers as plain strings, so `/spec/foo` also hides `/spec/foobar`.
  `ImmutableFieldCanBeHidden` gives two secrets that are refused or updated depending on the order of the walk.
  What holds without the condition is stated exactly, preserved paths included: for two given path lists by
  `OutcomeIsMergeExactlyIf`, for all orders by `AlwaysMergedExactlyIf`, `AllOrdersAgreeExactlyIf` and
  `FieldsOverlookedExactlyIf`, for further runs by `OneRunIsEnoughExactlyIf`. That preserved paths are preserved
  (`PreservationHoldsExactlyIf`) does not need the condition at all.
- *Object members.* `DropsMembersOnly` and `KeepsMembersOnly`: no element of a list is dropped or copied. `Correct`
  and the laws say nothing about comparisons that drop an element of a list, since what the pointer library does then
  is not in the repository. Where an empty collection would have to be copied into a list, the comparison fails; this
  is part of `Correct`.
- *Preserved paths* are pointers, do not remove elements of lists, and stay away from `/apiVersion` and
  `/metadata/annotations`, which the comparison edits itself.
- *Annotations* are scalars in an object, and the last applied `apiVersion` is a scalar.

Four facts about the repository came up:

- The repository's README (line 70) offers `--preserve bc` and `--preserve bc:foobar`. `NewChangeset` takes the last
  part of any argument for a JSON pointer, and neither `bc` nor `foobar` is one (`DocumentedArguments`). By the contract
  of `CalculateChanges`, such arguments make no difference at all, whatever other arguments there are; and an argument
  that ends in a colon, which selects the empty path, switches the whole comparison off. Both rest on how the model
  reads a string that is no pointer: as the pointer to the whole document, which is left as it is when set.
- A preserved path is lost, with no more than a debug message, when the template has no object to hold it:
  `--preserve /spec/host` does not keep the host if the template has no `spec` (`PreservedPathIsLost`).
  `PreservationHoldsExactlyIf` says exactly when preserving works.
- `export` does not replace every name that stands alone: in `a-a-a`, the match at the beginning reaches over the name
  that ends the text (`NameLeftOut`). This happens to exactly the namespaces that overlap themselves at a hyphen
  (`AllNamesAreReplacedExactlyIf`).
- `encrypt` compares the new value with the decryption of the previous one without looking at the error. A previous
  value that cannot be decrypted is kept when its failed decryption yields the new value, the empty one for
  instance. `RoundTrip` holds exactly when this does not happen.

## Model

| member | source | states |
|---|---|---|
| Text.Includes | pkg/utils/string.go:6-13 | found exactly when the needle is among the strings |
| Text.IncludesPrefix | pkg/utils/string.go:16-23 | found exactly when some string is a prefix of the needle |
| Text.Remove | pkg/utils/string.go:26-33 | the first occurrence is gone, and nothing else |
| Platform.WithoutFirstIsFilter | pkg/utils/string.go:26-33 | on a list without duplicates, removing keeps exactly the other strings, in their order |
| Pointers.DecodeEscaped | pkg/utils/string.go:37-40 | reading an escaped token gives back the token, in the decoding order of RFC 6901 |
| Pointers.DecEnc | pkg/utils/string.go:37-40 | a pointer is read back as the position it was written for, so pointers of different positions differ |
| Pointers.EncChild | pkg/openshift/item.go:360-380 | the pointer of a child is the parent's pointer, a slash, and the escaped token |
| Pointers.PrefixMeaning | pkg/utils/string.go:16-23 | what the raw prefix test means for two pointers: same parent, and one last token a prefix of the other, in escaped form |
| Documents.SetEffect | pkg/openshift/item.go:407-414 | when setting at a pointer succeeds, and what is then at every position |
| Documents.DeleteEffect | pkg/openshift/item.go:304-310 | when deleting at a pointer succeeds, and what is then at every position |
| Documents.SameLabels | pkg/openshift/change.go:41-56 | documents that agree at every position are equal, so comparing rendered states compares documents |
| Walking.WalkIsExact | pkg/openshift/item.go:348-380 | a path list is a walk exactly when it has every position but the root once, no other, each after those above it, and each evaluates to its subtree |
| Walking.WalkOfChild | pkg/openshift/item.go:360-380 | the pointer of a child followed by a walk of the child is a walk of that part of the container |
| Walking.WalkOfUnion | pkg/openshift/item.go:348-358 | walks of different children may follow each other in any order |
| Walking.OrderedUnion | pkg/openshift/item.go:348-358 | the positions at and below each child stay together, whatever order the members of an object come in; list elements come by index |
| Items.ResourceItem.WalkMap | pkg/openshift/item.go:348-352 | appends a walk of all members, in whatever order they are visited |
| Items.ResourceItem.WalkArray | pkg/openshift/item.go:354-358 | appends a walk of all elements, in the order of their indices |
| Items.ResourceItem.HandleKeyValue | pkg/openshift/item.go:360-380 | appends the pointer of one child and the walk below it |
| Decimal.ParseItoa | pkg/openshift/item.go:360-368 | the token written for a list index denotes that index |
| Items.ResourceItem.ReadIdentity | pkg/openshift/item.go:142-190 | succeeds exactly for documents with kind, name or generated name and, for secrets, a type; reads them; all resources are comparable but secrets of the types kubernetes.io/dockercfg and kubernetes.io/service-account-token |
| Items.ResourceItem.ParseConfig | pkg/openshift/item.go:142-331 | the item holds the document without platform-managed fields, in step with its path list and annotations; the list is in an order that walking can produce: depth first, list elements by index |
| Items.ResourceItem.RemoveSimpleFields | pkg/openshift/item.go:292-300 | exactly the fields of the table are gone from the document, with all below them |
| Managed.SimpleFieldsCover | pkg/openshift/item.go:18-40 | which positions the table covers, by the part of the document |
| Items.ResourceItem.RemoveRegexFields | pkg/openshift/item.go:307-331 | exactly the matching positions are gone from document and path list, which stay in step |
| Items.ResourceItem.RemoveIndices | pkg/openshift/item.go:322-328 | deleting by ascending indices with a shrinking offset is in bounds and leaves the list without the matching paths, in order |
| Managed.MatchParts | pkg/openshift/item.go:41-43 | a path that matches the regular expression has its three parts |
| Managed.PartsMatch | pkg/openshift/item.go:41-43 | and whatever has these parts matches, with anything after them |
| Managed.MatchesDown | pkg/openshift/item.go:310-320 | what is below a matching path matches, too |
| Managed.DeleteMatch | pkg/openshift/item.go:310-320 | deleting the matching paths in walk order removes exactly the matching positions, although parents go before their children |
| Managed.WalkOfRemaining | pkg/openshift/item.go:307-331 | the remaining paths are a walk of the remaining document, which has no matching position |
| Managed.NotManaged | pkg/openshift/item.go:17-43 | no annotation is platform-managed |
| Items.ResourceItem.PrepareForComparisonWithPlatformItem | pkg/openshift/item.go:394-429 | the template has the platform's values at the preserved paths, and its path list is a walk of what it had before, followed by what is at and below preserved paths, and lists what it then has; arguments that are no pointers do not count; the empty path appends all positions of the platform |
| Preparing.PreserveAllEffect | pkg/openshift/item.go:394-429 | for any list of preserved paths, nested and overlapping ones included, both sides agree at each of them, and nothing else changes |
| Preparing.ListsPreserved | pkg/openshift/item.go:415-424 | appending the preserved path and the walk below it keeps the path list complete and without duplicates outside the preserved paths |
| Items.ResourceItem.PrepareForComparisonWithTemplateItem | pkg/openshift/item.go:434-480 | the unmanaged annotations are gone; the apiVersion is the last applied one if it was extensions/v1beta1 and one was applied, and what it was otherwise; every other position is as it was; cannot fail on an item in step, and keeps it in step and in an order that walking can produce |
| Items.ResourceItem.UseLastAppliedApiVersion | pkg/openshift/item.go:443-456 | extensions/v1beta1, and no other apiVersion, is replaced by the last applied one, if there is one |
| Items.ResourceItem.CollectUnmanaged | pkg/openshift/item.go:459-468 | collects each annotation that neither the template nor the last applied configuration has, once |
| Items.ResourceItem.RemoveAnnotations | pkg/openshift/item.go:469-477 | deletes them from document and path list; cannot fail on an item in step |
| Platform.PreparedEffect | pkg/openshift/item.go:434-480 | what the prepared document has at every position, the apiVersion included |
| Platform.RemoveFromWalk | pkg/openshift/item.go:469-477 | deleting a leaf and its pointer keeps the list a walk |
| Items.ResourceItem.IsImmutableField | pkg/openshift/item.go:339-346 | true exactly for the fields in the table of the item's kind |
| Changes.CompareTemplatePaths | pkg/openshift/changeset.go:135-208 | for any path list, does what `TemplateLoop` says; under the conditions, drops exactly the empty strings only the template has, and stops only at a mismatch |
| Changes.ComparePlatformPaths | pkg/openshift/changeset.go:210-273 | for any path list, does what `PlatformLoop` says; under the conditions, takes over exactly the empty collections only the platform has |
| Changes.CalculateChanges | pkg/openshift/changeset.go:128-278 | returns what the two loops make of the prepared documents, from path lists in an order that walking can produce; under the conditions, an update to the merged document or no change, or a recreation or refusal exactly at a mismatch; one change or a recreating pair in any case; every deletion, update and unchanged resource reports the platform's prepared document as the current state, and a creation none; preserve arguments that are no pointers make no difference, alone or among others, and the empty path leaves the template as it is |
| Changes.StoppedHere | pkg/openshift/changeset.go:157-208 | a comparison stopped at an immutable field is right to do so, and its document is partly edited in an allowed way |
| Comparison.FirstLoopTold | pkg/openshift/changeset.go:138-208 | a first loop that ends has found no mismatch and dropped only members of objects |
| Comparison.LoopsAmountToMerge | pkg/openshift/changeset.go:138-273 | the edits of both loops add up to `Merge` |
| Comparison.KeptNotSkipped | pkg/openshift/changeset.go:213-218 | an empty collection that is to be taken over is never skipped for a reported path |
| Merging.MergeLabels | pkg/openshift/changeset.go:128-278 | what the merged document has at every position |
| Merging.MergeSelf | pkg/openshift/changeset.go:182-195 | merging a document with itself changes nothing |
| Merging.MergeIdempotent | pkg/openshift/changeset.go:169-180 | once the desired state is in the cluster, merging again changes nothing: no endless drift |
| Changes.Stop | pkg/openshift/change.go:83-99 | where recreating is allowed, a deletion from the platform's document to nothing, followed by a creation from nothing to the template's document as it is then; otherwise a refusal naming path and resource |
| Changes.NoPointersMakeNoDifference | pkg/openshift/item.go:394-429 | preserve arguments that are no pointers, and whatever is listed for them, can be left out, whatever other arguments there are: the loops return the same |
| Changes.NoPointersAtAll | pkg/openshift/item.go:394-429 | if all arguments are of that kind, the loops return what they return without any |
| Changes.EmptyPathComparesNothing | pkg/openshift/changeset.go:143-151 | with the empty path among the arguments, the loops end with the template as it is: nothing is dropped, copied or refused |
| Laws.InSyncIffMergeUnchanged | pkg/openshift/changeset.go:275-277 | merging leaves the platform's document alone exactly when both agree wherever both have something, the template has only empty strings more, and the platform only empty collections |
| Laws.NoopIffInSync | pkg/openshift/change.go:41-56 | no change is reported exactly for documents in sync without a mismatch |
| Laws.UnmanagedDoNotInterfere | pkg/openshift/item.go:459-477 | annotations that nobody manages do not affect what is compared |
| Laws.UnmanagedDoNotChangeTheResult | pkg/openshift/item.go:459-477 | nor do they affect the result: an update or no change is the same with the same states, and otherwise both fail or recreate alike |
| Hiding.LoopExact | pkg/openshift/changeset.go:138-208 | for any path list and any preserved paths, what the template's loop has passed over, added, dropped and compared after any number of paths |
| Hiding.MismatchFoundUnlessLeftAlone | pkg/openshift/changeset.go:141-208 | the loop stops exactly when some mismatch has neither an added path before it nor a preserved path that is a string prefix of it |
| Hiding.DropsUnlessLeftAlone | pkg/openshift/changeset.go:143-180 | all empty strings to be dropped are dropped exactly when none has such a path |
| Exactness.PlatformLoopExact | pkg/openshift/changeset.go:213-273 | for any walk, what the platform's loop has reported and copied after any number of paths |
| Exactness.OutcomeIsMergeExactlyIf | pkg/openshift/changeset.go:128-278 | for any path list of the template, any walk of the platform and any preserved paths, the result is the merged document if and only if no mismatch is found and nothing that matters is passed over |
| Exactness.LoopsEndFinal | pkg/openshift/changeset.go:128-278 | in any case, the comparison stops at an immutable field exactly when a mismatch is found, and ends otherwise with one change to a document that is known at every position |
| Exactness.NothingHiddenMeansNothingSpoiled | pkg/openshift/changeset.go:138-273 | where no pointer hides another, no order can spoil anything, and every mismatch is found |
| Exactness.AnyOrderGivesTheSame | pkg/openshift/item.go:348-358 | order independence: there, all path lists of the two documents give the merged document, or all of them stop at an immutable field |
| Exactness.ImmutableFieldsAreSafe | pkg/openshift/changeset.go:141-208 | a mismatch at an immutable field that is neither preserved nor hidden by an added path stops the comparison, for any path lists: it never ends in an update or in no change |
| Arranging.WholeRankedWalk | pkg/openshift/item.go:348-358 | for every ranking of the members of objects there is a walk in that order, with list elements by index |
| Arranging.ShorterElementIsEarlier | pkg/openshift/item.go:354-368 | of two elements of a list, one whose pointer is a string prefix of the other's is the earlier one |
| Arranging.WhichIsFirst | pkg/openshift/item.go:348-380 | which of two positions a walk lists first, when the pointer of one is a string prefix of the pointer of the other |
| Choices.PreparingPreserves | pkg/openshift/item.go:394-480 | how the prepared documents relate: equal at preserved paths, as parsed elsewhere |
| Choices.AppendedPathsDoNotMatter | pkg/openshift/item.go:415-424 | in which order, and how often, the preserved paths are appended makes no difference to the result |
| Orders.ToldInEveryOrder | pkg/openshift/changeset.go:213-218 | under a condition on the documents, every order passes over an empty collection of the platform because of a path that is reported before it |
| Orders.TellingOrder | pkg/openshift/changeset.go:213-218 | under a weaker one, some order does; `ToldIsTellable` is the converse |
| Orders.CopyingOrder | pkg/openshift/changeset.go:241-262 | an empty collection that may be copied is copied in some order |
| Orders.CopiedIsCopyable | pkg/openshift/changeset.go:241-262 | and conversely: one that is copied in some order, over something of the template, has a sibling that the template adds and that hides it, and is not passed over in every order |
| Agreement.StayingOrder | pkg/openshift/changeset.go:143-180 | an empty string that may stay stays in some order |
| Agreement.StayedMayStay | pkg/openshift/changeset.go:143-180 | and conversely |
| Agreement.AlwaysMergedExactlyIf | pkg/openshift/changeset.go:128-278 | all orders of walking two documents give the merged document if and only if the documents satisfy a condition that does not mention walks, for any preserved paths |
| Agreement.AllOrdersAgreeExactlyIf | pkg/openshift/changeset.go:128-278 | all orders lead to the same result, merged or not, or all of them stop at an immutable field, if and only if another such condition holds |
| Agreement.RobustIsSettled | pkg/openshift/changeset.go:128-278 | the first condition implies the second |
| Agreement.NothingHiddenIsRobust | pkg/openshift/changeset.go:138-273 | the first condition holds where no pointer hides another and no immutable field differs |
| Overlooked.MismatchesOverlookedExactlyIf | pkg/openshift/changeset.go:143-166 | some order finds a mismatch exactly when there is one that is not preserved; some order overlooks them all exactly when each is preserved, or another position that the template adds has a pointer that is a string prefix of its own |
| Overlooked.FieldsOverlookedExactlyIf | pkg/openshift/changeset.go:128-278 | hence which documents are refused or recreated in some order, and which go through with one change in some order |
| Overlooked.ImmutableFieldCanBeHidden | pkg/openshift/changeset.go:143-208 | two secrets, both parsed and compared, for which the order of two fields decides whether a changed type is refused or goes through as an update |
| OneRun.NothingToDoExactlyIf | pkg/openshift/change.go:41-56 | a comparison finds nothing to do, in whatever order, if and only if the documents are in sync and what only the template has is neither preserved nor at an immutable field; so no order finds anything if one finds nothing |
| OneRun.OneRunIsEnoughExactlyIf | pkg/openshift/changeset.go:210-277 | whatever was hidden, the document that a comparison ends with leaves nothing to do in any order if and only if each copied collection is what merging would put there and covers nothing that is immutable or preserved |
| OneRun.AnyRunIsEnoughExactlyIf | pkg/openshift/changeset.go:210-277 | that is so for all orders of the first run if and only if it is so for each collection that may be copied, a condition on the documents |
| Guarantees.PreservationHoldsExactlyIf | pkg/openshift/item.go:394-429 | in any order, and whatever is hidden, every desired state, that of a recreation included, agrees with the platform at a preserved path (both without it or both with the same value) if and only if the platform lacks it, or setting it or a preserved path above it can succeed in the template |
| Guarantees.PreservedPathIsLost | pkg/openshift/item.go:405-414 | a case in which it cannot: the template has no object for it, and the code ignores the failure |
| Guarantees.NextRunFindsNothingExactlyIf | pkg/openshift/item.go:394-429 | preserving again from the document that a comparison ended with leads to the same template, so that one run is enough under the condition of `OneRunIsEnoughExactlyIf` |
| Guarantees.RobustIsMerged | pkg/openshift/changeset.go:128-278 | what `CalculateChanges` returns for a robust pair is one change to the merged document, with nothing else assumed about hidden paths |
| Guarantees.OpenMismatchStops | pkg/openshift/changeset.go:141-208 | and for a mismatch that is neither preserved nor hidden, a recreation or a refusal |
| Guarantees.ImmutableFieldsAre | pkg/openshift/item.go:44-56 | the immutable fields of each kind, as positions |
| Guarantees.ImmutableFieldsStay | pkg/openshift/changeset.go:153-208 | a change of an immutable field that is neither preserved nor hidden is never made in place: the resource is recreated if that is allowed, and the comparison refused otherwise |
| Guarantees.OnlyImmutableFieldsStop | pkg/openshift/changeset.go:153-208 | and there is no other reason for a recreation or for such a refusal |
| Guarantees.NoopIsSynced | pkg/openshift/change.go:41-56 | a comparison that finds nothing to do is about documents in sync, in whatever order, and whatever was hidden |
| Guarantees.OtherApiVersionIsDrift | pkg/openshift/item.go:443-456 | an apiVersion that differs from the template's is never passed over, unless it is extensions/v1beta1 and the template's is the last applied one |
| Guarantees.InEveryPlan | pkg/openshift/changeset.go:85-123 | every plan merges robust pairs, recreates for such mismatches and only where that is allowed, and keeps the platform's values at preserved paths exactly where these are in reach |
| Preserving.SelectPaths | pkg/openshift/changeset.go:92-115 | fails exactly when some argument has more than two colons, and names one; otherwise selects, in the order of the arguments, exactly the paths that some argument asks for as path, kind:path or kind:name:path, with the kind given in any case |
| Text.ToLowerMeans | pkg/openshift/changeset.go:104-110 | upper-case letters become lower-case ones, character by character, and nothing else changes |
| Preserving.KindArgument | pkg/openshift/changeset.go:98-114 | kind:path is selected exactly for resources of the kind it names, and yields the path |
| Preserving.NamedArgument | pkg/openshift/changeset.go:98-114 | kind:name:path is selected exactly for the resource of that kind and name, and yields the path |
| Preserving.ConcernsMeans | pkg/openshift/changeset.go:92-115 | what splitting an argument selects is what its written form asks for; it is refused exactly if it has more than two colons |
| Preserving.PathsForMeaning | pkg/openshift/changeset.go:100-114 | a path is selected exactly when some argument asks for it in one of the three written forms |
| Preserving.DocumentedArguments | pkg/openshift/changeset.go:92-115 | the documented arguments bc and bc:foobar select strings that are no pointers |
| Preserving.ArgumentWithoutPath | pkg/openshift/changeset.go:92-115 | an argument that ends in a colon selects the empty path |
| Preserving.ImmutableArgumentsCover | pkg/cli/options.go:546-559 | with preserve-immutable-fields, exactly the immutable fields of the kind are selected besides what is preserved anyway; without it, nothing is added |
| Conservation.AllImmutablesCovered | pkg/cli/options.go:546-559 | with preserve-immutable-fields no run of NewChangeset fails for an immutable field |
| Conservation.PreservingNeverRecreates | pkg/cli/options.go:546-559 | nor does any plan recreate a resource |
| Changesets.SortByKind | pkg/openshift/changeset.go:295-317 | the same changes, with the ranks of their kinds ascending or, for deletions, descending |
| Changesets.RanksBefore | pkg/openshift/changeset.go:14-34 | a kind ranks before another exactly if it comes before it in the table, or only the other one is in the table |
| Changesets.Changeset.Add | pkg/openshift/changeset.go:295-317 | each list holds exactly the added changes of its action, ordered by kind: ascending, deletions descending |
| Planning.ResourceList.GetItem | pkg/openshift/list.go:39-46 | the first item of that kind and name, or none if there is none |
| Planning.AddDeletions | pkg/openshift/changeset.go:51-65 | adds the deletions of the platform resources that no template describes |
| Planning.AddCreations | pkg/openshift/changeset.go:67-83 | adds the creations of the described resources that the platform lacks |
| Planning.AddComparisons | pkg/openshift/changeset.go:85-123 | adds the result of the comparison for every described resource that the platform has, each computed from the documents as they were listed |
| Planning.CompareOne | pkg/openshift/changeset.go:86-122 | one resource's part of the plan; all other pending resources are left as they were |
| Planning.CompareFound | pkg/openshift/changeset.go:91-120 | the comparison with the resource that was found, or the failure of an argument or of the comparison |
| Planning.NewChangeset | pkg/openshift/changeset.go:43-126 | the changeset of the plan, or a failure that some comparison or argument is to blame for |
| Conservation.EveryTemplateIsAccountedFor | pkg/openshift/changeset.go:43-126 | created, updated and unchanged resources together are as many as the templates describe |
| Conservation.WhatIsDeleted | pkg/openshift/changeset.go:51-65 | deleted is exactly what no template describes, unless only upserting, and what is recreated |
| Conservation.PlannedDeletions | pkg/openshift/changeset.go:51-65 | the planned deletions, field by field: one for each listed resource whose kind and name no template has, from the document that the platform lists to nothing; none when only upserting |
| Conservation.PlannedCreations | pkg/openshift/changeset.go:67-83 | the planned creations, field by field: for the described resources whose kind and name the platform lacks, from nothing to the template's document |
| Conservation.PlannedCurrentStates | pkg/openshift/change.go:41-99 | all other changes of a plan report the platform's prepared document as the current state, but for the creations of recreated resources, which report none |
| Conservation.DescribedResourcesStay | pkg/openshift/changeset.go:157-166 | without permission to recreate, no described resource is deleted |
| Conservation.RecreatedResourcesReturn | pkg/openshift/change.go:83-99 | a recreated resource is both deleted and created, under its kind and name |
| Convergence.MergeIsSynced | pkg/openshift/changeset.go:169-180 | the merged document is in sync with the template it came from |
| Convergence.PartlyEditedIsSynced | pkg/openshift/change.go:83-99 | and so is the desired state of a recreation, although it is taken in the middle of the loop |
| Convergence.AnnotatedIsSynced | pkg/openshift/changeset.go:229-240 | an annotations object that the server adds is no drift |
| Convergence.PreserveAgain | pkg/openshift/item.go:394-429 | preserving again, from the applied document, leads to the same template |
| Convergence.ComparingAgain | pkg/openshift/changeset.go:128-278 | after the desired state was stored and recorded as last applied, the next comparison finds the two in sync |
| Convergence.ChangeConverges | pkg/commands/apply.go:129-153 | applying an update or recreation leaves nothing to do |
| Convergence.CreationConverges | pkg/commands/apply.go:138-143 | applying a creation leaves nothing to do |
| Convergence.NoopConverges | pkg/openshift/change.go:50-54 | a resource without a change stays in sync |
| Cluster.RunDeletions | pkg/commands/apply.go:131-136 | deleting removes exactly the deleted resources |
| Cluster.RunApplications | pkg/commands/apply.go:138-150 | applying changes exactly the resources that documents are applied to |
| Cluster.ChangeIsGood | pkg/openshift/changeset.go:128-278 | every desired state keeps kind and name, has no platform-managed field, and leaves nothing to do once applied |
| Cluster.PlainServerIsIdeal | pkg/commands/apply.go:167-178 | a server that stores what it is given, and creates the annotations object, is an ideal one |
| Cluster.RunVisible | pkg/openshift/item.go:165-190 | calls about resources that are compared have the same effect on these, whatever secrets of no interest are in the cluster |
| Cluster.DesiredIsComparable | pkg/openshift/item.go:165-190 | a desired state is never a secret of no interest |
| Reconciled.ExecutedPlanIsInSync | pkg/commands/apply.go:129-153 | when a plan's calls are made on an idealised cluster, every described resource is there with nothing to do and, unless only upserting, no other is left: for creates, updates, recreations and deletions together |
| Reconciled.ExecutedPlanIsKeyed | pkg/commands/apply.go:129-153 | every resource is still kept under its kind and name |
| Reconciled.PlanLeavesOthers | pkg/commands/apply.go:129-153 | a plan has the same effect on the resources that are compared when it is executed in the whole cluster |
| Reconciled.InSyncMeansBlank | pkg/openshift/changeset.go:285-287 | a further plan for a cluster in sync, from any listing of it, is blank |
| Executing.OcDelete | pkg/commands/apply.go:155-165 | makes one deleting call; an error exactly names that call |
| Executing.OcApply | pkg/commands/apply.go:167-178 | makes one applying call with the desired state |
| Executing.ApplyEach | pkg/commands/apply.go:131-136 | executes the changes of one list in order, up to the first failure |
| Executing.ApplyAll | pkg/commands/apply.go:129-153 | executes deletions, creations and updates in this order, up to the first failure, which it returns |
| Executing.AskAndApply | pkg/commands/apply.go:103-127 | executes exactly the changes that the next answers in the input agree to, up to the first failure or the end of the input; says that something was skipped exactly when something was |
| Executing.SelectAndApply | pkg/commands/apply.go:67-93 | the same for deletions, creations and updates in turn |
| Diffing.ParseOne | pkg/openshift/list.go:73-76 | succeeds exactly for documents that can be parsed |
| Diffing.AppendItems | pkg/openshift/list.go:48-84 | one new item for every document that is comparable, in order; a failure exactly if one cannot be parsed |
| Diffing.ComparableOfMeaning | pkg/openshift/item.go:165-190 | left out are exactly the secrets of the two types that the platform generates |
| Diffing.AssembleTemplateBasedResourceList | pkg/commands/diff.go:198-227 | new items, in step, one for every described resource that is compared, in order |
| Diffing.AssemblePlatformBasedResourceList | pkg/commands/diff.go:229-235 | new items, in step, one for every resource in the cluster that is compared, in any order, with different keys |
| Diffing.CalculateChangeset | pkg/commands/diff.go:25-149 | a changeset for the parsed templates and the whole cluster, drift exactly when it is not blank; refuses to plan without templates unless forced; makes no change |
| Asking.AskForAction | pkg/cli/cli.go:110-134 | returns the first line of input that is an answer on offer, or nothing if the input ends before, and leaves the lines after it unread |
| Asking.AskMeaning | pkg/cli/cli.go:118-133 | lines that are no answer are skipped, and only those |
| Asking.OfferedChoice | pkg/commands/apply.go:46-53 | exactly yes and no, in long or short form, can be chosen, and select where it is on offer |
| Applying.PerformVerification | pkg/commands/apply.go:180-195 | no error only if a comparison of the final cluster plans no change; a verification error only if one plans some |
| Applying.Apply | pkg/commands/apply.go:19-101 | for every input and every sequence of failures: the calls made are those of the intended changes in the planned order up to the first failure; with yes as the first reply, or without questions, all planned changes are made unless a call fails; with no, none is made, and that is drift and no error; when selecting, a planned change is made only if its own reply is yes, and all such changes are made unless a call fails; the program gives up for want of input only when the input does not answer its questions; once something is planned, only verification can fail for another reason; no drift and no error only if all planned changes were executed; a skipped change is drift, a failed call an error; with verification, success means that the cluster was seen in sync; in the ideal situation it is in sync and verification finds no drift |
| Applying.CompleteRunIsInSync | pkg/commands/apply.go:31-43 | a complete run in the ideal situation leaves everything in sync |
| Applying.VerificationFindsNoDrift | pkg/commands/apply.go:180-195 | and a verification after it cannot find drift |
| Applying.RunInOrder | pkg/commands/apply.go:73-90 | whatever is executed is executed in order: deletions by descending, then creations, then updates by ascending kind; a recreated resource is deleted before it is created |
| Params.TransformValues | pkg/openshift/params.go:182-201 | the converted lines, each followed by a line break, or the problem of the first line that has one |
| Params.PreviousParams | pkg/openshift/params.go:94-101 | the previous values by key, the last line of a key counting |
| Params.DecryptedParams | pkg/openshift/params.go:16-22 | the text with every value decrypted, or the first value that cannot be |
| Params.EncodedParams | pkg/openshift/params.go:25-31 | the text with every value decrypted and then encoded |
| Params.EncryptedParams | pkg/openshift/params.go:34-40 | the text with every value encrypted, against the values of the previous text |
| ParamLaws.ParseRendered | pkg/openshift/params.go:155-180 | a line is read back as it was written |
| ParamLaws.ParseAnyLine | pkg/openshift/params.go:157-175 | what any line says, whatever space is around it: blank lines and comments are passed through, a line without an equals sign is a key with the empty value, any other is split at its first equals sign |
| ParamLaws.AnyLineHasThisForm | pkg/openshift/params.go:157-158 | every line is a trimmed text with space around it |
| ParamLaws.TransformedIsWritten | pkg/openshift/params.go:182-201 | what is written for each line: comments and blank lines trimmed, anything else as key=value |
| ParamLaws.ValuesMeaning | pkg/openshift/params.go:94-101 | a key has a value exactly if the last line with that key gives it |
| ParamLaws.LinesOfUnlines | pkg/openshift/params.go:155-157 | lines are read back as they were written |
| ParamLaws.LinesOfUnended | pkg/openshift/params.go:155-157 | also when the last line is not ended |
| ParamLaws.NormalIsIdempotent | pkg/openshift/params.go:182-201 | the normal form of a text says what the text says, and is its own normal form |
| ParamLaws.RoundTrip | pkg/openshift/params.go:16-40 | decrypting what was encrypted gives the normal form of the text, if and only if no unreadable previous value was kept; otherwise decrypting fails |
| ParamLaws.EmptiedValueStaysUnreadable | pkg/openshift/params.go:65-82 | a case in which one is kept |
| ParamLaws.EncodingSeesClearText | pkg/openshift/params.go:25-31 | what is passed to the platform from the encrypted file is what encoding the clear text yields |
| ParamLaws.SavingAgain | pkg/openshift/params.go:65-82 | saving the clear text of a file unedited reproduces the file byte for byte |
| ParamLaws.EditsStayLocal | pkg/openshift/params.go:65-82 | however the clear text is edited, a line that still says what it said becomes the very line it came from |
| Templating.NamesStandingAloneAreReplaced | pkg/openshift/export.go:30-38 | in any text, a name becomes the placeholder if and only if it is neither part of a longer word nor followed by a hyphen, and no earlier match reaches over it; everything else is copied |
| Templating.AllNamesAreReplacedExactlyIf | pkg/openshift/export.go:30-38 | all names that stand alone are replaced, in all texts, if and only if the namespace does not overlap itself behind one of its hyphens |
| Templating.NameLeftOut | pkg/openshift/export.go:30-38 | a case in which a name that stands alone is left out |
| Templating.NamespaceRoundTrip | pkg/openshift/export.go:30-38 | replacing the placeholder by the namespace gives back the exported text if and only if the text did not have the placeholder already |

## Left out

- Documents.DeleteEffect: deleting an element of a list fails in the model; what the pointer library does then is not in the repository, and preserved paths that would need it are excluded by `WellBehaved`.
- Changes.CompareTemplatePaths: its equation with `TemplateLoop` includes that assumption; what it promises under the conditions does not.
- Changes.CalculateChanges: its equation with `LoopsOutcome` includes that assumption; `Correct` does not.
- Preserve arguments that are no pointers: the model takes them for the pointer to the whole document, and setting that for no change; the library that decides it is not in the repository.
- Agreement.AlwaysMergedExactlyIf, like all that is said about given path lists: is about comparisons without dropped or copied list elements.
- Agreement.AllOrdersAgreeExactlyIf: comparisons that stop at an immutable field count as alike. The path that is named, and the desired state of a recreation, are not the same for all orders, since the state is taken in the middle of the loop.
- OneRun.OneRunIsEnoughExactlyIf: takes the applied document for the stored one.
- Items.ResourceItem.ParseConfig: the last applied configuration is an input; parsing it from its annotation, the legacy annotation with the applied configuration, and copying image references in DeploymentConfigs (lines 198 to 290 of item.go) are not modelled.
- Diffing.AppendItems: the filter by kinds, names and labels is not modelled; the model starts from the resources that pass it.
- Diffing.AssembleTemplateBasedResourceList: the choice of files and the processing of templates are one step that yields a list of documents or fails.
- Applying.Apply: does not say that a verification succeeds, only that it finds no drift; fetching the lists again may fail.
- Reconciled.ExecutedPlanIsInSync: assumes the idealised server, and well-behaved pairs; the real `oc apply` merges three ways, and servers fill in defaults.
- Changesets.SortByKind: `sort.Slice` is not stable, so any arrangement ordered by kind is allowed.
- Rendering documents as YAML: a rendered state is represented by its document, so equal texts are equal documents.
- Values of a wrong type (a kind that is not a string, annotations that are not an object): a type assertion panics there; the model reports an error.
- Sharing of preserved values between the two documents: documents are values in the model; preserved paths stay away from what is edited afterwards.
- Resources with a generated name: they can be parsed and compared, but the cluster of the convergence theorems is keyed by name.
- Lower-casing of preserve arguments and of answers: modelled for ASCII letters.
- The concurrent fetch of both lists, files, flags, coloured output and diff texts.
- OpenPGP and base64: abstract functions, related by `ParamLaws.Sound`.
- Namespaces that contain special characters of regular expressions: the name is taken literally.
- Trimming annotations in exports, and the options of `export`.
