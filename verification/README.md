# A verified model of the overcommit operator

The operator rewrites the resource requests of pods: an `OvercommitClass` gives a CPU and a memory ratio, and
a pod that belongs to the class gets requests of *limit × ratio*. This project models the parts of the
operator that carry logic and proves what they promise. `dafny verify dfyconfig.toml` checks everything.

| file | models |
|---|---|
| `Api.dfy`, `Wrappers.dfy`, `Text.dfy` | Kubernetes objects as values, `Option`, splitting, joining and decimals |
| `Float64.dfy`, `Ratios.dfy` | binary64 rounding; admitted ratios, requests, annotation text |
| `Images.dfy`, `Owners.dfy` | image parsing, the owner chain of a pod |
| `Comparators.dfy`, `Generators.dfy` | the comparators that decide rewrites; the generated objects of a class |
| `ClassState.dfy`, `ClassReconciler.dfy` | one `Reconcile` of a class, as functions and as methods that refine them |
| `ClassConvergence.dfy`, `ClassStore.dfy` | fixed points, completeness of the comparators, confluence of several classes |
| `ResourceFit.dfy` | that the four stored objects of a class fit it and each other, name by name |
| `ClassAdmission.dfy`, `Resolution.dfy` | the class validator and its invariant; routing and resolution of pods |
| `PodMutation.dfy`, `PodHistory.dfy`, `PodAdmission.dfy` | mutation in place, histories of a pod, create requests end to end |
| `PodOutcome.dfy` | what an admitted pod looks like, annotation by annotation and container by container |
| `Answers.dfy` | the script of an API server: what others write, which calls are refused, how old a read is |
| `OvercommitReconciler.dfy` | `Reconcile` of the singleton and the label map its three generators share, on the heap |
| `OvercommitOutcome.dfy` | the deployments it leaves, as the user asked for them, and how it gets there |
| `Conditions.dfy`, `StatusRetry.dfy` | condition lists over time; the status update with conflicts and back-off |

## Reading guide

- Where the source changes state, the model has a method (on a class or an array) proved against a function,
  and the theorems are about that function. Go maps and slices that may be nil are `Option`s, and nil differs
  from empty wherever the source can tell them apart.
- `Float64.Fl` rounds a real to the nearest double, ties to even (section 4.3.1 of IEEE 754-2019), including
  subnormals. It is checked against an independent definition, which it meets (`FlIsNearest`) and which nothing
  else meets (`FlIsUnique`).
- The API server is a store, and what happens at each call of it is an input. In `ClassReconciler` a list says which
  calls are refused, and others act between calls of `Reconcile`. In `OvercommitReconciler` and `StatusRetry` a script
  (`Answers`) says for each call what other writers do before it, whether it is refused, and how old a state a read
  shows, as a lagging cache does. The methods make no choices of their own: `Still` scripts have no other writers and no
  old reads, `Quiet` ones no refusals either, and there the results are stated exactly.
- What is stored in the end is stated with literal names, labels and keys, apart from the generators and functions that
  produce it (`ResourceFit`, `PodOutcome`, `OvercommitOutcome`).
- Regular expressions and CEL are uninterpreted predicates.

## Where the obvious claim fails

- The written request is not the floor of the exact share: 0.29 of 100 is written as 28
  (`WholeShareMayLoseOne`). `RequestIsFloorIff` says exactly when it is, and `WrittenRatioRequest` what is written
  for the ratios users write.
- `webhookChanged` never looks at the object selector, so a changed overcommit label goes unnoticed
  (`LabelChangeUndetected`) and is never rolled out (`LabelEditNeverPropagates`); under one label the comparison
  is complete (`GeneratedWebhooksComplete`).
- `createTolerationKey` joins with dashes and is not injective (`TolerationKeyCollision`). `TolerationKeyInjective`
  says which tolerations share a key, `TolerationsEqualRightIff` on which tolerations the comparator is right.
- It only looks the second, stored list up in the first, so a stored list that repeats a toleration hides new ones
  (`RepeatedTolerationHides`, `RightAboutStoredListIff`), and it does not compare the number of seconds.
  `TolerationEditReaches` says which edits of tolerations are never rolled out.
- A namespace label that names no class switches overcommit off instead of falling back to the default class
  (`ResolutionAgrees`); an unlabelled pod in a labelled namespace is routed by the default class and resolved
  to another (`RoutingAgreesWithResolution` gives the exact condition).
- A pod that arrives with the `applied` annotation naming its class keeps its requests
  (`MarkedPodKeepsItsRequests`).
- Two default classes can arise, by creates or by an update, when a check does not see another's commit
  (`SplitCreatesAllowTwoDefaults`, `SplitUpdateAllowsTwoDefaults`); `SplitRunsKeepOneDefaultIff` and
  `SecondDefaultIsStaleVerdict` say exactly when.
- A completed class reconcile sends the service every time, because server defaults are never accepted
  (`ServiceRewrittenEveryTime`). The fixed point is one of stored state.
- When counting the classes for the metrics fails, the class reconciler returns the error of an earlier call, which is
  none: the call ends without an error and without a status update (`ApiServer.ReconcileResources`).
- A metadata-only class update is refused when the classes cannot be listed and the class is not the default
  (`MetadataUpdateAllowed`).
- Where the user gave no annotations, the class controller's deployment is rejected on every reconcile, because its
  generator makes an empty map of nil (`ControllerNeverAccepted`).
- The generators write into the label map of the object they are given: two calls in a row leave the first
  deployment with the second one's label unless the user gave no labels (`LaterGeneratorRelabels`).

## Model

| member | source | states |
|---|---|---|
| Float64.FlIsNearest | pkg/overcommit/make_overcommit.go:41 | for every real, the float64 arithmetic of the requests rounds to a double that no double is nearer to, the even one of two equally near |
| Float64.FlIsUnique | pkg/overcommit/make_overcommit.go:41 | that definition determines the rounding of every real |
| Float64.FlReaches | pkg/overcommit/make_overcommit.go:41 | exactly which numbers round to an integer or more: those at least half way from the double below it |
| Ratios.AdmittedNearSteps | api/v1alphav1/webhook_validations.go:18-43 | every ratio the schema and the validator admit is k/10^4 for a k in 1..10^4, up to 1.6e-9 |
| Ratios.FourDecimalsAdmitted | api/v1alphav1/webhook_validations.go:28-43 | conversely, for every k in 1..10^4 the double nearest to k/10^4 is admitted, and is taken for that k |
| Ratios.RequestMonotone | pkg/overcommit/make_overcommit.go:40-48 | a larger limit or ratio never gives a smaller request |
| Ratios.RequestWithinLimit | pkg/overcommit/make_overcommit.go:40-48 | for admitted ratios below 1 and every non-negative int64 limit the request lies in 0..limit, so nothing overflows |
| Ratios.RequestSandwiched | pkg/overcommit/make_overcommit.go:40-48 | the request lies between the floors of limit·k/10^4 ∓ 2e-9·limit |
| Ratios.RequestError | pkg/overcommit/make_overcommit.go:40-48 | the request differs from limit·k/10^4 by less than 1 + 2e-9·limit |
| Ratios.RequestIsFloor | pkg/overcommit/make_overcommit.go:40-48 | for every admitted ratio, even one that uses up the slack of 1e-9: below 50000 units it is the floor, but a share that is whole may lose one |
| Ratios.WholeShareExactIff | pkg/overcommit/make_overcommit.go:40-48 | such a whole share is kept exactly when limit·ratio, computed exactly, is at least half way from the double below it, in particular when the ratio is not below k/10^4 |
| Ratios.RequestIsExactly | pkg/overcommit/make_overcommit.go:40-48 | for every limit up to 2^53, which number is written, in terms of the exact product |
| Ratios.RequestIsFloorIff | pkg/overcommit/make_overcommit.go:40-48 | for every admitted ratio and limit below 2^53, the request is the floor of limit·k/10^4 if and only if the exact product reaches that number within half the gap below it and does not reach the next |
| Ratios.WrittenRatioRequest | pkg/overcommit/make_overcommit.go:40-48 | for every ratio as users write it and every limit up to 4e11 (400 GB in bytes): the floor, and one less exactly for the whole shares whose exact product falls short |
| Ratios.WholeShareMayLoseOne | pkg/overcommit/make_overcommit.go:41 | the double nearest to 0.29 is admitted, and 0.29 of 100 milli-CPU is written as 28 |
| Ratios.TotalError | pkg/overcommit/make_overcommit.go:28-52 | over n containers the errors sum to less than n + 2e-9 of the total limit |
| Ratios.FormatRoundTrip | pkg/overcommit/make_overcommit.go:138-139 | the four-decimal annotation of an admitted ratio parses back to exactly k/10^4 |
| Ratios.FormatDigits | pkg/overcommit/make_overcommit.go:138-139 | that text, character by character: one digit, a point and the four decimals of k |
| Ratios.FormatInjective | pkg/overcommit/make_overcommit.go:138-139 | admitted ratios with one annotation have one k and differ by less than 4e-9 |
| Images.ParseFailsIffNoSlash | internal/utils/getPodDetails.go:39-55 | an image is refused exactly when it contains no slash |
| Images.ReprintParsed | internal/utils/getPodDetails.go:39-55 | parsing and printing gives the image back exactly when one colon follows the first slash; none adds ":latest", more lose the rest |
| Images.ParsePrinted | internal/resources/generate_resources_pod_mutating_webhooks.go:58 | a printed triple (registry without slash, name and tag without colon) parses to itself |
| Owners.SearchFollowsChain | internal/utils/getOwner.go:72-93 | a search ends at the ownerless end of the chain of first owners, or at a missing link |
| Owners.EndIsFound | internal/utils/getOwner.go:72-93 | the ownerless end is unique and is what the search returns |
| Owners.BreakIsFound | internal/utils/getOwner.go:72-93 | a missing link makes the search fail |
| Owners.CycleNeverEnds | internal/utils/getOwner.go:72-93 | on a chain that looks the same object up twice no number of calls is enough |
| Owners.TerminatesIffAcyclic | internal/utils/getOwner.go:72-93 | the recursion ends exactly on acyclic chains, and then within one call more than there are objects |
| Owners.PodOwnerEndsTheChain | internal/utils/getOwner.go:49-69 | what GetPodOwner returns for an owner that is no replica set, on every chain |
| Owners.PodOfReplicaSet | internal/utils/getOwner.go:30-47 | for a pod of a replica set: the deployment that the replica set names first, which is the end of the chain if it is stored without owners; an error exactly when there is no replica set or it names none |
| Owners.OwnerlessPod | internal/utils/getOwner.go:22-25 | a pod without owners is its own owner |
| Comparators.EnvVarsEqual | internal/controller/overcommitclass/utils.go:14-39 | equal length, and of every name that occurs in the first list its last variable has the value that the last one of that name has in the second |
| Comparators.MapsEqual | internal/controller/overcommitclass/utils.go:42-62 | decides equality of maps, telling nil from empty |
| Comparators.PortsEqual | internal/controller/overcommitclass/utils.go:65-93 | the same for ports: by name, with port, target port and protocol |
| Comparators.SlicesEqual | internal/controller/overcommitclass/utils.go:96-121 | equal length, and every item of the first list is in the second |
| Comparators.EnvVarsEqualOnVariables | internal/controller/overcommitclass/utils.go:14-39 | with distinct names in the first list: equal length, and every variable of the first has one in the second with its name and its value |
| Comparators.PortsEqualOnPorts | internal/controller/overcommitclass/utils.go:65-93 | with distinct names in the first list: equal length, and every port of the first has one in the second with its name, port, target port and protocol |
| Comparators.TolerationsEqual | internal/utils/comparison.go:17-53 | equal length and every key of the second list among those of the first |
| Comparators.WebhookChanged | internal/controller/overcommitclass/utils.go:124-183 | which fields of two webhooks are compared, and which are not |
| Comparators.SameBindingsIsPermutation | internal/controller/overcommitclass/utils.go:14-93 | with distinct names in the first list, envVarsEqual and portsEqual decide permutation |
| Comparators.SameItemsIsPermutation | internal/controller/overcommitclass/utils.go:96-121 | with distinct items in the first list, slicesEqual decides permutation |
| Comparators.TolerationsAgreeIsPermutation | internal/utils/comparison.go:17-53 | with distinct keys in the second list, TolerationsEqual decides permutation of keys |
| Comparators.TolerationKeyInjective | internal/utils/comparison.go:56-70 | with operators and effects free of dashes, as the API has them, two tolerations share a key exactly when they agree up to the value of the seconds or one is the other with the boundary between key and value moved |
| Comparators.TolerationKeyCollision | internal/utils/comparison.go:56-70 | with a dash, two different tolerations are taken for one |
| Comparators.TolerationsEqualRightIff | internal/utils/comparison.go:17-53 | on all lists over a set of tolerations, the second list repeating none, the comparator decides permutation exactly when no toleration of the set is another so moved |
| Comparators.KeysThatNeverContinue | internal/utils/comparison.go:17-53 | in particular, again for a second list that repeats none, when no key is another's continued by a dash and that one's operator |
| Comparators.AgreementIsCover | internal/utils/comparison.go:17-53 | with repetitions too, and no toleration so moved, what it decides is equal length and every toleration of the second list being in the first |
| Comparators.RightAboutStoredListIff | internal/utils/comparison.go:17-53 | for one second list it decides permutation against every first list exactly when the second repeats no toleration, or there is no other to confuse the repeated one with |
| Comparators.RepeatedTolerationHides | internal/utils/comparison.go:17-53 | a list of two different tolerations is taken for a list of the first one twice |
| Generators.SuffixInjective | internal/resources/generate_resources_pod_mutating_webhooks.go:35 | names formed with one suffix are equal exactly when the class names are |
| Generators.MatchConditionsInjective | internal/resources/generate_resources_pod_mutating_webhooks.go:178-186 | the match condition determines the excluded namespaces |
| Generators.GeneratedWebhooksComplete | internal/resources/generate_resources_pod_mutating_webhooks.go:203-284 | under one label, generated lists that webhookChanged accepts are equal |
| Generators.LabelChangeUndetected | internal/controller/overcommitclass/utils.go:124-183 | lists generated for different labels are always accepted, and never equal |
| ClassState.SetControllerIdempotent | internal/controller/overcommitclass/overcommitclass_controller.go:116-122 | setting the controller reference again changes nothing |
| ClassReconciler.SyncContainers | internal/controller/overcommitclass/overcommitclass_controller.go:159-173 | image and environment of the first container are overwritten exactly when their comparators reject |
| ClassReconciler.OverwriteRejected | internal/controller/overcommitclass/overcommitclass_controller.go:156-193 | exactly the fields of the deployment that a comparator rejects are overwritten |
| ClassReconciler.WebhookListChanged | internal/controller/overcommitclass/overcommitclass_controller.go:352-368 | the simplified comparison of webhook lists |
| ClassReconciler.NeedsOwnerUpdate | internal/controller/overcommitclass/overcommitclass_controller.go:99-114 | the loop over the owner references finds the correct owner if there is one |
| ClassReconciler.ApiServer.SyncDeploymentOf | internal/controller/overcommitclass/overcommitclass_controller.go:143-207 | the deployment becomes what SyncDeployment says; no other is touched |
| ClassReconciler.ApiServer.SyncServiceOf | internal/controller/overcommitclass/overcommitclass_controller.go:210-264 | the same for the service; what the stored one then selects and offers is in ResourceFit.CompletedFitsTogether |
| ClassReconciler.ApiServer.SyncCertificateOf | internal/controller/overcommitclass/overcommitclass_controller.go:267-322 | the same for the certificate |
| ClassReconciler.ApiServer.SyncWebhookConfigOf | internal/controller/overcommitclass/overcommitclass_controller.go:325-379 | the same for the webhook configuration |
| ClassReconciler.ApiServer.SyncDeploymentAndService | internal/controller/overcommitclass/overcommitclass_controller.go:143-264 | the first two in order; which of the next two calls are refused decides how far it gets |
| ClassReconciler.ApiServer.SyncCertificateAndWebhooks | internal/controller/overcommitclass/overcommitclass_controller.go:267-379 | the last two, likewise |
| ClassReconciler.ApiServer.ReconcileMetadata | internal/controller/overcommitclass/overcommitclass_controller.go:80-132 | finalizer, then owner reference: what ends the call, what is stored then, and what a refusal of the update or of the read of the Overcommit does |
| ClassReconciler.ApiServer.ReconcileResources | internal/controller/overcommitclass/overcommitclass_controller.go:134-391 | the four resources in order, then metrics and status, stopping at the first error: the first refused call, found call by call from the list of refusals, says exactly which resources are done; a refused count of classes ends the call without an error |
| ClassReconciler.ApiServer.Reconcile | internal/controller/overcommitclass/overcommitclass_controller.go:54-394 | one call changes the whole store exactly as ReconcileStoreWith says for the place of its first refused call, and has the outcome of StepWith; the place is a function of the refusals and the stored objects |
| ClassReconciler.FailureOf | internal/controller/overcommitclass/overcommitclass_controller.go:58-391 | that place is none exactly when no call that is made is refused, and otherwise that of the first one that is |
| ClassReconciler.ApiServer.ReconcileAll | internal/controller/overcommitclass/overcommitclass_controller.go:54-394 | a run of calls for any classes is the schedule of the confluence theorems, and no more of them fail than calls of the API are refused |
| ClassReconciler.ApiServer.ReconcileRepeatedly | internal/controller/overcommitclass/overcommitclass_controller.go:54-394 | if the API refuses k calls in all, k + 3 calls for a class whose objects nobody else controls leave its four objects stored under their names, fitting each other and at rest, and every other class as it was |
| ClassConvergence.ResourcesStable | internal/controller/overcommitclass/overcommitclass_controller.go:134-379 | a second pass over the resources finds nothing to do, even after an error |
| ClassConvergence.FixedAfterThree | internal/controller/overcommitclass/overcommitclass_controller.go:80-379 | from any stored state, whoever owns it, three calls reach a fixed point |
| ClassConvergence.FullPassAfterFailure | internal/controller/overcommitclass/overcommitclass_controller.go:134-379 | a pass that the API cut short anywhere changes nothing about what a full pass ends in |
| ClassConvergence.FailuresOnlyDelay | internal/controller/overcommitclass/overcommitclass_controller.go:54-394 | a run of calls that fail wherever they may ends, from the third successful one on, in the fixed point of three successful calls |
| ClassConvergence.RankDecreases | internal/controller/overcommitclass/overcommitclass_controller.go:80-379 | finalizer left + owner missing + a pass over the resources would still change something stored: strictly decreases with every call until it is zero |
| ClassConvergence.CompletedIsInSync | internal/controller/overcommitclass/overcommitclass_controller.go:134-379 | after a completed call all four resources exist and agree with the class |
| ResourceFit.CompletedFitsTogether | internal/resources/generate_resources_pod_mutating_webhooks.go:23-284 | whatever was stored before, under whatever environment, a completed call leaves a service that selects the pods of the deployment, webhooks that call this service, in its namespace and outside the excluded ones, a certificate for its DNS names, the injection annotation naming that certificate, and containers with the image and all eight variables of the current environment |
| ResourceFit.CompletedFitsExactly | internal/resources/generate_resources_pod_mutating_webhooks.go:23-284 | from no resources, besides: the deployment selects its own pods, mounts the secret of the certificate and runs under the account; the rules are exactly creates of pods and updates of pods/resize; path, object selectors, durations; all four owned by the class |
| ClassConvergence.MetadataKept | internal/controller/overcommitclass/overcommitclass_controller.go:80-132 | a call takes nothing from a class but the legacy finalizer, and replaces no owner but the singleton |
| ClassConvergence.ConvergesInThree | internal/controller/overcommitclass/overcommitclass_controller.go:80-379 | without foreign controllers, three calls reach a fixed point with all four resources in sync |
| ClassConvergence.ServiceRewrittenEveryTime | internal/controller/overcommitclass/overcommitclass_controller.go:210-260 | no stored service is ever accepted, yet sending it again stores the same |
| ClassConvergence.CompletedReconcileIsExact | internal/controller/overcommitclass/overcommitclass_controller.go:143-391 | after any run of spec edits and reconciles, failing ones among them, from no resources, a call that ends without an error leaves exactly the generated fields of all four objects, owned by the class, and the tolerations that were stored if the comparator takes them for the current ones, else the current ones |
| ClassConvergence.ThreeReconcilesAreExact | internal/controller/overcommitclass/overcommitclass_controller.go:54-394 | after the last edit, any run of calls with three that do not fail gets there, with all four resources in sync |
| ClassConvergence.TolerationEditReaches | internal/controller/overcommitclass/overcommitclass_controller.go:189-192 | an edit of the tolerations of a class in sync never reaches the deployment if and only if the comparator takes the stored list for the new one, or the edit only empties a list that was not there, or someone else controls the deployment; any other list is stored by the next call |
| ClassConvergence.SecondsNeverPropagate | internal/controller/overcommitclass/overcommitclass_controller.go:189-192 | in particular an edit of toleration seconds alone: the next call completes and changes nothing |
| ClassConvergence.LabelEditNeverPropagates | internal/controller/overcommitclass/overcommitclass_controller.go:325-375 | an edit of the overcommit label never reaches the webhooks of a class in sync: every later call completes and changes nothing |
| ClassStore.ReconcileTouchesOwnCell | internal/controller/overcommitclass/overcommitclass_controller.go:54-394 | a reconcile leaves the objects of every other class alone |
| ClassStore.ReconcilesCommute | internal/controller/overcommitclass/overcommitclass_controller.go:54-394 | reconciles of different classes commute on the store |
| ClassStore.RepeatSettles | internal/controller/overcommitclass/overcommitclass_controller.go:80-379 | from the third call on a class changes nothing in the store |
| ClassStore.EvolvesAlone | internal/controller/overcommitclass/overcommitclass_controller.go:54-394 | in any interleaving a class evolves as if reconciled alone |
| ClassStore.CallsEvolveAlone | internal/controller/overcommitclass/overcommitclass_controller.go:54-394 | so does it when calls fail |
| ClassStore.ConvergesDespiteFailures | internal/controller/overcommitclass/overcommitclass_controller.go:54-394 | in any interleaving with failures anywhere, three successful calls for a class lead to the fixed point |
| ClassStore.Confluent | internal/controller/overcommitclass/overcommitclass_controller.go:54-394 | all interleavings in which each class gets three calls end in the same store |
| ClassStore.ConfluentDespiteFailures | internal/controller/overcommitclass/overcommitclass_controller.go:54-394 | so do all interleavings of calls that fail anywhere, as long as each class gets three that do not |
| ClassAdmission.IsClassDefault | api/v1alphav1/webhook_validations.go:45-70 | refuses a default class exactly when a default is listed, and everything when the listing fails |
| ClassAdmission.SpecVerdictExact | api/v1alphav1/webhook_validations.go:18-83 | the chained checks and the schema admit exactly the valid specs |
| ClassAdmission.SpecVerdictReasons | api/v1alphav1/webhook_validations.go:18-83 | each reason for a refusal, with the range 0 to 1 and the 512 characters, and that only the first that applies is given |
| ClassAdmission.VerdictExact | api/v1alphav1/overcommitclass_webhook.go:42-95 | on a listing of the store, exactly which creates and which updates are allowed |
| ClassAdmission.CommitKeepsValid | api/v1alphav1/overcommitclass_webhook.go:42-102 | every create, update and delete keeps at most one default and all classes valid, for any order of listing |
| ClassAdmission.AtomicRunsStayValid | api/v1alphav1/overcommitclass_webhook.go:42-102 | so does every run of atomic admissions from an empty store |
| ClassAdmission.CommitChangesOne | api/v1alphav1/overcommitclass_webhook.go:42-102 | a request that is admitted changes exactly the class it is for, and a refused one nothing |
| ClassAdmission.MetadataUpdateAllowed | api/v1alphav1/overcommitclass_webhook.go:70-95 | a metadata-only update of a stored class is refused exactly when listing fails and it is not the default |
| ClassAdmission.ReconcilerUpdateAllowed | internal/controller/overcommitclass/overcommitclass_controller.go:82-125 | the validator admits every class update the reconciler makes |
| ClassAdmission.CommitKeepsOneDefaultIff | api/v1alphav1/overcommitclass_webhook.go:42-102 | one request, checked against any listing, keeps at most one default unless it is an allowed create or update to default while another class is the default |
| ClassAdmission.SecondDefaultIsStaleVerdict | api/v1alphav1/webhook_validations.go:45-70 | such a request is one the validator allowed on the listing it saw and would refuse on a listing of the store it commits to |
| ClassAdmission.SplitRunsKeepOneDefaultIff | api/v1alphav1/overcommitclass_webhook.go:42-102 | over whole runs with listings of any age, there is never more than one default exactly when no such request commits |
| ClassAdmission.SplitCreatesAllowTwoDefaults | api/v1alphav1/webhook_validations.go:45-70 | two creates checked against the empty store leave two defaults |
| ClassAdmission.SplitUpdateAllowsTwoDefaults | api/v1alphav1/overcommitclass_webhook.go:70-95 | so do a create and an update checked before it |
| Resolution.GetDefaultClass | internal/utils/getOvercommitClass.go:57-77 | returns the first listed default |
| Resolution.DefaultIndependentOfOrder | internal/utils/getOvercommitClass.go:67-76 | with at most one default, that is the stored default for every order of the list |
| Resolution.OwnerDoesNotMatter | pkg/overcommit/calculate_values_from_labels.go:72-78 | an owner failure changes neither class nor ratios |
| Resolution.ResolutionReports | pkg/overcommit/calculate_values_from_labels.go:72-112 | it reports the owner's name and kind, or nothing after an owner error, and that a class was found exactly when it names one; else the ratios are 1 |
| Resolution.EmptyLabel | internal/utils/getOvercommitClass.go:20-55 | an empty label value names no class: on the pod it counts as no label, on the namespace as a wrong one |
| Resolution.ResolutionAgrees | pkg/overcommit/calculate_values_from_labels.go:28-112 | the pod's class, else the namespace's, else the unique default; a wrong namespace label gives ratio 1 |
| Resolution.RoutesExactly | internal/resources/generate_resources_pod_mutating_webhooks.go:188-281 | which labels each generated webhook selects, exactly |
| Resolution.AtMostOneRoute | internal/resources/generate_resources_pod_mutating_webhooks.go:188-281 | no pod is selected by two generated webhooks |
| Resolution.RoutingAgreesWithResolution | pkg/overcommit/calculate_values_from_labels.go:72-112 | the class that routed a pod is the one it resolves to: always for labelled pods, and exactly when the namespace has no other label for unlabelled ones |
| PodMutation.MutateContainers | pkg/overcommit/make_overcommit.go:28-52 | the array afterwards is every container mutated once, in place |
| PodMutation.Pod.SetOvercommitAnnotation | pkg/overcommit/make_overcommit.go:133-140 | the three annotations, and no other; what they read as is in PodOutcome |
| PodMutation.Pod.Overcommit | pkg/overcommit/make_overcommit.go:54-97 | the new pod state and counters; requested = mutated + skipped is kept |
| PodMutation.Pod.OvercommitOnResize | pkg/overcommit/make_overcommit.go:99-130 | the same for resizes: no skip, init containers untouched |
| PodMutation.Pod.Default | internal/webhook/v1alphav1/mutating/pod_webhook.go:40-54 | the subresource decides between the two |
| PodMutation.OvercommitIdempotent | pkg/overcommit/make_overcommit.go:69-91 | any positive number of calls in a fixed cluster leaves the pod as one does |
| PodHistory.HistoryLaw | pkg/overcommit/make_overcommit.go:28-52 | after any history a container's limits and requests are those read backwards from its last edit and its last effective call |
| PodHistory.OtherResourcesKept | pkg/overcommit/make_overcommit.go:40-48 | resources other than CPU and memory keep their requests |
| PodHistory.ResizesKeepInitContainers | pkg/overcommit/make_overcommit.go:109-113 | resizes and edits never change requests of init containers |
| PodHistory.RunFollowsTrace | pkg/overcommit/make_overcommit.go:54-130 | any run of create calls, resizes and edits on a pod acts as the history of its calls that were not skipped |
| PodHistory.CountersBalance | pkg/overcommit/make_overcommit.go:62-91 | over any run on any pods, a class's requested counter grows by one for every call for it, and its mutated counter by one for every such call that is not skipped |
| PodAdmission.CallForLabelled | internal/resources/generate_resources_pod_mutating_webhooks.go:203-284 | a webhook called for a labelled pod, created or resized, applies the pod's own class or nothing |
| PodAdmission.MutateLabelled | pkg/overcommit/calculate_values_from_labels.go:84-106 | called in any order and any number of times, the webhooks apply the class the pod names once, or nothing |
| PodAdmission.LabelledPodGetsItsClass | internal/webhook/v1alphav1/validating/pod_webhook.go:50-85 | an admitted labelled pod has exactly its class applied; namespace and default play no part |
| PodAdmission.MarkedPodKeepsItsRequests | pkg/overcommit/make_overcommit.go:64-70 | a pod that arrives marked with its class is admitted unchanged |
| PodAdmission.AdmissionKeepsWithinLimits | pkg/overcommit/make_overcommit.go:28-52 | with classes that went through the validator, no pod, labelled or not, leaves a create or a resize with a CPU or memory request above its limit if it came with none |
| PodAdmission.LabelledResizeFollowsItsClass | pkg/overcommit/make_overcommit.go:99-118 | a resize of a labelled pod computes the regular containers anew from its class, marked or not |
| PodAdmission.UnlabelledPodFollowsNamespace | pkg/overcommit/calculate_values_from_labels.go:28-70 | an unlabelled pod, created or resized, is admitted with the namespace's class, or the default class, or, where the namespace is unknown or its label wrong, only the default class's mark with ratio 1 and its requests untouched |
| PodAdmission.UnlabelledPodWithoutDefault | internal/resources/generate_resources_pod_mutating_webhooks.go:263-281 | without a default class it is left alone |
| PodAdmission.MutateIsOneCall | pkg/overcommit/make_overcommit.go:64-91 | if only one webhook is called for a pod, any order and number of calls is one call |
| PodOutcome.HandleFollows | pkg/overcommit/make_overcommit.go:54-140 | a call carries the resolved class out on a pod unless it is created with its mark: the annotations under overcommit.inditex.dev/applied, /cpu and /memory are the class and the ten-thousandths of its CPU and memory ratios, no other annotation changes, and every request is that of its limit and the ratio of its resource |
| PodOutcome.LabelledPodOutcome | internal/webhook/v1alphav1/validating/pod_webhook.go:50-85 | a labelled pod that the validator sees is admitted if and only if the class it names exists; then, where that class takes its namespace, the class is carried out on it in this sense, and elsewhere it is admitted as it came |
| PodOutcome.LabelledResizeOutcome | pkg/overcommit/make_overcommit.go:99-140 | a resize carries it out on the regular containers, marked or not |
| PodOutcome.UnlabelledPodOutcome | pkg/overcommit/calculate_values_from_labels.go:28-70 | an unlabelled pod is always admitted; the default class's webhook carries out the class of its namespace, or the default class, or the default class's name with ratio 1, for creates and resizes |
| OvercommitReconciler.GenerateDeployment | internal/resources/generate_resources_validating_webhooks.go:47-147 | the deployment holds the caller's own label map with its "app"; the spec in memory is then the user's exactly when the label was already there or there was no map |
| OvercommitReconciler.GenerateAll | internal/controller/overcommit/utils.go:52-117 | all three generators on one object lose nothing of its spec but "app" |
| OvercommitReconciler.LaterGeneratorRelabels | internal/resources/generate_resources_overcommit_class_controller_controller.go:17-29 | a second generator relabels the first deployment unless the user gave no labels |
| OvercommitReconciler.RemoveFinalizers | internal/controller/overcommit/overcommit_controller.go:73-81 | both legacy finalizers go, and the flag says whether there was one of them, by name |
| OvercommitReconciler.CopyRejected | internal/controller/overcommit/overcommit_controller.go:146-177 | exactly the fields a comparator rejects are taken over |
| OvercommitReconciler.Mutate | internal/controller/overcommit/overcommit_controller.go:133-183 | what the closure does to a new and to an existing deployment |
| OvercommitReconciler.LoadAndMutate | internal/controller/overcommit/overcommit_controller.go:133-183 | reading, regenerating and merging on the heap gives what unshared maps would give |
| OvercommitReconciler.Cluster.CreateOrUpdate | internal/controller/overcommit/overcommit_controller.go:133-187 | without other writers and refusals it succeeds exactly when the deployment wanted can be stored, which it then is; if it does not succeed no deployment has changed |
| OvercommitReconciler.Cluster.ReconcileDeployment | internal/controller/overcommit/overcommit_controller.go:327-383 | on success the merge of the deployment read, which may be out of date, with the user's spec is stored now, or was what was read; with the validator's certificate created before |
| OvercommitReconciler.Cluster.ReconcileValidator | internal/controller/overcommit/overcommit_controller.go:218-325 | certificate, deployment, service and webhook configuration of a validator; a conflict over the latter is passed over for pods and for nothing else |
| OvercommitReconciler.Cluster.ReadLabelAndOvercommit | internal/controller/overcommit/overcommit_controller.go:51-66 | a missing label or a refused read is an error, a missing Overcommit is not |
| OvercommitReconciler.Cluster.MigrateFinalizers | internal/controller/overcommit/overcommit_controller.go:68-92 | only an Overcommit with a legacy finalizer is written back, without it and with everything else it had |
| OvercommitReconciler.Cluster.UpdateStatusSafely | internal/controller/overcommit/overcommit_controller.go:385-389 | generators and status writes leave the stored object as it is but for its version |
| OvercommitReconciler.Cluster.ReconcileResources | internal/controller/overcommit/overcommit_controller.go:94-389 | success means that no call but tolerated ones was refused and all three deployments were settled for one spec; without other writers the deployments are exactly those that could be stored, in order, and without refusals all seven other resources exist and the status is written last |
| OvercommitReconciler.Cluster.Reconcile | internal/controller/overcommit/overcommit_controller.go:48-393 | one call against any other writers: it requeues only for an Overcommit read with a legacy finalizer, which is then stored without it and otherwise as read, and reconciles only one read without; no call but tolerated ones was refused unless it fails; without other writers and refusals its result and what is stored are stated exactly |
| OvercommitReconciler.Cluster.Run | internal/controller/overcommit/overcommit_controller.go:48-393 | over any run the stored spec is the user's latest, every submitted deployment carries the user's labels with its own "app", and that equals its selector's "app" unless someone else had stored another selector |
| OvercommitReconciler.WritesCarryTheirOwnLabel | internal/controller/overcommit/overcommit_controller.go:133-383 | labels and selector of every submitted deployment; they match when the deployment is new or has the generated selector |
| OvercommitOutcome.WantedAsAsked | internal/resources/generate_resources_validating_webhooks.go:47-320 | whatever was stored before, a reconciled deployment has the user's labels with its own "app", the user's annotations, node selector and (up to the comparator) tolerations, and the image and variables of the environment, with the one that turns its process on |
| OvercommitOutcome.CreatedIsAsAsked | internal/resources/generate_resources_overcommit_class_controller_controller.go:17-97 | a new one besides the selector for its own label, the account, the secret, the user's tolerations and the singleton as its owner |
| OvercommitOutcome.WantedTwice | internal/controller/overcommit/overcommit_controller.go:133-183 | reconciling it again leaves it as it is |
| OvercommitOutcome.ControllerNeverAccepted | internal/resources/generate_resources_overcommit_class_controller_controller.go:25-29 | without user annotations the class controller's stored deployment is rejected on every reconcile, and so fails under another's control with nothing to change; the validators' are left alone |
| OvercommitOutcome.ReconcileUntilDone | internal/controller/overcommit/overcommit_controller.go:48-393 | without other writers and refusals, where no deployment of someone else's is in the way: one call, or two if there was a legacy finalizer, leave the Overcommit without legacy finalizers and otherwise as it was, all three deployments as asked, and every other resource in existence |
| Conditions.Status.SetOvercommitCondition | internal/controller/overcommit/utils.go:216-246 | the list afterwards, stamped on status flips |
| Conditions.Status.SetClassCondition | internal/controller/overcommitclass/conditions.go:16-32 | the list afterwards, stamped on any change |
| Conditions.FindAfterSet | internal/controller/overcommit/utils.go:223-245 | setting a kind changes that kind alone |
| Conditions.KindsAfterSet | internal/controller/overcommit/utils.go:223-245 | kinds keep their order, and a new kind goes last |
| Conditions.HistoryOfConditions | internal/controller/overcommit/utils.go:216-246 | after any run kinds are unique and in order of first update, contents are the latest, and each time is that of the last status flip or insertion (in the class variant, of the last change) |
| Conditions.TransitionTimesAdvance | internal/controller/overcommitclass/conditions.go:16-32 | with a monotone clock, transition times never move back and are never in the future |
| StatusRetry.CheckResources | internal/controller/overcommit/utils.go:34-105 | ten lookups with other writers in between: each succeeds exactly when its object is in the store at that moment and the call is not refused |
| StatusRetry.CollectStatuses | internal/controller/overcommit/utils.go:30-45 | the status map binds every resource type to its lookup |
| StatusRetry.OrderStatuses | internal/controller/overcommit/utils.go:107-129 | the list in fixed order, and the counts |
| StatusRetry.BuildStatus | internal/controller/overcommit/utils.go:107-149 | the status built step by step is StatusFrom |
| StatusRetry.StatusReportsLookups | internal/controller/overcommit/utils.go:107-149 | the ten entries by name, True exactly when all lookups succeeded, the reason, the message, which counts those that did, and the time, kept while the status stays the same; other conditions untouched |
| StatusRetry.CountIsNumberReady | internal/controller/overcommit/utils.go:116-125 | the count is the number of lookups that succeeded |
| StatusRetry.LooksUpWhatIsReconciled | internal/controller/overcommit/utils.go:46-105 | the ten resources looked up are the ones the reconciler deploys or creates |
| StatusRetry.TryUpdate | internal/controller/overcommit/utils.go:26-158 | an attempt, even from an object that is out of date, replaces the very object its status was computed from if it writes, and keeps its spec; the answer to its write decides its result |
| StatusRetry.ReadAndUpdate | internal/controller/overcommit/utils.go:170-185 | the body of the loop; without other writers its end is a function of the answers to its read and its write |
| StatusRetry.UpdateStatusSafely | internal/controller/overcommit/utils.go:162-214 | with reads that may lag behind: at most five attempts, only conflicts retried, no lost update, every reported lookup made on a store of that time, at most 750 ms slept, nothing to do only if the object was missing at some time, and the final return is never reached; without other writers the outcome is a function of the answers to reads and writes |

## Left out

- Process wiring: flags, TLS, leader election, health checks, registration of controllers and webhooks.
- Client internals. `Get` is taken to replace the target object by a fresh copy, as reads from the manager's cache do; writes are refused unless their version is current; `Status().Update` ignores the spec; `CreateOrUpdate` writes only a changed object.
- Resource versions and lagging caches in the class reconciler, and writers that act while one of its calls is under way; a conflict shows as a refused call, and CreateOrUpdate and the status phase are one call each.
- The class reconciler's label map on the heap: one generator writes one value into it, and no full update follows, so `CreateDeployment` works on values.
- Status and metrics of the class reconciler (`status.go`, `update_metrics.go`), `cleanup.go`, deep copies, and the issuer.
- Services, certificates, webhook configurations and the issuer of the singleton's reconciler: created if missing, never rewritten, no label map involved; of them only their existence is kept, and CreateOrUpdate is one call for each.
- Arguments, ports, volume mounts and resource settings of generated containers, which no comparator looks at.
- Server-side rewriting other than service type, port protocol and the dropping of empty maps and lists; in particular the injection of certificate authorities into webhook configurations.
- Webhooks of other vendors that change pods between the operator's own calls.
- Regular expressions, CEL evaluation and quantity syntax: limits are integers, milli-CPU or bytes.
- Overflow to infinity and NaN: `Float64.Fl` has no largest finite double, which no admitted ratio and int64 limit comes near.
- The read of the label among the status lookups, whose failure only replaces the label, which no lookup depends on.
- Events, logs and the gauge labelled with owners.
- `GetPodDeploymentName` and `GetPodServiceAccount`, which only look environment and metadata up.
- Strings are sequences of characters; byte lengths agree for ASCII only.
- `Owners.FindRootOwner` carries a bound on its calls; a search that never returns in the source shows as running out of every bound.
- Request maps that two containers of one pod would share in memory; decoded pods never do.
- Comparators.TolerationsEqual: does not compare the number of seconds, because the source does not.
- ClassReconciler.ApiServer.Reconcile: does not say what the status and metrics phase writes, only that it may fail and changes no resource.
- OvercommitReconciler.Cluster.UpdateStatusSafely: says nothing about the lookups, the sleeps and the status itself, which `StatusRetry.UpdateStatusSafely` does without the label map.
- OvercommitOutcome.WantedAsAsked: does not say that the tolerations are the user's, but that the comparator takes them for the user's, because the source keeps those.
