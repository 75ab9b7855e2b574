# Verification of fiaas-deploy-daemon

fiaas-deploy-daemon watches FIAAS Application objects in a Kubernetes cluster and turns each change of
one into Deployments, Services, Ingresses and RoleBindings. This project models the parts of the daemon
whose behaviour is not obvious from reading a single function, and proves what they promise over every
input, every run and every interleaving.

- **Configuration.** `Values`, `Lookup`, `Transformer`, `Flatten`: a user's configuration is overlaid
  lazily on a tree of defaults. Two overlays are *the same* when no lookup path, however long, tells them
  apart. Stripping what the defaults supply keeps that meaning exactly when nothing meaningful is thrown
  away; the exact condition is a recursive test that a caller can run before stripping.
- **Deployments.** `Scheduler`, `ReadyCheck`, `Lifecycle`, `Pipeline`, `Deployer`: three threads hand a
  deployment from one to the next. The pipeline is a state machine whose steps interleave freely and whose
  signal receivers may raise. The scheduler is modelled with a real-valued clock and with other threads
  adding tasks at any moment.
- **Statuses.** `AppStatus`, `StatusStore`, `Cleanup`, `Timestamps`, `StatusNames`: statuses are written to
  an API server with resource versions while users and other clients write too.
- **Ingresses.** `Issuers`, `HostPairs`, `IngressItems`, `IngressGroups`, `CommonNames`, `IngressDeployer`:
  from the hosts that an application asks for to the Ingress objects in the cluster.
- **Role bindings.** `RoleBindings`: the reconciler that binds roles to an application's service account.
- `Text` holds the string order, decimal numbers and the stable sort that several of these share, `Sets` what
  they need of set sizes.

Code that changes things step by step is a method or a class here, proved against a function of the old
state; the properties are then proved about that function. `dafny verify dfyconfig.toml` checks everything.

## Where the code does less than one would expect

Each of these is a lemma with an input, beside the lemma that says for all inputs when the code is right.

| what happens | shown by | exactly when not |
|---|---|---|
| A configured `false`, `0` or `""` over a truthy default is thrown away when defaults are stripped, and the default comes back. | `FalsyOverrideIsLost` | `StripPreservesMeaning`, `SafeUnderShortDefaults` |
| A default list whose elements are not all redundant to the first does not read back as itself, because every position takes the first default element as its template. | `LongDefaultListIsLost` | `StripPreservesMeaning`, `RedundantIsUnnoticed` |
| A negative index reaching back further than the list is long fails on a configured list and finds an element on a stripped one. | `FarNegativeIndexTellsApart` | `StripPreservesMeaning`, which says it for lookups with and without such indices |
| A task that is taken off the queue before its time is put back with a delay of one second, which forgets the ten seconds that it was meant to wait. | `RetryDelayIsForgotten` | `DelayIsKeptUnlessHastened`, `FirstRunIsNotEarly` |
| A user's change of the spec under the same deployment label is taken for a status update when the watch starts over after another save of that deployment, because the save records the generation of the object that it reads. | `EditCanBeHidden` | `EditIsHiddenExactly` |
| The daemon's own deployment is reported as a success and then as a failure, when a receiver of the success signal raises. | `OwnSuccessCanBounce` | `SignalsAreWellReported` |
| Hosts with different certificate issuers share an Ingress, because an issuer type contains a colon or an issuer is called `None`. | `ColonsMixIssuers`, `NoneMixesIssuers` | `IssuersAgreeIffKeysDo` |
| The application `a` overwrites the Ingress of the application `a-1`. | `AnnotatedIngressTakesName`, `NamesOfApplicationsCollide` | `OtherObjectsAreUntouched` |
| Following a host pair twice does not lead back, because a later pair overrides one of its hosts and not the other. Pairs may share hosts and still lead back. | `SharedHostBreaksInvolution`, `SharedHostsMayLeadBack` | `InvolutionExactly` |
| A role that is listed twice and not yet bound is bound twice. | `RepeatedRoleIsBoundTwice` | `EachRoleIsBoundOnce` |

## Model

| member | source | states |
|---|---|---|
| Lookup.ListIsReadInOrder | fiaas_deploy_daemon/specs/lookup.py:69-89 | a configured list is read in its own order from either end, each element over the first default element, and not beyond its length |
| Lookup.ConfiguredScalarWins | fiaas_deploy_daemon/specs/lookup.py:30-39 | a path of any length that leads to a scalar in the configuration reads no plain value but that scalar, whatever the default |
| Lookup.DefaultShowsThrough | fiaas_deploy_daemon/specs/lookup.py:30-45 | a path of names at which the configuration is silent reads the scalar that the default has there |
| Lookup.SameItem | fiaas_deploy_daemon/specs/lookup.py:30-39 | overlays that no path tells apart have items that no path tells apart |
| Lookup.SameFromItems | fiaas_deploy_daemon/specs/lookup.py:30-39 | the converse: overlays that look alike and have indistinguishable items are indistinguishable |
| Lookup.RedundantIsUnnoticed | fiaas_deploy_daemon/specs/lookup.py:23-89 | removing a configured value goes unnoticed on every lookup path if and only if it is structurally redundant to its default; for all indices, and for those within the list |
| Transformer.RemoveIntersect | fiaas_deploy_daemon/specs/v2/transformer.py:170-180 | the loop of pops and updates, over the common keys in any order, computes the recursive strip |
| Transformer.StripIsIrredundant | fiaas_deploy_daemon/specs/v2/transformer.py:170-184 | at every level reached, a survivor is truthy, was configured and differs from its default |
| Transformer.StripIsIdempotent | fiaas_deploy_daemon/specs/v2/transformer.py:170-184 | stripping again changes nothing |
| Transformer.StripPreservesMeaning | fiaas_deploy_daemon/specs/v2/transformer.py:92-104 | the stripped configuration reads the same through every lookup path if and only if every dropped value is redundant; for all indices, where no list with elements may be dropped, and for those within the list |
| Transformer.SafeUnderShortDefaults | fiaas_deploy_daemon/specs/v2/transformer.py:179 | with default lists of at most one element and indices within the list, that condition is the absence of falsy overrides, in both directions |
| Transformer.ShortDefaultsAreSelfRedundant | fiaas_deploy_daemon/specs/lookup.py:83-84 | a default tree with short lists configured over itself cannot be noticed |
| Transformer.FalsyOverrideIsLost | fiaas_deploy_daemon/specs/v2/transformer.py:179 | a configured false over a true default changes meaning when stripped |
| Transformer.LongDefaultListIsLost | fiaas_deploy_daemon/specs/lookup.py:83-84 | a list equal to its two-element default changes meaning when stripped |
| Transformer.FarNegativeIndexTellsApart | fiaas_deploy_daemon/specs/lookup.py:70-76 | a far negative index is out of bounds before stripping and finds a mapping afterwards |
| Flatten.IterationIsUnion | fiaas_deploy_daemon/specs/lookup.py:62-66 | iteration visits the union of both key sets, and len is its size, if and only if one side has all keys |
| Flatten.FlattenIsMerge | fiaas_deploy_daemon/specs/v2/transformer.py:164-167 | where the eager merge is defined, flattening equals it if and only if at every level one side has all keys |
| Scheduler.Scheduler.Add | fiaas_deploy_daemon/deployer/scheduler.py:58-60 | the queue gains one entry, due the delay from now, and keeps all others |
| Scheduler.Scheduler.Iterate | fiaas_deploy_daemon/deployer/scheduler.py:40-52 | an entry with the smallest due time is taken, and the queue becomes what its due test and outcome make of it |
| Scheduler.IterateIsStep | fiaas_deploy_daemon/deployer/scheduler.py:40-52 | an iteration is a step of the runs that the following rows are about, and adds no entry |
| Scheduler.RoundIsExact | fiaas_deploy_daemon/deployer/scheduler.py:40-52 | a postponed task comes back in one second, one that asks for it in ten, any other not at all, and no other entry changes |
| Scheduler.DueEntryRuns | fiaas_deploy_daemon/deployer/scheduler.py:38-60 | a due entry cannot be overtaken by later adds: it runs after at most the entries now ahead of it |
| Scheduler.BoundedWaiting | fiaas_deploy_daemon/deployer/scheduler.py:38-60 | an entry due in k seconds runs within k + n iterations, n bounding the queue, whatever other threads add |
| Scheduler.BoundedWaitingAlone | fiaas_deploy_daemon/deployer/scheduler.py:38-60 | without outside adds the first length of the queue serves as the bound |
| Scheduler.QueueNeverGrows | fiaas_deploy_daemon/deployer/scheduler.py:38-60 | without outside adds no iteration lengthens the queue |
| Scheduler.NeverPostponesTwice | fiaas_deploy_daemon/deployer/scheduler.py:50-52 | of two consecutive iterations at least one runs a task |
| Scheduler.DelayIsKeptUnlessHastened | fiaas_deploy_daemon/deployer/scheduler.py:50-51 | an entry that has not run is due before its original time if and only if some iteration took it early and put it back for a time before that |
| Scheduler.FirstRunIsNotEarly | fiaas_deploy_daemon/deployer/scheduler.py:41-44 | without such an iteration a task, retried or new, first runs at a clock no earlier than it was meant to |
| Scheduler.RetryWaitsTenSeconds | fiaas_deploy_daemon/deployer/scheduler.py:43-44 | a retried task next runs ten seconds later or more, unless it was put back for an earlier time |
| Scheduler.DroppedTaskIsGone | fiaas_deploy_daemon/deployer/scheduler.py:43-49 | a task that is finished, or raises a client error, is never in the queue again |
| Scheduler.RetryDelayIsForgotten | fiaas_deploy_daemon/deployer/scheduler.py:43-51 | a run in which a task due in ten seconds runs after one, as the row on hastened entries allows |
| ReadyCheck.ReadyCheck.Call | fiaas_deploy_daemon/deployer/kubernetes/ready_check.py:47-61 | sends success when ready at any time, failure when not ready and late, and nothing otherwise, which is when it asks to run again |
| ReadyCheck.SignalsAreExact | fiaas_deploy_daemon/deployer/kubernetes/ready_check.py:48-60 | which signal goes with which sight of the deployment and the clock |
| ReadyCheck.CallIsPipelineStep | fiaas_deploy_daemon/deployer/kubernetes/ready_check.py:47-61 | a call is the pipeline's step of waiting or of concluding with what the check saw, and sends what that step sends |
| ReadyCheck.CheckComesToAnEnd | fiaas_deploy_daemon/deployer/kubernetes/ready_check.py:47-61 | a queued check reaches its first verdict within the time left, ten seconds and one turn of the queue |
| ReadyCheck.FirstEndIsOnlyEnd | fiaas_deploy_daemon/deployer/scheduler.py:43-44 | after its first verdict a check emits nothing more and never returns to the queue |
| ReadyCheck.EveryCheckEnds | fiaas_deploy_daemon/deployer/kubernetes/ready_check.py:47-61 | a check that gives up in at most L seconds emits exactly one of success and failure within L + 10 + n iterations and leaves the queue for good |
| ReadyCheck.OneSignalIsSent | fiaas_deploy_daemon/deployer/kubernetes/ready_check.py:47-61 | over the whole run exactly one signal is sent: success if the deployment is then ready, failure only when late, and until then it was neither |
| ReadyCheck.NewCheckEnds | fiaas_deploy_daemon/deployer/kubernetes/ready_check.py:33-45 | the same for a new check, which ends within L + 10 + n iterations for L multiplier times delay times max(1, replicas) |
| Pipeline.MoveKeepsFit | fiaas_deploy_daemon/deployer/deploy.py:67-96 | every kind of step keeps a subject in one place with a history that fits the place |
| Pipeline.InvHolds | fiaas_deploy_daemon/crd/watcher.py:107-150 | every step of every thread keeps the invariant for all subjects |
| Pipeline.InvAlways | fiaas_deploy_daemon/deployer/deploy.py:58-65 | the invariant holds after every run |
| Pipeline.EachSubjectIsInOnePlace | fiaas_deploy_daemon/deployer/deploy.py:67-96 | in every interleaving a subject is in exactly one of: parsed, queued, held, waiting, being checked, over |
| Pipeline.SignalsAreWellReported | fiaas_deploy_daemon/lifecycle.py:34-54 | whatever receivers raise, the signals of a subject are a prefix of a proper order unless, and only unless, the run has both a raising report of its success and a report of its failure; then they are all four, of an own deployment |
| Pipeline.QuietRunsAreWellReported | fiaas_deploy_daemon/lifecycle.py:34-54 | if no receiver raises on the daemon's own success, every subject is properly reported in every interleaving |
| Pipeline.OwnSuccessCanBounce | fiaas_deploy_daemon/deployer/deploy.py:83-90 | a run that reports initiated, started, success and failed |
| Pipeline.SignalsAreEarned | fiaas_deploy_daemon/deployer/deploy.py:67-96 | in every run a subject is signalled with a status exactly if an event happened to it that merits that status |
| Pipeline.StartedInOrder | fiaas_deploy_daemon/deployer/deploy.py:58-65 | in every interleaving deployments start in the order in which they were initiated |
| Pipeline.OwnIsNotChecked | fiaas_deploy_daemon/deployer/deploy.py:72-85 | the daemon's own deployment is never left to a check |
| Deployer.Deployer.Update | fiaas_deploy_daemon/deployer/deploy.py:67-96 | the signals sent, the check scheduled and the survival of the thread, for every place that may raise |
| Deployer.ReportedIsExact | fiaas_deploy_daemon/deployer/deploy.py:67-96 | the start comes first; success exactly for an own deployment that went through; failure, last, exactly if anything raised |
| Deployer.UpdateIsPipelineRun | fiaas_deploy_daemon/deployer/deploy.py:67-96 | the signals and checks of one update are those of a run of the pipeline from that point |
| AppStatus.InvHolds | fiaas_deploy_daemon/crd/status.py:69-88 | user edits, reads, writes and reconnections keep: own notices are recognisable, and a current copy is the object |
| AppStatus.WriteIsExact | fiaas_deploy_daemon/crd/status.py:84-86 | an accepted write records the result with the generation and label that the object has at that moment, and changes nothing else |
| AppStatus.DeploysExactly | fiaas_deploy_daemon/crd/watcher.py:107-121 | an event leads to a deployment exactly if it has a label, no fresh status, no deletion mark and no stored success |
| AppStatus.OwnWritesAreSkipped | fiaas_deploy_daemon/crd/watcher.py:82-91 | in every interleaving with user edits, the event of a successful status write is skipped |
| AppStatus.SpecEditsAreNoticed | fiaas_deploy_daemon/crd/watcher.py:107-121 | the event of a change of the spec is never taken for one of a status write, whatever ran before |
| AppStatus.EditIsHiddenExactly | fiaas_deploy_daemon/crd/status.py:73-86 | without further edits, the changed object is later taken for its own status if and only if some writer reads it for the same label and writes before reading again |
| AppStatus.EditCanBeHidden | fiaas_deploy_daemon/crd/status.py:73-86 | a run in which a watch that starts over shows only the changed object with a fresh status, and skips it |
| AppStatus.QuietUntilEdited | fiaas_deploy_daemon/crd/watcher.py:63-78 | once the status is that of the object, all events are skipped until a user edits, reconnections included |
| AppStatus.Server.SaveStatusInline | fiaas_deploy_daemon/crd/status.py:69-88 | one attempt with edits in between: which outcome, what it leaves, and that its own notice is recognisable |
| StatusStore.OldVersionsAreUntouched | fiaas_deploy_daemon/crd/status.py:103-122 | an object whose version is not new is as it was, whatever others wrote |
| StatusStore.SaveKeepsEveryKey | fiaas_deploy_daemon/crd/status.py:96-107 | a save keeps every label and annotation key, changes only its own, and fixes app, deployment id and time |
| StatusStore.SavedIsComplete | fiaas_deploy_daemon/crd/status.py:96-121 | new or not, a saved status has the saver's application, id, time and result, the subject's other keys over what there was, and its owner |
| StatusStore.SaveOnce | fiaas_deploy_daemon/crd/status.py:91-122 | it conflicts exactly if the object changed since the read; otherwise it merges onto the version it replaces |
| StatusStore.SaveStatus | fiaas_deploy_daemon/retry.py:68-95 | k attempts, 1 to max_tries, each but a successful last one a conflict; retries grow by k - 1, failures only when all conflict |
| Timestamps.FractionKeepsOrder | fiaas_deploy_daemon/crd/status.py:44-45 | an omitted zero fraction sorts before every written one |
| Timestamps.IsoKeepsOrder | fiaas_deploy_daemon/crd/status.py:44-45 | the string order of time stamps is the order of the times, in both directions |
| Cleanup.CleanUp | fiaas_deploy_daemon/crd/status.py:138-150 | exactly the names that the listing showed as outdated go, whatever others write meanwhile; alone, ten newest statuses and all foreign objects stay |
| Cleanup.OutdatedExactly | fiaas_deploy_daemon/crd/status.py:145-146 | a status with a stamp of its own is outdated if and only if ten others carry later ones |
| Cleanup.SavedMeanwhileSurvives | fiaas_deploy_daemon/crd/status.py:139-150 | a status saved by others between listing and deleting survives if and only if the listing did not show it with ten later ones |
| Cleanup.LastSavedIsNewest | fiaas_deploy_daemon/crd/status.py:99 | under a clock that moves on, the status saved last is the newest, and so survives, whether or not older ones carry a stamp |
| Cleanup.SavedIsListed | fiaas_deploy_daemon/crd/status.py:98-122 | a save that gets through, new or not, leaves a status that the clean-up lists with the saver's time, and no other status changes |
| Cleanup.SavedSurvivesCleanUp | fiaas_deploy_daemon/crd/status.py:54-66 | a status that has just been saved survives the clean-up that follows it |
| StatusNames.SuffixIsDecodable | fiaas_deploy_daemon/crd/status.py:159 | a name suffix has 13 characters once its padding is stripped, and spells its hash |
| StatusNames.LettersAreBase32 | fiaas_deploy_daemon/crd/status.py:159 | its letters are those of section 6 of RFC 4648 in lower case |
| StatusNames.NamesCollideOnlyOnHashes | fiaas_deploy_daemon/crd/status.py:153-160 | two names are equal if and only if application and 64-bit hash are |
| Issuers.MatchesDomains | fiaas_deploy_daemon/deployer/kubernetes/ingress.py:154 | a host matches a suffix exactly if it is the suffix or ends with a dot and the suffix |
| Issuers.MatchesAreNested | fiaas_deploy_daemon/deployer/kubernetes/ingress.py:154 | two suffixes matching one host are nested domains |
| Issuers.LongestMatchIsUnique | fiaas_deploy_daemon/deployer/kubernetes/ingress.py:154 | a host has at most one longest matching suffix |
| Issuers.LongestSuffixWins | fiaas_deploy_daemon/deployer/kubernetes/ingress.py:68-73 | the loop over the sorted overrides finds the longest matching suffix, and nothing exactly if none matches |
| Issuers.ListingOrderIsIrrelevant | fiaas_deploy_daemon/deployer/kubernetes/ingress.py:151-163 | any two listings of the override dictionary give every host the same issuer |
| HostPairs.SplitOnceIsExact | fiaas_deploy_daemon/config.py:511 | a pair is split at its first '=', and only a text without one fails |
| HostPairs.ParseIngressHostPairs | fiaas_deploy_daemon/config.py:507-516 | both directions of each pair in turn, or the first text that is no pair |
| HostPairs.ParsedIsExact | fiaas_deploy_daemon/config.py:509-515 | all texts are split at their first '=', in order, or the first one without any is reported |
| HostPairs.PartnersAreEntered | fiaas_deploy_daemon/config.py:512-513 | if no host is in two different pairs, each host of a pair is mapped to its partner |
| HostPairs.InvolutionExactly | fiaas_deploy_daemon/config.py:509-513 | following a pair twice leads back if and only if no pair is overridden for just one of its hosts by later ones |
| HostPairs.MonogamousPairsAreInvolution | fiaas_deploy_daemon/config.py:512-513 | in particular where no host is in two different pairs |
| HostPairs.SharedHostBreaksInvolution | fiaas_deploy_daemon/config.py:512-513 | two pairs sharing a host, the first overridden for one host only, that do not lead back |
| HostPairs.SharedHostsMayLeadBack | fiaas_deploy_daemon/config.py:512-513 | three pairs sharing hosts that do lead back, the first being overridden for both |
| IngressItems.DeduplicateInOrder | fiaas_deploy_daemon/deployer/kubernetes/ingress.py:272-277 | the loop with its set of seen elements yields the first occurrences |
| IngressItems.FirstsAreExact | fiaas_deploy_daemon/deployer/kubernetes/ingress.py:272-277 | deduplication loses no element, repeats none, and keeps the order of first occurrence |
| IngressItems.DefaultItemsAreExact | fiaas_deploy_daemon/deployer/kubernetes/ingress.py:99-117 | one host for each suffix, in order, with exactly the paths that ingresses without annotations ask for, or else the default path on the http port |
| IngressItems.HttpPortIsFirst | fiaas_deploy_daemon/deployer/kubernetes/ingress.py:119-124 | the port is that of the first port called http, and missing exactly if there is none |
| IngressItems.ExplicitItemIsExact | fiaas_deploy_daemon/deployer/kubernetes/ingress.py:176-178 | an ingress with a host becomes an item of the rewritten host with its paths and annotations, any other one none |
| IngressItems.ExplicitItemsInOrder | fiaas_deploy_daemon/deployer/kubernetes/ingress.py:176-178 | the items of all ingresses follow one another in the order of the ingresses |
| IngressItems.PairHosts | fiaas_deploy_daemon/deployer/kubernetes/ingress.py:181-186 | the loop over a copy of the list it appends to computes the paired items |
| IngressItems.PairedIsExact | fiaas_deploy_daemon/deployer/kubernetes/ingress.py:181-186 | original items stay as a prefix; each added host was absent, is added once with its source's paths, and none is missing |
| IngressItems.PairedIsClosed | fiaas_deploy_daemon/deployer/kubernetes/ingress.py:181-186 | for an involution, the hosts served afterwards are closed under pairing |
| IngressGroups.GroupItems | fiaas_deploy_daemon/deployer/kubernetes/ingress.py:188-234 | the grouping loop with its list and its dictionary computes the grouping function |
| IngressGroups.GroupsAreClasses | fiaas_deploy_daemon/deployer/kubernetes/ingress.py:188-234 | default items, single annotated items and one group for each other issuer key, each in order |
| IngressGroups.EveryItemInOneGroup | fiaas_deploy_daemon/deployer/kubernetes/ingress.py:200-232 | every item is in the groups as often as in the list |
| IngressGroups.NamesAreDistinct | fiaas_deploy_daemon/deployer/kubernetes/ingress.py:203 | no two groups have the same name |
| IngressGroups.IssuersAreExact | fiaas_deploy_daemon/deployer/kubernetes/ingress.py:130-169 | where the kind and the name of a host's issuer and of the default issuer come from, override by override |
| IngressGroups.SuffixOverrideIsFirst | fiaas_deploy_daemon/deployer/kubernetes/ingress.py:130-143 | the override for the default issuer is that of the first suffix that has one |
| IngressGroups.KeysAreFaithful | fiaas_deploy_daemon/deployer/kubernetes/ingress.py:217 | keys of colon-free types agree exactly when type and shown name do |
| IngressGroups.IssuersAgreeIffKeysDo | fiaas_deploy_daemon/deployer/kubernetes/ingress.py:215-228 | every group has the issuer of each of its items if and only if no key stands for two issuers |
| IngressGroups.TellingIssuersAgree | fiaas_deploy_daemon/deployer/kubernetes/ingress.py:215-228 | types without a colon and names other than None suffice for that |
| IngressGroups.ColonsMixIssuers | fiaas_deploy_daemon/deployer/kubernetes/ingress.py:217 | a configuration of overrides under which two hosts of different issuers share a group, because of a colon |
| IngressGroups.NoneMixesIssuers | fiaas_deploy_daemon/deployer/kubernetes/ingress.py:217 | another one, because of an issuer called None |
| CommonNames.ShortHostFits | fiaas_deploy_daemon/deployer/kubernetes/ingress.py:330-339 | a common name is found if and only if the suffix has at most 61 characters, and then fits into 63 |
| CommonNames.ShortestSuffixIsShortest | fiaas_deploy_daemon/deployer/kubernetes/ingress.py:284 | the suffix used is one of the configured ones and none is shorter |
| CommonNames.CommonNameIsFound | fiaas_deploy_daemon/deployer/kubernetes/ingress.py:315-339 | a common name of digest, dot and a shortest suffix, which fits, is prepended if and only if some suffix leaves room for it and none is empty |
| IngressDeployer.GroupIngresses | fiaas_deploy_daemon/deployer/kubernetes/ingress.py:171-234 | explicit, default and paired hosts together, grouped; or the missing http port |
| IngressDeployer.ShouldHaveIngressExactly | fiaas_deploy_daemon/deployer/kubernetes/ingress.py:246-269 | no ingresses exactly if none are asked for, no port speaks http, or no host can be told |
| IngressDeployer.GroupsAreNumbered | fiaas_deploy_daemon/deployer/kubernetes/ingress.py:189-203 | the first group has the application's name, each other one a number below the number of groups behind it |
| IngressDeployer.GroupsAreExposed | fiaas_deploy_daemon/deployer/kubernetes/ingress.py:175-211 | a group names its host exactly if it is of an annotated ingress or some other ingress has a host |
| IngressDeployer.RulesServeItems | fiaas_deploy_daemon/deployer/kubernetes/ingress_networkingv1.py:56-68 | an object has one rule for each item of its group, in order, with its host and each of its paths exactly once |
| IngressDeployer.LabelsAreExact | fiaas_deploy_daemon/deployer/kubernetes/ingress_networkingv1.py:52-54 | labels of the application, over them those of the deployment, over them name and deployment id |
| IngressDeployer.ExposureIsAnnotated | fiaas_deploy_daemon/deployer/kubernetes/ingress_networkingv1.py:49-50 | an object says whether its ingress names the host |
| IngressDeployer.OtherAnnotationsAreKept | fiaas_deploy_daemon/deployer/kubernetes/ingress_networkingv1.py:49-50 | every other annotation is the ingress's, or else the application's |
| IngressDeployer.IssuanceIsAnnotated | fiaas_deploy_daemon/deployer/kubernetes/ingress.py:290-297 | with TLS an object names its issuer under the issuer's kind, or asks for any certificate |
| IngressDeployer.LastEntryIsForAllHosts | fiaas_deploy_daemon/deployer/kubernetes/ingress.py:306-313 | TLS entries are there exactly with TLS, and the last one is for all hosts, in the default object after a common name |
| IngressDeployer.OtherEntriesAreForShortHosts | fiaas_deploy_daemon/deployer/kubernetes/ingress.py:299-304 | other entries are for exactly the hosts of fewer than 64 characters, and only where each host is to have its own |
| IngressDeployer.UnusedIsDeleted | fiaas_deploy_daemon/deployer/kubernetes/ingress_networkingv1.py:85-91 | deleting what is unused after creating leaves every group in place and everything else as it was, but for stale objects |
| IngressDeployer.Cluster.Create | fiaas_deploy_daemon/deployer/kubernetes/ingress.py:83-97 | the non-empty groups are in place as rendered, and otherwise only stale objects are gone |
| IngressDeployer.Deploy | fiaas_deploy_daemon/deployer/kubernetes/ingress.py:77-97 | the whole deployment reconciles the cluster with the groups of the hosts, or raises before touching it |
| IngressDeployer.EveryItemIsServed | fiaas_deploy_daemon/deployer/kubernetes/ingress.py:83-97 | after a deployment every host is served by one of the application's objects with exactly its paths |
| IngressDeployer.NothingElseIsServed | fiaas_deploy_daemon/deployer/kubernetes/ingress.py:83-97 | and the application's objects serve nothing else, if the deployment id was new to them |
| IngressDeployer.OwnObjectsAreTheGroups | fiaas_deploy_daemon/deployer/kubernetes/ingress_networkingv1.py:85-91 | the application's objects are exactly its non-empty groups if and only if the deployment id was new to them |
| IngressDeployer.OtherObjectsAreUntouched | fiaas_deploy_daemon/deployer/kubernetes/ingress_networkingv1.py:47-91 | objects of others are unchanged if and only if none of them has the name of a group |
| IngressDeployer.NamesOfApplicationsCollide | fiaas_deploy_daemon/deployer/kubernetes/ingress.py:200-214 | deploying an application whose first ingress has a host and annotations takes the object named after it with -1 away from the application of that name |
| IngressDeployer.AnnotatedIngressTakesName | fiaas_deploy_daemon/deployer/kubernetes/ingress.py:200-214 | an application a that does so to a-1, whatever else is configured |
| IngressDeployer.ReconcilingTwiceIsOnce | fiaas_deploy_daemon/deployer/kubernetes/ingress.py:77-97 | reconciling again changes nothing |
| RoleBindings.Cluster.CleanNotNeeded | fiaas_deploy_daemon/deployer/kubernetes/role_binding.py:82-89 | exactly the unneeded bindings of fiaas go, from the cluster and from the list |
| RoleBindings.Cluster.UpdateOrCreate | fiaas_deploy_daemon/deployer/kubernetes/role_binding.py:30-74 | roles are bound one after the other against one listing |
| RoleBindings.Cluster.Deploy | fiaas_deploy_daemon/deployer/kubernetes/role_binding.py:18-28 | the whole deployment, for the listing in any order |
| RoleBindings.DeployConverges | fiaas_deploy_daemon/deployer/kubernetes/role_binding.py:18-100 | one deployment binds every role, keeps no owned binding of another role, and leaves foreign bindings and all role references alone |
| RoleBindings.WantedIsConfigured | fiaas_deploy_daemon/deployer/kubernetes/role_binding.py:98-100 | the roles to bind are exactly the configured roles and cluster roles, each under its kind |
| RoleBindings.DeployWritesForApplication | fiaas_deploy_daemon/deployer/kubernetes/role_binding.py:60-74 | whatever a deployment does not leave unchanged is for the application's service account, with its annotations, labels and owner |
| RoleBindings.OwnershipIsExact | fiaas_deploy_daemon/deployer/kubernetes/role_binding.py:91-95 | a binding counts as owned exactly if some owner is an Application of fiaas |
| RoleBindings.DroppedRoleIsUnbound | fiaas_deploy_daemon/deployer/kubernetes/role_binding.py:82-89 | a binding written with a uid is removed by a later deployment without its role |
| RoleBindings.SecondDeployIsStable | fiaas_deploy_daemon/deployer/kubernetes/role_binding.py:18-58 | a second deployment creates and deletes nothing |
| RoleBindings.BindAllCreatesTheMissing | fiaas_deploy_daemon/deployer/kubernetes/role_binding.py:34-55 | a role without a binding gains one of its own for each mention, any other role none, and no other name is generated |
| RoleBindings.BindingsAreCounted | fiaas_deploy_daemon/deployer/kubernetes/role_binding.py:18-58 | after a deployment a configured role has as many bindings as before, or, had it none, as many as mentions |
| RoleBindings.EachRoleIsBoundOnce | fiaas_deploy_daemon/deployer/kubernetes/role_binding.py:34-55 | every unbound role gets exactly one binding if and only if none of them is mentioned twice |
| RoleBindings.RepeatedRoleIsBoundTwice | fiaas_deploy_daemon/deployer/kubernetes/role_binding.py:34-55 | a role listed twice gets two distinct bindings in an empty namespace |

## Left out

Configuration:

- Transformer.RemoveIntersect: nested dictionaries are values, so sharing between a configuration and a nested dictionary that is updated in place is not modelled.
- Transformer.StripPreservesMeaning: covers lookups; `get_config_value`, `raw` and iteration show the configuration as it stands, so they do see a strip.
- Equality of values is structural; that Python takes `True` for `1` is not modelled.
- The rest of the version 2 transformer, the version 3 factory, the removal of the marker for undefined resources, and putting `version` back. The default files are a parameter.

Deployments:

- Ties in the priority queue are broken arbitrarily; Python would compare the tasks themselves.
- ReadyCheck.EveryCheckEnds: holds for checks that raise no client error, since the scheduler drops a task that does. Pods, rollout and certificate tests are one boolean.
- An exception that a thread does not catch ends that thread in the model, and nothing restarts it.
- The state machine has no clock; the time bounds are those of the scheduler's model.
- The deploy event's unknown actions, the bookkeeper's metrics and log context.

Statuses:

- StatusStore.SaveOnce: get-or-create of a missing status is a create that conflicts if the name has been taken meanwhile; the Kubernetes client library is not part of this model. Stored logs are left out, because a retry after a conflict finds the log store emptied.
- AppStatus.Server.SaveStatusInline: one attempt; the retry wrapper is proved on the stored statuses only. An Application deleted meanwhile, and a missing status, are not modelled.
- Cleanup.CleanUp: others write between the listing and the first deletion; writes between two deletions are not modelled.
- Status writes are taken to leave generation and labels alone, which is the API server's promise.
- Waiting times between retries. The hash of a deployment id is any function to 64 bits.

Ingresses:

- IngressDeployer.Cluster.Create: creates or overwrites by name; errors and conflicts of the API server are not modelled, nor are owner references and the extension hook. The adapter for v1beta1 has the same logic and is not repeated.
- IngressDeployer.IssuanceIsAnnotated: whether TLS is used, and whether there is an issuer at all, are parameters.
- IngressDeployer.GroupIngresses: host rewriting is any function on hosts, the default path a parameter, and the digest of a common name any 32 characters of base 32.
- Annotated entries without a host are dropped before grouping, as in the code; conservation is stated from the expanded list onward.

Role bindings:

- RoleBindings.Cluster.Deploy: generated names are fresh, and errors and conflicts of the API server are not modelled. Values of a second deployment's updates are not compared.

Elsewhere:

- Deployments, services, autoscalers, disruption budgets, secrets, service accounts, probes and datadog: mostly construction of records.
- The web interface, usage reporting, argument parsing other than host pairs, metrics and logging.
