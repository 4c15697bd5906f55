# Verified models of the BDD test framework

Dafny models of the parts of the operator BDD framework that hold real logic, with proofs over all inputs,
all runs and all interleavings. `dafny verify dfyconfig.toml` checks the whole project.

| module | models |
|---|---|
| `LogCollector` | the pod log collector: scanning loop, one follower per container, stop pass |
| `Installers` | the registry of namespaced services: teardown in phases, conservation of installers |
| `ClusterServices` | the registry of cluster-wide services: one installation per registration, removal |
| `CrRemoval` | removal of custom resources through their ownership |
| `HttpThreads` | the threaded HTTP runner and the check of its results |
| `Pagination` | paginated queries with retry, and `WaitFor` |
| `ScenarioContext` | substitution of scenario variables in map iteration order |
| `OrderAgreement` | when the map iteration orders agree with one another |
| `MavenSettings` | generation of Maven's `settings.xml` by repeated textual replacement |
| `SettingsReadBack` | what the generated text reads as, by its tags |
| `TagFilter` | the tag filter language: meaning, evaluation, composition, printing |
| `Selection` | filtering of features, the CLI check and the executor's effective filter |
| `NamespaceHistory` | the namespace history file |
| `DataTable` | `PrintDataMap` |
| `ImageName` | the name of a cached project image |
| `GoStrings` | the functions of Go's `strings` package that the others call |
| `Sequences`, `Optional` | a minimum and a law of concatenation; an option type |

Concurrent code is a step system: every access to a shared map, flag, slot or file is one step of one thread,
a run is the sequence of steps that happened, and theorems quantify over all legal runs. Code that updates
state in place is a class or a method with loops, proved against a function of the old state; the properties
are lemmas about that function. What the cluster, the HTTP server or a callback answers is a parameter.

## Findings

Places where the code does not do what its comments or callers expect. Each has the exact condition or a
concrete run as a lemma.

- `UninstallServicesFromCluster` ranges over slice indices, so it removes no registry entry
  (`UninstallServicesFromCluster`, `RemovalAsMeantIff`); a service that it uninstalled is never installed again and
  its later `Install` calls only wait (`NeverInstalledAgain`, `GoneForGood`). Its only caller is the end of the suite
  (testbdd/executor/bdd_executor.go:187). The removal as meant is safe with one teardown at a time
  (`OneAtATimeDropsOnlyGone`) and not with two (`OverlappingTeardownsDropARunningService`).
- A container's log is written twice if the stop pass and the follower both check the flag before either
  sets it (`LogWrittenTwiceIffSectionsOverlap`, `AFileCanBeWrittenTwice`).
- The comment on `StopPodLogCollector` promises to wait until all logs are stored; it waits for no follower
  (`StopPassEnds`). At its return a log is missing iff its follower has set the flag and not yet written, or the fetch
  of the stop pass failed and the follower has not written (`MissingLogsAtReturn`); `StopReturnsBeforeTheLog` is such
  a return for every container. `AfterScenario` goes on to rename the log folder (bddframework/pkg/steps/data.go:187).
- Log files are named `pod-container`, which is not unique: different containers share a file iff they are
  container `m-y` of pod `x` and container `y` of pod `x-m` for some texts (`FilesSharedIff`,
  `ContainersCanShareAFile`), and then it can be written four times (`SharedFileWrittenFourTimes`). Container "run" of
  pod "test", and no other, overwrites the logger's file (`LoggersFileIff`). Container names without dashes rule
  sharing out (`DashFreeNamesTellFiles`), and then the bound of two writes holds (`DashFreeFileWrittenTwiceIff`,
  `FileWrittenTwiceIffSectionsOverlap`).
- Overlapping installations in one namespace can lose installers: nothing is lost iff every store finds the list
  that its thread has loaded (`NothingLostIffNeverStale`, and with teardowns `ConservedIffDriftCancels`;
  `OverlappingInstallsLoseAnInstaller` is a run that loses one).
- Stale pages of a failed attempt can make a later attempt succeed although the server holds too few ids
  (`SuccessIsGenuineIff`, `StaleResultsFakeSuccess`).
- An error condition of `WaitFor` that fires without an error ends the wait as a success (`WaitFor`). The error
  conditions in the repository return an error whenever they fire (bddframework/pkg/framework/kubernetes.go:455-490).
- The result of `ResolveWithScenarioContext` can depend on Go's map order (`CaptureMakesTheOrderMatter`,
  `BracedValueMakesTheOrderMatter`, `BracedNameMakesTheOrderMatter`). For brace-free names and values all orders agree
  iff no braces enclose other placeholders that resolve to the name of a further variable (`OrdersAgreeIff`), and then
  the result is the simultaneous substitution (`AgreementIsSubst`). For brace-free names, every order gives that and
  leaves no known placeholder iff one simultaneous pass leaves none (`OrderFreeIffNothingLeft`).
- An id or URL with a closing tag breaks the generated settings (`GeneratedIsDocumentIffSafe`).
- A filter that mentions any tag starting with "@disabled" lets disabled scenarios run
  (`LongerTagEnablesDisabled`).
- The default filter is "@disabled" itself, so a run without a tag option selects only disabled scenarios
  (`DefaultRunsOnlyDisabled`).
- Removing the empty name from the history glues the next two names (`EmptyNameGluesNames`). No caller in the
  repository gives an empty namespace.
- A negative number of requests reports success without sending any (`NegativeCountSucceeds`). The registered steps
  admit digits only (bddframework/pkg/steps/http.go:44-45).
- The image name does not tell all configurations apart: the native flag reads like a profile "native", a profile
  with a dash like two profiles, a profile like an option (`NativeProfileCollides`, `DashedProfileCollides`,
  `ProfileOptionCollides`). Names are equal iff the texts between the dashes are (`NameAlikeIff`). They tell the
  configurations of one project apart if profiles have no dash and options start with one, as Maven's do
  (`NameTellsUsualConfigurationsApart`), and generally where none of the collisions happens
  (`NameTellsConfigurationsApart`). The native collision is harmless: the flag only adds the profile "native"
  (bddframework/pkg/steps/maven.go:77-79).

## Model

| member | source | states |
|---|---|---|
| LogCollector.StepKeepsInv | bddframework/pkg/framework/logging.go:144-350 | every step of any thread keeps the invariant: scan position, one follower per container, stop pass over the frozen containers, a flag is set iff a writer is at or past its write, one write per writer |
| LogCollector.RunKeepsInv | bddframework/pkg/framework/logging.go:144-350 | every run keeps that invariant |
| LogCollector.StopCoversEveryContainer | bddframework/pkg/framework/logging.go:323-350 | about flags, not files: when the stop pass has returned it has dealt with every container ever registered, and each has its flag set or its fetch failed |
| LogCollector.StoredLogsAtReturn | bddframework/pkg/framework/logging.go:308-350 | when StopPodLogCollector has returned, a container's log is on disc iff the stop pass stored it or its follower has written it; it was skipped only if its follower has set the flag |
| LogCollector.MissingLogsAtReturn | bddframework/pkg/framework/logging.go:308-350 | so exactly when a log is not on disc at the return: the follower is between flag and file, or the stop pass's fetch failed and the follower has not written |
| LogCollector.StoredLogsInTheEnd | bddframework/pkg/framework/logging.go:308-350 | once the followers are done too, a log is on disc iff the stop pass's fetch did not fail or the follower has written |
| LogCollector.StoredIffFetched | bddframework/pkg/framework/logging.go:272-350 | in a completed run a log is on disc iff one of its fetches, the follower's or the stop pass's, succeeded |
| LogCollector.StopReturnsBeforeTheLog | bddframework/pkg/framework/logging.go:308-350 | for every container a legal run in which StopPodLogCollector returns, having skipped it, before its log or file is written |
| LogCollector.ExactlyOneFollower | bddframework/pkg/framework/logging.go:169-175 | over every run each registered container has exactly one follower, or none while its goroutine is about to start |
| LogCollector.ScanRegisters | bddframework/pkg/framework/logging.go:144-181 | one scan, in any interleaving: exactly the containers of the listed pods that are running, not yet monitored and first of their name among the running ones are newly registered, exactly those pods are recorded, and every registered container has a follower |
| LogCollector.FlagsOnlyRiseAndStopFreezes | bddframework/pkg/framework/logging.go:159-181 | no flag is ever cleared and no container forgotten; after the stop signal no pod and no container is registered |
| LogCollector.LogWrittenTwiceIffSectionsOverlap | bddframework/pkg/framework/logging.go:272-350 | a container's log is written at most twice, at most once without overlapping check-to-mark sections, and in a completed run twice iff they overlapped and the stop pass's fetch succeeded |
| LogCollector.OwnFileWrites | bddframework/pkg/framework/logging.go:304-306 | while no other registered container has the same file name, a container's file is written as often as its log |
| LogCollector.FileWrittenTwiceIffSectionsOverlap | bddframework/pkg/framework/logging.go:272-350 | the same bounds for the file `pod-container`, if no other registered container has that file name |
| LogCollector.SharedFileWrittenFourTimes | bddframework/pkg/framework/logging.go:304-306 | for any two containers with the same file name there is a legal complete run in which the file is written four times |
| LogCollector.ContainersCanShareAFile | bddframework/pkg/framework/logging.go:304-306 | every container with a dash in its name shares its file with a container of a pod with a longer name |
| LogCollector.FilesSharedIff | bddframework/pkg/framework/logging.go:304-306 | two containers have the same file iff they are the same, or for some text m the one is container `m-y` of pod `x` and the other container `y` of pod `x-m` |
| LogCollector.DashFreeNamesTellFiles | bddframework/pkg/framework/logging.go:304-306 | container names without dashes have the same file iff the containers are the same |
| LogCollector.DashFreeFileWrittenTwiceIff | bddframework/pkg/framework/logging.go:272-350 | if no registered container has a dash in its name: the file is written at most twice, at most once without overlapping sections, and in a completed run twice iff they overlapped and the stop pass's fetch succeeded |
| LogCollector.LoggersFileIff | bddframework/pkg/framework/logging.go:117 | a container's log file is the logger's own file iff it is container "run" of pod "test" |
| LogCollector.AFileCanBeWrittenTwice | bddframework/pkg/framework/logging.go:272-287 | for every container a legal complete run with no other container in which its log and its file are written twice |
| LogCollector.StopPassEnds | bddframework/pkg/framework/logging.go:323-350 | about progress, not files: after the stop signal the stop pass can always move until it returns, within a bounded number of its own steps, whatever the followers do |
| Installers.Registries.ExecuteOnClusterWideServices | bddframework/pkg/installers/service_installer.go:379-388 | every registered installer is called once, in some order, also after a failure; success iff every call succeeded |
| Installers.Registries.ExecuteOnNamespacedServices | bddframework/pkg/installers/service_installer.go:391-401 | every installer of the namespace is called in order, also after a failure; success iff every call succeeded |
| Installers.Registries.UninstallServicesFromNamespace | bddframework/pkg/installers/service_installer.go:73-117 | all cleanups, then all waits, then all uninstallations, none skipped, with any cluster-wide services added between the passes; exactly the failed installers stay registered, in order; true iff every call of every phase succeeded |
| Installers.FailedAndRemoved | bddframework/pkg/installers/service_installer.go:100-114 | the installers of a teardown are, as a multiset, the failed plus the removed ones |
| Installers.NoneFailed | bddframework/pkg/installers/service_installer.go:100-114 | nothing stays registered iff every uninstallation succeeded |
| Installers.FailedIff | bddframework/pkg/installers/service_installer.go:100-114 | an installer stays registered iff a call on it failed |
| Installers.AllOkIff | bddframework/pkg/installers/service_installer.go:379-401 | the verdict of a pass is success iff every call with a number in its range succeeded |
| Installers.CallsInOrder | bddframework/pkg/installers/service_installer.go:379-401 | the calls of a pass are one on each installer of the list, in its order |
| Installers.TeardownInOrder | bddframework/pkg/installers/service_installer.go:73-117 | among the calls of a teardown every cleanup stands before every wait and every wait before every uninstallation |
| Installers.LostUpdatesAccountForTheBalance | bddframework/pkg/installers/service_installer.go:73-176 | over every run, with any overlap: in a quiet namespace, registered installers plus successful uninstallations equal Install calls plus what the stores brought back or lost |
| Installers.ConservedIffDriftCancels | bddframework/pkg/installers/service_installer.go:73-176 | so the Install calls are conserved iff, for every installer, these gains and losses cancel out |
| Installers.NeverStaleConserves | bddframework/pkg/installers/service_installer.go:73-176 | no store over another list than the loaded one: Install calls equal successful uninstallations plus registered installers, with overlapping teardowns as well |
| Installers.NothingLostIffNeverStale | bddframework/pkg/installers/service_installer.go:165-176 | for overlapping Install calls without teardown: the registered installers are those of the calls, as a multiset, iff every store found the very list that its thread had loaded; otherwise strictly fewer are registered |
| Installers.InstallsAreConserved | bddframework/pkg/installers/service_installer.go:165-176 | in particular over every interleaving with at most one busy thread per namespace |
| Installers.TeardownStoresFailed | bddframework/pkg/installers/service_installer.go:100-114 | a teardown's uninstall loop, interleaved with any steps of other threads, stores exactly the failed installers in order |
| Installers.RunKeepsInv | bddframework/pkg/installers/service_installer.go:73-176 | with one busy thread per namespace, what a busy thread has loaded stays what is registered, so no store is stale |
| Installers.OverlappingInstallsLoseAnInstaller | bddframework/pkg/installers/service_installer.go:167-169 | a run in which two Install calls overlap in one namespace and one registration is lost |
| ClusterServices.RemovalAsMeantIff | bddframework/pkg/installers/service_installer.go:135-138 | the removal loop removes nothing; it agrees with the intended removal iff no uninstalled service was registered |
| ClusterServices.Registry.LoadOrStore | bddframework/pkg/installers/service_installer.go:221-226 | the caller installs iff the installer was not registered, and it is registered afterwards |
| ClusterServices.Registry.UninstallServicesFromCluster | bddframework/pkg/installers/service_installer.go:120-141 | every registered service is uninstalled, success iff all succeeded, and the registry is unchanged; that is the intended removal iff no registered service's uninstallation succeeds |
| ClusterServices.OneInstallationPerRegistration | bddframework/pkg/installers/service_installer.go:221-237 | over every interleaving the installations of an installer equal its removed plus its present entries, and all other callers wait |
| ClusterServices.NeverInstalledAgain | bddframework/pkg/installers/service_installer.go:136-138 | as coded an installer is installed once in the whole run if anyone asks for it, and never again |
| ClusterServices.GoneForGood | bddframework/pkg/installers/service_installer.go:120-138 | as coded a service that was uninstalled stays gone: every further Install takes the wait branch |
| ClusterServices.FailedInstallerStays | bddframework/pkg/installers/service_installer.go:120-138 | over every interleaving of Install calls and teardowns an installer that was asked for and none of whose uninstallations succeeded stays registered, as coded and as meant |
| ClusterServices.DroppedAfterUninstallation | bddframework/pkg/installers/service_installer.go:120-138 | as meant, with any number of overlapping teardowns: removals of an entry, done or still to come, are at most the successful uninstallations of its installer |
| ClusterServices.OneAtATimeDropsOnlyGone | bddframework/pkg/installers/service_installer.go:120-138 | as meant, with one teardown at a time: an entry is only ever dropped while its service is uninstalled |
| ClusterServices.InstallBetweenOnlyWaits | bddframework/pkg/installers/service_installer.go:120-138 | even as meant, an Install between an uninstallation and the removal of its entry takes the wait branch for a service that is gone |
| ClusterServices.OverlappingTeardownsDropARunningService | bddframework/pkg/installers/service_installer.go:120-138 | as meant, with two overlapping teardowns: a legal run that drops the entry of a service installed meanwhile |
| CrRemoval.DeletingOwnerlessIsEnoughIff | bddframework/pkg/installers/service_installer.go:49-53 | deleting only CRs without owner empties the cluster in every interleaving with the garbage collector iff no set of CRs sustains itself by ownership cycles or outside owners |
| CrRemoval.RankedOwnershipDrains | bddframework/pkg/installers/service_installer.go:404-452 | closed acyclic ownership (given by a rank) always drains to no CRs, what waitForAllCrsRemoval polls for |
| CrRemoval.SustainedStays | bddframework/pkg/installers/service_installer.go:436-452 | no run removes anything of a self-sustaining set |
| CrRemoval.SettledIsSustained | bddframework/pkg/installers/service_installer.go:436-452 | what is left when nothing can be removed any more sustains itself |
| CrRemoval.CanSettle | bddframework/pkg/installers/service_installer.go:436-452 | from every state a settled one is reached within as many removals as there are CRs |
| CrRemoval.CycleIsNeverRemoved | bddframework/pkg/installers/service_installer.go:428-432 | two CRs that own each other stay for ever |
| CrRemoval.CrsWithoutOwner | bddframework/pkg/installers/service_installer.go:421-434 | the places of the found CRs are, in order, exactly those of the listed CRs that have no entry or an empty set in the owner references |
| CrRemoval.DeleteCrsWithoutOwner | bddframework/pkg/installers/service_installer.go:404-418 | true iff the listing and every deletion succeed; then every listed CR without owner references was deleted, and never another; a failed deletion stops it |
| CrRemoval.StepsByOwners | bddframework/pkg/installers/service_installer.go:404-452 | a CR can be deleted iff it is there and has no owner reference, and collected iff it has some and all of them are gone |
| CrRemoval.AfterCleanupCollectedIff | bddframework/pkg/installers/service_installer.go:404-452 | once the owner-less listed CRs are deleted, the garbage collector alone empties the rest in every order iff no set of the listed CRs sustains itself |
| HttpThreads.RunRequestRoutine | bddframework/pkg/framework/http.go:291-307 | a thread writes its own slot only: success iff each of its requestCount / threadCount answers is a status from 200 to 299, else error; it stops at the first answer that is not |
| HttpThreads.CheckResults | bddframework/pkg/steps/http.go:225-230 | no error iff every slot is a success |
| HttpThreads.StepKeepsInv | bddframework/pkg/framework/http.go:255-307 | every step keeps: launched threads, each thread's place and slot fit its answers, WaitGroup counter and request counts are the sums over the threads |
| HttpThreads.OnlyOwnSlotWrittenOnce | bddframework/pkg/framework/http.go:291-307 | a step changes only the slot of the thread that takes it, and that from unset to its verdict |
| HttpThreads.ReturnsTheVerdicts | bddframework/pkg/framework/http.go:268-277 | for every schedule the WaitGroup counter is the number of unfinished threads, and at the return every slot is set, to a value that does not depend on the schedule |
| HttpThreads.SuccessIffAllSentAndExpected | bddframework/pkg/framework/http.go:255-307 | never more than requestCount requests are sent, and after the return all slots read success iff all requestCount requests were sent and answered as expected |
| HttpThreads.SuccessIffEveryStatusIs2xx | bddframework/pkg/framework/http.go:237-307 | for every schedule, after the return all slots read success iff every thread got a status from 200 to 299 for each of its requestCount / threadCount requests |
| HttpThreads.LaunchIff | bddframework/pkg/framework/http.go:256-260 | the runner starts iff the number of threads is positive and divides the number of requests, and refuses iff it is not zero and does not |
| HttpThreads.NegativeCountSucceeds | bddframework/pkg/framework/http.go:256-259 | with a negative count nothing is sent and success is reported |
| HttpThreads.SomeStepPossible | bddframework/pkg/framework/http.go:268-277 | no deadlock: until the runner has returned some thread can move |
| HttpThreads.EveryScheduleReturns | bddframework/pkg/framework/http.go:255-307 | every schedule is bounded and one that cannot go on has returned |
| Pagination.OffsetsBelowTotal | bddframework/pkg/framework/graphql.go:54-58 | the offsets k*pageSize below the total are exactly those of the first ceil(total/pageSize) pages |
| Pagination.ProcessInstances.AfterEachResponse | bddframework/pkg/steps/graphql.go:116-120 | the page is appended to the results |
| Pagination.ProcessInstances.AfterFullRequest | bddframework/pkg/steps/graphql.go:121-129 | true iff the number of results is the expected one, else the results are dropped |
| Pagination.ProcessInstances.Query | bddframework/pkg/framework/graphql.go:53-77 | queries offset k*pageSize for every page, or up to the first that fails; results and verdict are those of `Attempt` |
| Pagination.ProcessInstances.WaitForAll | bddframework/pkg/steps/graphql.go:115-129 | repeated attempts on one accumulator end with the results and verdict of `Retry` |
| Pagination.Attempt | bddframework/pkg/steps/graphql.go:115-129 | success implies the expected number of results; an error-free attempt without success leaves none; an attempt with an error keeps what was there |
| Pagination.PagesAreContiguous | bddframework/pkg/framework/graphql.go:58-71 | the pages from k to n are the server's list between their outer offsets, no gap, no repeat |
| Pagination.CleanPass | bddframework/pkg/framework/graphql.go:54-77 | a pass without error over N ids collects exactly ids[..min(N, pages*pageSize)], on top of whatever was there |
| Pagination.CleanPassSucceedsIff | bddframework/pkg/steps/graphql.go:121-129 | without stale results it succeeds iff N is the total, or pageSize divides the total and N is at least the total |
| Pagination.FailedPassLeavesPages | bddframework/pkg/framework/graphql.go:61-64 | a pass that fails at page f leaves exactly the pages before f in the results |
| Pagination.TwoCleanAttemptsSuffice | bddframework/pkg/steps/graphql.go:110-129 | against exactly the expected ids an error-free attempt succeeds iff it finds no stale results, and if not the next one does |
| Pagination.TwoCleanTicksEndTheWait | bddframework/pkg/framework/util.go:110-132 | any wait with two consecutive error-free attempts succeeds, whatever happened before |
| Pagination.SuccessIsGenuineIff | bddframework/pkg/steps/graphql.go:121-129 | a successful error-free attempt was right about the server iff it found no stale results |
| Pagination.StaleResultsFakeSuccess | bddframework/pkg/steps/graphql.go:110-129 | a failed attempt and a clean one report two ids where the server has one |
| Pagination.WaitFor | bddframework/pkg/framework/util.go:103-133 | the first tick at which the condition holds or an error condition fires decides; errors of the condition do not end the wait |
| ScenarioContext.OrderFreeIffNothingLeft | bddframework/pkg/steps/data.go:162-169 | for brace-free names and values of any kind: all map orders give the one simultaneous substitution and leave no known placeholder, iff one simultaneous pass leaves none |
| ScenarioContext.NothingLeftIffNoCapture | bddframework/pkg/steps/data.go:161-169 | for brace-free values a simultaneous pass leaves a known placeholder iff the text captures one |
| ScenarioContext.OrderFreeIffNoCapture | bddframework/pkg/steps/data.go:162-169 | so for brace-free values all map orders give the simultaneous substitution and leave no known placeholder, iff the text captures none |
| ScenarioContext.MoreVariablesLeaveMore | bddframework/pkg/steps/data.go:164-166 | what some variables leave behind, all variables leave behind |
| ScenarioContext.ReplaceInOrderIsSubst | bddframework/pkg/steps/data.go:163-166 | any distinct variables replaced in any order are one simultaneous substitution of them, if that of the whole context leaves no placeholder; values of any kind |
| ScenarioContext.ReplaceAllIsSubst | bddframework/pkg/steps/data.go:165 | replacing one placeholder textually is the substitution of that variable |
| ScenarioContext.SubstOneMore | bddframework/pkg/steps/data.go:164-166 | substituting some variables and then one more is substituting all of them at once, if that leaves no placeholder; values of any kind |
| ScenarioContext.SubstLeavesNothing | bddframework/pkg/steps/data.go:161-169 | a known placeholder left in the result comes from a capture |
| ScenarioContext.CapturesLeavePlaceholder | bddframework/pkg/steps/data.go:161-169 | every capture leaves a known placeholder in the simultaneous result |
| ScenarioContext.UnnestedTextHasNoCapture | bddframework/pkg/steps/data.go:161-169 | a text with a closing brace between any two opening ones captures nothing, for any context |
| ScenarioContext.Data.ResolveWithScenarioContext | bddframework/pkg/steps/data.go:162-169 | the loop replaces the variables in some map order; the result is the simultaneous substitution if that leaves no placeholder, for brace-free values if the text captures none |
| ScenarioContext.CaptureMakesTheOrderMatter | bddframework/pkg/steps/data.go:162-169 | "{a{b}}" gives "y" or "{ax}" depending on the order |
| ScenarioContext.BracedValueMakesTheOrderMatter | bddframework/pkg/steps/data.go:162-169 | a value that is another placeholder gives two results depending on the order |
| ScenarioContext.BracedNameMakesTheOrderMatter | bddframework/pkg/steps/data.go:162-169 | so does a name whose placeholder starts with another placeholder |
| OrderAgreement.OrdersAgreeIff | bddframework/pkg/steps/data.go:162-169 | for brace-free names and values: all map orders give the same result iff no pair of braces encloses placeholders that resolve to the name of a variable whose own placeholder is not among them |
| OrderAgreement.AgreementIsSubst | bddframework/pkg/steps/data.go:162-169 | for those contexts the orders agree with one another iff they all give the simultaneous substitution |
| OrderAgreement.OrdersGiveSubst | bddframework/pkg/steps/data.go:162-169 | without such braces every order gives the simultaneous substitution, also where known placeholders are left |
| OrderAgreement.ProperCaptureTellsOrdersApart | bddframework/pkg/steps/data.go:162-169 | with such braces two of the orders give different results |
| MavenSettings.PassOnShown | bddframework/pkg/framework/maven.go:209-222 | one textual pass over a shown document is the insertion at its markers if its texts are free of the marker, and otherwise yields a longer text |
| MavenSettings.StepTracks | bddframework/pkg/framework/maven.go:215-224 | one iteration of the loop adds the repository to both lists and to mirrorOf, exactly as long as the texts are safe, and keeps every closing marker |
| MavenSettings.ListsSnoc | bddframework/pkg/framework/maven.go:215-223 | adding a repository appends one entry to each list, and one to mirrorOf iff it is ignored in the mirror |
| MavenSettings.AddAllTracks | bddframework/pkg/framework/maven.go:204-227 | the loop over all repositories ends in the structured document iff the input is safe |
| MavenSettings.GeneratedIsDocumentIffSafe | bddframework/pkg/framework/maven.go:204-277 | the generated text is the print of the structured document iff no id or URL contains a marker that a later pass looks for |
| MavenSettings.MarkerAsUrlBreaksDocument | bddframework/pkg/framework/maven.go:217 | a closing tag as URL of a repository that is not the last breaks it |
| SettingsReadBack.RepositoriesReadBack | bddframework/pkg/framework/maven.go:204-242 | for ids and URLs without "<": between "<repositories>" and "</repositories>" of the generated text there is one "<repository>" per repository, in order, whose id and name read as the repository's id, whose url reads as its URL, with the default layout and both policies enabled |
| SettingsReadBack.PluginRepositoriesReadBack | bddframework/pkg/framework/maven.go:204-242 | the same for the plugin repositories |
| SettingsReadBack.MirrorUrlReadsBack | bddframework/pkg/framework/maven.go:204-251 | with a mirror URL, the url behind "<mirror>" reads as that URL |
| SettingsReadBack.MirrorOfReadsBack | bddframework/pkg/framework/maven.go:220-223 | and mirrorOf reads as "external:*" and one "!id" per ignored repository, in order, joined by commas |
| SettingsReadBack.NoMirror | bddframework/pkg/framework/maven.go:207-210 | without a mirror URL the text has no "<mirror>" |
| SettingsReadBack.ActiveProfileReadsBack | bddframework/pkg/framework/maven.go:212-276 | with repositories, the active profile and the id of the profile that holds the lists read alike, "default" |
| MavenSettings.Settings.SetMirrorURL | bddframework/pkg/framework/maven.go:190-193 | only the mirror URL changes |
| MavenSettings.Settings.AddRepository | bddframework/pkg/framework/maven.go:195-202 | the repository is appended, nothing else changes |
| MavenSettings.Settings.Generate | bddframework/pkg/framework/maven.go:204-227 | the passes produce the structured document iff the input is safe |
| TagFilter.HasTagLoop | bddframework/pkg/gherkin/feature.go:183-191 | true iff some tag has the name, "@" ignored |
| TagFilter.MatchesClause | bddframework/pkg/gherkin/feature.go:168-177 | the comma loop decides the disjunction that the text denotes, and panics iff an atom is empty |
| TagFilter.MatchesTags | bddframework/pkg/gherkin/feature.go:165-181 | the function decides the formula that the filter text denotes, and panics iff it denotes none |
| TagFilter.ParseIsHomomorphic | bddframework/pkg/gherkin/feature.go:165-181 | for all texts f and g, f + " && " + g denotes the conjunction, and is well-formed iff both are |
| TagFilter.MatchesAnd | bddframework/pkg/gherkin/feature.go:165-181 | evaluating f + " && " + g is evaluating both |
| TagFilter.ParsePrint | bddframework/pkg/gherkin/feature.go:165-181 | printing a formula with safe tag names and reading it gives the formula back |
| TagFilter.MatchesPrinted | bddframework/pkg/gherkin/feature.go:165-181 | evaluating a printed formula gives its truth value |
| TagFilter.TagMatchesItsName | bddframework/pkg/gherkin/feature.go:165-191 | the filter "@n" on a scenario tagged "@m" gives n == m |
| TagFilter.TagText | bddframework/pkg/gherkin/feature.go:165-191 | on tags "@" + name, the filter "@n" decides whether n is among the names, and "~@n" whether it is not |
| TagFilter.TwoTagsText | bddframework/pkg/gherkin/feature.go:165-191 | "@n,@m" decides whether either name is there, "@n && @m" whether both are |
| TagFilter.MatchesByName | bddframework/pkg/gherkin/feature.go:165-191 | a printed formula decides on the names: in every clause a wanted name is there or an unwanted one is not |
| Selection.SelectionComposes | bddframework/pkg/gherkin/feature.go:150-162 | selecting by f and then by g is selecting by the appended filter, order kept; the appended filter is malformed iff a part is |
| Selection.Feature.ApplyTagFilter | bddframework/pkg/gherkin/feature.go:150-162 | the scenarios become exactly the selected ones in order; the empty filter keeps all; panic iff the filter is malformed and there is a scenario |
| Selection.FilterFeatures | bddframework/pkg/gherkin/feature.go:141-148 | every collected feature is returned once, filtered |
| Selection.ParseFeatures | bddframework/pkg/gherkin/feature.go:53-72 | exactly the features that no earlier one shares its name with are kept, with their selected scenarios |
| Selection.MatchesScenariosWithTags | bddframework/pkg/gherkin/matcher.go:37-44 | true iff some scenario matches; panic iff there is a scenario and the filter is malformed |
| Selection.MatchingFeatureWithTags | bddframework/pkg/gherkin/matcher.go:27-34 | true iff some scenario of some feature matches |
| Selection.NeedsCli | testbdd/executor/bdd_executor.go:87-96 | the CLI is needed iff some scenario of the first feature of its name is selected by the run filter and tagged "@cli"; panic iff the filter is malformed and such a feature has a scenario |
| Selection.Options.AppendTag | testbdd/executor/bdd_executor.go:137-142 | the tag is appended to the filter text |
| Selection.Options.ConfigureTags | testbdd/executor/bdd_executor.go:117-135 | the filter text becomes the effective one |
| Selection.EffectiveFilter | testbdd/executor/bdd_executor.go:117-142 | the effective filter selects exactly what the user's filter selects and what meets the smoke, performance and disabled literals added |
| Selection.EffectiveByName | testbdd/executor/bdd_executor.go:117-142 | on tags "@" + name: what the user's filter selects, with "smoke" in a smoke run, otherwise with "performance" exactly in a performance run unless the text mentions it, and without "disabled" unless the text mentions it |
| Selection.DisabledNeverRuns | testbdd/executor/bdd_executor.go:131-134 | unless the user's text contains "@disabled", no selected scenario is tagged so |
| Selection.SelectedIff | testbdd/executor/bdd_executor.go:117-142 | the same for the selected scenarios of a list |
| Selection.DefaultRunsOnlyDisabled | testbdd/executor/bdd_executor.go:55-60 | without a tag option the filter is "@disabled", and exactly the disabled scenarios that meet the run mode are selected |
| Selection.LongerTagEnablesDisabled | testbdd/executor/bdd_executor.go:131-134 | a user filter on a longer tag starting with "@disabled", wanted or unwanted, selects disabled scenarios that meet it, in every run mode |
| NamespaceHistory.History.AddNamespace | bddframework/pkg/framework/namespace.go:125-127 | the name and a newline are appended to the file |
| NamespaceHistory.History.RemoveNamespace | bddframework/pkg/framework/namespace.go:129-140 | the file is rewritten without the entries equal to the name |
| NamespaceHistory.History.PruneNamespaces | bddframework/pkg/framework/kubernetes.go:662-680 | every non-empty entry recorded at the start is tried once, in order, and the file is cleared |
| NamespaceHistory.AddRecords | bddframework/pkg/framework/util.go:300-311 | an append to a terminated file appends to the list |
| NamespaceHistory.ReadBackIff | bddframework/pkg/framework/namespace.go:96-104 | the non-empty entries are the recorded names iff all of them are non-empty single lines |
| NamespaceHistory.RemoveRecordsIff | bddframework/pkg/framework/namespace.go:129-140 | removing gives the list without the equal names iff the name is not empty or nothing is recorded |
| NamespaceHistory.FileRefinesList | bddframework/pkg/framework/namespace.go:96-140 | over every run of additions, removals and prunings the file stays newline-terminated and its non-empty entries are the list |
| NamespaceHistory.HistoryCounts | bddframework/pkg/framework/namespace.go:96-140 | over every run the file's non-empty entries hold a name as often as it was added since it was last removed or the history was last pruned |
| NamespaceHistory.EmptyNameGluesNames | bddframework/pkg/framework/namespace.go:129-140 | after removing the empty name the next name is glued to the last |
| DataTable.Width | bddframework/pkg/framework/util.go:138-148 | the column width is the least that fits the header and every cell |
| DataTable.ColumnWidths | bddframework/pkg/framework/util.go:138-148 | the map of maximal sizes holds the width of every key |
| DataTable.GetWhitespaceStr | bddframework/pkg/framework/util.go:186-192 | as many spaces as asked for, none for a negative size |
| DataTable.PrintDataMap | bddframework/pkg/framework/util.go:136-184 | the writer gets exactly the table's strings in order; if it fails, those before the refused one and an error |
| DataTable.CellsFit | bddframework/pkg/framework/util.go:154-174 | padding is never negative |
| DataTable.LineLayout | bddframework/pkg/framework/util.go:150-180 | every line has length sum(width + 4) + 1 and has the i-th cell at the same offset |
| DataTable.TableLayout | bddframework/pkg/framework/util.go:150-180 | the table is one header line and one line per row, all of that length |
| DataTable.ReadBackIff | bddframework/pkg/framework/util.go:136-184 | every header and cell is recovered from the text and the widths iff it does not end in a space |
| DataTable.PrintedText | bddframework/pkg/framework/util.go:136-184 | if no text has a newline: the k-th line ends in its only newline, and has in each column the header or the map's value, nothing for a missing key, padded with spaces, and then "  | " |
| ImageName.SortStrings | bddframework/pkg/steps/image_registry.go:180-182 | the array ends up sorted in place |
| ImageName.LeqByFirstDifference | bddframework/pkg/steps/image_registry.go:181 | the order of strings is by the first difference, a prefix first |
| ImageName.OrderedUnique | bddframework/pkg/steps/image_registry.go:181 | there is one ordered arrangement of a multiset of strings |
| ImageName.SortedAlikeIff | bddframework/pkg/steps/image_registry.go:181 | two lists are sorted alike iff they are permutations of each other |
| ImageName.SanitizeOptions | bddframework/pkg/steps/image_registry.go:190-199 | the options are sanitised one by one and sorted |
| ImageName.SanitizeIsCharwise | bddframework/pkg/steps/image_registry.go:194-195 | sanitising maps characters one by one, "=" to the image of "-" |
| ImageName.MavenCommandConfig.GetProjectImageName | bddframework/pkg/steps/image_registry.go:174-205 | the name of the configuration; the profiles are left sorted in place and nothing else changes |
| ImageName.NameIsJoined | bddframework/pkg/steps/image_registry.go:174-205 | the name is the base, the profiles in order, "native" if the flag is set, and the sanitised options in order, joined by dashes |
| ImageName.NameIsCanonical | bddframework/pkg/steps/image_registry.go:174-205 | any permutation of profiles and any permutation of options give the same name |
| ImageName.NameAlikeIff | bddframework/pkg/steps/image_registry.go:174-205 | for all configurations: two names are equal iff the texts between the dashes of their parts are the same, in order |
| ImageName.NameAlikeIffParts | bddframework/pkg/steps/image_registry.go:174-205 | without dashes in the parts, the names are equal iff the parts are |
| ImageName.PartsAlikeIff | bddframework/pkg/steps/image_registry.go:174-203 | the parts are equal iff base, flag, profiles and sanitised options are, as multisets, for configurations of the same shape and for those that are clear of each other |
| ImageName.NameTellsConfigurationsApart | bddframework/pkg/steps/image_registry.go:174-205 | without dashes, and if no profile or option reads "native" and no profile of the one is an option of the other: names are equal iff base, flag, profiles and sanitised options are |
| ImageName.NameTellsUsualConfigurationsApart | bddframework/pkg/steps/image_registry.go:174-205 | for one project, profiles that are non-empty, dash-free and not "native", and sanitised options of one dash and a text without empty piece: names are equal iff flag, profiles and sanitised options are |
| ImageName.PiecesTellOptions | bddframework/pkg/steps/image_registry.go:190-203 | the texts between the dashes of such sanitised options determine the options |
| ImageName.NativeProfileCollides | bddframework/pkg/steps/image_registry.go:186-188 | the native flag and a profile named "native" give the same name |
| ImageName.DashedProfileCollides | bddframework/pkg/steps/image_registry.go:183 | a profile "x-y" and two profiles "x" and "y" give the same name |
| ImageName.ProfileOptionCollides | bddframework/pkg/steps/image_registry.go:183-201 | a profile and an option of the same text give the same name |

## Left out

- OrderFreeIffNothingLeft: assumes that names of the context contain no brace; `BracedNameMakesTheOrderMatter` shows why. It decides agreement with the simultaneous substitution; `OrdersAgreeIff` decides agreement of the orders with one another.
- OrdersAgreeIff: assumes that names and values contain no brace.
- OrderFreeIffNoCapture: assumes that names and values contain no brace; for values with braces `OrderFreeIffNothingLeft` has the condition.
- EffectiveFilter: assumes that the user's filter text is well-formed; on a malformed one the code panics, which `MatchesTags` and `SelectionComposes` cover.
- ParsePrint: assumes tag names without "@", "," and "&&", not ending in white space, and not starting with "~" unless negated.
- NameTellsUsualConfigurationsApart: assumes one project, dash-free profiles and options with a leading dash; `NameAlikeIff` has the condition for all configurations.
- OneAtATimeDropsOnlyGone: assumes one teardown at a time; `OverlappingTeardownsDropARunningService` shows why.
- InstallsAreConserved: assumes at most one busy thread per namespace; `NeverStaleConserves`, `NothingLostIffNeverStale` and `ConservedIffDriftCancels` cover overlapping runs.
- NothingLostIffNeverStale: assumes that no teardown starts in the namespace; with teardowns a later store can bring back what an earlier one lost, and `ConservedIffDriftCancels` has the condition.
- FileWrittenTwiceIffSectionsOverlap: assumes that no other registered container has the same file name; `SharedFileWrittenFourTimes` shows why, and `FilesSharedIff` says when names collide.
- NameTellsConfigurationsApart: assumes parts without dashes and configurations that are clear of each other; `NameTellsUsualConfigurationsApart` covers options that start with a dash, and `NameAlikeIff` has the condition for all configurations.
- RepositoriesReadBack: assumes ids and URLs without "<"; `GeneratedIsDocumentIffSafe` has the exact condition for the document as a whole.
- PrintedText: assumes keys and values without newline; `ReadBackIff` needs no such guard.
- FileRefinesList: assumes non-empty names on one line; `ReadBackIff` and `RemoveRecordsIff` give the exact conditions.
- Log collector: one start and one stop per namespace, unique container names per pod; errors of writing a log file and of listing pods only skip a step; the maps are values of a state, so aliasing and memory-level data races are not captured.
- Cluster-wide services: in the step system the range over the registry may end before it has visited every service, which only adds runs.
- Registries: each load and store is atomic and the maps are values, so the slices shared by `append` are not captured; cluster-wide services may be added between the passes of a teardown, not in the middle of one.
- HTTP runner: a request and its answer are one step; the load on the server and the clock are not modelled.
- Pagination: the substitution of "$offset" in the query text, timeouts as time, and negative sizes; a page size of at least one is required because the code divides by it.
- Strings are sequences of characters: lengths are counted in characters, not in bytes of an encoding, and the lexicographic order is by character.
- sort.Strings is modelled by an insertion sort in place; only its result is used.
- Unicode lower-casing is a parameter; XML escaping does not take place in the code and is not modelled.
- The writer of `PrintDataMap` takes a number of strings and then fails; partial writes of one string are not modelled.
- File system errors of the namespace history: every read and write succeeds.
- Step registration, flag binding, the clients of Kubernetes, OLM, GraphQL and HTTP, container and Maven commands, logger set-up, event fetching, Gherkin parsing, header parsing and the freshness of generated namespace names.
