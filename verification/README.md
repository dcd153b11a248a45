# The tenant operator: a Dafny model of its reconcile protocol and package handling

The operator turns each `Tenant` object into a package in Porch, a versioned store of configuration
packages. One reconcile builds the wanted package, selects the package's latest revision (or creates
`v1`), compares, creates the next revision when the latest may no longer be changed, writes the
documents, proposes and approves. Every call may fail, and the next reconcile starts again from the
store. This project models that protocol and the package handling below it, and proves what holds of
every run. `dafny verify dfyconfig.toml` checks everything.

## How the modules fit together

- `Protocol` is the step machine of one tenant: store, tenant object, program counter. A call is
  answered, fails without effect, or takes effect while its answer is lost; the last two cut the run.
  `Safety`, `Superseded`, `Quiescence`, `Judgement`, `Convergence`, `Outcome`, `Deletion` and `Liveness`
  prove theorems about all runs of it, `Isolation` and `Tenancy` about one tenant among others in one
  server.
- `Reconciler`, `PkgRev` and `Porch` are the imperative code, with objects, loops and early returns.
  Each method is proved to take the machine along the events it returns, so the theorems about runs
  are theorems about this code: `Tenancy.ReconcileTenant` puts both together for a whole call. An early
  return must be accounted for: without a fault of a service there is none but those the contract of
  `Reconciler.Reconcile` names.
- `AppResource` holds the heap side of the resource list: the comparison that deletes from a slice
  while it walks it, and the merge that moves nodes in place. `SliceScan` is the comparison on values,
  proved to be a simple one whose answers `LookUp` characterises.
- `PkgUtil` reads and writes package buffers; `Merging`, `WalkOrder` and `TenantPackage` are about the
  wanted package, `TwinPackages` about those of sources with a document twice; `Naming`, `Paths` and
  `Strings` are names and the parts of Go's `path/filepath`, `strings` and `sort` used.
- `Numerals` is revision numbering in 64-bit arithmetic. `Fields` sets fields of YAML documents, as
  text and as nodes on the heap.

Go map iteration is an arbitrary choice in every loop that has one. Results are proved not to depend on
it, or where they can, exactly when (`WalkOrder`, `TwinPackages`). Clocks, logging and the network are absent; nondeterministic outcomes stand for the
latter.

## What the server and the environment are trusted with

- A create gives a fresh non-empty name and lifecycle Draft; an update stores what it is given; a list
  holds every revision once. The initial files of a Draft are arbitrary, but parse into pairwise
  distinct documents (needed for convergence only).
- Convergence is about wanted packages whose documents are distinct, and it asks that the comparison
  with the highest revision found be right. That is exactly what is needed (`Outcome.RunConvergesIff`),
  it is so for every revision with distinct documents, and nothing is asked of lower revisions. It can
  fail when an earlier package had a document twice; see below.
- NotFound is answered to a list only for a package without revisions, and a package stays below
  2^64 - 1 revisions. Both conditions are shown necessary (`Safety.NotFoundIsSafeIff`,
  `Safety.CapacityIsNeeded`).
- Runs for one tenant do not overlap, and only the operator writes its packages.
- `Porch.Server` and `Reconciler.Cluster` are models of remote services, as is `Fields.Library` of the
  YAML library: their contracts state these assumptions, and their ghost fields count the calls that
  went wrong and record what was found.

## Where the code does less than one may expect

- `IsEqual` is right for every wanted list exactly when the actual documents are pairwise distinct.
  With a document twice it still says yes in some orders, panics in others, and says no in others,
  and then one revision more is created; the exact conditions are `LookUp.IsEqualYesIff`, and for
  distinct wanted documents `DistinctYesIff` and `DistinctPanicIff`.
- So a document twice in a published package outlives its repair (`TwinPackages`): a source named
  after `namespace` can make every later run panic, repaired or not, and one named before it can leave
  the tenant Available with the second copy still there. It can depend on the order in which Go walks
  a map whether a run reports or panics. What counts are the retargeted documents: two that differ in
  their namespace only become such twins.
- A revision left Proposed when the wanted package changes stays Proposed for good. The numbers are
  1 to n, but not all lower revisions are Published (`Superseded`).
- A source package called `namespace` is silently replaced by the generated one.
- Documents whose paths climb with `..` out of their sub-package onto another's file are written in
  the order of a map walk (`WalkOrder`).
- A revision that reads as -1 has the largest number and is followed by `v0`; from 2^63 - 1 on the next
  revision is printed as a negative numeral.
- Replacement with a delimiter of several characters does not always read back
  (`Fields.DelimitedIsExactIff`).

## Model

| member | source | states |
|---|---|---|
| `Reconciler.Reconcile` | internal/controllers/tenant/reconciler.go:102-260 | one reconcile, with its early returns, its status updates and every call allowed to fail or to lose its answer, takes the tenant's machine from idle to idle along the events returned; the packages it builds are the merge of the retargeted source, as the server holds it, and the generated one; the tenant becomes Available only by a report at the end that did not fail. And when no call went wrong: a tenant that is gone is left alone; one marked for deletion is gone at the end and exactly the other packages' revisions are left; a live one becomes Available by a report, every call answered, unless its source cannot be parsed or retargeted, and then nothing changes, or a revision of its package cannot be compared with a package wanted |
| `Reconciler.Enter` | internal/controllers/tenant/reconciler.go:106-144 | the first two calls: the tenant is read and gets its finalizer; without a fault the run goes on exactly when the tenant is there |
| `Reconciler.Advance` | internal/controllers/tenant/reconciler.go:102-255 | the same up to the status update: at the report exactly when the condition will be Available |
| `Reconciler.AdvanceLive` | internal/controllers/tenant/reconciler.go:167-255 | the same for a live tenant that has its finalizer |
| `Reconciler.ReconcilePackage` | internal/controllers/tenant/reconciler.go:167-255 | a source that cannot be read, parsed or retargeted ends the run; else the package built from it is brought about; without a fault it ends there only because of the source or a comparison without an answer |
| `Reconciler.BuildFromServer` | internal/controllers/tenant/reconciler.go:167-195 | the package is built from the files the server holds of the source; without a fault there is none exactly when the source cannot be parsed or retargeted |
| `Reconciler.Cluster.UpdateStatus` | internal/controllers/tenant/reconciler.go:257-259 | the condition is stored, or not, or stored with the answer lost |
| `Reconciler.ReconcileDeletion` | internal/controllers/tenant/reconciler.go:146-165 | the deletion branch: delete every revision, then drop the finalizer, in that order; the condition is Unavailable exactly when the last call went wrong; without a fault exactly the other packages' revisions are left and the finalizer is gone |
| `Reconciler.ReconcileLive` | internal/controllers/tenant/reconciler.go:199-260 | from selection to report, over the store the calls really changed; without a fault it stops before its report only at a comparison without an answer |
| `Reconciler.Settle` | internal/controllers/tenant/reconciler.go:217-260 | a comparison that fails or panics ends the run; a yes skips the write; a no writes first; nothing else ends it without a fault |
| `Reconciler.BringUpToDate` | internal/controllers/tenant/reconciler.go:225-248 | a revision that is not a Draft is left alone and the next one is created; the write goes to a Draft; an error means that a call went wrong |
| `Reconciler.ComparePackages` | internal/controllers/tenant/reconciler.go:207-224 | the comparison sees the documents read from the revision and leaves the wanted ones as they are, annotations included |
| `Reconciler.CompareWithNodes` | pkg/appresource/resource.go:51-85 | the in-place comparison on fresh nodes answers as the comparison of texts does and changes no wanted document |
| `Reconciler.Conclude` | internal/controllers/tenant/reconciler.go:250-258 | the condition is Available only when approval succeeded, and the machine is then at its report |
| `Reconciler.Cluster.AddFinalizer` | internal/controllers/tenant/reconciler.go:134-144 | adds the finalizer, or fails without effect, or takes effect with its answer lost |
| `Reconciler.Cluster.RemoveFinalizer` | internal/controllers/tenant/reconciler.go:156-161 | an object marked for deletion goes with its finalizer |
| `PkgRev.PackageRevision.GetOrCreate` | pkg/pkgrev/pkgrev.go:94-143 | lists, selects the latest revision or creates `v1`, and reads its files, as the machine does; an error means that a call went wrong, and without one the revision and the files in hand are those of the server |
| `PkgRev.PackageRevision.FindLatest` | pkg/pkgrev/pkgrev.go:95-123 | the list call and the choice, NotFound taken for an empty list; without a fault there was nothing to list then |
| `PkgRev.PackageRevision.SelectLatest` | pkg/pkgrev/pkgrev.go:103-123 | the object selected is the first with the largest number among the package's own |
| `PkgRev.PackageRevision.OfPackage` | pkg/pkgrev/pkgrev.go:103-111 | keeps exactly the package's own revisions, in list order |
| `PkgRev.PackageRevision.Highest` | pkg/pkgrev/pkgrev.go:113-123 | a strictly larger number replaces the candidate, so the first of equals stays |
| `PkgRev.PackageRevision.CreateFirst` | pkg/pkgrev/pkgrev.go:126-138 | `v1` is created as a Draft and its files are read; an error means that a call went wrong |
| `PkgRev.PackageRevision.Create` | pkg/pkgrev/pkgrev.go:59-71 | the next revision is created as a Draft and its files are read into the object; an error means that a call went wrong |
| `PkgRev.PackageRevision.CreateNext` | pkg/pkgrev/pkgrev.go:59-67 | the new revision is the next one of the revision in hand, by string and by number |
| `PkgRev.PackageRevision.Delete` | pkg/pkgrev/pkgrev.go:73-92 | deletes what is listed of this package, in list order, until one call fails; without a fault exactly the other packages' revisions are left |
| `PkgRev.PackageRevision.DeleteListed` | pkg/pkgrev/pkgrev.go:82-90 | the loop stops at the first failed delete, and only there; when none fails all listed revisions of the package are gone and no other |
| `PkgRev.PackageRevision.DeleteNext` | pkg/pkgrev/pkgrev.go:82-90 | one round of it: another package's revision is passed over |
| `PkgRev.PackageRevision.GetResources` | pkg/pkgrev/pkgrev.go:145-169 | fresh nodes for exactly the documents of the files in hand, or an error when they do not parse |
| `PkgRev.PackageRevision.Update` | pkg/pkgrev/pkgrev.go:175-191 | the wanted documents are laid over the files in hand and stored under the revision in hand |
| `PkgRev.PackageRevision.Approve` | pkg/pkgrev/pkgrev.go:193-231 | no error means that the machine is at its report: Draft goes through Proposed, Published needs no call; when the server holds the revision in hand an error means that a call went wrong |
| `PkgRev.PackageRevision.ProposeDraft` | pkg/pkgrev/pkgrev.go:195-208 | the Draft is read again and proposed; an error means that a call went wrong, else the server holds the Proposed revision in hand |
| `PkgRev.PackageRevision.GetPackageRevisionResources` | pkg/pkgrev/pkgrev.go:233-246 | reads the files of the revision in hand |
| `PkgRev.UpdateApproval` | pkg/pkgrev/util.go:38-83 | approves a Proposed revision, accepts a Published one, refuses a Draft |
| `PkgRev.PutApproval` | pkg/pkgrev/util.go:66-82 | the approval itself |
| `PkgRev.SeenCreate` | pkg/pkgrev/pkgrev.go:59-67 | creating an object with the printed successor is the machine's step of creating the next number |
| `Porch.Server.List` | pkg/pkgrev/pkgrev.go:74-80 | every revision once in some order, NotFound, or another error; an error, and NotFound although there are revisions, are counted as faults |
| `Porch.Server.Create` | pkg/pkgrev/pkgrev.go:60-64 | a fresh non-empty name, lifecycle Draft, arbitrary initial files |
| `Porch.Server.UpdateResources` | pkg/pkgrev/pkgrev.go:184-187 | stores the files it is given and nothing else |
| `Porch.Server.Update` | pkg/pkgrev/pkgrev.go:204-208 | stores the metadata it is given and keeps the files |
| `Porch.Server.Delete` | pkg/pkgrev/pkgrev.go:86-88 | removes that one revision |
| `Safety.EveryRunIsSafe` | internal/controllers/tenant/reconciler.go:102-260 | from the first event on, in every run with failures anywhere: numbers are distinct, at most one revision is a Draft and it is the highest, and the numbers are exactly 1 to n until the tenant is marked for deletion |
| `Safety.RunKeepsInv` | internal/controllers/tenant/reconciler.go:102-260 | the full invariant of store, tenant and program counter is kept by every run |
| `Safety.StepKeepsInv` | internal/controllers/tenant/reconciler.go:102-260 | and by every step, answered, failed or lost |
| `Safety.CreateNextKeepsInv` | pkg/pkgrev/pkgrev.go:59-67 | the next revision is numbered one above the count, hence above every other |
| `Safety.CreateFirstKeepsInv` | pkg/pkgrev/pkgrev.go:126-138 | `v1` is created only in an empty package |
| `Safety.LatestFromIsFirstMaximum` | pkg/pkgrev/pkgrev.go:113-123 | selection returns the first revision in list order with the maximum positive number, and the default exactly when there is none |
| `Safety.MatchingMembers` | pkg/pkgrev/pkgrev.go:103-111 | the filter keeps exactly the package's own revisions, each once |
| `Safety.LatestIsTop` | pkg/pkgrev/pkgrev.go:113-142 | in a store that satisfies the invariant the selected revision is the highest, and none is selected only when there is none |
| `Safety.StepEvolves` | pkg/pkgrev/pkgrev.go:175-231 | no step writes the files of a Proposed or Published revision, moves a lifecycle back, or writes any revision but the highest |
| `Safety.RunEvolves` | pkg/pkgrev/pkgrev.go:175-231 | over whole runs: package and number fixed, lifecycle monotone, files final once Proposed, until the revision is deleted |
| `Safety.SupersededForever` | internal/controllers/tenant/reconciler.go:225-244 | a revision that was superseded is never written again: one left Proposed stays Proposed |
| `Superseded.LowerPublishedIff` | internal/controllers/tenant/reconciler.go:225-244 | over runs without a deletion every lower revision is Published if and only if every next revision was created with a Published one in hand |
| `Superseded.SupersededProposedExists` | internal/controllers/tenant/reconciler.go:225-244 | for any two packages with different documents there is a history that leaves the first Proposed below the second, which is Published |
| `Superseded.CutAfterPropose` | pkg/pkgrev/pkgrev.go:204-210 | a new tenant's first run can be cut after it proposed, with the documents asked for in the revision |
| `Safety.NotFoundIsSafeIff` | pkg/pkgrev/pkgrev.go:95-101 | a list answered NotFound counts as empty, and the numbers stay distinct exactly when the package really was empty |
| `Safety.NotFoundLeavesRevisions` | pkg/pkgrev/pkgrev.go:75-80 | the same answer to a deletion drops the finalizer with every revision still there |
| `Safety.CapacityIsNeeded` | pkg/pkgrev/util.go:32-36 | creating the next revision keeps the numbers positive and distinct exactly below 2^64 - 1 revisions |
| `Safety.RemoveFinalizerKeepsInv` | internal/controllers/tenant/reconciler.go:156-164 | the finalizer goes only from an empty package |
| `Protocol.RunAppend` | internal/controllers/tenant/reconciler.go:102-260 | runs compose: a run cut anywhere and a later run are one run |
| `Outcome.RunConvergesIff` | internal/controllers/tenant/reconciler.go:186-259 | from every state between two runs of a live tenant with any files in the highest revision, a fault-free run for distinct documents ends within thirteen calls, and at its report with the package converged if and only if the comparison with those files is right; on a wrong yes it reports all the same, on a failure or panic it ends with the store unchanged |
| `Convergence.FaultFreeRunConverges` | internal/controllers/tenant/reconciler.go:186-259 | from every state between two runs of a live tenant in which the comparison with the highest revision, if there is one, is right: any fault-free run reports within fourteen calls; then the highest revision is Published with exactly the wanted documents, at most one revision was touched, and one was added exactly when needed |
| `Judgement.JudgedIff` | pkg/pkgrev/pkgrev.go:145-169 | for distinct wanted documents the comparison is right if and only if the files parse, it does not panic, and a yes is not given to other documents |
| `Judgement.JudgedByDocuments` | pkg/appresource/resource.go:51-85 | the same by the documents: those of the package are distinct, or no element runs out and they are not taken for the wanted ones |
| `Judgement.CompareCorrectIff` | pkg/pkgrev/pkgrev.go:145-169 | the comparison with a package is right for every wanted list if and only if its files parse and its documents are distinct |
| `Judgement.CompareReadable` | pkg/appresource/resource.go:51-85 | for files with distinct documents the comparison is exactly equality of documents without annotations |
| `Judgement.WriteWanted` | pkg/pkgutil/pkgutil.go:97-128 | after a write the files are readable and hold the wanted documents |
| `Judgement.RunKeepsContent` | internal/controllers/tenant/reconciler.go:217-248 | over every run for distinct documents: the comparison with the highest revision stays right, and past the comparison or write the revision in hand holds the wanted documents |
| `Judgement.RunKeepsTop` | internal/controllers/tenant/reconciler.go:217-248 | runs for any packages with distinct documents keep the comparison with the highest revision right where it was right |
| `Judgement.RunKeepsReadable` | internal/controllers/tenant/reconciler.go:217-248 | and leave the highest revision with distinct documents; nothing is asked of lower ones |
| `Convergence.LiveRunReports` | internal/controllers/tenant/reconciler.go:199-259 | the same from any point inside a live run whose comparison, if still to come, will be right |
| `Convergence.DoProgress` | internal/controllers/tenant/reconciler.go:199-259 | every answered call brings a live run strictly closer to its report, a comparison if it is right |
| `Convergence.DoSinceStart` | internal/controllers/tenant/reconciler.go:217-248 | what a run has changed so far: nothing before it decided, one revision after |
| `Convergence.SettledForever` | internal/controllers/tenant/reconciler.go:217-259 | once the highest revision is Published with the wanted documents, no sequence of runs for the same documents, in any order and faulty or not, writes to the store |
| `Quiescence.RestingForever` | internal/controllers/tenant/reconciler.go:217-259 | for any documents, distinct or not: while the comparison with the Published highest revision says yes to every package built, no sequence of runs writes; nor when it panics every time, and then none is ever at its report |
| `Quiescence.LooksDecide` | internal/controllers/tenant/reconciler.go:199-238 | a fault-free run over a Published highest revision is at its report, about to create a revision, or over, exactly as the comparison says yes, no, or fails or panics |
| `Quiescence.WrittenPackageRestsIff` | internal/controllers/tenant/reconciler.go:217-259 | a package written and published is left alone and reported by the next fault-free run for it if and only if its twins fit the order in which they are read back |
| `TwinPackages.FileVerdict` | internal/controllers/tenant/reconciler.go:186-224 | what the comparison says of a tenant whose source is one file, for any documents written and any wanted now: a look-up in the order of the walk at the build and of the names at the write |
| `TwinPackages.TwinSourceVerdict` | internal/controllers/tenant/reconciler.go:186-224 | a source file with one document twice in a row: the comparison with the written package says yes exactly when the source comes before `namespace` and the map walk takes it first, and panics else |
| `TwinPackages.TwinSourceRun` | internal/controllers/tenant/reconciler.go:186-259 | so a fault-free run over it reports in that case and ends without a report in all others |
| `TwinPackages.LateTwinSourceNeverReports` | internal/controllers/tenant/reconciler.go:186-259 | and when it comes after `namespace`, no sequence of runs ever reports or writes again |
| `TwinPackages.RepairedSourceNeverReports` | internal/controllers/tenant/reconciler.go:186-259 | nor when the source has been repaired since |
| `TwinPackages.HiddenTwinVerdict` | internal/controllers/tenant/reconciler.go:186-224 | a published source file d, e, d that was repaired to d, e and comes before `namespace`: walked first, the comparison says yes to other documents |
| `TwinPackages.HiddenTwinStays` | internal/controllers/tenant/reconciler.go:186-259 | so a fault-free run is at its report with the second d still in the package |
| `TwinPackages.ReadsBackAs` | pkg/pkgutil/pkgutil.go:18-159 | a package is read back in the order of any sorted list with the same groups |
| `Convergence.ReportSettles` | internal/controllers/tenant/reconciler.go:250-259 | a report leaves the package in that settled state |
| `Convergence.AvailableMeansPublished` | internal/controllers/tenant/reconciler.go:250-259 | wherever a run may report, the revision in hand is the highest and Published in the store |
| `Convergence.CutApprovalIsCompleted` | pkg/pkgrev/util.go:56-81 | a run cut before approval is completed by the next: the same revision is Published and none is added |
| `Liveness.ConvergedForGood` | internal/controllers/tenant/reconciler.go:186-259 | when the comparison with the highest revision is right: after fourteen calls without a fault the package holds what is wanted for good, whatever fails later and in whatever order later runs build the same documents, with one revision added at most |
| `Liveness.EveryHistoryConverges` | internal/controllers/tenant/reconciler.go:102-260 | the same after every history of the tenant, runs cut anywhere and packages of any kind included, when the comparison with the highest revision there is then is right |
| `Liveness.HistoryIsReadable` | internal/controllers/tenant/reconciler.go:102-260 | which is so after every history whose packages had distinct documents, the same or not |
| `Liveness.FirstRunExists` | internal/controllers/tenant/reconciler.go:102-260 | a new tenant's first run can publish `v1` with exactly what was asked |
| `Liveness.ConvergingRunExists` | internal/controllers/tenant/reconciler.go:102-260 | from every state between two runs in which the comparison with the highest revision is right, a fault-free converging run exists |
| `Liveness.EndingRunExists` | internal/controllers/tenant/reconciler.go:146-165 | and so does a fault-free deletion run |
| `Liveness.ReportMeansConverged` | internal/controllers/tenant/reconciler.go:250-259 | runs that end in a report that took effect leave the highest revision Published with exactly the documents asked for, when the comparison with the highest revision they began with is right |
| `Liveness.ComparisonIsNotTheEnd` | internal/controllers/tenant/reconciler.go:217-224 | no run ends at its comparison when the comparison with the highest revision it began with is right |
| `Tenancy.ReconcileTenant` | internal/controllers/tenant/reconciler.go:102-260 | a call of `Reconcile` that makes the tenant Available leaves, in a server that holds any other packages, the highest revision of the tenant's package Published with exactly the package's Kptfile, the generated documents and the retargeted ones of the source, when the server is as trusted, the source's documents are distinct and the comparison with the highest revision found is right; and a call for a live tenant in which no call went wrong does make it Available and leaves that package |
| `Tenancy.AvailableMeansConverged` | internal/controllers/tenant/reconciler.go:250-259 | the same for any states and events as in the contract of `Reconcile` |
| `Tenancy.FaultFreeCallReports` | internal/controllers/tenant/reconciler.go:102-260 | so a reconcile as in the contract of `Reconcile` does not end at its comparison |
| `Safety.TruthfulIsTrusted` | pkg/pkgrev/pkgrev.go:95-101 | a run whose lists are true needs nothing else to be trusted but room for the next revision |
| `Tenancy.TenantConverges` | cmd/main.go:122-131 | convergence for one tenant inside any interleaving with others, once its own calls have gone fourteen times without a fault, when the comparison with its highest revision is right |
| `Tenancy.TenantGetsItsPackage` | internal/controllers/tenant/reconciler.go:167-259 | and what it then converges to is its source's documents, retargeted, with the generated ones |
| `Tenancy.TenantIsReady` | cmd/main.go:122-131 | after every interleaved history, runs cut anywhere and packages of any kind, a live idle tenant has all of the invariant that convergence asks for but that one comparison |
| `Tenancy.TenantAims` | internal/controllers/tenant/reconciler.go:186-189 | runs that build the tenant's package aim at the same documents whichever way the maps are walked |
| `Deletion.NothingCreatedWhileEnding` | internal/controllers/tenant/reconciler.go:146-165 | once the tenant is marked and no earlier live run is under way, no run creates or changes a revision until the tenant is gone |
| `Deletion.DeletionRemovesPrefix` | pkg/pkgrev/pkgrev.go:82-91 | a deletion run cut anywhere has removed a prefix of the listed revisions and nothing else |
| `Deletion.EachDeleteCounts` | pkg/pkgrev/pkgrev.go:86-88 | each delete that takes effect leaves one revision less, also when its answer is lost |
| `Deletion.FinalizerLast` | internal/controllers/tenant/reconciler.go:156-164 | in every run from the start the finalizer is removed only when no revision is left |
| `Deletion.DeletionEnds` | internal/controllers/tenant/reconciler.go:146-165 | a fault-free deletion takes exactly n deletes and four other calls, and ends with no revision and no tenant |
| `Naming.PackageNamesDiffer` | internal/controllers/tenant/reconciler.go:118 | two tenants have the same package exactly when they have the same name |
| `Isolation.StepProjects` | pkg/pkgrev/pkgrev.go:82-111 | a step on the shared store is, for its package, a step of the tenant's own machine, and touches only its package |
| `Isolation.OthersUnchanged` | pkg/pkgrev/pkgrev.go:84 | what one package's step does cannot be seen from another package |
| `Isolation.WorldStepProjects` | internal/controllers/tenant/reconciler.go:118-130 | one step of any worker is a step or nothing for each tenant |
| `Isolation.TenantsAreIsolated` | cmd/main.go:122-131 | every interleaving of any tenants' steps projects onto each tenant as a run of its own machine |
| `Isolation.RunProjects` | pkg/pkgrev/pkgrev.go:82-111 | a run over a store with other packages is, seen through the view, a run over its own |
| `Isolation.EveryTenantIsSafe` | cmd/main.go:122-131 | so the safety invariant holds of every tenant's package in every interleaving, from any store that has no revision of it |
| `AppResource.Resources.IsEqual` | pkg/appresource/resource.go:51-85 | on the heap: the verdict is that of the slot walk, a panic included; every compared node keeps its text and the receiver's list is unchanged |
| `AppResource.Resources.Copy` | pkg/appresource/resource.go:42-48 | fresh nodes with the same documents in the same order |
| `AppResource.Resources.Add` | pkg/appresource/resource.go:28-30 | appends, nothing else |
| `AppResource.LookUpAll` | pkg/appresource/resource.go:54-84 | the outer loop, whose slice has lost all matches of the documents before |
| `AppResource.LookUpNext` | pkg/appresource/resource.go:54-78 | one round of it, found, not found or out of range |
| `AppResource.LookUp` | pkg/appresource/resource.go:55-73 | the inner loop over a header frozen at its start, deletions included |
| `AppResource.VisitSlot` | pkg/appresource/resource.go:56-72 | one visit: clear both, compare, delete in place or run out of range |
| `AppResource.RemoveAt` | pkg/appresource/resource.go:71 | the shift inside the shared backing array, with the stale slot it leaves |
| `SliceScan.CompareIsLookUps` | pkg/appresource/resource.go:51-85 | for all lists the comparison is a simple one without slots: a look-up deletes every match that does not stand behind a deleted one, and runs out of range exactly when the element stands last and elsewhere too |
| `SliceScan.RoundIsLookUp` | pkg/appresource/resource.go:54-73 | the same of one round of the outer loop, stale slots included |
| `LookUp.IsEqualYesIff` | pkg/appresource/resource.go:51-85 | for lists of the same elements the answer is yes if and only if none occurs more than twice and, of two copies, everything between them is gone and something behind them is not when the element is first looked up |
| `LookUp.DistinctYesIff` | pkg/appresource/resource.go:51-85 | for distinct wanted elements and any list the answer is yes if and only if the elements are the same and, with everything looked up before gone, no two copies of an element are side by side and none of several stands last |
| `LookUp.DistinctPanicIff` | pkg/appresource/resource.go:71 | and a panic if and only if at some element, with all up to it there, what is left ends in it and has it elsewhere |
| `LookUp.IsEqualCorrectIff` | pkg/appresource/resource.go:51-85 | no panic and exactly multiset equality for every wanted list if and only if the actual documents are pairwise distinct |
| `LookUp.DistinctIsDecided` | pkg/appresource/resource.go:51-85 | on a list without duplicates the comparison never panics and decides multiset equality |
| `LookUp.BadOrderFails` | pkg/appresource/resource.go:69-72 | any list with a duplicate is not recognised as equal to some reordering of itself |
| `LookUp.TwinsPanic` | pkg/appresource/resource.go:71 | two equal documents against themselves run out of range |
| `LookUp.YesMeansSameElements` | pkg/appresource/resource.go:54-84 | a yes is never wrong about which documents there are, duplicates or not |
| `LookUp.YesMeansEnough` | pkg/appresource/resource.go:54-84 | nor given when a document is wanted oftener than it is there |
| `PkgUtil.ResourcesToPackageBuffer` | pkg/pkgutil/pkgutil.go:18-56 | for every iteration order of the map the buffer is the same, and an error comes exactly when reading fails |
| `PkgUtil.CollectKeys` | pkg/pkgutil/pkgutil.go:19-29 | the keys are the sorted KRM files, whatever the walk; which files those are: `Paths.IncludedByExtension` |
| `PkgUtil.ReadSucceedsIff` | pkg/pkgutil/pkgutil.go:18-56 | a buffer is read exactly when every KRM file parses |
| `PkgUtil.ExtensionDecides` | pkg/pkgutil/pkgutil.go:18-72 | what stands behind the last dot of a file's name decides: with `yaml`, `yml` or `json` a broken text makes the read fail and a write replaces it; with anything else it is not parsed, changes no read, and is kept as it is unless a document is written to that file |
| `PkgUtil.OtherFilesUnread` | pkg/pkgutil/pkgutil.go:22-24 | a file that holds no KRM documents is not read, whatever is in it |
| `PkgUtil.OtherFilesKept` | pkg/pkgutil/pkgutil.go:102-107 | nor is it changed, unless a document is written to it |
| `PkgUtil.GroupOfReadAll` | pkg/pkgutil/pkgutil.go:33-43 | under each path stand exactly that file's documents, in order |
| `PkgUtil.ResourceWriter.Write` | pkg/pkgutil/pkgutil.go:136-159 | for every iteration order the files written are the groups of the nodes by path, over what was there |
| `PkgUtil.WrittenAlone` | pkg/pkgutil/pkgutil.go:136-180 | a document goes to the file its path annotation names, else to one named after it, else to `unnamed.yaml` |
| `PkgUtil.CreateUpdatedResource` | pkg/pkgutil/pkgutil.go:97-128 | the overlay: other files kept verbatim, KRM files replaced by the groups of the nodes |
| `PkgUtil.OverlayReads` | pkg/pkgutil/pkgutil.go:102-127 | what was written can always be read again, whatever the files were before |
| `PkgUtil.ReadThenWrite` | pkg/pkgutil/pkgutil.go:18-128 | read then write gives the same files if and only if every KRM file is in printed form, not empty, and no document in it carries a path or index annotation |
| `PkgUtil.WriteThenRead` | pkg/pkgutil/pkgutil.go:18-159 | per path, written documents come back in their order, and the whole is ordered by path |
| `PkgUtil.WriteThenReadIsStableSort` | pkg/pkgutil/pkgutil.go:18-159 | write then read is a stable sort by path |
| `PkgUtil.StableSortUnique` | pkg/pkgutil/pkgutil.go:29 | and a list has only one stable sort |
| `PkgUtil.WrittenDocumentsReadBack` | pkg/pkgutil/pkgutil.go:61-159 | every document survives a write if and only if each one's path is a KRM file |
| `PkgUtil.WrittenAnnotationsReadBack` | pkg/pkgutil/pkgutil.go:61-159 | and then with every annotation but the path and the index |
| `Paths.IncludeFileJoin` | pkg/pkgutil/pkgutil.go:61-86 | a KRM path stays one below any directory, `..` and empty components included |
| `Paths.IncludedByExtension` | pkg/pkgutil/pkgutil.go:58-72 | a file whose name has a dot holds KRM documents if and only if `yaml`, `yml` or `json` stands behind the last dot, in any directory |
| `Paths.IncludedWithoutDot` | pkg/pkgutil/pkgutil.go:58-72 | one without a dot if and only if it is called `Kptfile`, in any directory |
| `Paths.TrailingSlash` | pkg/pkgutil/pkgutil.go:64 | slashes at the end of a path do not matter |
| `Paths.IncludeFileJoinConverseFails` | pkg/pkgutil/pkgutil.go:61-86 | the converse fails for the empty path below a directory named like a KRM file |
| `Paths.DirectoriesAreDisjoint` | pkg/pkgutil/pkgutil.go:86 | below one-component directories, clean relative paths meet only when both directory and path are the same |
| `Paths.CleanKeepsBase` | pkg/pkgutil/pkgutil.go:64 | cleaning a path keeps its base name unless that is a dot |
| `Paths.CleanFollows` | pkg/pkgutil/pkgutil.go:86 | cleaning a path keeps where it leads, from every directory |
| `Paths.CleanIsClean` | pkg/pkgutil/pkgutil.go:86 | and leaves no empty component, no dot and no step back over a name |
| `Paths.JoinFollows` | pkg/pkgutil/pkgutil.go:86 | a path joined below a directory leads, from anywhere, where it leads from there |
| `AppResource.MergePackages` | pkg/pkgutil/pkgutil.go:74-95 | for some order of the walk, the Kptfile and then every sub-package's documents moved below its directory, the nodes changed in place; each keeps its name, its body and every annotation but its path |
| `AppResource.AddSubpackage` | pkg/pkgutil/pkgutil.go:83-93 | each node of a sub-package is moved and added, in order, and keeps name, body and every annotation but its path |
| `Merging.MergedKeeps` | pkg/pkgutil/pkgutil.go:74-95 | the merged package holds its Kptfile and every document of the sub-packages in the order of the walk, each as it was but for its path |
| `Merging.MergeOrderDoesNotShow` | pkg/pkgutil/pkgutil.go:83-93 | when no file belongs to two sub-packages, the order of the walk shows neither in the files nor in the documents |
| `WalkOrder.WalkNeverShowsIff` | pkg/pkgutil/pkgutil.go:83-93 | the files written are the same for every order of the walk if and only if any two sub-packages print the same into each file whichever comes first |
| `WalkOrder.DistinctWalkNeverShowsIff` | pkg/pkgutil/pkgutil.go:83-93 | for distinct documents, annotations aside, if and only if no file belongs to two sub-packages |
| `TenantPackage.TenantWalkNeverShowsIff` | internal/controllers/tenant/reconciler.go:186-189 | for a tenant's package, if and only if no document of the source climbs onto a generated file |
| `Merging.CleanSubpackagesAreDisjoint` | pkg/pkgutil/pkgutil.go:86 | one-component names and clean relative paths are enough for that |
| `Merging.ClimbingShowsTheOrder` | pkg/pkgutil/pkgutil.go:83-93 | without it the order shows: two documents that climb to one file |
| `Merging.ClimbingUndoesJoin` | pkg/pkgutil/pkgutil.go:86 | a path that climbs leaves its sub-package's directory |
| `Merging.MergedPackageIsKept` | pkg/pkgutil/pkgutil.go:74-95 | every document of a merged package goes to a KRM file, whatever the names |
| `Merging.ReadInContents` | pkg/pkgutil/pkgutil.go:18-56 | every document read has the path of a KRM file |
| `TenantPackage.BuildWanted` | internal/controllers/tenant/reconciler.go:167-195 | the wanted package is the merge of the retargeted source and the generated sub-package, or nothing exactly when the source cannot be read, parsed or retargeted |
| `TenantPackage.Retarget` | internal/controllers/tenant/reconciler.go:318-342 | each node of the source is changed in place until one cannot be, which is the error |
| `TenantPackage.WantedPackageIff` | internal/controllers/tenant/reconciler.go:186-189 | all documents of the wanted package go to KRM files, and it can be aimed for if and only if the source repeats no document and none of the generated ones, or is called `namespace` |
| `TenantPackage.WalksAskTheSame` | internal/controllers/tenant/reconciler.go:186-189 | whichever way the map is walked the same documents are asked for |
| `TenantPackage.WalkDoesNotShow` | internal/controllers/tenant/reconciler.go:186-189 | for a one-component source name and clean paths the walk over the two sub-packages never shows |
| `TenantPackage.TenantDocuments` | internal/controllers/tenant/reconciler.go:186-189 | the merged package holds its Kptfile, the generated documents and each of the source as often as it was there; none of the source's when that is called `namespace` |
| `TenantPackage.TenantAnnotations` | internal/controllers/tenant/reconciler.go:186-189 | the merged package holds them with every annotation but the path and the index |
| `TenantPackage.TenantWritten` | internal/controllers/tenant/reconciler.go:186-189 | and so do the files once the package was written, over any files |
| `TenantPackage.GeneratedInContents` | internal/controllers/tenant/reconciler.go:262-288 | the generated documents go to KRM files at clean paths |
| `Numerals.NextNumber` | pkg/pkgrev/util.go:16-36 | for every string, the next revision's number is one more modulo 2^64 |
| `Numerals.NextIsHigher` | pkg/pkgrev/util.go:16-36 | it is higher exactly unless the number was the largest uint64 |
| `Numerals.NextIsCanonical` | pkg/pkgrev/util.go:32-36 | it is `v` and the printed successor exactly below 2^63 - 1, and a negative numeral exactly from there up to the last number |
| `Numerals.NextIsThePlainOne` | pkg/pkgrev/util.go:16-36 | below 2^63 - 1 it is the only `v` and numeral without leading zeros or plus sign that has the next number |
| `Numerals.NextIsPlain` | pkg/pkgrev/util.go:32-36 | and for every string it is a `v` and a numeral of that kind |
| `Numerals.NextOfDigit` | pkg/pkgrev/util.go:16-36 | one digit counts up, so `v1` is followed by `v2`, and `v9` is followed by `v10` |
| `Numerals.NumberOfPrinted` | pkg/pkgrev/util.go:16-30 | a printed int reads back as itself wrapped to a uint64 |
| `Numerals.AtoiItoa` | pkg/pkgrev/util.go:20-35 | parsing undoes printing for every int |
| `Numerals.ItoaAtoiIff` | pkg/pkgrev/util.go:20-35 | printing undoes parsing exactly on numerals without leading zeros, plus sign or negative zero |
| `Numerals.OtherSpellings` | pkg/pkgrev/util.go:16-30 | a zero or a plus sign in front does not change the number of a revision |
| `Numerals.InnerVIsIgnored` | pkg/pkgrev/util.go:18-20 | nor does a further `v` anywhere |
| `Numerals.GetRevisionNumber` | pkg/pkgrev/util.go:16-30 | the number always fits a uint64 |
| `Numerals.UnreadableRevisions` | pkg/pkgrev/util.go:16-36 | `main` reads as 0; `v-1` reads as the largest uint64 and is followed by `v0` |
| `Numerals.FirstNumber` | pkg/pkgrev/pkgrev.go:128 | `v1` has number 1 |
| `Fields.SetFieldValue` | internal/controllers/tenant/utils.go:62-90 | only the field changes: a scalar keeps kind, tag and children and gets the new text, any other field reads as the value from fresh nodes of its own; refused exactly for a delimiter on a non-scalar |
| `Fields.Overwrite` | internal/controllers/tenant/utils.go:86 | the field takes over the children of a copy that nothing else reaches |
| `Fields.Copy` | internal/controllers/tenant/utils.go:63 | a deep copy: fresh nodes, a forest, reading as the value does |
| `Fields.SetFields` | internal/controllers/tenant/utils.go:52-56 | the fields of one path are set in turn up to the first refused, each from nodes shared with no other |
| `Fields.CopyValueToTarget` | internal/controllers/tenant/utils.go:25-60 | the field paths are looked up in their order, each once, with the kind of the value when a field may be created, up to the first at fault; it is done exactly when all were found and set. Wherever it stops, the value and every node that was not found are untouched and the document stays a forest; every scalar found has been set once for each path that found it, and every field the last path found reads as the value or holds the new text |
| `Fields.CopyToPath` | internal/controllers/tenant/utils.go:26-57 | one path: one question to the library; when it is done all the fields found are written, and those only, each from nodes of its own; without options a scalar found has exactly the value's text; a field that is refused is no scalar, those in front of it are set and those behind it are not |
| `Fields.SetAsFoundPlain` | internal/controllers/tenant/utils.go:24-57 | without a delimiter every scalar that any path found has exactly the value's text in the end, and its old kind and tag |
| `Fields.NewTextIs` | internal/controllers/tenant/utils.go:62-88 | the new text in plain terms: the value's without a delimiter; with one the value, empty for a null, in front of the old text, behind it, or in the place of one segment with the text around it unchanged |
| `Fields.ShouldCreateField` | internal/controllers/tenant/utils.go:92-103 | an error exactly for creation with a wildcard in the path |
| `Fields.SharingIsNesting` | internal/controllers/tenant/utils.go:52-56 | in a forest two fields that share a node lie one below the other |
| `Fields.OneReading` | internal/controllers/tenant/utils.go:62-88 | a node reads as one value only |
| `Fields.DelimitedReadsBack` | internal/controllers/tenant/utils.go:64-80 | with a one-character delimiter the field splits into the old segments with the value's own at the index, nothing else moved |
| `Fields.DelimitedIsExactIff` | internal/controllers/tenant/utils.go:64-80 | for every delimiter the field splits into the segments written if and only if the delimiter does not begin in a value that is followed, does not occur in one that comes last, and does not begin in the old last segment when the value is appended |
| `Fields.FitsOneCharacter` | internal/controllers/tenant/utils.go:64-80 | for a one-character delimiter that is: it does not occur in the value |
| `Fields.WritingASegmentBack` | internal/controllers/tenant/utils.go:64-80 | writing back the segment that is there changes nothing, for every delimiter |
| `Fields.LastWriteWins` | internal/controllers/tenant/utils.go:76-79 | at an index in range a second write leaves no trace of the first |
| `Fields.LongDelimitersStraddle` | internal/controllers/tenant/utils.go:64-80 | a longer delimiter can straddle the seam: a field that is not read back although the value holds no delimiter |
| `Strings.JoinSplit` | internal/controllers/tenant/utils.go:68-79 | joining undoes splitting, for every separator |
| `Strings.SplitJoinIff` | internal/controllers/tenant/utils.go:68-79 | splitting undoes joining, for every separator, if and only if no separator begins in a part that is followed or occurs in the last |
| `Strings.SplitJoin` | internal/controllers/tenant/utils.go:68-79 | splitting a join splits each part, for a one-character separator |
| `Strings.LeqIff` | pkg/pkgutil/pkgutil.go:29 | the order of the keys: one begins the other, or the first different character is smaller |

## Left out

- YAML itself: a document is its name, its annotations and the rest of its text, and a file is what it parses to. Parsing undoes printing; printing undoes parsing only on text in the printer's layout. Comments, styles and errors of `String()` are not modelled, and two documents print alike, annotations cleared, exactly when they are the same document.
- The glob patterns of `kio.MatchAll` are three suffixes fixed by the kyaml library, which is not part of this model; path matching, `Elements` and `LookupCreate` are an arbitrary choice of nodes that is put on record, and how the library hangs a created node into the document is not modelled.
- YAML aliases, which would let a document share nodes before any field is set.
- Splitting a field path at its dots: paths come as lists of parts.
- How a source document is retargeted is a parameter that fails or keeps annotations; field setting is proved separately in `Fields`.
- The lookup of the source package (`GetPackageRevision`, `IsFound`): the name of its revision is an input of the run, and its files are read from the server.
- Status messages, events, polling and requeueing; of the status only the condition is kept.
- Stale reads of the tenant from a client cache: a read that succeeds is current. Finalizers of other controllers, and a tenant re-created under the same name before the old one is gone.
- Tenants of one name in two namespaces share a package name; the manager watches one namespace.
- Namespaces, repositories, labels and resource versions of Porch objects; a version conflict is a failed call.
- Lifecycles other than Draft, Proposed and Published, and writers other than the operator.
- Protocol.Step: revisions carry numbers, not strings; `PkgRev` keeps the strings and is proved against the numbers.
- Reconciler.Reconcile: user calls in the middle of a run are part of the machine but not of this method, which runs alone on its tenant.
- AppResource.MergePackages: takes lists that share no node; the operator builds both from separate parses.
- Kptfile and Namespace are constant documents with the name filled in; templates are not modelled.
- Getters, setters, generated deep copies, client and scheme set-up, manifests: no property of interest.
