# A model of the Fybrik control plane

Fybrik turns a `FybrikApplication` — a list of datasets and how a workload wants to use them — into Helm
releases that carry data from where it is to where it is wanted, under two kinds of rules: governance policies
(which actions must be performed on the data, where it may be written) and config policies (which capabilities
must or must not be deployed, in which clusters). The control plane is a compiler with three reconcilers around
it, and this project models both:

1. **Config policies** (`AdminPolicies.dfy`, `PolicySets.dfy`, `PolicyOrder.dfy`, `PolicyEnforcement.dfy`): the fold of
   policy decisions into one decision per capability, which rules it takes in, what it depends on, and which rules it
   stands for after a conflict.
2. **The planner** (`DataPaths.dfy`, `PathInterfaces.dfy`, `Planner.dfy`, `PlanGuarantees.dfy`, `PlanConditions.dfy`,
   `PlanRestrictions.dfy`): the bounded search for chains of module capabilities, the validation that places actions,
   storage and clusters on a chain, exactly when there is a plan, and exactly what the decisions leave possible.
3. **The compiler** (`PlotterTypes.dfy`, `PlotterGenerator.dfy`, `PlotterContents.dfy`, `PlotterCompiler.dfy`,
   `InstanceOrigins.dfy`, `BlueprintCompiler.dfy`, `BlueprintDelivery.dfy`): from plans to the flows of a plotter, from
   flows to module instances, from instances to one blueprint per cluster.
4. **The reconcilers** (`ApplicationReconciler.dfy`, `ApplicationSolution.dfy`, `PlotterReconciler.dfy`,
   `BlueprintReconciler.dfy`): state machines whose passes may fail half-way, and what holds over whole runs of them.
   `EndToEnd.dfy` puts the application controller, the planner and the compiler together.
5. **Groupings and merges** (`PolicyCompaction.dfy`, `NestedMaps.dfy`, `TaxonomyMerge.dfy`, `TaxonomyLayers.dfy`):
   policy answers, chart values and taxonomy layers.

Code that changes things in place is modelled by classes, arrays and loops. The maps of chart values and the
schemas of a taxonomy are objects in memory, so that what is shared and what is changed is part of the model; the
other state is held in fields that methods reassign. A loop over a Go map becomes a loop that picks any remaining
key. Every call to something outside (Kubernetes, Helm, the policy manager, the catalog, OPA, the cluster manager)
is a value the caller supplies: the passes of the reconcilers take the answers of the cluster and of Helm as an
argument, and their contracts say what comes of which answers. Each method is proved against a declarative
specification, and the lemmas are about those specifications.

`dafny verify dfyconfig.toml` checks the whole project with Dafny 4.11.

## Main results

- A data path is found exactly if it is a chain of usable capabilities within the limit
  (`DataPaths.FindPathsWithinLimit`), which depends only on protocols, data formats and deploy statuses as they are
  written (`PathInterfaces.DataPathExactly`), and becomes a plan exactly if it is accepted (`Planner.FindPaths`): if
  every store on it has a region, every element a cluster, and all that is required is offered somewhere on it
  (`PlanConditions.PlanExistsExactly`).
- In a plan every required action is placed exactly once, on the first element that supports it
  (`PlanGuarantees.ReadActionsAreConserved`), and the plan obeys the deploy status and the cluster restrictions of every
  single applicable config rule that the decisions enforce (`PlanGuarantees.PlanObeysEveryRule`): all rules if they do
  not conflict, otherwise those before the first conflict (`PolicyEnforcement.EvaluationIsEnforced`).
- Whether all plans obey a rule can be read off the decisions: exactly which capabilities some plan uses and which every
  plan uses, and exactly when all plans keep to the clusters, modules and storage that a rule allows
  (`PlanRestrictions.UsedExactly`, `RequiredExactly`, `ClustersObeyedExactly`, `ModulesObeyedExactly`,
  `StorageObeyedExactly`).
- The fold of config rules is their conjunction, and fails exactly if the rules contradict each other or an empty list
  comes after a list of values (`PolicyOrder.ConsistentExactly`). Any two orders in which it succeeds give the same
  decisions (`PolicyOrder.DecisionsAreOrderFree`); all orders agree exactly under the condition of
  `PolicyOrder.OrderFreeExactly`. Rules of other policy sets make no difference, and rules of the evaluated set count
  like those of no set (`PolicySets.ForeignRulesAreIgnored`, `PolicySets.OwnSetIsNoSet`).
- A plotter is made of the plans of its datasets. Every flow is served by the modules its plan chose, and reads and
  writes the stores made for it, exactly if no two plans ask for different modules under one capability and no asset
  name stands for two stores (`PlotterContents.TemplatesMatchExactly`, `PlotterContents.StoresMatchExactly`).
- With distinct names, each module of a blueprint has, in step order, the reads, writes and assets of exactly the
  instances of its name (`BlueprintDelivery.DeliveredExactly`, `PlotterCompiler.BlueprintDelivers`). So each element of
  a plan arrives in the blueprint of the cluster the plan chose, as the planned module, with the planned actions,
  stores and credentials (`PlotterCompiler.PlanReachesBlueprint`). Conversely, every read, write and copy in a blueprint
  goes back to a step of the plotter in its cluster that has just this store, these actions and, for its cluster and
  the kind of access, these credentials (`InstanceOrigins.ArgumentsAreGranted`).
- Every dataset of a submitted plotter that is not denied has a plan that places each required action once and obeys
  the deploy status and the cluster restrictions of every applicable rule before the first conflict. If the flows do not
  disturb each other, no names clash, no shared module is asked for different copies and no module is a plug-in, the
  blueprints carry the plan out element by element (`EndToEnd.SubmittedIsEnforced`). The tracked buckets are exactly
  those allocated for the plans (`ApplicationSolution.BucketsExactly`).
- Over all runs: no blueprint is leaked (`PlotterReconciliation.NoBlueprintIsLeaked`), no release is leaked unless a
  blueprint is edited or deleted after its status was lost (`BlueprintReconciliation.RunsAreSafe`,
  `BlueprintReconciliation.DeletionIsSafe`), no dataset is reported ready without a ready report for its generation
  (`ApplicationReconciliation.RunsAreHonest`), a generation is recorded only together with a justified plotter for
  it, and whatever plotter is in the cluster was justified in the pass that put it there
  (`ApplicationReconciliation.GeneratedIsJustified`, `ApplicationReconciliation.PlotterIsJustified`).
- Progress: if no call fails, one call of the plotter controller brings the clusters in line exactly if no tracked
  blueprint is lost or has drifted, and deletes everything if the plotter is being deleted
  (`PlotterReconciliation.GrantedCallConverges`); two passes over a blueprint make it ready if its charts can be applied
  and its releases then come up (`BlueprintReconciliation.TwoPassesSuffice`).
- Chart values can be overridden in any order, even when one key is a prefix of another, and the arguments they are
  copied from are never changed (`NestedMaps.ChartValues`).
- Merging policy answers in stages gives what merging them at once gives (`PolicyCompaction.MergeNested`); merged
  taxonomy layers hold at every path the union of what those layers say whose schema there is not dropped by a later
  one (`TaxonomyMerge.LayersUnite`), of these the last has the last word on each keyword and the first names the type
  (`TaxonomyLayers.LastKeywordCounts`, `TaxonomyLayers.FirstLayerNames`).

## Where the code is narrower than it looks

Each of these has a lemma at a failing input, followed here by the lemma with the exact condition under which the
wider claim holds.

- An empty list of allowed values is ignored if it comes first and is a conflict if it comes later:
  `PolicyOrder.EmptyListDependsOnOrder`, `PolicyOrder.OrderFreeExactly`.
- A conflict ends the evaluation without an error, and the decisions made so far are planned with: later rules, on
  whatever capability, are ignored: `PlanRestrictions.ConflictLetsThrough`, `PolicyEnforcement.LateRuleCountsExactly`,
  `PolicyEnforcement.HeededExactly`, `PolicyOrder.ConsistentExactly`.
- Restrictions of modules and storage accounts are evaluated but not looked at by the planner, although
  `site/docs/concepts/config-policies.md:55-56` promises both: `PlanRestrictions.ExcludedModuleIsUsed`,
  `PlanRestrictions.ExcludedAccountIsUsed`, `PlanRestrictions.OnlyClustersMatter`,
  `PlanRestrictions.ModulesObeyedExactly`, `PlanRestrictions.StorageObeyedExactly`.
- A storage region counts as permitted when the policy manager could not be asked: `PlanGuarantees.UnansweredIsChosen`,
  `PlanGuarantees.AnsweredExactly`.
- Templates of a plotter are named after capabilities only, so a flow can take over the template of another:
  `PlotterContents.TemplateTakenOver`, `PlotterContents.TemplatesMatchExactly`.
- A dataset can have the name of another one's copy, and takes over its store: `PlotterContents.StoreTakenOver`,
  `PlotterContents.StoresMatchExactly`.
- Instances of a blueprint that get the same name overwrite each other; two copies of a dataset by one module in one
  cluster do: `PlotterCompiler.TwoCopiesCollide`, `BlueprintDelivery.OwnCopyReplaced`,
  `BlueprintDelivery.DeliveredExactly`, `BlueprintCompiler.EveryInstanceDeployedExactly`.
- A module that is shared makes only the copy of its first instance, and a plug-in gets no arguments:
  `BlueprintDelivery.SharedCopyDropped`, `BlueprintDelivery.EveryCopySurvivesExactly`,
  `PlotterCompiler.PlanReachesBlueprint`.
- A plotter whose blueprint could not be created is still reported ready:
  `PlotterReconciliation.FailedCreateIsReportedReady`, `PlotterReconciliation.ReadyMeansDeployedExactly`.
- A blueprint that differs from the plotter, or is lost, is neither repaired nor created again once the generation has
  been recorded: `PlotterReconciliation.DriftIsNotRepaired`, `PlotterReconciliation.ConvergesExactly`.
- A release is leaked if a blueprint is edited or deleted after a pass whose status was lost:
  `BlueprintReconciliation.LostStatusLeaks`, `BlueprintReconciliation.LeaksExactly`,
  `BlueprintReconciliation.DeletionAfterLostStatusLeaks`, `BlueprintReconciliation.DeletionIsCompleteExactly`.
- A module stays reported as ready while its resources are unknown: `BlueprintReconciliation.ModuleStateGoesStale`,
  `BlueprintReconciliation.ReadyExactly`.
- A taxonomy layer that says `additionalProperties` is true or false drops the schema that earlier layers have there:
  `TaxonomyMerge.BooleanDropsSchema`, `TaxonomyMerge.LayersUnite`.
- A definition that only one taxonomy layer has keeps its duplicates: `TaxonomyMerge.DuplicatesStay`,
  `TaxonomyMerge.DuplicateFreeExactly`.

Where code and comments disagree, the model follows the code: plans are in the order found, although
`manager/controllers/app/select_modules.go:73` says that they are sorted by length; and a capability without a scope
is treated as shared by `manager/controllers/app/blueprint_mgr.go:29-46`, although
`manager/apis/app/v1alpha1/fybrikmodule_types.go:84-85` says that asset scope is assumed.

## Model

| member | source | states |
|---|---|---|
| AdminPolicies.Intersection | manager/controllers/utils/utils.go:116-127 | The result has exactly the values that are in both lists. |
| AdminPolicies.MergeRestrictions | pkg/adminconfig/rego_file_evaluator.go:171-186 | Fails exactly if some key is restricted by both to lists with nothing in common; otherwise each key keeps what both allow, whatever order the keys are visited in; a failure leaves some of the keys merged. |
| AdminPolicies.Merge | pkg/adminconfig/rego_file_evaluator.go:133-169 | Two decisions can be merged exactly if one does not deploy what the other forbids and no restriction of modules, clusters or storage conflicts; the merged decision says what both say, and a failure leaves the held decision with its status and with restrictions that are partly merged in place. |
| AdminPolicies.EvaluatorOutput.AddRule | pkg/adminconfig/rego_file_evaluator.go:97-122 | One more rule is accepted exactly if all rules so far, together with it, are free of conflict; the output then represents all of them, and otherwise only the decision for its capability is touched. |
| AdminPolicies.EvaluatorOutput.GetOPADecisions | pkg/adminconfig/rego_file_evaluator.go:78-127 | The evaluation is valid exactly if there is a result, all of it is well formed and no applicable rules conflict; an error is returned exactly for no result or for a malformed one reached before any conflict; without an error, each capability has the decision that stands for all its rules, or, if there is a conflict, for its rules before the first one, except that the decision of the conflicting capability may be partly merged. |
| PolicySets.OwnRuleCounts | pkg/adminconfig/rego_file_evaluator.go:97-122 | A rule whose policy set is the evaluated one, or either of which is empty, is recorded and enforced by the decision on its capability, if the rules up to it do not conflict. |
| PolicySets.ForeignRulesAreIgnored | pkg/adminconfig/rego_file_evaluator.go:97-104 | Leaving out all rules of policy sets that are neither empty nor the evaluated one changes nothing: the same outputs are possible with and without them. |
| PolicySets.OwnSetIsNoSet | pkg/adminconfig/rego_file_evaluator.go:97-104 | Blanking the policy set of the rules of the evaluated set changes neither whether the rules conflict nor which decisions come out. |
| AdminPolicies.KeyStep | pkg/adminconfig/rego_file_evaluator.go:171-186 | Merging one more list into what is held detects exactly the clashes of all lists so far, and leaves exactly the values that all lists that count share. |
| AdminPolicies.MergedObeysEach | pkg/adminconfig/rego_file_evaluator.go:97-127 | Whatever value the merged decision allows for a key, every single decision with values for that key allows. |
| AdminPolicies.MergedIsConjunction | pkg/adminconfig/rego_file_evaluator.go:133-186 | Without empty lists, a value is allowed by the merged decision exactly if no single decision rules it out. |
| AdminPolicies.ConflictIsQuarrel | pkg/adminconfig/rego_file_evaluator.go:97-186 | Without empty lists, a capability's rules conflict exactly if one says True and another False, or some key is left with no value that all of them accept. |
| PolicyOrder.ClashExactly | pkg/adminconfig/rego_file_evaluator.go:171-186 | The lists for a key clash exactly if an empty one comes after one with values, or no value is in all those with values. |
| PolicyOrder.ConsistentExactly | pkg/adminconfig/rego_file_evaluator.go:97-186 | Rules are free of conflict exactly if no capability is both demanded and forbidden, every key with values has one that all of them share, and no empty list comes after a list of values. |
| PolicyOrder.OrderFreeExactly | pkg/adminconfig/rego_file_evaluator.go:97-186 | All orders of the rules agree on whether they conflict exactly if they contradict each other in any case, or cannot be put in an order without conflict, or no rule must precede another. |
| PolicyOrder.DecisionsAreOrderFree | pkg/adminconfig/rego_file_evaluator.go:97-186 | Any two lists of the same rules that are free of conflict give, for every capability, the same deploy status and the same sets of values. |
| PolicyOrder.OrderIsIrrelevant | pkg/adminconfig/rego_file_evaluator.go:97-127 | If no rule must precede another, the same rules in any order, even repeated, give the same verdict and the same decisions. |
| PolicyOrder.PutInOrder | pkg/adminconfig/rego_file_evaluator.go:171-186 | Rules among which there is always one that no other must precede have an order in which no empty list comes too late. |
| PolicyOrder.EmptyListDependsOnOrder | pkg/adminconfig/rego_file_evaluator.go:171-186 | Two rules, one with an empty list and one with values, are valid in one order and conflict in the other. |
| AdminPolicies.EvaluationPersists | pkg/adminconfig/rego_file_evaluator.go:113-117 | Once rules conflict, whatever rules follow make no difference to the output. |
| PolicyEnforcement.StoppedIsEnforced | pkg/adminconfig/rego_file_evaluator.go:113-117 | The decisions left after a conflict have the deploy status of every applicable rule before it and allow nothing that one of these rules does not. |
| PolicyEnforcement.EvaluationIsEnforced | manager/controllers/app/fybrikapplication_controller.go:490-497 | Whatever an evaluation without error returns enforces every applicable rule before the first conflict, and every applicable rule if there is none. |
| PolicyEnforcement.HeededExactly | pkg/adminconfig/rego_file_evaluator.go:97-127 | The rules that are heeded are a conflict-free beginning of all rules, and all of them exactly if there is no conflict. |
| PolicyEnforcement.LateRuleCountsExactly | pkg/adminconfig/rego_file_evaluator.go:97-122 | The first rule about a capability leads to a decision exactly if the rules before it, on whatever capability, do not conflict. |
| DataPaths.FindPathsWithinLimit | manager/controllers/app/select_modules.go:193-237 | The paths found are exactly the chains of one to max(n, 1) allowed capabilities that start at a source they can read, end at the requested sink, agree on the interface at every joint, and store data between any two. |
| PathInterfaces.DataPathExactly | manager/controllers/app/select_modules.go:193-237 | Such a chain is exactly one whose capabilities no decision forbids, whose ends have the protocol and the data format of source and sink, and in which each capability reads, in protocol and data format, what the one before it has stored. |
| PathInterfaces.SingleCapability | manager/controllers/app/select_modules.go:303-342 | A single module with one pair of interfaces is a path between two stores exactly if it is not forbidden and both protocols and both data formats are the same. |
| DataPaths.PathsThrough | manager/controllers/app/select_modules.go:193-237 | The paths found through one capability are exactly the data paths that end with it. |
| DataPaths.LongerPath | manager/controllers/app/select_modules.go:219-233 | A path is a path to the source of its last element, shorter by one, followed by an element that joins it. |
| Planner.LookupPolicyDecisions | manager/controllers/app/policy_compiler_interface.go:69-114 | A denial anywhere in the answer is the result, with the message for reading or the one for writing, after the actions that come before it; otherwise all actions are returned in order, and a failed call returns none. |
| Planner.SupportsGovernanceActions | manager/controllers/app/select_modules.go:278-300 | Holds exactly if the capability declares every one of the actions. |
| Planner.SelectStorage | manager/controllers/app/select_modules.go:115-139 | The element gets the last region that is acceptable to the writing capability, together with that region's actions, and no other element changes. |
| Planner.TakeReadActions | manager/controllers/app/select_modules.go:140-150 | The element keeps its actions, gains in order the required ones it supports, and hands on the others in order. |
| Planner.TakenAreAssigned | manager/controllers/app/select_modules.go:140-150 | The actions an element takes from those handed on to it are exactly those it is the first on the path to support. |
| Planner.FindCluster | manager/controllers/app/select_modules.go:179-187 | Succeeds exactly if some cluster meets the restrictions of the capability, and of "transform" when there are actions; the first such cluster is written into the element. |
| Planner.DeploysRequired | manager/controllers/app/select_modules.go:162-174 | Holds exactly if every capability that must be deployed is on the path. |
| Planner.ResolveElement | manager/controllers/app/select_modules.go:111-156 | One element is resolved exactly if it has storage (when it stores) and a cluster; it then has the storage, the actions and the cluster that the whole path gives it. |
| Planner.Validate | manager/controllers/app/select_modules.go:107-176 | A path is accepted exactly if every element can be resolved, every required action has a supporter and every required capability is present; the path then holds the plan. |
| Planner.FindPaths | manager/controllers/app/select_modules.go:74-105 | The plans returned are exactly the accepted data paths, each with its actions, regions and clusters. |
| Planner.PlansAreUnique | manager/controllers/app/select_modules.go:107-176 | A path has at most one plan. |
| PlanGuarantees.ReadActionsAreConserved | manager/controllers/app/select_modules.go:107-161 | In every plan the read actions along the path are the required actions as a multiset, and each sits on the first element whose capability lists it and nowhere else. |
| PlanGuarantees.PlacedOrPending | manager/controllers/app/select_modules.go:140-150 | After any number of elements, the actions placed and those still pending are together the required ones, each as often. |
| PlanGuarantees.ChosenIsLastAcceptable | manager/controllers/app/select_modules.go:117-134 | A region is chosen exactly if one is acceptable, and then none after it in the list is. |
| PlanGuarantees.StorageIsGoverned | manager/controllers/app/select_modules.go:115-139 | Data is stored only in a configured region where writing is not denied, and the element performs all of that region's write actions before any read action. |
| PlanGuarantees.AnsweredExactly | manager/controllers/app/select_modules.go:117-134 | The chosen region is one the policy manager has answered for exactly if every failed lookup is followed by an acceptable answer. |
| PlanGuarantees.UnansweredIsChosen | manager/controllers/app/select_modules.go:117-134 | With a policy manager that cannot be reached, a region is chosen although there is no answer about it. |
| PlanGuarantees.PlannedActionsAreSupported | manager/controllers/app/select_modules.go:128-149 | Every action of a plan is in the list of the capability that is to perform it. |
| PlanGuarantees.PlanObeysEveryRule | manager/controllers/app/select_modules.go:107-187 | Under decisions that enforce the rules each element runs in a cluster that every applicable rule for its capability tolerates (and every rule for "transform" if it has actions), no capability that a rule forbids is used, and every capability that a rule requires is. |
| PlanGuarantees.ClusterCheckIsConjunction | manager/controllers/app/select_modules.go:353-386 | Without empty lists, checking a cluster against the merged restriction is checking it against every rule. |
| PlanConditions.ChosenExactly | manager/controllers/app/select_modules.go:117-134 | The region chosen is the last one for which writing is not denied and whose actions the capability lists all, and there is none exactly if no region is such. |
| PlanConditions.AcceptsExactly | manager/controllers/app/select_modules.go:107-187 | A path is accepted exactly if the last region each storing element may write to has a name, every element has a cluster that meets the decision on its capability (and on "transform" exactly if something is to be done to the data there), every required action is listed by some element and every required capability is on the path. |
| PlanConditions.PlanExistsExactly | manager/controllers/app/select_modules.go:74-237 | A path has a plan exactly if it is a chain of protocols and data formats and fulfils these conditions. |
| PlanRestrictions.OnlyClustersMatter | manager/controllers/app/select_modules.go:348-386 | What is a plan does not depend on restrictions of modules and storage accounts. |
| PlanRestrictions.RunnableExactly | manager/controllers/app/select_modules.go:366-386 | Some cluster meets a restriction exactly if every key denotes a field of clusters that can have one of its values. |
| PlanRestrictions.UsedIsDeployable | manager/controllers/app/select_modules.go:107-187 | Every capability of a plan is allowed, and it and all that must be deployed can run in some cluster. |
| PlanRestrictions.PlanFor | manager/controllers/app/select_modules.go:74-237 | If a capability is allowed and it and all that must be deployed can run somewhere, there is a plan with it, by any type of module, in any cluster that meets its restriction, storing in any region. |
| PlanRestrictions.UsedExactly | manager/controllers/app/select_modules.go:344-346 | Some plan uses a capability exactly if it is allowed, and it and all that must be deployed can run in some cluster. |
| PlanRestrictions.RequiredExactly | manager/controllers/app/select_modules.go:162-174 | Every plan uses a capability exactly if it must be deployed, or something that must be can run nowhere. |
| PlanRestrictions.ClustersObeyedExactly | manager/controllers/app/select_modules.go:353-386 | Every plan runs a capability only in clusters that a rule tolerates exactly if the rule tolerates all clusters that meet the decision, or no plan can use the capability. |
| PlanRestrictions.ModulesObeyedExactly | manager/controllers/app/select_modules.go:348-351 | Every plan uses only modules that a rule tolerates exactly if the rule restricts none, or no plan can use its capability. |
| PlanRestrictions.StorageObeyedExactly | manager/controllers/app/select_modules.go:115-139 | Every plan stores only in accounts that a rule tolerates exactly if the rule tolerates those of all regions, or no plan can use its capability. |
| PlanRestrictions.ConflictLetsThrough | manager/controllers/app/fybrikapplication_controller.go:490-497 | Two rules conflict over one capability: a plan uses another capability, which a third rule forbids. |
| PlanRestrictions.ExcludedModuleIsUsed | manager/controllers/app/select_modules.go:348-351 | A single rule restricts reading to one type of module: a plan reads by a module of another type. |
| PlanRestrictions.ExcludedAccountIsUsed | manager/controllers/app/select_modules.go:115-139 | A single rule restricts copying to one storage account: a plan stores data in a region of another account. |
| PlotterGeneration.SelectPlan | manager/controllers/app/plotter_generator.go:147-157 | A plan is selected exactly if there is one. |
| PlotterGeneration.PlotterGenerator.BuildSubFlows | manager/controllers/app/plotter_generator.go:159-243 | The plan is carried out up to the first element whose service or storage cannot be had; it succeeds exactly if there is none, with sub-flows, assets and templates that mirror the whole plan, and otherwise returns the error of that element; exactly the buckets of the copies made are tracked. |
| PlotterGeneration.PlotterGenerator.AddFlowInfoForAsset | manager/controllers/app/plotter_generator.go:114-264 | A valid plan is tried if there is one; if all its calls succeed, a flow that mirrors it is added with all its assets and templates, and otherwise the plotter spec is unchanged and the error is that of the first failed call, or that there is no plan; in any case the buckets tracked are those of the copies made. |
| PlotterGeneration.FlowIsChain | manager/controllers/app/plotter_generator.go:159-257 | The flow has the name and the type of its dataset; every sub-flow but the last is a copy, each copy writes the asset that the next sub-flow reads, the flow is a read exactly if the workload reads, the read waits for the workload while copies are made at the start, and each step has the template, the cluster, the actions and, if its capability has one, the service of its plan element. |
| PlotterGeneration.AssetNamesGrow | manager/controllers/app/plotter_generator.go:188-212 | A later asset of a flow has a longer name exactly if a copy lies between, and the same name exactly if none does. |
| PlotterContents.ReferencesResolve | manager/controllers/app/plotter_generator.go:243-262 | Every asset and template that any flow refers to is in the plotter, and stays there as flows are added. |
| PlotterContents.BuiltFromOneMore | manager/controllers/app/plotter_generator.go:243-262 | A plotter built from some plans, with one more flow added, is built from these plans and the new one. |
| PlotterContents.FlowAssetsHold | manager/controllers/app/plotter_generator.go:188-212 | The assets of a flow are those its elements read and deliver: the dataset with its own store and each copy with the store allocated for it. |
| PlotterContents.TemplatesMatchExactly | manager/controllers/app/plotter_generator.go:260-262 | Every step of every flow of a plotter is served by the module its plan chose exactly if no two elements of any plans ask for different modules under one capability name. |
| PlotterContents.TemplateTakenOver | manager/controllers/app/plotter_generator.go:260-262 | Two datasets read by different modules: the first is not served by the module its plan chose. |
| PlotterContents.StoresMatchExactly | manager/controllers/app/plotter_generator.go:248-262 | Every element of every flow finds the store that was made for it exactly if no asset name stands for two stores in any flows. |
| PlotterContents.StoreTakenOver | manager/controllers/app/plotter_generator.go:188-212 | A dataset named like the copy of another: the first flow does not find the store of its copy. |
| PlotterCompiler.GetBlueprintsMap | manager/controllers/app/plotter_controller.go:242-298 | There is a blueprint for exactly the clusters that have an instance, compiled from those instances and no others. |
| InstanceOrigins.InstanceHasOrigin | manager/controllers/app/plotter_controller.go:136-298 | Every instance is made for a step of the plotter: it has the module and the chart of its template, the cluster of the step and, unless it is a plug-in, the assets, stores, actions and credentials that the step asks for. |
| InstanceOrigins.OriginHasInstance | manager/controllers/app/plotter_controller.go:136-298 | For every module of the template of every step there is such an instance in the cluster of the step. |
| InstanceOrigins.ArgumentsAreGranted | manager/controllers/app/plotter_controller.go:136-298 | Every read, write and copy in a module of a blueprint goes back to a step in its cluster: it has the store of an asset of the plotter, the actions of the step, and just the credentials of that asset for reading or for writing, with the login path of the cluster. |
| InstanceOrigins.AuthPathExactly | manager/controllers/utils/vault.go:13-19 | The login path is that of the first cluster with the name, and empty if there is none. |
| PlotterCompiler.PlanReachesInstances | manager/controllers/app/plotter_controller.go:152-298 | Every element of every plan becomes an instance of the planned module in the planned cluster, with the planned actions; it reads the store of its own asset or copies it to the store that the next element reads, with the credentials for its cluster; a plug-in gets no arguments. |
| PlotterCompiler.PlanReachesBlueprint | manager/controllers/app/plotter_controller.go:242-298 | The blueprint of the planned cluster has the planned module for every element; run per asset, it has the planned chart and does what the plan says for the element, with its stores and credentials, exactly if it is not a plug-in; shared, it has the chart of its first instance, does so for a copy exactly if that instance makes the copy, and for a read exactly if one of its instances reads just that, as that of the element itself does if it is no plug-in. |
| PlotterCompiler.BlueprintDelivers | manager/controllers/app/blueprint_mgr.go:54-105 | In each cluster, under each name that is one instance's own or only shared, the blueprint has a module exactly if there is an instance of that name, with the reads, writes and assets of exactly those instances in step order. |
| PlotterCompiler.BuiltIsRunnable | manager/controllers/app/plotter_controller.go:242-298 | The flows of a generated plotter can be compiled, if no dataset has an empty name. |
| PlotterCompiler.TwoCopiesCollide | manager/controllers/app/blueprint_mgr.go:84-102 | A plan with two copies by one module in one cluster gives two instances of one name, and no module makes both copies. |
| BlueprintCompiler.MapKeyInjective | manager/controllers/app/blueprint_mgr.go:36 | Within a cluster the keys of two modules are the same only if the modules are. |
| BlueprintCompiler.RefineInstances | manager/controllers/app/blueprint_mgr.go:25-51 | Per-asset instances are kept in order; all other instances of a module become one, for each module once. |
| BlueprintCompiler.GenerateBlueprint | manager/controllers/app/blueprint_mgr.go:75-105 | Each name in the blueprint stands for the last instance that has it. |
| BlueprintCompiler.GenerateBlueprints | manager/controllers/app/blueprint_mgr.go:54-70 | There is one blueprint for each cluster with an instance, and it depends only on the instances of that cluster. |
| BlueprintCompiler.CompiledIsUnique | manager/controllers/app/blueprint_mgr.go:25-105 | The blueprint is a function of the instances: no order of visiting the maps changes it. |
| BlueprintDelivery.UnitedInOrder | manager/controllers/app/blueprint_mgr.go:36-45 | A shared instance reads, writes and lists, in step order, exactly what the instances it was made of do, and makes the copy of the first. |
| BlueprintDelivery.DeliveredInOrder | manager/controllers/app/blueprint_mgr.go:25-105 | A module of the blueprint has, in step order, the reads, writes and assets of exactly the instances of its name, if that name is one instance's own or only shared. |
| BlueprintDelivery.DeliveredExactly | manager/controllers/app/blueprint_mgr.go:25-105 | This holds of every module exactly if no per-asset instance shares its name with another instance. |
| BlueprintDelivery.ClashLoses | manager/controllers/app/blueprint_mgr.go:84-102 | Under a name that is not apart, the blueprint lists fewer assets than its instances do. |
| BlueprintDelivery.EveryCopySurvivesExactly | manager/controllers/app/blueprint_mgr.go:36-45 | With distinct names every copy is made exactly if every instance of a shared module that copies makes the copy its first instance makes. |
| BlueprintDelivery.SharedCopyDropped | manager/controllers/app/blueprint_mgr.go:36-45 | Of two copies by a module without a scope, the second is not made. |
| BlueprintDelivery.OwnCopyReplaced | manager/controllers/app/blueprint_mgr.go:84-102 | Of two copies of a dataset by a module run per asset, the first is not made, and the blueprint has fewer modules than instances. |
| BlueprintCompiler.EveryInstanceDeployedExactly | manager/controllers/app/blueprint_mgr.go:84-102 | The blueprint has a module for each instance, unchanged, exactly if their names are distinct. |
| PlotterReconciliation.UpdatePlotterAssetsState | manager/controllers/app/plotter_controller.go:301-321 | An asset is ready afterwards exactly if it was not known to be unready and no module that reports on it is. |
| PlotterReconciliation.SetAssetsNotReady | manager/controllers/app/plotter_controller.go:324-334 | Exactly the assets of the blueprint become unready; others keep their state. |
| PlotterReconciliation.PlotterReconciler.HandleCluster | manager/controllers/app/plotter_controller.go:353-458 | What happens in one desired cluster is determined by whether it is tracked, whether the generation is new and how the cluster answers; it changes only that cluster's entry and blueprint as this says, and counts towards readiness only if the blueprint is in sync and ready. |
| PlotterReconciliation.PlotterReconciler.TidyUp | manager/controllers/app/plotter_controller.go:460-475 | Exactly the tracked clusters that are no longer desired are deleted; whether the blueprint is gone and whether it stays tracked is determined by the answer. |
| PlotterReconciliation.PlotterReconciler.ReconcileBlueprints | manager/controllers/app/plotter_controller.go:336-518 | A pass is explained by one event per cluster, which the answers determine: in particular an untracked desired cluster gets its blueprint exactly if the creation is accepted; when no fetch fails, the plotter is ready exactly if every desired cluster affirms it, and an asset is ready exactly if nothing that touches it blocks it. |
| PlotterReconciliation.PlotterReconciler.ReconcileFinalizers | manager/controllers/app/plotter_controller.go:86-121 | The finalizer of a plotter under deletion is removed exactly if every tracked blueprint could be deleted and the write is accepted; a plotter without one that is not under deletion gets it exactly if the write is accepted. |
| PlotterReconciliation.PlotterReconciler.Reconcile | manager/controllers/app/plotter_controller.go:42-83 | A call deals with the finalizer and stops there on an error or a deletion, and otherwise goes on to one pass, with the outcome that the answers determine. |
| PlotterReconciliation.NoBlueprintIsLeaked | manager/controllers/app/plotter_controller.go:42-121 | In every run of edits, outside interference, failures and passes, each cluster with a deployed blueprint is tracked while the finalizer is there, and the finalizer goes only when no blueprint is left. |
| PlotterReconciliation.ReconcilingIsSafe | manager/controllers/app/plotter_controller.go:353-475 | Every call keeps this, whichever of its steps fail. |
| PlotterReconciliation.CleanPassConverges | manager/controllers/app/plotter_controller.go:353-478 | A pass on a new generation without errors, in which every blueprint is found, leaves each desired cluster with exactly the compiled spec and nothing elsewhere. |
| PlotterReconciliation.GrantedPassConvergesExactly | manager/controllers/app/plotter_controller.go:353-478 | A pass in which no call fails leaves exactly the desired clusters tracked and deployed as compiled exactly if each blueprint that is desired and tracked is there, and is as desired or the generation is new. |
| PlotterReconciliation.GrantedCallConverges | manager/controllers/app/plotter_controller.go:42-121 | The same of a whole call, which during a deletion removes every blueprint and the finalizer. |
| PlotterReconciliation.ConvergesExactly | manager/controllers/app/plotter_controller.go:353-478 | A completed pass leaves exactly the desired clusters tracked and deployed as compiled exactly if in each of them the blueprint was in sync, updated, created or deleted, or was as desired although it was not found. |
| PlotterReconciliation.ConvergedIsQuiet | manager/controllers/app/plotter_controller.go:353-478 | From then on every pass writes nothing and stays converged. |
| PlotterReconciliation.ReportsKeepConverged | manager/controllers/app/plotter_controller.go:382-422 | Status reports of blueprints do not disturb this. |
| PlotterReconciliation.ReadyMeansDeployedExactly | manager/controllers/app/plotter_controller.go:353-490 | A completed pass that reports ready has exactly the desired clusters tracked and each of them ready and as compiled, exactly if no create and no delete failed in it. |
| PlotterReconciliation.FailedCreateIsReportedReady | manager/controllers/app/plotter_controller.go:446-452 | A plotter whose only blueprint cannot be created is reported ready with nothing deployed. |
| PlotterReconciliation.DriftIsNotRepaired | manager/controllers/app/plotter_controller.go:373-407 | In every run, a blueprint that is not as desired once the generation is recorded stays so until the generation changes, and one that is lost in its cluster is not created again. |
| ApplicationReconciliation.Application.InitStatus | manager/controllers/app/fybrikapplication_conditions.go:26-45 | Each dataset, and nothing else, has a state, without any condition; there is no general error, and the application is ready exactly if it has no datasets. |
| ApplicationReconciliation.DenialsExactly | manager/controllers/app/fybrikapplication_controller.go:591-601 | Five messages deny a dataset, every other one is an error; no other condition changes and none is lost. |
| ApplicationReconciliation.Application.CollectRequirements | manager/controllers/app/fybrikapplication_controller.go:350-361 | The requirements are those of exactly the datasets whose information can be had, in order; exactly the other datasets are denied or in error, as the reason says. |
| ApplicationReconciliation.Application.BuildSolution | manager/controllers/app/fybrikapplication_controller.go:673-723 | A valid plan is tried for each required dataset that has one; the plotter is built from the plans that could be carried out, exactly the other datasets are denied or in error, as the failed calls say, everything the flows refer to is there, and the buckets are exactly those the attempts allocated. |
| ApplicationReconciliation.Application.HasErrors | manager/controllers/app/fybrikapplication_conditions.go:95-106 | Holds exactly if there is a general error or some dataset is in error. |
| ApplicationReconciliation.Application.UpdateProvisionedStorageStatus | manager/controllers/app/fybrikapplication_controller.go:640-671 | The tracked buckets become exactly the planned ones, and provisioning is complete exactly if every one of them is reported provisioned; otherwise an error is returned only if a bucket has failed with a message, and none only if one is without message or status. |
| ApplicationReconciliation.Application.Submit | manager/controllers/app/fybrikapplication_controller.go:367-396 | Attempts for all requirements determine the states; a plotter is handed over exactly if the modules can be listed, no dataset is in error and all buckets are provisioned; the buckets are tracked if no dataset is in error, and generation and plotter are recorded exactly if the plotter is accepted. |
| ApplicationReconciliation.Application.ReconcileSpec | manager/controllers/app/fybrikapplication_controller.go:325-397 | Without datasets, without a workload cluster or without requirements nothing is planned; otherwise a plotter is handed over exactly under those conditions. |
| ApplicationReconciliation.RebuildMeans | manager/controllers/app/fybrikapplication_controller.go:325-397 | Afterwards each dataset has a state and none is ready; a plotter handed over is made of valid plans, one for each dataset that is not denied, with the buckets of the plans tracked and provisioned; one is left out only for want of a workload cluster or of the modules, because every dataset is flagged, one is in error or a bucket is not provisioned; an error is returned only for want of a workload cluster or of the modules, for a failed bucket or a plotter that could not be created. |
| ApplicationReconciliation.Application.CheckReadiness | manager/controllers/app/fybrikapplication_controller.go:179-231 | The states afterwards are those before with the report applied to one dataset after the other. |
| ApplicationReconciliation.ReportFollowed | manager/controllers/app/fybrikapplication_controller.go:179-231 | Denials stay and concern nothing else; for every other dataset an error report is an error, a ready report without error makes it ready or has it registered or is an error, and any other report changes nothing. |
| ApplicationReconciliation.Application.IsReady | manager/controllers/app/fybrikapplication_conditions.go:75-93 | Holds exactly if every dataset is denied or ready. |
| ApplicationReconciliation.Application.Reconcile | manager/controllers/app/fybrikapplication_controller.go:78-173 | Validity, generations and the plotter determine which of rejection, fresh start, readiness check and nothing happens, and the whole status stored is determined by it: after a fresh start or a check the application is ready exactly if every dataset is denied or ready; whatever plotter is submitted is justified by what is stored with it, and it replaces the one in the cluster exactly if it is accepted. |
| ApplicationReconciliation.StepIsHonest | manager/controllers/app/fybrikapplication_controller.go:106-173 | Every edit and every pass keeps what holds over runs. |
| ApplicationReconciliation.RunsAreHonest | manager/controllers/app/fybrikapplication_controller.go:106-231 | In every run no dataset is denied and ready at once, a ready dataset goes back to a ready report heard while the plotter was the one generated for the observed generation, a status of the current generation has a state for exactly its datasets, and it says that the application is ready only if each of them is denied or ready. |
| ApplicationReconciliation.GeneratedIsJustified | manager/controllers/app/fybrikapplication_controller.go:106-173 | In every run, a recorded generation goes back to a pass for it in which the cluster accepted the plotter, and that plotter is justified by the status stored with it. |
| ApplicationReconciliation.PlotterIsJustified | manager/controllers/app/fybrikapplication_controller.go:106-173 | In every run, the plotter in the cluster was accepted and justified in the pass that put it there, whether or not the status of that pass was stored. |
| ApplicationReconciliation.JustifiedServes | manager/controllers/app/fybrikapplication_controller.go:367-396 | Of a submitted plotter, every dataset of the application is denied or has a flow, and every tracked bucket belongs to a dataset that is denied or has a flow. |
| ApplicationReconciliation.JustifiedBuckets | manager/controllers/app/fybrikapplication_controller.go:640-671 | If no dataset is listed twice, the bucket tracked for a dataset is the one allocated for the last copy made for it, and there is none if no copy was made. |
| ApplicationSolution.SolvesOneMore | manager/controllers/app/fybrikapplication_controller.go:673-723 | After one more attempt the plotter is still built from the plans of exactly the completed attempts, and the buckets are those of all of them. |
| ApplicationSolution.FlowsAreCompleted | manager/controllers/app/fybrikapplication_controller.go:673-723 | A dataset has a flow exactly if an attempt for it was completed. |
| ApplicationSolution.BucketsExactly | manager/controllers/app/plotter_generator.go:48-111 | The tracked buckets are those that the attempts left behind: each belongs to an attempt whose last copy got it, and each attempt that left one has an entry. |
| ApplicationSolution.CopiesLeaveBuckets | manager/controllers/app/plotter_generator.go:48-111 | An attempt leaves a bucket behind exactly if it carried out a copy. |
| EndToEnd.SubmittedIsPlanned | manager/controllers/app/fybrikapplication_controller.go:673-723 | Every dataset of a submitted plotter that is not denied has a flow made from a valid plan for it, whose read actions are the required ones, each as often. |
| EndToEnd.SubmittedIsEnforced | manager/controllers/app/fybrikapplication_controller.go:367-396 | That plan also obeys the deploy status and the cluster restrictions of every applicable rule before the first conflict, which are all rules exactly if there is none; if the flows do not disturb each other, no names clash, no shared module is asked for different copies and no module is a plug-in, the planned module in the blueprint of the planned cluster does what the plan says for every element. |
| BlueprintReconciliation.CheckReleaseStatus | manager/controllers/app/blueprint_controller.go:498-523 | True exactly if all resources could be listed and are ready, False exactly if one has failed. |
| BlueprintReconciliation.BlueprintReconciler.HandleModule | manager/controllers/app/blueprint_controller.go:312-352 | The chart is applied exactly if the blueprint has changed or Helm knows no release or a failed one, and the release is inspected exactly if it is deployed; it is stamped in any case, is in the cluster afterwards exactly if it was or the application took effect, and the module is reported ready exactly when all its resources are. |
| BlueprintReconciliation.BlueprintReconciler.HandleModules | manager/controllers/app/blueprint_controller.go:310-353 | Exactly the releases of the handled modules are stamped, and exactly those whose chart was applied with effect are added; what is done for each module follows from what Helm says about its release; the loop is given up exactly if the arguments of some module cannot be converted; the counters agree exactly if every handled module is ready. |
| BlueprintReconciliation.BlueprintReconciler.CleanUp | manager/controllers/app/blueprint_controller.go:354-364 | Exactly the releases with another stamp are uninstalled; one stays in the status exactly if its uninstallation fails, and in the cluster exactly if it also has no effect. |
| BlueprintReconciliation.BlueprintReconciler.ReconcileSpec | manager/controllers/app/blueprint_controller.go:291-377 | A pass is given up exactly if the arguments of some module cannot be converted, after some modules have been handled; otherwise it is the handling of all modules followed by the clean-up, as Helm's answers determine, and is ready exactly if every module is. |
| BlueprintReconciliation.BlueprintReconciler.Reconcile | manager/controllers/app/blueprint_controller.go:54-93 | The status of a whole pass is stored exactly if all arguments can be converted and the status can be written; otherwise the stored status is as before, although releases have been installed and uninstalled as the answers determine. |
| BlueprintReconciliation.BlueprintReconciler.DeleteExternalResources | manager/controllers/app/blueprint_controller.go:127-138 | What is left in the cluster are exactly the releases that the status does not know, and of the others those whose uninstallation was refused; an error is returned exactly if one failed. |
| BlueprintReconciliation.PassTracksExactly | manager/controllers/app/blueprint_controller.go:291-364 | After a stored pass the status has exactly the releases the blueprint asks for, stamped with its generation, and older ones whose uninstallation just failed; nothing else is installed. |
| BlueprintReconciliation.RunsAreSafe | manager/controllers/app/blueprint_controller.go:54-93 | In every run with growing generations in which no edit comes between a lost status and the next stored one, each installed release is in the status, or is asked for by the blueprint while a status is lost. |
| BlueprintReconciliation.LeaksExactly | manager/controllers/app/blueprint_controller.go:291-364 | After a stored pass every installed release is in the status exactly if before it every installed release was in the status or asked for. |
| BlueprintReconciliation.LostStatusLeaks | manager/controllers/app/blueprint_controller.go:80-89 | There is a run — a lost status, an edit, a stored pass — that leaves an installed release which the status does not know. |
| BlueprintReconciliation.DeletionIsSafe | manager/controllers/app/blueprint_controller.go:96-138 | Deleting a blueprint after any run in which no edit follows a lost status leaves behind only what failed to be uninstalled, or what the blueprint asks for while a status is lost. |
| BlueprintReconciliation.DeletionIsCompleteExactly | manager/controllers/app/blueprint_controller.go:127-138 | A deletion without failures leaves nothing behind exactly if all that is installed is in the status. |
| BlueprintReconciliation.DeletionAfterLostStatusLeaks | manager/controllers/app/blueprint_controller.go:127-138 | There is a run with a lost status after which a deletion without failures leaves a release behind. |
| BlueprintReconciliation.ReadyExactly | manager/controllers/app/blueprint_controller.go:305-369 | The blueprint is ready exactly if every module is reported ready and its state was found out in this very pass; then every release is installed, and the generation was not new unless there are no modules. |
| BlueprintReconciliation.ReadyByAnswersExactly | manager/controllers/app/blueprint_controller.go:305-369 | The blueprint is ready exactly if for each module the generation was not new, the release was in the cluster before, Helm says that it is deployed and all its resources are ready. |
| BlueprintReconciliation.TwoPassesSuffice | manager/controllers/app/blueprint_controller.go:291-377 | If every chart can be applied in one pass, and every release is deployed with its resources ready in the next, the blueprint and all its modules are ready; if no uninstallation fails in the first, the status has exactly the releases asked for. |
| BlueprintReconciliation.ModuleStateGoesStale | manager/controllers/app/blueprint_controller.go:342-351 | A blueprint can cease to be ready while all its modules are still reported ready. |
| PolicyCompaction.CompactOperationDecisions | pkg/connectors/policymanager/clients/policymanager.go:70-99 | One decision per operation, in the order the operations first occur, with the actions and policies of all decisions about it in order. |
| PolicyCompaction.CompactPolicyDecisions | pkg/connectors/policymanager/clients/policymanager.go:33-68 | One entry per dataset, in the order the datasets first occur, each compacted by operation. |
| PolicyCompaction.MergePoliciesDecisions | pkg/connectors/policymanager/clients/policymanager.go:19-30 | The answers, one after the other, compacted. |
| PolicyCompaction.CompactingKeepsActions | pkg/connectors/policymanager/clients/policymanager.go:33-99 | Filtering by dataset and operation gives the same actions and policies, in the same order, before and after compacting; afterwards at most one decision passes the filter. |
| PolicyCompaction.MergedSaysAll | pkg/connectors/policymanager/clients/policymanager.go:19-30 | The actions and policies for a dataset and an operation are those of the answers, one after the other. |
| PolicyCompaction.MergedIsOrdered | pkg/connectors/policymanager/clients/policymanager.go:44-99 | Datasets, and operations within a dataset, appear once each in the order they are first named. |
| PolicyCompaction.GeneralSaysAll | pkg/connectors/policymanager/clients/policymanager.go:19-42 | The general actions and policies for an operation are those of the answers, one after the other, in at most one decision. |
| PolicyCompaction.GeneralIsOrdered | pkg/connectors/policymanager/clients/policymanager.go:70-99 | The operations of the general decisions appear once each in the order they are first named. |
| PolicyCompaction.MergeNested | pkg/connectors/policymanager/clients/policymanager.go:19-30 | Merging any consecutive answers first makes no difference, so merging is associative and idempotent. |
| PolicyCompaction.CompactPart | pkg/connectors/policymanager/clients/policymanager.go:33-99 | Compacting any part of a list first makes no difference to compacting the whole, for every grouping that keeps keys and absorbs its own results. |
| PolicyCompaction.CompactTwice | pkg/connectors/policymanager/clients/policymanager.go:33-99 | Compacting is idempotent. |
| NestedMaps.JoinSplit | manager/controllers/app/blueprint_controller.go:264 | Joining the components of a key with dots gives the key back, so different keys are different paths. |
| NestedMaps.CopyMap | manager/controllers/app/blueprint_controller.go:248-260 | A copy holds what the original holds, consists of new maps only, and shares none; the original may share maps, and nothing in it changes. |
| NestedMaps.SetMapField | manager/controllers/app/blueprint_controller.go:263-280 | The map afterwards holds what setting the path means, still shares nothing, and the result says whether it could be set; if not, no map in memory has changed. |
| NestedMaps.ChartValues | manager/controllers/app/blueprint_controller.go:157-160 | Whatever order the keys come in, the values are those of every other order, and no map of the arguments changes. |
| NestedMaps.SetFailsExactly | manager/controllers/app/blueprint_controller.go:263-280 | Setting fails exactly if a proper prefix of the path leads to something that is not a map. |
| NestedMaps.GetAfterSet | manager/controllers/app/blueprint_controller.go:263-280 | After a path is set it reads back the value, nothing is left below it, its prefixes are maps, and every unrelated path reads as before. |
| NestedMaps.PutCommutes | manager/controllers/app/blueprint_controller.go:157-160 | Any two different paths can be set in either order with the same result, failures included. |
| NestedMaps.OrderIsIrrelevant | manager/controllers/app/blueprint_controller.go:157-160 | All orders of setting the keys of a map give the same result. |
| TaxonomyMerge.Unique | pkg/slices/unique.go:17-41 | The same elements, in strictly ascending order. |
| TaxonomyMerge.BeforeExactly | pkg/slices/unique.go:17-41 | A string precedes another exactly if they agree up to some point where the first ends or has the smaller character. |
| TaxonomyMerge.AscendingIsUnique | pkg/slices/unique.go:17-41 | There is only one strictly ascending list of given elements, so any way of sorting and removing duplicates gives it. |
| TaxonomyMerge.MergeSchemaRef | pkg/taxonomy/compile/merge.go:39-147 | The destination afterwards holds the merge of what both held, is made only of objects that were in either, and none of them is held twice; no object of the source changes. |
| TaxonomyMerge.Merge | pkg/taxonomy/compile/merge.go:27-31 | The definitions of the source document are merged into those of the destination, and nothing else of it is. |
| TaxonomyMerge.MergeDefinitions | pkg/taxonomy/compile/merge.go:15-25 | The result holds the layers merged one after the other, as they were given, although merging changes their schemas in place. |
| TaxonomyMerge.MergedAt | pkg/taxonomy/compile/merge.go:39-91 | Looking up any path and merging commute, except that what the destination has there is gone if the source has a boolean for additional properties on the way. |
| TaxonomyMerge.MergedSets | pkg/taxonomy/compile/merge.go:53-59 | A merged schema has the union of the property names, of the required names and of the enumerated values, and no duplicates among the latter two. |
| TaxonomyMerge.LayersUnite | pkg/taxonomy/compile/merge.go:15-31 | At every path of every definition the merged layers have exactly the property names, required names and enumerated values that some layer has there which no later layer drops. |
| TaxonomyLayers.LastKeywordCounts | pkg/taxonomy/compile/merge.go:50-144 | At every path the value of a keyword is that of the last of these layers that gives one, and there is none exactly if none of them does. |
| TaxonomyLayers.LastAdditionalCounts | pkg/taxonomy/compile/merge.go:61-80 | Whether additional properties are allowed, forbidden or given by a schema is what the last of these layers says that says anything about them. |
| TaxonomyLayers.FirstLayerNames | pkg/taxonomy/compile/merge.go:39-49 | Type and reference are those of the first of these layers. |
| TaxonomyLayers.AlternativesAreAppended | pkg/taxonomy/compile/merge.go:88-90 | The alternatives are those of all these layers, one after the other. |
| TaxonomyMerge.MergedLayersParse | pkg/taxonomy/compile/merge.go:61-80 | Merged layers have a boolean or a schema for additional properties and not both, like layers that are parsed. |
| TaxonomyMerge.DuplicateFreeExactly | pkg/taxonomy/compile/merge.go:93-108 | A schema is in the merged layers exactly if some layer has it and no later one drops it, and its lists are free of duplicates exactly if several such layers have it or the only one is free of them. |
| TaxonomyMerge.BooleanDropsSchema | pkg/taxonomy/compile/merge.go:61-80 | A layer with a boolean for additional properties, after one with a schema: what the schema required is not in the merged layers. |
| TaxonomyMerge.DuplicatesStay | pkg/taxonomy/compile/merge.go:93-108 | A single layer with a repeated name keeps it. |

## Left out

- Kubernetes, Helm, OPA, the policy manager, the data catalog, storage allocation and the cluster manager are
  supplied values, failures included; kstatus and label selectors (the state of one resource) too.
- The policy manager answers about writing to a region as a function of the region within one request.
- A nil map or list and an empty one are the same in the model; where it shows, in the decision left by a failed merge,
  either may happen.
- PlotterGeneration.PlotterGenerator.AddFlowInfoForAsset: does not say which of several valid plans is taken, because that depends on the order in which maps are visited.
- BlueprintCompiler.RefineInstances: takes instances of one cluster only, as its one caller does; appends to the arguments of an instance as values, because each instance has arguments of its own.
- PlotterCompiler.PlanReachesBlueprint: assumes that flows do not disturb each other and that the name of the instance does not clash, for which the exact conditions are given.
- EndToEnd.SubmittedIsEnforced: that the plan is carried out assumes the same of all flows and names, that no shared module is asked for different copies, and that no module is a plug-in, because the code gives plug-ins no arguments.
- PlanRestrictions.ModulesObeyedExactly: of the properties of a module only the type and the name of the chart are modelled; those of a storage account are given by the caller.
- BlueprintReconciliation.BlueprintReconciler.HandleModules: if two modules had one release, the second may find it installed by the first; which comes first is not modelled, because a map is visited in any order.
- BlueprintReconciliation.RunsAreSafe: assumes that labels and the modules namespace are fixed, so that a module's release has one name.
- TaxonomyMerge.Unique: models sorting in place by its result, because the sorting algorithm belongs to a library.
- TaxonomyMerge.MergeSchemaRef: requires schemas that share no object, which documents read from files do not; alternatives (oneOf, allOf, anyOf) are lists of encodings, because they are appended and never merged.
- TaxonomyMerge.MergeDefinitions: requires documents that share no object, so not the same document twice; each layer is read from its own file.
- TaxonomyMerge.LayersUnite: assumes that a schema for additional properties is a boolean or a schema and not both, which is how documents are parsed (`pkg/taxonomy/model/additionalprops.go:24-45`).
- NestedMaps.SetMapField: sets strings only, as chart values are strings.
- A status write that fails is modelled for blueprints (the status is lost); for plotters status writes succeed, and a
  failed create deploys nothing.
- The deletion of an application (`manager/controllers/app/fybrikapplication_controller.go:234-295`), the endpoints of
  read modules, the choice of the workload cluster, and the construction of the requirements of a dataset.
- Labels, owners, timestamps, requeueing, events, the texts of errors other than those the code compares, and logging.
- Checking module dependencies (`manager/controllers/app/select_modules.go:242-275`), which nothing in the planner calls.
- The transformation of a merged taxonomy into a structural schema (`pkg/taxonomy/compile/transform.go`), its `type` and
  `$ref` keywords being kept from the first layer as the code does.
- Connectors, their generated clients and converters, the command line, validation against JSON schemas, vault.
