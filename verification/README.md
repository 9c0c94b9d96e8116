# Proofs about the Ansible controller and platform collections

The collections bring a server to a declared state over HTTP. This project models the parts
that carry state and proves what they guarantee, each against a small server of its own.

| files | models |
|---|---|
| `Json`, `Collections`, `Numerals` | values, sets gone through in any order, how integers are read and written |
| `Secrets`, `Updates` | comparison of objects whose secrets are hidden, and the update step of the controller collection |
| `Pagination`, `Associations` | reading a list page by page, and repairing ordered and unordered associations |
| `Polling` | the two chained wait loops |
| `Workflow`, `WorkflowLinks`, `WorkflowGraph` | destroying, creating and linking the nodes of a workflow |
| `SpawnProtocol` | workers sharing one persistent manager over a socket file, a meta file and a lock |
| `GatewayStore`, `OrgStore` | the mock gateway's resources, its organizations with their name index, and the lookup by name or id |
| `ActionPlugin`, `ActionRuns`, `ActionRepeats` | the task state machine: one task, sequences of tasks, repeated and dry runs |
| `SchemaWalk`, `SpecTools` | the two schema walks, the resource generator and the specification validator (OpenAPI Specification 3.0.3, sections 4.7.23 and 4.7.24) |

`dafny verify dfyconfig.toml` checks everything.

## How the model is built

- Code that changes things step by step is a method over a class or a loop over local values,
  proved against a function of the state before. Pure recursion is a function with lemmas.
- A server is a class that logs what it is asked for. What it may do on its own is a parameter:
  which payloads it accepts, which paths it hides, which deletions it refuses, after how many
  POSTs it stops accepting. No theorem assumes more of it than its contract says.
- Sets are gone through in an order nobody promises. The gateway store keeps the order in which
  its items came in, as a Python dictionary does, so a find answers the same item every time.
- The spawn protocol is a transition system. Each file operation, connection and process event
  is one step, workers interleave freely, and what the outside decides is part of the action.
- Clocks and answers of a polled server are a script; a clock never runs backwards and a sleep
  lasts at least its interval.

## Where the code does not do what is said of it

- The gateway collection's search for hidden values never finds one: strings have no case in it
  (`Secrets.GatewaySearchIsBlind`). `Secrets.CollectionsAgree` says exactly when that shows.
- With `update_secrets` on, hidden fields are sent on every run (`Updates.SecretsAreSentAgain`).
- "Exactly one worker spawns" holds for calm runs only. One manager, plus one for each cleanup,
  exit and failed publication, is not a bound either, because a cleanup is two removals and runs
  unlocked on the fast path (`SpawnProtocol.OneCleanupCanCostTwoManagers`) and when an idle
  manager shuts down, which is on by default
  (`SpawnProtocol.IdleShutdownCanCostTwoManagers`: the manager that leaves removes the meta file
  of the one spawned in the meantime). It is one for all runs exactly when there is at most one
  worker and the idle timeout is off (`SpawnProtocol.OneForEachIffAlone`,
  `SpawnProtocol.OneForEachIffNobody`). Counting removed files gives a bound, and so does
  counting cleanups, those of idle managers among them, together with the spawns made while an
  unlocked cleanup stands between its two removals (`SpawnProtocol.SpawnedIsBounded`,
  `SpawnProtocol.WholeCleanupsPayForOne`).
- A remaining timeout of exactly zero is read as no timeout (`Polling.ZeroRestPollsForEver`).
- A name of digits is looked up as an id and nothing else. A present task on such a name that no
  item has for its id creates another item on every run, so two runs leave two items of one name
  unless the name is the id that the first of them gets (`ActionRuns.TwiceIsTwo`); an item that
  has that id is taken for the one meant, and an update gives it the name. Exactly when a task, or a whole run, keeps names unique:
  `ActionRuns.UniqueAfterIff`, `ActionRuns.UniqueThroughoutIff`; exactly when it leaves other
  names alone: `ActionRuns.OthersKeptIff`; exactly when names are independent of each other:
  `ActionRuns.ActsOnItsNameIff`, `ActionRuns.SeparateThroughoutIff`; exactly when a second run is
  quiet: `ActionRepeats.SecondRunIsQuiet`. Names that are no numerals meet the conditions by themselves.
- An ordered association that names an id twice never settles (`Associations.OrderedRepairSettles`).
- Destroying a workflow's nodes does not look at whether the server agreed
  (`Workflow.DestroyNodes`). A source node that is missing while linking is created once per kind
  of edges (`WorkflowLinks.LinkMissing`); since the create phase leaves every declared source
  findable (`WorkflowGraph.PlacedSources`), a build comes to that only when somebody else deletes
  the node in between.
- A find that fails makes a present task create a second item (`ActionRepeats.FailedFindDuplicates`).
- Renaming an organization to a used name breaks its index (`OrgStore.RenameKeepsExactIff`).
  Deleting one with the empty name to which the index points leaves a dangling entry behind, and
  no other request does (`OrgStore.NoDangleIff`, `OrgStore.IndexStaysRightIff`). The lookup by
  name then fails in the store; over HTTP that failure is not seen, since no route calls this
  lookup and the listing of organizations skips an empty name.
- An integer spelled otherwise than it is written, such as 007, is ambiguous when another item
  has that name (`GatewayStore.IntegerLookup`).
- A body whose component is itself a reference is followed further by the generator and not by
  the validator. Where references stand alone, fields taken from a body fit it exactly when its
  component is no reference, or there are no fields (`SpecTools.SourcePassesIff`,
  `SpecTools.AloneFitsIff`, `SpecTools.BareReferenceFails`).
- Fields missing from a manager's answer are compared as nulls, since an answer is a whole data
  class, and values of different types are compared by their text; the comment on the comparison
  says that both are passed over (`ActionPlugin.ShouldUpdate`).

## Model

| member | source | states |
|---|---|---|
| `Secrets.HasEncryptedIsExact` | collections/ansible_collections/ansible/controller/plugins/module_utils/controller_api.py:892-906 | the search for `$encrypted$` answers yes if and only if some path of keys and indices leads to that text |
| `Secrets.GatewaySearchIsBlind` | collections/ansible_collections/ansible/platform/plugins/module_utils/aap_module.py:746-758 | the gateway copy of the search answers no for every value: it has no case for a scalar |
| `Secrets.SearchesAgreeIffNothingHidden` | collections/ansible_collections/ansible/platform/plugins/module_utils/aap_module.py:746-758 | the two searches agree on exactly the values without a hidden leaf |
| `Secrets.CouldBeSameIffCompletable` | collections/ansible_collections/ansible/controller/plugins/module_utils/controller_api.py:909-925 | the field comparison holds if and only if some choice of values for the hidden leaves under dictionaries turns the old field into the new one |
| `Secrets.CouldBeSameReflexive` | collections/ansible_collections/ansible/platform/plugins/module_utils/aap_module.py:821-837 | every value could be the same as itself |
| `Secrets.ObjectsCouldBeDifferent` | collections/ansible_collections/ansible/controller/plugins/module_utils/controller_api.py:927-941 | the controller loop answers whether some compared field differs, for any order of the fields |
| `Secrets.GatewayObjectsCouldBeDifferent` | collections/ansible_collections/ansible/platform/plugins/module_utils/aap_module.py:726-743 | the gateway loop answers whether some compared field differs, for any order of the fields |
| `Secrets.CollectionsAgree` | collections/ansible_collections/ansible/platform/plugins/module_utils/aap_module.py:726-743 | the gateway decision implies the controller one, and the exact condition under which the two coincide; always with `update_secrets` off |
| `Updates.UpdateTask.UpdateIfNeeded` | collections/ansible_collections/ansible/controller/plugins/module_utils/controller_api.py:943-1012 | what is sent, what is stored, what is reported and how the step ends, for every item, payload, check mode and refusal |
| `Updates.NeedsPatchIff` | collections/ansible_collections/ansible/controller/plugins/module_utils/controller_api.py:927-971 | a PATCH is needed if and only if some field of the payload, the three that are never compared apart, differs or hides something and is not possibly the same |
| `Updates.CompleteIff` | collections/ansible_collections/ansible/controller/plugins/module_utils/controller_api.py:951-968 | which keys an item must have for each item type, given or its own |
| `Updates.SecondRunIsSilent` | collections/ansible_collections/ansible/controller/plugins/module_utils/controller_api.py:943-987 | with `update_secrets` off a second run sends nothing, for any masking of dictionary paths |
| `Updates.SecretsAreSentAgain` | collections/ansible_collections/ansible/controller/plugins/module_utils/controller_api.py:927-941 | with `update_secrets` on, the run after is silent if and only if nothing compared is masked or spelled `$encrypted$` |
| `Updates.UpdateTwice` | collections/ansible_collections/ansible/controller/plugins/module_utils/controller_api.py:943-987 | the task run twice, each run reading the item: what both send, store and report; the second sends again if and only if the first sent, secrets are updated and something compared is hidden |
| `Updates.MaskKeepsDifference` | collections/ansible_collections/ansible/controller/plugins/module_utils/controller_api.py:909-925 | a difference from what is shown masked survives masking the new value |
| `Updates.SentIsReported` | collections/ansible_collections/ansible/controller/plugins/module_utils/controller_api.py:974-982 | a run that sent its values reports a change, though it compares masked with masked |
| `Pagination.GetAll` | collections/ansible_collections/ansible/controller/plugins/module_utils/controller_api.py:386-400 | every page of the chain is asked for once, in order, and the results are concatenated; each way to fail is told apart |
| `Pagination.ChainVisitsOnce` | collections/ansible_collections/ansible/controller/plugins/module_utils/controller_api.py:394-399 | a finite chain of pages never returns to a page it has left |
| `Pagination.PagesReadBack` | collections/ansible_collections/ansible/controller/plugins/module_utils/controller_api.py:386-400 | splitting a list into pages of any size and following the links gives the list back |
| `Pagination.ReadList` | collections/ansible_collections/ansible/controller/plugins/module_utils/controller_api.py:386-400 | a list of at most 10000 entries is read back whole, a longer one is refused |
| `Associations.ModifyAssociations` | collections/ansible_collections/ansible/controller/plugins/module_utils/controller_api.py:735-768 | the POSTs sent are a prefix of a repair plan; list, log and other lists afterwards; all endings, check mode included |
| `Associations.PlanRepair` | collections/ansible_collections/ansible/controller/plugins/module_utils/controller_api.py:744-756 | removals and additions form a plan: the whole list when ordered, the two set differences otherwise |
| `Associations.NeverEmpty` | collections/ansible_collections/ansible/controller/plugins/module_utils/controller_api.py:746-753 | a plan is empty if and only if the list is settled already |
| `Associations.SetRepairProgress` | collections/ansible_collections/ansible/controller/plugins/module_utils/controller_api.py:751-768 | each POST of a set repair brings the list one id closer; every state in between lies between intersection and union; the number of POSTs is the size of the symmetric difference |
| `Associations.SetRepairSettles` | collections/ansible_collections/ansible/controller/plugins/module_utils/controller_api.py:751-768 | a whole set repair ends at the desired set |
| `Associations.OrderedRepairSettles` | collections/ansible_collections/ansible/controller/plugins/module_utils/controller_api.py:746-750 | an ordered repair ends at the desired list if and only if it was there before or the list names no id twice; otherwise it keeps first occurrences |
| `Associations.RepairConverges` | collections/ansible_collections/ansible/controller/plugins/module_utils/controller_api.py:735-768 | stopped after any prefix and run again the repair settles, a third run sends nothing, and for a set both runs together send no more than one |
| `Polling.PollUntil` | collections/ansible_collections/ansible/controller/plugins/module_utils/controller_api.py:1049-1064 | the loop stops at the first answer that is done or found after the timeout |
| `Polling.WaitOnUrl` | collections/ansible_collections/ansible/controller/plugins/module_utils/controller_api.py:1042-1079 | at most floor(T/I) + 2 requests for a positive timeout, one for a negative, no timeout for zero |
| `Polling.WaitOnWorkflowNodeUrl` | collections/ansible_collections/ansible/controller/plugins/module_utils/controller_api.py:1085-1117 | how the wait ends for every pair of scripts: still polling, missing, approval, or the job wait on what is left of the timeout with its own ending; both loops together make at most floor(T/I) + 3 requests unless the rest is exactly zero |
| `Polling.LoopIsShort` | collections/ansible_collections/ansible/controller/plugins/module_utils/controller_api.py:1049-1063 | where a loop stops, in intervals of its timeout |
| `Polling.RestOfBudget` | collections/ansible_collections/ansible/controller/plugins/module_utils/controller_api.py:1107-1115 | the budget left for the second loop |
| `Polling.BoundIsReached` | collections/ansible_collections/ansible/controller/plugins/module_utils/controller_api.py:1042-1064 | a job that never ends uses the whole bound of a single loop |
| `Polling.ChainedBoundIsReached` | collections/ansible_collections/ansible/controller/plugins/module_utils/controller_api.py:1085-1117 | both loops together reach floor(T/I) + 3 requests, however late within the timeout the node shows up |
| `Polling.ZeroRestPollsForEver` | collections/ansible_collections/ansible/controller/plugins/module_utils/controller_api.py:1107-1115 | whatever node script leaves a rest of exactly zero, the job loop stops at the first answer that is done and nowhere else |
| `Polling.ZeroRestHappens` | collections/ansible_collections/ansible/controller/plugins/module_utils/controller_api.py:1085-1115 | a node that shows up when the timeout is just used up leaves such a rest, for every number of polls |
| `Workflow.DestroyNodes` | collections/ansible_collections/ansible/controller/plugins/modules/workflow_job_template.py:795-804 | which nodes go, that refused deletions are not noticed, and that edges of nodes outside the workflow stay |
| `Workflow.CreateNode` | collections/ansible_collections/ansible/controller/plugins/modules/workflow_job_template.py:669-688 | a node is created with its payload, updated with it if needed, or refused, as the search by workflow and identifier finds none, one or several, and as the server takes the payload |
| `Workflow.SentIsPayload` | collections/ansible_collections/ansible/controller/plugins/modules/workflow_job_template.py:601-670 | what is sent for a node is its workflow, its identifier, every declared field of the fourteen with a value that is not blank, and every looked-up id that none of these overlays, and nothing else |
| `Workflow.CreateNodes` | collections/ansible_collections/ansible/controller/plugins/modules/workflow_job_template.py:601-692 | the nodes are placed in order up to the first whose lookups fail or whose payload the server refuses |
| `Workflow.PlaceOne` | collections/ansible_collections/ansible/controller/plugins/modules/workflow_job_template.py:669-688 | placing settles the search for its own identifier and touches no other node and no other search |
| `Workflow.PlacedResolve` | collections/ansible_collections/ansible/controller/plugins/modules/workflow_job_template.py:601-688 | after the create phase every declared identifier finds exactly one node, whatever was there |
| `Workflow.PlacedAfresh` | collections/ansible_collections/ansible/controller/plugins/modules/workflow_job_template.py:601-688 | in a workflow without nodes exactly the declared nodes are created in order, with the declared fields, under the ids that follow |
| `Workflow.RefreshedHolds` | collections/ansible_collections/ansible/controller/plugins/module_utils/controller_api.py:927-987 | an update leaves a node with what was sent, keeps the fields that were not sent, and has nothing to send again |
| `Workflow.PlacedHold` | collections/ansible_collections/ansible/controller/plugins/modules/workflow_job_template.py:601-688 | after the create phase each declared node is there once and holds what was declared, whatever was there |
| `WorkflowLinks.Associate` | collections/ansible_collections/ansible/controller/plugins/modules/workflow_job_template.py:784-792 | every wanted kind of edges reaches its targets, other kinds and nodes keep theirs, and the POSTs are one plan for each kind |
| `WorkflowLinks.CreateOrUpdate` | collections/ansible_collections/ansible/controller/plugins/module_utils/controller_api.py:1014-1031 | the node found keeps its fields, a node not found is created unless that is refused, then its edges are repaired; what makes it stop |
| `WorkflowLinks.LookUpTargets` | collections/ansible_collections/ansible/controller/plugins/modules/workflow_job_template.py:768-781 | every target is found once, or linking stops |
| `WorkflowLinks.AnotherRound` | collections/ansible_collections/ansible/controller/plugins/modules/workflow_job_template.py:782-792 | applying the growing map of associations again sends nothing for the kinds done before |
| `WorkflowLinks.LinkNode` | collections/ansible_collections/ansible/controller/plugins/modules/workflow_job_template.py:750-792 | one node: declared kinds reach exactly the declared targets and are paid for once; what makes it stop |
| `WorkflowLinks.LinkMissing` | collections/ansible_collections/ansible/controller/plugins/modules/workflow_job_template.py:742-792 | a source that is not found is created once for every declared kind: which nodes there are then, which edges each of them has, and that no other edge changes |
| `WorkflowGraph.PlacedSources` | collections/ansible_collections/ansible/controller/plugins/modules/workflow_job_template.py:601-742 | after the create phase every source to link is found; of the fields that are compared it holds each declared and each looked-up one |
| `WorkflowLinks.LinkNodes` | collections/ansible_collections/ansible/controller/plugins/modules/workflow_job_template.py:729-792 | linking is exact and framed for any earlier edges, and costs nothing when the graph is settled |
| `WorkflowGraph.OrderDoesNotMatter` | collections/ansible_collections/ansible/controller/plugins/modules/workflow_job_template.py:601-804 | results of the same nodes declared in different orders have equally many nodes and the same graph: fields, and edges by the names they lead to |
| `WorkflowGraph.BuildInAnyOrder` | collections/ansible_collections/ansible/controller/plugins/modules/workflow_job_template.py:601-804 | two builds of permuted declarations on two servers, whatever was there before, end with such results |
| `WorkflowGraph.DrawsTheDeclared` | collections/ansible_collections/ansible/controller/plugins/modules/workflow_job_template.py:601-792 | a build that is through has the declared graph, ids aside, and no more nodes than declared |
| `WorkflowGraph.LaidAfresh` | collections/ansible_collections/ansible/controller/plugins/modules/workflow_job_template.py:601-688 | after destroying and creating, each declared node is there once, without edges, and no other node is |
| `WorkflowGraph.GoalsExist` | collections/ansible_collections/ansible/controller/plugins/modules/workflow_job_template.py:768-781 | once the nodes are laid no lookup of a declared target fails |
| `WorkflowGraph.LinkedIsDrawn` | collections/ansible_collections/ansible/controller/plugins/modules/workflow_job_template.py:750-792 | a linked node has the declared fields, and edges to the declared names |
| `WorkflowGraph.CreateAndLink` | collections/ansible_collections/ansible/controller/plugins/modules/workflow_job_template.py:990-996 | create then link, on a workflow with or without nodes |
| `WorkflowGraph.BuildGraph` | collections/ansible_collections/ansible/controller/plugins/modules/workflow_job_template.py:982-996 | destroying first, any prior state ends as exactly the declared graph, each node found under its identifier holding its keys, its declared fields and its looked-up ids and nothing else, for a declaration the server takes, unless it refuses a POST of an edge or a kind declares more than 10000 targets; without destroying, every declared node is there once and holds what was declared where fields are compared, and of the edges only declared kinds of declared nodes change; however it ends and whatever is declared, nodes and edges of other workflows are untouched |
| `SpawnProtocol.SpawnedIsBounded` | collections/ansible_collections/ansible/platform/plugins/connection/http.py:328-459 | over all interleavings and failures, idle shutdowns among them, the managers spawned are at most one, plus files removed by cleanups, exits and failed publications; a cleanup, by a worker or an idle manager, pays for at most two; cleanups and the spawns during an unlocked one are enough as well |
| `SpawnProtocol.WholeCleanupsPayForOne` | collections/ansible_collections/ansible/platform/plugins/connection/http.py:328-459 | the bound with one manager for each cleanup holds for runs that spawn none while an unlocked cleanup, by a worker or an idle manager, stands between its two removals |
| `SpawnProtocol.OneCleanupCanCostTwoManagers` | collections/ansible_collections/ansible/platform/plugins/connection/http.py:334-351 | that bound is false in general: with any two workers a run without failures spawns three managers with one cleanup |
| `SpawnProtocol.IdleShutdownCanCostTwoManagers` | collections/ansible_collections/ansible/platform/plugins/plugin_utils/manager/manager_process.py:361-406 | so is it when a manager leaves for being idle: with any one worker, no failure and no worker cleaning up, one idle shutdown leads to three managers |
| `SpawnProtocol.OneForEachIffAlone` | collections/ansible_collections/ansible/platform/plugins/connection/http.py:328-459 | with the idle timeout off that bound holds over all runs if and only if there is at most one worker |
| `SpawnProtocol.OneForEachIffNobody` | collections/ansible_collections/ansible/platform/plugins/plugin_utils/manager/manager_process.py:361-406 | with the idle timeout on it holds over all runs if and only if there is no worker |
| `SpawnProtocol.LockIsExclusive` | collections/ansible_collections/ansible/platform/plugins/connection/http.py:361-364 | no two workers are ever inside the locked section |
| `SpawnProtocol.CalmRunSharesOneManager` | collections/ansible_collections/ansible/platform/plugins/connection/http.py:328-459 | from no files, with whole meta writes, no failure and no idle shutdown, at most one manager is spawned, nothing is cleaned up, every client is connected to it |
| `SpawnProtocol.LoneWorkerIsServed` | collections/ansible_collections/ansible/platform/plugins/connection/http.py:328-459 | with a free lock and nobody else moving, a worker returns connected to a listening manager whatever the files say: to the one they name if it answers, else to a new published one; files of a dead manager are cleaned up whether or not its death is noticed |
| `SpawnProtocol.WaiterIsServed` | collections/ansible_collections/ansible/platform/plugins/connection/http.py:361-391 | a worker that gets the lock is connected to the manager published in the meantime if it answers, else it cleans up and spawns |
| `SpawnProtocol.LoneWorkerSpawns` | collections/ansible_collections/ansible/platform/plugins/connection/http.py:393-459 | a worker left alone with a free lock that finds no manager spawns one, publishes it and is connected to it |
| `SpawnProtocol.RaisesOnlyAfterGivingUp` | collections/ansible_collections/ansible/platform/plugins/connection/http.py:393-459 | over all runs a worker raises only after its own refused spawn, given-up startup, or failed connection to the manager it spawned |
| `SpawnProtocol.GivingUpRaises` | collections/ansible_collections/ansible/platform/plugins/connection/http.py:393-459 | and then it releases the lock, raises, and leaves files, managers and clients alone |
| `SpawnProtocol.UnwrittenMetaIsNoFailure` | collections/ansible_collections/ansible/platform/plugins/connection/http.py:436-448 | a meta file that cannot be opened or written does not keep the worker from its manager |
| `SpawnProtocol.ReturnedIsConnected` | collections/ansible_collections/ansible/platform/plugins/connection/http.py:344-448 | over all runs whoever has returned was connected, and only to managers that were spawned |
| `SpawnProtocol.ReaderMeetsHalfWrittenMeta` | collections/ansible_collections/ansible/platform/plugins/connection/http.py:336-351 | a half-written meta file sends a reader to the unlocked cleanup |
| `SpawnProtocol.StepKeepsSolvent` | collections/ansible_collections/ansible/platform/plugins/connection/http.py:371-443 | every step keeps the count of managers within what cleanups, exits and failures pay for |
| `SpawnProtocol.StepSparesOthers` | collections/ansible_collections/ansible/platform/plugins/plugin_utils/manager/process_manager.py:159-180 | a step of one worker takes away no other worker's right to spawn |
| `Numerals.ParseDecimal` | collections/ansible_collections/ansible/platform/plugins/module_utils/aap_module.py:676-684 | reading a written integer gives it back |
| `Numerals.OnlyNumerals` | collections/ansible_collections/ansible/platform/plugins/module_utils/aap_module.py:676-684 | nothing but digits with single underscores between them is read as a number |
| `Numerals.SpaceIsSkipped` | collections/ansible_collections/ansible/platform/plugins/module_utils/aap_module.py:676-684 | white space around an integer does not matter |
| `GatewayStore.GenericResource.Create` | collections/ansible_collections/ansible/platform/tools/mock_gateway_server.py:56-71 | a create is refused or stores one new item under a fresh id, null fields left out |
| `GatewayStore.AcceptsIff` | collections/ansible_collections/ansible/platform/tools/mock_gateway_server.py:56-60 | a create is taken if and only if every required field is there and not blank |
| `GatewayStore.NewItemFields` | collections/ansible_collections/ansible/platform/tools/mock_gateway_server.py:61-70 | a new item field by field: the payload without its nulls, and the id |
| `GatewayStore.MatchesIff` | collections/ansible_collections/ansible/platform/tools/mock_gateway_server.py:73-109 | an item matches if and only if it has all the texts asked for, and the id or the name if one was asked for |
| `GatewayStore.GenericResource.ListItems` | collections/ansible_collections/ansible/platform/tools/mock_gateway_server.py:73-109 | exactly the matching items are listed, each once, in the order in which they came in |
| `GatewayStore.SelectionIsExact` | collections/ansible_collections/ansible/platform/tools/mock_gateway_server.py:73-109 | going through the items in order picks each matching one once and no other |
| `GatewayStore.GenericResource.Patch` | collections/ansible_collections/ansible/platform/tools/mock_gateway_server.py:117-130 | only allowed fields of the one item change, never its id |
| `GatewayStore.PatchedFields` | collections/ansible_collections/ansible/platform/tools/mock_gateway_server.py:117-130 | a patched item field by field: an allowed field other than id, created and url takes the payload's value, all else stays |
| `GatewayStore.GenericResource.Delete` | collections/ansible_collections/ansible/platform/tools/mock_gateway_server.py:132-136 | exactly the named item goes |
| `GatewayStore.GenericResource.Seed` | collections/ansible_collections/ansible/platform/tools/mock_gateway_server.py:138-150 | the store after seeding, item by item |
| `GatewayStore.SeedLastWins` | collections/ansible_collections/ansible/platform/tools/mock_gateway_server.py:138-150 | under each seeded id stands the last seed item of that id, its id laid under its own fields |
| `GatewayStore.SeedKeepsOthers` | collections/ansible_collections/ansible/platform/tools/mock_gateway_server.py:138-150 | an id that no seed item gets keeps what it had |
| `GatewayStore.GetOne` | collections/ansible_collections/ansible/platform/plugins/module_utils/aap_module.py:645-712 | how a lookup by name or id comes out, for every set of search fields |
| `GatewayStore.NameLookup` | collections/ansible_collections/ansible/platform/plugins/module_utils/aap_module.py:676-712 | a text that is no integer finds the one item of that name, nothing, or is ambiguous |
| `GatewayStore.IntegerLookup` | collections/ansible_collections/ansible/platform/plugins/module_utils/aap_module.py:676-712 | an integer finds the item of that id, if and only if no other item has the text for a name or the text is the id as written; without such an item it is a name |
| `OrgStore.Store.SeedDefaults` | collections/ansible_collections/ansible/platform/tools/mock_gateway_server.py:210-222 | an empty table is filled with the three defaults |
| `OrgStore.Store.FindOrgsByName` | collections/ansible_collections/ansible/platform/tools/mock_gateway_server.py:320-326 | what a lookup by name answers, seeding first |
| `OrgStore.Store.CreateOrg` | collections/ansible_collections/ansible/platform/tools/mock_gateway_server.py:345-365 | answer and state after a create |
| `OrgStore.Store.Patch` | collections/ansible_collections/ansible/platform/tools/mock_gateway_server.py:367-382 | answer and state after a patch, the rename that fails half way included |
| `OrgStore.Store.Delete` | collections/ansible_collections/ansible/platform/tools/mock_gateway_server.py:384-393 | answer and state after a delete |
| `OrgStore.IndexStaysSound` | collections/ansible_collections/ansible/platform/tools/mock_gateway_server.py:210-393 | over every run whose renames are to non-empty names no index entry dangles or misleads |
| `OrgStore.IndexStaysExact` | collections/ansible_collections/ansible/platform/tools/mock_gateway_server.py:210-393 | over every run whose renames are also to unused names the index is the inverse of the table |
| `OrgStore.ExactMeansScan` | collections/ansible_collections/ansible/platform/tools/mock_gateway_server.py:320-326 | in such a state a lookup by name answers what a scan would, names are unique and no rename fails half way |
| `OrgStore.CreateIs` | collections/ansible_collections/ansible/platform/tools/mock_gateway_server.py:345-365 | a create is taken if and only if its name is not empty and nobody has it; what is stored, description included, and that it is found by its name then |
| `OrgStore.PatchIs` | collections/ansible_collections/ansible/platform/tools/mock_gateway_server.py:367-382 | a patch changes the one organization: a field left out stays, null clears it, a text replaces it; lookups by the old and the new name follow |
| `OrgStore.DeleteIs` | collections/ansible_collections/ansible/platform/tools/mock_gateway_server.py:384-393 | a delete takes the one organization and its entry |
| `OrgStore.RenameKeepsExactIff` | collections/ansible_collections/ansible/platform/tools/mock_gateway_server.py:367-382 | a rename keeps the index exact if and only if the new name is unused |
| `OrgStore.NoDangleIff` | collections/ansible_collections/ansible/platform/tools/mock_gateway_server.py:210-393 | a request leaves every index entry pointing at an organization of its name if and only if it is not the delete of one with the empty name to which the index points |
| `OrgStore.IndexStaysRightIff` | collections/ansible_collections/ansible/platform/tools/mock_gateway_server.py:210-393 | over a run of any requests the index stays right throughout if and only if none of them is such a delete in its turn |
| `OrgStore.EmptyNameDangles` | collections/ansible_collections/ansible/platform/tools/mock_gateway_server.py:367-393 | the shortest such run: renaming to the empty name and deleting leaves an entry that points nowhere |
| `ActionPlugin.ShouldUpdate` | collections/ansible_collections/ansible/platform/plugins/action/base_action.py:968-1017 | no update if and only if every compared field is equal, of another type and equal as text, or a name against digits |
| `ActionPlugin.NeedsUpdateIff` | collections/ansible_collections/ansible/platform/plugins/action/base_action.py:968-1017 | an update is called for if and only if there is a new name or a declared field, credentials, directives and read-only fields apart, differs: by value within a type, by text across types, a name never from digits unless its reference may change |
| `ActionPlugin.Manager.FindItem` | collections/ansible_collections/ansible/platform/plugins/plugin_utils/manager/platform_manager.py:805-924 | a find answers the item asked for by id or number, else the first item of the name, else nothing |
| `ActionPlugin.FindIs` | collections/ansible_collections/ansible/platform/plugins/plugin_utils/manager/platform_manager.py:850-924 | a find asks for the id, else for a name of digits as an id, else for the first item of the name in the order of the store |
| `ActionPlugin.Manager.Execute` | collections/ansible_collections/ansible/platform/plugins/plugin_utils/manager/platform_manager.py:540-802 | what a create, an update and a delete leave in the store |
| `ActionPlugin.UpdatedFields` | collections/ansible_collections/ansible/platform/plugins/plugin_utils/manager/platform_manager.py:569-634 | an updated item field by field: a new name replaces the lookup field, declared fields take their values, fields not declared are sent as shown, the rest stays |
| `ActionPlugin.MergedFields` | collections/ansible_collections/ansible/platform/plugins/action/base_action.py:1176-1190 | the enforced state field by field: as declared, the name and the read-only fields as shown, all others null |
| `ActionPlugin.Choose` | collections/ansible_collections/ansible/platform/plugins/action/base_action.py:1065-1202 | what a task comes to after at most one find, for every state |
| `ActionPlugin.Run` | collections/ansible_collections/ansible/platform/plugins/action/base_action.py:1082-1251 | check mode only looks; a real run looks at most once and writes at most once; store, report and failure afterwards |
| `ActionPlugin.RunByState` | collections/ansible_collections/ansible/platform/plugins/action/base_action.py:1082-1360 | by the state of the task alone: which calls a run makes, where it fails, and what of the store stays, goes and is new; only absent and deleted remove, present with an id writes it over unseen, exists, find and gathered never write, enforced and merged look first, any other state fails without a call |
| `ActionRuns.IdPlaysNoPart` | collections/ansible_collections/ansible/platform/plugins/action/base_action.py:968-1017 | the id neither decides a comparison nor is changed by an update |
| `ActionRuns.UniqueAfterIff` | collections/ansible_collections/ansible/platform/plugins/action/base_action.py:1087-1161 | a task keeps names unique if and only if a create finds its name free or is refused, and an update that gives its item the declared name finds no other item with it |
| `ActionRuns.UniqueThroughoutIff` | collections/ansible_collections/ansible/platform/plugins/action/base_action.py:1087-1161 | over any sequence of tasks names stay unique throughout if and only if each task meets that condition in its turn |
| `ActionRuns.WordsSpareNames` | collections/ansible_collections/ansible/platform/plugins/plugin_utils/manager/platform_manager.py:857-887 | a name that is no numeral always meets the condition |
| `ActionRuns.TwiceIsTwo` | collections/ansible_collections/ansible/platform/plugins/plugin_utils/manager/platform_manager.py:857-870 | two present tasks on a numeral that no item has for its id or name, their creates taken, leave names unique if and only if the numeral is the id the first one gets |
| `ActionRuns.OthersKeptIff` | collections/ansible_collections/ansible/platform/plugins/action/base_action.py:1087-1161 | a task leaves every other name as it was if and only if it does not change an item that has another name |
| `ActionRuns.WordsKeepToThemselves` | collections/ansible_collections/ansible/platform/plugins/plugin_utils/manager/platform_manager.py:857-887 | only a numeral comes upon an item of another name |
| `ActionRuns.AbsentFreesNameIff` | collections/ansible_collections/ansible/platform/plugins/action/base_action.py:1128-1161 | after an absent task nobody has its name if and only if nobody but the item it came upon had it |
| `ActionRuns.ActsOnItsNameIff` | collections/ansible_collections/ansible/platform/plugins/action/base_action.py:1087-1161 | a task changes what is stored under its own name as a function of that alone, keeps names unique and leaves other names alone if and only if asking by number comes to the same as asking by name, or neither would change anything |
| `ActionRuns.SeparateThroughoutIff` | collections/ansible_collections/ansible/platform/plugins/action/base_action.py:1087-1161 | over any sequence of tasks every name holds throughout what the tasks on it alone have made of it, if and only if each task meets that condition in its turn |
| `ActionRuns.TaskActsOnItsName` | collections/ansible_collections/ansible/platform/plugins/action/base_action.py:1087-1161 | under that condition, what a task does to each name |
| `ActionRuns.NamesAreIndependent` | collections/ansible_collections/ansible/platform/plugins/action/base_action.py:1087-1161 | over a sequence of tasks that meet it in their turns names stay unique and what a name holds depends only on the tasks on it |
| `ActionRuns.TasksCommute` | collections/ansible_collections/ansible/platform/plugins/action/base_action.py:1087-1161 | tasks on different names that meet it in either order commute |
| `ActionRuns.RunPlain` | collections/ansible_collections/ansible/platform/plugins/action/base_action.py:1019-1251 | running one task on the store does what the state machine says |
| `ActionRuns.RunAll` | collections/ansible_collections/ansible/platform/plugins/action/base_action.py:1019-1251 | so does a whole play |
| `ActionRepeats.SecondRunIsQuiet` | collections/ansible_collections/ansible/platform/plugins/action/base_action.py:1109-1126 | for any name, a present task that was not refused has nothing to do the second time if and only if it had nothing to do the first time, or what it wrote is come upon again and every compared field is taken over and shown back in a form the comparison lets pass |
| `ActionRepeats.CreatedIsMetIff` | collections/ansible_collections/ansible/platform/plugins/plugin_utils/manager/platform_manager.py:857-887 | a created item is come upon by the same task if and only if its name is no numeral or the numeral of its id |
| `ActionRepeats.RunPresent` | collections/ansible_collections/ansible/platform/plugins/action/base_action.py:1109-1251 | one real run of a present task: calls, report and store |
| `ActionRepeats.RunTwice` | collections/ansible_collections/ansible/platform/plugins/action/base_action.py:1109-1251 | the second run looks and does not write, under exactly that condition |
| `ActionRepeats.DryThenReal` | collections/ansible_collections/ansible/platform/plugins/action/base_action.py:1204-1251 | for a task of any state on any store, check mode reports a change if and only if the real run makes its one mutating call, and writes nothing |
| `ActionRepeats.FailedFindDuplicates` | collections/ansible_collections/ansible/platform/plugins/action/base_action.py:1129-1130 | a find that fails is taken for an item that is not there; names stay unique if and only if it was not or the create is refused |
| `SchemaWalk.CollectProperties` | collections/ansible_collections/ansible/platform/tools/validate_spec.py:193-216 | the names of all schemas visited, cycles or not |
| `SchemaWalk.WalkFindsNames` | collections/ansible_collections/ansible/platform/tools/validate_spec.py:193-216 | the names found are those of all schemas reached in at most eight steps into `allOf`, `anyOf` or `oneOf` |
| `SchemaWalk.ReferencesAreFollowed` | collections/ansible_collections/ansible/platform/tools/validate_spec.py:184-190 | a reference leads to the component named after its last slash, or to the empty schema, and is followed once |
| `SchemaWalk.CollectPropertiesWithMeta` | collections/ansible_collections/ansible/platform/tools/generate_resource.py:56-89 | the description of every name by the first schema visited that has it |
| `SchemaWalk.CombinersInOrder` | collections/ansible_collections/ansible/platform/tools/generate_resource.py:64-89 | a schema's own properties win over `allOf`, `allOf` over `anyOf`, and `anyOf` over `oneOf` |
| `SchemaWalk.EarlierSchemaWins` | collections/ansible_collections/ansible/platform/tools/generate_resource.py:83-88 | within one combiner the first schema that has the name describes it |
| `SchemaWalk.DescribedAs` | collections/ansible_collections/ansible/platform/tools/generate_resource.py:70-82 | what a description says: the type by its name, read-only by the schema or else by the spelling, nullable, required, text |
| `SchemaWalk.FirstWins` | collections/ansible_collections/ansible/platform/tools/generate_resource.py:70-88 | a name is described by the first schema of the walk that has it, and required if that schema lists it |
| `SchemaWalk.MetasAreNames` | collections/ansible_collections/ansible/platform/tools/generate_resource.py:56-89 | both walks return the same names |
| `SchemaWalk.WalkVisitsEightSteps` | collections/ansible_collections/ansible/platform/tools/validate_spec.py:198-214 | the walk visits exactly the schemas reached in at most eight steps, each into any schema of `allOf`, `anyOf` or `oneOf` |
| `SchemaWalk.WalkMissesNothing` | collections/ansible_collections/ansible/platform/tools/validate_spec.py:198-214 | if nothing new is reached in nine steps the walk finds the names of everything reachable |
| `SpecTools.BuildSpecIndex` | collections/ansible_collections/ansible/platform/tools/validate_spec.py:219-251 | the index has exactly the operations of the document with the fields of their bodies |
| `SpecTools.Check` | collections/ansible_collections/ansible/platform/tools/validate_spec.py:285-345 | what is wrong with one operation, read from the index alone |
| `SpecTools.ProblemsAre` | collections/ansible_collections/ansible/platform/tools/validate_spec.py:253-345 | when each problem is reported: a path that is missing, a method that is not there, fields that no schema of the body declares; two operations of one endpoint are exempt |
| `SpecTools.Validate` | collections/ansible_collections/ansible/platform/tools/validate_spec.py:273-347 | the problems of all operations, in order |
| `SpecTools.ResourceSpec.constructor` | collections/ansible_collections/ansible/platform/tools/generate_resource.py:123-171 | paths, methods, properties and the partition of fields derived for a tag |
| `SpecTools.FirstPathIsFirst` | collections/ansible_collections/ansible/platform/tools/generate_resource.py:135-143 | the path chosen is the first tagged one of its form in the document; none only if no tagged path has that form |
| `SpecTools.ResourceSpec.FindPaths` | collections/ansible_collections/ansible/platform/tools/generate_resource.py:131-143 | the first list path and the first detail path of the document, and the methods of every tagged path |
| `SpecTools.PathForms` | collections/ansible_collections/ansible/platform/tools/generate_resource.py:135-143 | the two forms of a path, spelled out |
| `SpecTools.OperationsAre` | collections/ansible_collections/ansible/platform/tools/generate_resource.py:166-171 | an operation is generated if and only if the document has a tagged one of its method at the list or detail path; which name, path, method and fields each has |
| `SpecTools.ResourceSpec.PartitionFields` | collections/ansible_collections/ansible/platform/tools/generate_resource.py:154-164 | each name is writable or read-only, each once; required are the writable ones their schema requires |
| `SpecTools.FieldsAre` | collections/ansible_collections/ansible/platform/tools/generate_resource.py:154-164 | a name is read-only if and only if its schema or its spelling says so, else writable; required if its schema requires it besides |
| `SpecTools.SourcePassesIff` | collections/ansible_collections/ansible/platform/tools/generate_resource.py:92-99 | the operation that the fields were taken from passes if and only if its body leads no further than one reference, or what stands beside the second one names them all |
| `SpecTools.AloneFitsIff` | collections/ansible_collections/ansible/platform/tools/generate_resource.py:92-99 | where references stand alone that is: its component is no reference, or there are no fields |
| `SpecTools.OperationPassesIff` | collections/ansible_collections/ansible/platform/tools/validate_spec.py:285-345 | when a generated operation of any name passes; an update beside a create needs its own body to know the fields |
| `SpecTools.GeneratedPasses` | collections/ansible_collections/ansible/platform/tools/generate_resource.py:240-290 | everything generated for a tag validates if and only if each operation meets its own condition |
| `SpecTools.BareReferenceFails` | collections/ansible_collections/ansible/platform/tools/generate_resource.py:92-99 | a create, or an update that the fields were taken from, with a component that is a bare reference: every field generated is unknown to the validator |
| `SpecTools.TwoReferencesShowTheDifference` | collections/ansible_collections/ansible/platform/tools/validate_spec.py:184-190 | the smallest such document: one tool sees one property, the other none |
| `SpecTools.GenerateAndValidate` | collections/ansible_collections/ansible/platform/tools/validate_spec.py:273-347 | generating for a tag and validating: nothing is reported if and only if every operation meets its condition, and what is reported does not meet it |

## Left out

- HTTP, TLS, authentication, sockets, subprocesses and files, other than as steps that succeed or fail.
- Message texts, warnings, log output, deprecated fields, timestamps and the `url` of an item.
- Python equalities across number types, such as `1 == True`: a scalar has its own equality, and its text form is a parameter.
- Digits other than ASCII ones, and white space other than ASCII, in texts read as integers.
- Names with `++`, and the search parameter `or__slug`, which the store treats as a name.
- Lookups by a composite key, singleton resources and a second read for the full item in the manager's find.
- The manager's own decision whether an update changed anything: its report is passed on as it is.
- The flag with which the enforced state clears fields on the server; the state is part of the check-mode result.
- Hooks and lookups that plugins override; the declared data is what the task gives.
- Approval nodes and absent nodes of a workflow: deleting a node that is there ends the whole task.
- Credentials, labels and instance groups of a workflow node, and how its template, inventory and environment are found; what the lookups gave is part of the declared node.
- Check mode while a workflow is built, which ends at the first request that would write.
- Workflow.CreateNodes: without an identifier the search is by workflow alone; filters left over from the template lookup are not modelled.
- SpawnProtocol.WholeCleanupsPayForOne: one way only; a manager spawned while an unlocked cleanup stands between its two removals may still be within one for each cleanup.
- ActionRuns.TasksCommute: one way only; two tasks that do not act by name may still come out the same in either order.
- Reuse of process numbers, workers killed in the middle of a step, and the callback that removes files when a play ends.
- Method names of a path in other than lower case, and path members that are not operations.
- The text of generated modules, the lookup field and class names the generator derives, and parsing them back: operations are passed on as records.
- Users, teams and settings of the mock gateway, and its request routing.
- `schedule_rrule` and `schedule_rruleset`, whose work is done by a library that is not part of this model.
- Copying an item, deleting one in the controller collection and creating one with callbacks.
