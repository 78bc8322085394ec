# A verified model of the Axis2/C engine's core

Axis2/C moves a SOAP message through flows. A flow is a list of phases, a phase an ordered
list of handlers with an optional first and an optional last handler in slots of their own.
A handler may pause the message; the engine records the phase and the handler index in the
message context and a later call resumes the flow. Modules bring handlers into these phases
when they are engaged to an operation, a service or the whole configuration. Contexts
correlate responses with requests, and AXIOM iterators walk (and edit) the children of a
node. This project models the code of these parts and proves what it does on every input and
every run.

The same operation usually appears twice: a function on values (`Engine`, `Placement`,
`Resolver`, `ChildIteration`, `Correlation`, `Contexts`), about which the laws are proved, and
a method on objects that are updated in place (`PhaseObjects`, `EngineObjects`,
`ResolverObjects`, `ServiceObjects`, `ConfigurationObjects`, `ChildObjects`, `ContextObjects`),
with the loops of the source, whose contract says that it leaves the objects in the state the
function gives. Whole iterator runs are also methods over linked nodes (`RunInPlace`,
`QRunInPlace`), and each step of the correlation model is a method that keeps the
representation of its world (`HoldsOps`).

| file | contents |
|---|---|
| `PhaseTypes.dfy` | handlers, rules, phases as values |
| `Engine.dfy`, `EngineObjects.dfy` | invoke, resume, send, receive |
| `EngineScripts.dfy` | a run depends on its own handlers' outcomes only |
| `EngineRuns.dfy` | runs of a chain with any number of pauses and resumes |
| `EngineFlows.dfy` | whole send and receive runs in which no handler fails |
| `EngineFailures.dfy`, `EngineSkips.dfy` | send and receive runs whatever the handlers do |
| `EngineEndpoints.dfy` | client and server, any receiver, any transport; statuses |
| `Placement.dfy`, `PhaseObjects.dfy` | placing handlers by rule; the phase object |
| `Resolver.dfy`, `ResolverObjects.dfy` | engaging and disengaging modules, one operation |
| `ServiceObjects.dfy`, `ConfigurationObjects.dfy` | all operations of a service, all services |
| `ResolverLaws.dfy`, `EngagementLaws.dfy` | engaging and disengaging as inverses |
| `ServiceLaws.dfy`, `GlobalLaws.dfy`, `LateServiceLaws.dfy` | confluence and catch-up |
| `StopLaws.dfy` | what engagements and disengagements that fail leave behind |
| `Deployed.dfy` | whole messages over a deployed engine after any history of engagements |
| `ChildIteration.dfy`, `ChildObjects.dfy` | the child iterators over linked nodes |
| `Correlation.dfy`, `Contexts.dfy`, `ContextObjects.dfy` | operation contexts and the context hierarchy |

A handler's behaviour is a script: outcome number k says which status the k-th handler run
returns and whether it sets or clears the paused flag. Laws quantify over all scripts, so over
every behaviour of every handler. Where a law is about runs without failures it says
`NoneFailed`, that none of the handlers the run itself ran has failed; `EngineFailures` says
what all other runs do.

## What the code does that its documentation does not say

Each of these is proved, with the exact condition under which the documented behaviour holds.

- `include/axis2_engine.h:157-179` says a resume starts from the paused handler. It starts
  after it when that handler succeeded, because the index is moved on before the flag is looked
  at. When a handler of the list fails as it pauses, the index is not moved, so the resume runs
  it again, or, if it was the first, starts from whatever the index was before
  (`EngineFailures.InvokeListFails`, `EngineFailures.FailedPauseRepeats`).
- A resumed phase runs neither its first nor its last handler and ignores statuses and pauses
  until its list is done. A chain of distinctly named phases runs every handler once and in
  order on every run without failures if and only if each phase has no handler in an end slot
  or at most one handler in all (`EngineRuns.ResumeIsExactOnSafeChains`).
- A send that was paused in the global out phases runs them again from the start. For out flows
  of distinctly named phases that share no name with the global ones, every send without
  failures runs each handler once and in order if and only if the out flow resumes correctly in
  that sense and the global out phases are empty (`EngineFlows.SendIsExact`). `resume_send`
  leaves the global out phases out altogether.
- A receive that was paused before the operation's in flow never runs that flow; every receive
  without failures runs each handler once and in order before delivery if and only if one of the
  two flows is empty and the other resumes correctly (`EngineFlows.ReceiveIsExact`).
  `resume_receive` never runs the operation's in flow at all.
- So on an engine as it is deployed, whatever modules were engaged and taken away before, every
  send without failures is right while no handler is marked first or last, because nothing ever
  sets the configuration's own out phases (`conf.c:1212` has no caller); and a receive is right
  only for operations whose own in flow holds no handler (`Deployed.SendsExactly`,
  `Deployed.ReceivesExactly`).
- A receive of a paused message on a client answers failure when all its handlers have succeeded
  (`EngineEndpoints.ReceiveAgainBefore`, `ReceiveAtEveryEnd`). `resume_receive` answers failure
  for a message that is paused again and success on a server for one that found no operation,
  where a further receive answers the opposite (`EngineEndpoints.ResumeReceiveIsReceive`).
- Only a failure in the first invocation that does not also pause the message keeps it from
  being sent or delivered: in every other run that ends, the sender or the receiver has been
  called, whatever has failed (`EngineFailures.SendOnEveryScript`, `ReceiveOnEveryScript`). So
  any flow with a handler in it has a run that sends or delivers after a failure. In flows that
  resume correctly and hold each handler once, a message can be sent with a handler never run if
  and only if some phase behind the first with a handler has two, or the global phases have two
  (`EngineSkips.SendSkipsExactly`, and `ReceiveSkipsExactly` for receiving).
- The combined before-and-after insertion compares the `before` name with the first handler and
  the `after` name with the last one. An accepted handler of any kind keeps all rules if and only
  if it changes nothing, or its name is new, its rule is not about itself and is met at its place,
  which is where that gap matters, and no handler already there claims its other side; all rules
  hold throughout a sequence of additions and removals if and only if this is so of each accepted
  addition (`Placement.AddOrderedExactly`, `Placement.RulesHoldThroughout`). A rule naming one handler on both sides is not refused,
  since `AXIS2_FAILURE` has the value of the code for "both" (`phase.c:293-352`). A handler to go
  before the last handler goes to the end, and one to go after a name that is not there goes to
  the head (`Placement.BeforePlaced`, `Placement.AfterPlaced`).
- Removing handlers never empties the first or last slot. For a module none of whose handlers
  shares its name with one already in the phase it goes to, disengaging undoes engaging if and
  only if the module marks none of its handlers first or last. With a shared name disengaging
  can take the other module's handler away (`ResolverLaws.SharedNameLoses`); for one handler the
  exact condition is that no other of its name comes before the place it was put
  (`ResolverLaws.OneHandlerUndone`).
- An engagement or disengagement that fails takes nothing back: what it leaves is what the
  module cut off before the first handler without room would have left, with the operations
  before that one done and those behind it untouched (`StopLaws`).
- In the global pass the flag `engaged` is not reset between operations
  (`phase_resolver.c:1087`), so operations after one that has the module get nothing.
- Engaging globally first adds the module's system handlers of each flow to the configuration's
  list for that flow, and fails before it reaches any service if one of them is not there, where
  engaging to the services would have put all of them into the in phases
  (`GlobalLaws.FaultOutTransport`, `GlobalLaws.GlobalIsEachService`).
- A module with a first or last handler for a system phase cannot be engaged to a service with
  two operations that lack it; one with a handler that its rule puts before another has it there
  once for each operation (`ServiceLaws.BroughtTwice`, `ServiceLaws.SystemHandlersOnce`).
- The chain builder does not look at what is engaged to an operation already, and all modules on
  the service's own list are, since they get there after `engage_module_to_svc` (`svc.c:983`).
  So it adds them again. It catches up for the configuration's modules; with the service's own
  ones it gives a flow what the operation should have if and only if each of their handlers is in
  its phase by then with a rule that sends it to the end (`LateServiceLaws.OwnModulesExactly`,
  `LateServiceLaws.SecondMentionDoubles`).
- Resetting a child iterator whose first child was removed leaves it outside the list; `next` of
  the filtered iterator without a preceding `has_next` yields nodes that do not match.
- `axis2_op_register_op_ctx` puts nothing into the map of operation contexts
  (`op.c:1120-1170`), and the repository's only other calls take entries away; as long as no
  caller registers a context, no response is ever correlated (`Correlation.NothingCorrelates`).
  It also empties a complete context, so contexts keep their messages if and only if no complete
  context is taken up and no message is added by pattern to a slot that the message receiver
  filled (`Correlation.KeepsMessagesExactly`). The message receiver itself never completes a
  context (`Correlation.AttachNeverCompletes`). The addressing dispatcher looks a
  response up under its own message ID (`addr_disp.c:200-240`), not under its RelatesTo.
- A service deployed into a group after the group's context was made is refused for good by
  `axis2_conf_ctx_fill_ctxs`, and the group id a message carries is not looked at when its
  service has a group.

## Model

| member | source | states |
|---|---|---|
| EngineRuns.FullIsOrder | src/core/engine/phase.c:156-275 | the events of an uninterrupted phase are its first handler, its list in order, its last handler |
| EngineRuns.InvokePhaseIsFlat | src/core/engine/phase.c:156-275 | invoking a phase runs that flat list until a handler pauses or fails |
| EngineRuns.InvokeIsFlat | src/core/engine/engine.c:669-703 | the nested loops over phases and handlers equal one loop over the flattened chain, for every behaviour including failures |
| EngineRuns.RunAllSplit | src/core/engine/engine.c:669-703 | a flat run of two parts is the run of the second from where the first stopped |
| EngineRuns.RunAllStops | src/core/engine/engine.c:669-703 | a run stops exactly at the first handler that pauses or fails, having run a prefix |
| EngineRuns.InvokeListCursor | src/core/engine/phase.c:194-243 | the handler index after the list loop says exactly which handlers are still owed |
| EngineRuns.InvokePhaseCursor | src/core/engine/phase.c:156-275 | the same for a whole phase that is safe to resume |
| EngineRuns.InvokeCursor | src/core/engine/engine.c:669-703 | an invocation finishes the chain or pauses at a cursor that accounts for the rest |
| EngineRuns.ResumeByName | src/core/engine/engine.c:705-760 | with distinct names, searching for the recorded phase name resumes at the recorded phase's position |
| EngineRuns.ResumeTail | src/core/engine/engine.c:705-760 | behind the recorded phase a resume is an ordinary invocation as long as that invocation does not fail |
| EngineRuns.ResumeElsewhere | src/core/engine/engine.c:705-760 | a chain that does not hold the recorded phase is passed over without running anything |
| EngineRuns.ResumeListCursor | src/core/engine/phase.c:1209-1251 | starting at an index runs the list from there whatever the handlers do to the flag |
| EngineRuns.ResumeCursor | src/core/engine/engine.c:705-760 | one resume runs exactly part of what is owed, never moves back, and makes progress whenever it pauses again |
| EngineRuns.RunsKeepTheCursor | src/core/engine/engine.c:669-760 | in every state of a safe chain (no handler in an end slot or one in all, in each phase) reached without a failure, what has run is the prefix of the flattened chain the cursor fixes |
| EngineRuns.RunsFinish | src/core/engine/engine.c:669-760 | every run of a safe chain without a failure ends with each handler run once, within as many resumes as handlers |
| EngineRuns.UnsafeBreaks | src/core/engine/phase.c:1209-1251 | any other phase makes some run finish with handlers skipped or repeated |
| EngineRuns.ResumeIsExactOnSafeChains | src/core/engine/phase.c:1209-1251 | a chain of distinct names resumes correctly on every run without a failure if and only if all its phases are safe |
| EngineRuns.SameNamesSkip | src/core/engine/engine.c:705-760 | with two phases of one name a resume skips a handler |
| EngineFlows.InvokePrefix | src/core/engine/engine.c:669-703 | any invocation runs a prefix of the chain, all of it unless it pauses, and a pause records a phase of the chain |
| EngineFlows.SendRunsInOrder | src/core/engine/engine.c:79-195 | with a safe out flow, over any number of sends of a paused message none of whose handlers has failed, the transport sender is called at most once, last, after complete passes of the out flow and the global phases |
| EngineFlows.SendIsExact | src/core/engine/engine.c:79-195 | every send without a failure runs each handler once and in order, if and only if the out flow is safe and the global out phases hold no handler |
| EngineFlows.SendIsRun | src/core/engine/engine.c:79-195 | with no global handlers, whatever the handlers do, a send is a run of the out flow that is sent when it ends, unless the first invocation failed for good |
| EngineFlows.EndSlotSkipped | src/core/engine/phase.c:1209-1251 | an out flow with a last handler, paused in its list, is sent without that handler |
| EngineFlows.ResumeSendSkipsGlobal | src/core/engine/engine.c:936-977 | for all flows and all handler behaviour, resume_send sends a message paused in the global out phases with the rest of them left out |
| EngineFlows.ResumeSendRunsFlow | src/core/engine/engine.c:936-977 | a message paused in a safe out flow is sent by resume_send after the whole of that flow and no global handler |
| EngineFlows.ReceiveRuns | src/core/engine/engine.c:197-326 | with safe flows, every receive run without a failure delivers once after the phases up to post-dispatch; the operation's flow has run whole, or not at all if the message was paused before it |
| EngineFlows.ReceiveIsExact | src/core/engine/engine.c:197-326 | every receive without a failure runs each handler once and in order before delivery, if and only if one of the two flows is empty and the other safe |
| EngineFlows.EarlyPauseSkips | src/core/engine/engine.c:221-246 | paused at the first handler before the operation's flow and resumed, a message is delivered with no more handlers run than those phases hold |
| EngineFlows.ResumeReceiveSkipsOperation | src/core/engine/engine.c:876-934 | resume_receive delivers a message paused in its operation's flow at once, leaving out the rest of the flow |
| EngineScripts.SendAgrees | src/core/engine/engine.c:79-195 | a send extends the record and depends on the outcomes of the handlers it runs and on no others |
| EngineScripts.ReceiveAgrees | src/core/engine/engine.c:197-326 | the same for a receive |
| EngineScripts.ResumeLoopAgrees | src/core/engine/engine.c:705-760 | the same for a resume |
| EngineFailures.InvokeListFails | src/core/engine/phase.c:194-243 | a failing list handler ends the list with the index still naming it, or not moved at all when it was the first |
| EngineFailures.FailedPauseRepeats | src/core/engine/phase.c:1209-1251 | a handler that pauses and fails is run again by the resume |
| EngineFailures.SendOnEveryScript | src/core/engine/engine.c:79-195 | for all flows and all handler behaviour: a run ends unsent if and only if a handler of the first invocation of the out flow fails without pausing; otherwise it ends with the one call of the sender |
| EngineFailures.SendLetsFailuresThrough | src/core/engine/engine.c:79-195 | some run sends after a failed handler if and only if the out flow or the global out phases hold a handler at all |
| EngineFailures.FailedGlobalSends | src/core/engine/engine.c:79-195 | a failed global handler skips the next one and the message is sent |
| EngineFailures.ReceiveOnEveryScript | src/core/engine/engine.c:197-326 | for all flows and all handler behaviour: a run ends undelivered if and only if a handler of the first receive fails without pausing; otherwise it ends with the one delivery |
| EngineFailures.ReceiveLetsFailuresThrough | src/core/engine/engine.c:197-326 | some run delivers after a failed handler if and only if one of the two flows holds a handler |
| EngineSkips.NoPairNoSkip | src/core/engine/engine.c:669-760 | a safe chain with at most one handler in each phase behind the first that has any runs every handler before it ends, whatever they do, unless its first invocation fails for good |
| EngineSkips.PairIsSkipped | src/core/engine/engine.c:705-760 | any other safe chain has a run that ends with a handler never run |
| EngineSkips.SendSkipsExactly | src/core/engine/engine.c:79-195 | with a safe out flow and each handler there once, some message is sent with a handler never run if and only if a later phase of the out flow has two handlers or the global phases have two |
| EngineSkips.SecondPhaseSkips | src/core/engine/engine.c:79-195 | a pause in one phase and a failure of the first of two handlers in the next sends without the second |
| EngineSkips.ReceiveSkipsExactly | src/core/engine/engine.c:197-326 | with safe flows and each handler there once, some message is delivered with a handler never run if and only if both flows hold a handler or a later phase of one has two |
| EngineEndpoints.FirstReceiveIsFlat | src/core/engine/engine.c:247-326 | on client and server, with or without an operation, an in flow or a receiver: record and status of a first receive are those of running the two flat lists of handlers, a failure before the operation's in flow ending it on a server only |
| EngineEndpoints.ReceiveAgainBefore | src/core/engine/engine.c:221-246 | a message paused before its operation's in flow has the phases there resumed, that flow not run, and on a client a failure as its status |
| EngineEndpoints.ReceiveAgainInside | src/core/engine/engine.c:232-246 | one paused in that flow has it resumed and the phases before it not run again |
| EngineEndpoints.ReceiveAtEveryEnd | src/core/engine/engine.c:197-326 | over any number of receives and any handlers: a client never delivers; a server delivers at most once, last, and answers the receiver's status, and at any other end a failure |
| EngineEndpoints.EndsAlike | src/core/engine/engine.c:197-326 | the record of a run at any end is that of a delivering server but for the delivery |
| EngineEndpoints.ReceiveIsExactAtEveryEnd | src/core/engine/engine.c:197-326 | at any end, every receive without a failure runs each handler once and in order if and only if one of the two flows is empty and the other safe |
| EngineEndpoints.ResumeReceiveIsReceive | src/core/engine/engine.c:876-934 | for a message paused before its operation's in flow, resume_receive leaves what a further receive leaves; its status differs in two named cases |
| EngineEndpoints.ResumeReceiveElsewhere | src/core/engine/engine.c:876-934 | of a message paused anywhere else resume_receive runs nothing |
| EngineEndpoints.FirstSendIsFlat | src/core/engine/engine.c:79-195 | record and status of a first send, with or without an operation, global phases or a sender, are those of running the flat lists |
| EngineEndpoints.SendAgainIsFlat | src/core/engine/engine.c:79-195 | a further send resumes the out flow and then goes on like the first |
| EngineEndpoints.TransportRuns | src/core/engine/engine.c:79-195 | over any number of sends and any handlers: sent if there is a sender, with the sender's status; without one, or after a failed first invocation, the end is a failure |
| EngineEndpoints.ResumeSendAnyTransport | src/core/engine/engine.c:936-977 | resume_send sends if the resume ends unpaused and there is a sender, with its status, and otherwise answers failure |
| EngineObjects.RunPhases | src/core/engine/engine.c:669-703 | the loop over the phase list leaves the message context as the value function says; no list is a failure |
| EngineObjects.ResumeInvocationPhases | src/core/engine/engine.c:705-760 | the resume loop clears the flag, finds the phase by name and leaves the context the value function says |
| EngineObjects.SendMessage | src/core/engine/engine.c:79-195 | the send's status and the context it leaves, for every operation, global flow and transport |
| EngineObjects.ResumeSendMessage | src/core/engine/engine.c:936-977 | the same for resume_send |
| EngineObjects.ReceiveMessage | src/core/engine/engine.c:197-326 | the receive's status and context on client and server, paused or not |
| EngineObjects.ReceiveAgain | src/core/engine/engine.c:221-246 | the branch of receive for a paused message |
| EngineObjects.ReceiveOnAgain | src/core/engine/engine.c:232-322 | the operation's in flow resumed, if it has one, then delivery |
| EngineObjects.ReceiveOn | src/core/engine/engine.c:267-322 | the operation's in flow invoked, which fails when the operation has none, then delivery |
| EngineObjects.ReceiveFirst | src/core/engine/engine.c:247-322 | the branch of receive for a message that is not paused |
| EngineObjects.DeliverMessage | src/core/engine/engine.c:292-326 | the must-understand check and the call of the message receiver |
| EngineObjects.ResumeReceiveMessage | src/core/engine/engine.c:876-934 | the same for resume_receive |
| PhaseObjects.Phase.Invoke | src/core/engine/phase.c:156-275 | runs first, list and last handler in place with the flag checks of the source |
| PhaseObjects.Phase.InvokeStartFromHandler | src/core/engine/phase.c:1209-1251 | runs the list from an index, moving the context's index on |
| PhaseObjects.Phase.AddHandlerDesc | src/core/engine/phase.c:426-538 | status and whole new phase, for first, last, both and neither, including every refusal |
| PhaseObjects.Phase.RemoveHandlerDesc | src/core/engine/phase.c:1276-1296 | takes the first handler of that name from the list and touches nothing else |
| PhaseObjects.Phase.AddUnique | src/core/engine/phase.c:1298-1333 | appends unless the name is there |
| PhaseObjects.Phase.RemoveUnique | src/core/engine/phase.c:1335-1370 | removes the first handler of the name |
| PhaseObjects.Phase.AddAt | util/src/array_list.c:195-220 | inserts at an index in range, otherwise fails and changes nothing |
| PhaseObjects.Phase.InsertBefore | src/core/engine/phase.c:631-765 | the search by name in place: the state that `Placement.InsertedBefore` describes |
| PhaseObjects.Phase.InsertAfter | src/core/engine/phase.c:767-906 | the search by name in place: the state that `Placement.InsertedAfter` describes |
| PhaseObjects.Phase.FindBetween | src/core/engine/phase.c:908-1127 | the search loop of the combined insertion |
| PhaseObjects.Phase.InsertBeforeAndAfter | src/core/engine/phase.c:908-1127 | the combined insertion with its comparison of end slots, its refusal and its fall back to the end |
| PhaseObjects.Phase.InsertHandlerDesc | src/core/engine/phase.c:1129-1199 | the choice among the three insertions and the refusals before it |
| PhaseObjects.Phase.SetFirstHandler | src/core/engine/phase.c:354-388 | fills an empty slot with a handler that has no neighbour rule, otherwise fails |
| PhaseObjects.Phase.SetLastHandler | src/core/engine/phase.c:390-424 | the same for the last slot |
| Placement.BothBetween | src/core/engine/phase.c:908-1127 | with both targets listed and distinct, the insertion succeeds if and only if the after-target comes first, and lands right behind it with all else in place |
| Placement.BeforePlaced | src/core/engine/phase.c:631-765 | a handler that must precede another is put right before the first of that name in the list, all else in place; at the end if that is the last handler or is missing; refused if it is the first handler |
| Placement.AfterPlaced | src/core/engine/phase.c:767-906 | one that must follow another is put right behind the first of that name; at the head if that is the first handler or is missing; refused if it is the last handler |
| Placement.TwoSidedPlaced | src/core/engine/phase.c:908-1127 | with one to follow and one to precede: right behind the last of the one before the first of the other; refused if they are crossed; at the end if one is missing |
| Placement.InsertedBefore | src/core/engine/phase.c:631-765 | the insertion before a name, called directly, for every phase |
| Placement.InsertedAfter | src/core/engine/phase.c:767-906 | the insertion after a name, called directly, for every phase |
| Placement.InsertedBetween | src/core/engine/phase.c:908-1127 | the combined insertion, called directly, with what it takes for found when an end slot bears one of the names |
| Placement.AnywherePlaced | src/core/engine/phase.c:1129-1199 | a handler without a rule about neighbours goes to the end, once |
| Placement.SpotBothFinds | src/core/engine/phase.c:908-1127 | the combined search gives the place between the targets' positions, a refusal when they are crossed, the end when one is missing |
| Placement.PointHonoursOwnRule | src/core/engine/phase.c:1129-1199 | the place chosen meets the handler's own rule if and only if it does not fall into the combined insertion's gap |
| Placement.InsertKeepsRules | src/core/engine/phase.c:1129-1199 | an insertion keeps all rules if and only if the new rule is met there and no old rule claims the other side |
| Placement.AddOrderedExactly | src/core/engine/phase.c:426-538 | after an accepted addition of any kind of handler the phase is ordered if and only if nothing changed or the name is new, the rule not about itself and met at the place given, and no handler there claims the other side |
| Placement.AcceptedInserts | src/core/engine/phase.c:426-538 | an accepted handler that changes the phase is inserted into its order at one place, all else staying in order |
| Placement.AcceptsExactly | src/core/engine/phase.c:426-538 | a phase accepts exactly the handlers its guards let through, crossed targets of a two-sided rule included |
| Placement.SpotBothRejects | src/core/engine/phase.c:908-1127 | the combined search refuses if and only if both targets are listed and the first of the before-target precedes the first of the after-target, whatever else the list holds |
| Placement.RemoveKeepsOrdered | src/core/engine/phase.c:1276-1296 | removals keep every rule and all names distinct |
| Placement.RulesHoldThroughout | src/core/engine/phase.c:426-538 | over any sequence of additions and removals, every handler is before and after those its rule names at every moment if and only if each accepted addition changes nothing or is welcome where it is made |
| Placement.EndsStay | src/core/engine/phase.c:354-424 | a declared first or last handler keeps its end through every sequence of additions and removals |
| Placement.LateTargetBreaksRule | src/core/engine/phase.c:767-906 | a target that arrives after the handler naming it breaks that rule |
| Placement.CombinedRuleMissesFirst | src/core/engine/phase.c:908-1127 | "after the first handler and before x" is put behind x |
| ResolverObjects.FindPhase | src/core/phaseresolver/phase_holder.c:196-223 | the search loop of the phase holder |
| ResolverObjects.HolderAddHandler | src/core/phaseresolver/phase_holder.c:115-153 | routes a handler to the phase its rule names; a missing phase is a failure that changes nothing |
| ResolverObjects.HolderRemoveHandler | src/core/phaseresolver/phase_holder.c:155-194 | routes a removal |
| ResolverObjects.EngageFlow | src/core/phaseresolver/phase_resolver.c:544-622 | one flow: system-phase handlers go to the configuration, others to the operation, and the first failure stops |
| ResolverObjects.EngageModuleToOp | src/core/phaseresolver/phase_resolver.c:466-633 | the four flows in place, on separate phase objects |
| ResolverObjects.DisengageFlow | src/core/phaseresolver/phase_resolver.c:1460-1536 | removals of one flow |
| ResolverObjects.DisengageModuleFromOp | src/core/phaseresolver/phase_resolver.c:1382-1542 | removals of the four flows |
| ResolverObjects.GetOpInPhases | src/core/deployment/phases_info.c:223-299 | one new, empty phase object per user phase name, in order |
| ResolverObjects.GetOpPhases | src/core/deployment/phases_info.c:304-356 | one new, empty phase object per name of the out flow |
| ResolverObjects.BuildFlows | src/core/deployment/phases_info.c:487-534 | all four flows of an operation, with no list for a fault flow without phases, of new phase objects none of which is used twice |
| ResolverObjects.BuildTwo | src/core/deployment/phases_info.c:487-534 | two operations built from the same names share no phase object with each other or with the system phases |
| ResolverObjects.BuiltTakes | src/core/deployment/phases_info.c:487-534 | a handler engages to one flow of an operation just built if and only if its phase is on the name list of that flow or that is a fault flow without a list |
| ResolverObjects.ShippedInFlow | src/core/deployment/phases_info.c:223-299 | the in flow leaves out the configuration's four phases and keeps all others |
| ResolverObjects.EngageApart | src/core/phaseresolver/phase_resolver.c:466-633 | a module engaged to each of two operations so built: neither engagement reaches the other's flows, only the system phases are shared |
| ResolverLaws.RemovalUndoesAddition | src/core/engine/phase.c:426-538 | adding handlers with new names to a phase and removing them restores it if and only if none was marked first or last |
| ResolverLaws.OneHandlerUndone | src/core/engine/phase.c:1335-1370 | for one handler of any name, adding and removing it restores the phase if and only if it was not marked first or last and no other of its name comes before the place it was put |
| ResolverLaws.SharedNameLoses | src/core/engine/phase.c:1298-1370 | a module whose handler shares its name with another's adds nothing and takes the other's away |
| ResolverLaws.RemoveAllUndoesAddAll | src/core/phaseresolver/phase_holder.c:115-194 | adding handlers whose names are new to the phases they are routed to, and removing them, restores the list of phases if and only if none was marked first or last |
| ResolverLaws.SeqKeeps | src/core/engine/phase.c:1276-1296 | additions and removals keep the other handlers and their order |
| EngagementLaws.EngageSplits | src/core/phaseresolver/phase_resolver.c:544-622 | a flow's engagement succeeds if and only if its user part and its system part do, and is the two done apart |
| EngagementLaws.EngageFlowAt | src/core/phaseresolver/phase_resolver.c:466-633 | each flow after a successful engagement is the old one with the module's user handlers added |
| EngagementLaws.EngageSystem | src/core/phaseresolver/phase_resolver.c:466-633 | the system phases after it are the old ones with the system handlers of all four flows added |
| EngagementLaws.DisengageFlowAt | src/core/phaseresolver/phase_resolver.c:1382-1542 | each flow after a successful disengagement is the old one with those handlers removed |
| EngagementLaws.DisengageOk | src/core/phaseresolver/phase_resolver.c:1382-1542 | a disengagement succeeds when all named phases are there |
| EngagementLaws.DisengageWorks | src/core/phaseresolver/phase_resolver.c:1382-1542 | disengaging after an engagement succeeds whatever was added to the system phases meanwhile and whatever the phases held before |
| EngagementLaws.DisengageRestoresFlows | src/core/phaseresolver/phase_resolver.c:1382-1542 | for handler names new to the flows, it gives all four flows back if and only if no user handler of the module was marked first or last |
| EngagementLaws.DisengageRestoresSystem | src/core/phaseresolver/phase_resolver.c:1382-1542 | for handler names new to them, it gives the system phases back if and only if no system handler of the module was marked first or last |
| EngagementLaws.DisengageTouchesNoOther | src/core/phaseresolver/phase_resolver.c:1382-1542 | from any state, even half-way, it removes and reorders no handler of another name |
| ServiceLaws.EngageSvcIsEach | src/core/phaseresolver/phase_resolver.c:357-459 | engaging to a service leaves each operation that lacks the module as engaging to it alone would |
| ServiceLaws.EngagesByName | src/core/phaseresolver/phase_resolver.c:357-459 | an operation has the module behind those engaged before, once |
| ServiceLaws.DisengageSvcAt | src/core/phaseresolver/phase_resolver.c:1297-1380 | each operation that has the module loses its handlers, flow by flow, and its name; every other is left as it was |
| ServiceLaws.DropsFirstMention | src/core/description/op.c:729-764 | a name on a list is taken off where it first stands, the rest kept in order |
| ServiceLaws.DisengagesByName | src/core/phaseresolver/phase_resolver.c:1297-1380 | the module disengaged goes from the list of engaged ones, wherever it stands there |
| ServiceLaws.FirstGoesSecondStays | src/core/phaseresolver/phase_resolver.c:1297-1380 | one module engaged, then another, and the first disengaged: the second stays engaged and the first does not |
| ServiceLaws.EngageGlobalAt | src/core/phaseresolver/phase_resolver.c:1079-1295 | the global pass reaches exactly the operations visited before the first that has the module |
| ServiceLaws.GlobalIsEachExactly | src/core/phaseresolver/phase_resolver.c:1079-1295 | the global pass equals engaging to each operation if and only if none without the module is visited after one with it |
| ServiceLaws.ServiceAndGlobalAgree | src/core/phaseresolver/phase_resolver.c:1079-1295 | when no operation of a service has the module, engaging to the service and the global user-phase pass over it leave the same operations |
| ServiceLaws.ServiceRestored | src/core/phaseresolver/phase_resolver.c:1297-1380 | engaging a new module to a service and disengaging it restores every operation if and only if it put no first or last handler into one |
| ServiceLaws.EngageSvcSystem | src/core/phaseresolver/phase_resolver.c:357-459 | engaging to a service adds the module's system handlers once for each operation that lacks it |
| ServiceLaws.SystemHandlersOnce | src/core/phaseresolver/phase_resolver.c:357-459 | the operations after the first leave the system phases alone if and only if every system handler they bring is in its phase by then and goes to the end of it by its rule |
| ServiceLaws.BroughtTwice | src/core/phaseresolver/phase_resolver.c:357-459 | a handler put before another, engaged to two operations, is in the system phase twice |
| ServiceLaws.ServiceSystemRestored | src/core/phaseresolver/phase_resolver.c:1297-1380 | disengaging from the service also gives the system phases back if and only if no system handler brought was marked first or last |
| ServiceLaws.EndHandlerFailsTwice | src/core/phaseresolver/phase_resolver.c:357-459 | a module with a first or last system-phase handler cannot be engaged to two operations of a service |
| GlobalLaws.SystemFlowsExactly | src/core/phaseresolver/phase_resolver.c:915-1071 | the system half succeeds if and only if in each list of the configuration there is room for every system handler of its own flow when its turn comes |
| GlobalLaws.SystemFlowAt | src/core/phaseresolver/phase_resolver.c:915-1071 | each list of the configuration then has the module's system handlers of its own flow added, in order |
| GlobalLaws.OneSidedUpFront | src/core/phaseresolver/phase_resolver.c:915-1071 | for handlers that name at most one neighbour, room in turn is room up front: the phase is there, not closed, its last handler not the one to come after and its first not the one to come before |
| GlobalLaws.AddAllExactly | src/core/phaseresolver/phase_holder.c:115-153 | a list of handlers is added if and only if each finds its phase and passes the guards of the addition when its turn comes |
| GlobalLaws.GlobalSvcExactly | src/core/phaseresolver/phase_resolver.c:1079-1295 | the pass over one service succeeds and equals engaging to each operation if and only if all operations lacking the module have room for its handlers and none of them follows one that has it |
| GlobalLaws.GlobalExactly | src/core/phaseresolver/phase_resolver.c:169-343 | engaging globally succeeds and equals engaging to each operation of every service, in any visiting order, if and only if there is room for the system handlers in the configuration's lists, for the others in all operations that lack the module, and no service has a gap |
| GlobalLaws.GlobalIsEachService | src/core/phaseresolver/phase_resolver.c:169-343 | where engaging each service succeeds, engaging globally does too and leaves the same operations if and only if the configuration's lists have room for the system handlers and no service has a gap |
| GlobalLaws.GlobalExactlyUpFront | src/core/phaseresolver/phase_resolver.c:169-343 | for a module whose handlers name at most one neighbour each, as the addressing module's do, the same with guards that can all be checked before anything is added |
| GlobalLaws.GlobalIsEachServiceUpFront | src/core/phaseresolver/phase_resolver.c:169-343 | the comparison with engaging each service, with those guards |
| GlobalLaws.FaultOutTransport | src/core/phaseresolver/phase_resolver.c:915-1071 | a transport-phase handler in the out fault flow makes the global engagement fail and the service engagement succeed |
| LateServiceLaws.LateServiceCatchesUp | src/core/phaseresolver/phase_resolver.c:683-876 | an operation present all along has, flow by flow, what the chain builder adds to a late one for the modules it lacks, each taken once, succeeding if and only if it does; if all modules are new to the operation and named differently, that is what the builder does |
| LateServiceLaws.OwnModulesExactly | src/core/phaseresolver/phase_resolver.c:683-876 | called with the configuration's modules and then the service's own, which are engaged already, the builder gives a flow what the operation should have if and only if each handler of the own ones is in its phase by then and goes to the end of it by its rule |
| LateServiceLaws.OwnAreEngaged | src/core/description/svc.c:953-996 | new modules followed by engaged ones are exactly the modules to take and those to leave out |
| LateServiceLaws.SecondMentionExactly | src/core/phaseresolver/phase_resolver.c:717-797 | a second mention of a module changes a built flow if and only if one of its handlers there is not already in its phase with a rule that sends it to the end |
| LateServiceLaws.SecondMentionDoubles | src/core/phaseresolver/phase_resolver.c:717-797 | a module in both lists whose handler goes before another is there twice |
| LateServiceLaws.BuilderMarks | src/core/phaseresolver/phase_resolver.c:683-876 | the builder leaves the list of engaged modules that engaging each in turn would |
| LateServiceLaws.BuilderAppends | src/core/phaseresolver/phase_resolver.c:683-876 | new modules come behind those engaged, in order |
| StopLaws.EngageHandlersStops | src/core/phaseresolver/phase_resolver.c:544-622 | an engagement of one flow that fails leaves what its handlers before the first without room leave |
| StopLaws.EngageFlowsStops | src/core/phaseresolver/phase_resolver.c:466-633 | the same for the four flows of an operation |
| StopLaws.DisengageHandlersStops | src/core/phaseresolver/phase_resolver.c:1460-1536 | a disengagement of one flow fails at the first handler whose phase is missing, those before it taken out |
| StopLaws.DisengageFlowsStops | src/core/phaseresolver/phase_resolver.c:1382-1542 | the same for the four flows of an operation |
| StopLaws.EngageSvcJoins | src/core/phaseresolver/phase_resolver.c:357-459 | engaging to two runs of operations is engaging to the first and then to the second |
| StopLaws.EngageSvcStops | src/core/phaseresolver/phase_resolver.c:357-459 | one that fails leaves the operations before one of them done, that one with what it took and not marked, the others as they were |
| StopLaws.DisengageSvcStops | src/core/phaseresolver/phase_resolver.c:1297-1380 | the same for disengaging |
| StopLaws.AddSystemFlowsStops | src/core/phaseresolver/phase_resolver.c:915-1071 | the system half that fails leaves what the module cut off at the first system handler without room leaves |
| StopLaws.AddUserFlowsStops | src/core/phaseresolver/phase_resolver.c:1079-1295 | the same for one operation in the user-phase pass |
| StopLaws.EngageGlobalStops | src/core/phaseresolver/phase_resolver.c:1079-1295 | the pass over one service can only fail before an operation that has the module, those before done, those behind untouched |
| StopLaws.EngageConfStops | src/core/phaseresolver/phase_resolver.c:169-343 | engaging globally fails in the system half with no service touched, or in one service with those before it done and those behind it untouched |
| Deployed.NewInPhases | src/core/engine/conf.c:166-231 | the configuration's four phases as new objects, with the default dispatchers or those of the configuration file |
| Deployed.SystemPhasesAreOwn | src/core/engine/conf.c:1304-1440 | the phase names the resolver treats as the configuration's are those of the phases it is made with |
| Deployed.AfterLater | src/core/phaseresolver/phase_resolver.c:169-633 | over any history of engaging, disengaging, engaging globally and building chains, failed ones included, every phase keeps its name and its handlers of other names, and without marked handlers its end slots stay empty |
| Deployed.DeployedFlows | src/core/phaseresolver/phase_resolver.c:169-633 | so the configuration's phases and each operation's flows have distinct names, share none, and are safe while no handler is marked first or last |
| Deployed.NoOutFlow | src/core/engine/engine.c:127-150 | a configuration without out phases sends as one with an empty list of them |
| Deployed.SendsExactly | src/core/engine/engine.c:79-195 | after any such history every send without a failure runs each handler of the out flow once and in order if and only if that flow is safe, which it is while no handler is marked first or last |
| Deployed.ReceivesExactly | src/core/engine/engine.c:197-326 | after any such history that leaves the dispatch checker alone, every receive without a failure is whole and in order if and only if the operation's own in flow holds no handler and the configuration's phases are safe |
| Deployed.Delivers | src/core/engine/engine.c:197-326 | while no handler is marked first or last, every receive without a failure delivers once, after the configuration's phases and the operation's in flow, or without the latter if it was first paused before it |
| ServiceObjects.EngageGlobally | src/core/phaseresolver/phase_resolver.c:1079-1295 | the global pass in place over all operations, with its sticky flag |
| ServiceObjects.EngageService | src/core/phaseresolver/phase_resolver.c:357-459 | engage_module_to_svc in place over all operations and the system phases |
| ConfigurationObjects.AddToConf | src/core/phaseresolver/phase_resolver.c:915-1071 | the system half in place, no service touched |
| ConfigurationObjects.EngageSvcsGlobally | src/core/phaseresolver/phase_resolver.c:203-343 | the loop over the services in place, each left as it was while another is worked on |
| ConfigurationObjects.EngageConfiguration | src/core/phaseresolver/phase_resolver.c:169-343 | the whole of engage_module_globally in place, stopping at the first failure |
| ServiceObjects.DisengageService | src/core/phaseresolver/phase_resolver.c:1297-1380 | disengage_module_from_svc in place, engaged-module lists included |
| ServiceObjects.AddModuleGlobally | src/core/phaseresolver/phase_resolver.c:1150-1290 | the global pass's work on one operation |
| ServiceObjects.GatherHandlers | src/core/phaseresolver/phase_resolver.c:1959-2067 | collects the user-phase handlers of the modules for one flow, in order |
| ServiceObjects.BuildChain | src/core/phaseresolver/phase_resolver.c:683-876 | adds the collected handlers to one flow list in place |
| ServiceObjects.BuildForOp | src/core/phaseresolver/phase_resolver.c:683-876 | marks all modules engaged to the operation and adds the collected handlers to one of its flows in place |
| ChildIteration.YieldsOriginalChildren | axiom/src/om/om_children_iterator.c:73-133 | on every run of next and remove from any start, n nexts yield the next n original children in order and the list left is the original without the removed ones, each yielded before |
| ChildIteration.RemovesThePending | axiom/src/om/om_children_iterator.c:73-133 | on every run, what is removed is what a reference says that knows only the last child yielded and not yet removed: a next past the end keeps it pending, a remove takes it |
| ChildIteration.ResetRestarts | axiom/src/om/om_children_iterator.c:135-144 | after a reset to a first child that is still there, nexts yield the list from it on, whatever was passed and removed; a remove takes what it would have taken before |
| ChildIteration.StepPasses | axiom/src/om/om_children_iterator.c:73-133 | what one next or remove does to an iterator that has passed k children |
| ChildIteration.WhatStaysInside | axiom/src/om/om_children_iterator.c:135-144 | reset leaves the list if and only if the first child was removed; remove if and only if it takes the node the iterator stands on |
| ChildIteration.HasNextSeeks | axiom/src/om/om_children_qname_iterator.c:123-178 | has_next moves to the next match and is true if and only if one is left |
| ChildIteration.YieldsMatchingChildren | axiom/src/om/om_children_qname_iterator.c:123-199 | whatever is removed, has_next answers whether a match is left and next yields the matches in order if and only if at each next the iterator was asked, stands on a match or is past the end |
| ChildIteration.EveryRunIsRef | axiom/src/om/om_children_qname_iterator.c:92-199 | asked or not, every run answers, yields and removes what a reference over the children left and the one pending says; a next past the end leaves nothing pending |
| ChildIteration.QLeaves | axiom/src/om/om_children_qname_iterator.c:92-199 | asked or not, a run removes only what it yielded, each node once, and leaves the original list without it |
| ChildIteration.UnaskedNext | axiom/src/om/om_children_qname_iterator.c:180-199 | a next without has_next agrees with the asked one if and only if the iterator stands on a match or past the end |
| ChildObjects.AddChild | axiom/src/om/om_node.c:229-263 | adds a node behind the last child, detaching it first from its parent, be it another or this one; all links stay well formed |
| ChildObjects.Parent.Detach | axiom/src/om/om_node.c:268-320 | unlinks a child, keeping the links well formed and clearing its own |
| ChildObjects.RunInPlace | axiom/src/om/om_children_iterator.c:73-133 | any run of next and remove over linked nodes yields the original children in order, removes those pending when it removes, keeps the links well formed, leaves the children not removed, and clears the links of the removed |
| ChildObjects.QRunInPlace | axiom/src/om/om_children_qname_iterator.c:92-199 | any run of has_next, next and remove does the same to the list; its answers and yields are those of the matching children if and only if at each next the iterator was asked, stands on a match or is past the end |
| ChildObjects.ChildrenIterator.constructor | axiom/src/om/om_children_iterator.c:30-60 | a fresh iterator at any child, or past the last |
| ChildObjects.ChildrenIterator.Next | axiom/src/om/om_children_iterator.c:116-133 | follows the sibling link as the value function says |
| ChildObjects.ChildrenIterator.Remove | axiom/src/om/om_children_iterator.c:73-104 | removes the last yielded node, once per next |
| ChildObjects.ChildrenIterator.Reset | axiom/src/om/om_children_iterator.c:135-144 | goes back to the first node remembered |
| ChildObjects.QNameIterator.HasNext | axiom/src/om/om_children_qname_iterator.c:123-178 | the search loop with its two flags |
| ChildObjects.QNameIterator.Next | axiom/src/om/om_children_qname_iterator.c:180-199 | yields the current node and marks the search as due |
| ChildObjects.QNameIterator.Remove | axiom/src/om/om_children_qname_iterator.c:92-121 | removes the last yielded node, once per next |
| Correlation.RegistryIsHistory | src/core/context/conf_ctx.c:171-208 | the map holds under each ID what was last registered |
| Correlation.Correlates | src/core/description/op.c:1016-1072 | in every interleaving a response attaches to the context last registered under its RelatesTo ID, a dispatched one to that under its own ID; only a message without RelatesTo makes a context |
| Correlation.NothingCorrelates | src/core/description/op.c:1120-1170 | while nobody registers a context, the map stays empty and no message with RelatesTo finds one |
| Correlation.CorrelatesDistinct | src/core/context/conf_ctx.c:171-208 | with each ID registered once, that is its one context |
| Correlation.AllSound | src/core/description/op.c:1172-1311 | in every state reached without a loss and without the message receiver's additions, a context is complete if and only if its exchange pattern has all its messages |
| Correlation.AttachNeverCompletes | src/core/context/op_ctx.c:246-277 | a run whose messages are all added by the message receiver loses none and completes no context |
| Correlation.LosslessKeeps | src/core/description/op.c:1120-1311 | runs without such a step displace no message, and a complete two-way context is final |
| Correlation.LossShows | src/core/context/op_ctx.c:333-350 | the first such step displaces a message |
| Correlation.KeepsMessagesExactly | src/core/description/op.c:1120-1311 | contexts keep their messages throughout a run if and only if no step takes up a complete context or adds by pattern to the filled slot of an incomplete one-way context |
| Correlation.AttachStores | src/core/context/op_ctx.c:246-277 | an addition by the message receiver fills the out slot if it is empty, else the in slot, and is refused if and only if both are filled |
| Correlation.ReceiverFillsBoth | src/core/receivers/msg_recv.c:380-400 | its two additions to an empty context leave the first message out and the second in; a third is refused |
| Correlation.AddStores | src/core/description/op.c:1172-1311 | which slot an accepted addition by pattern fills, when it completes the context, and when it is refused |
| Correlation.AcceptedIsHeld | src/core/description/op.c:1120-1311 | an accepted message is in its context, and still is at the end of a run that loses none |
| Correlation.TakenUp | src/core/description/op.c:1120-1170 | taking up a complete context empties it and leaves it marked complete; any other is left as it is |
| Correlation.OthersUntouched | src/core/context/conf_ctx.c:171-208 | no step touches a context other than the one it works on |
| ContextObjects.RegisterWithMessage | src/core/description/op.c:1165-1168 | empties a complete context, leaves others alone |
| ContextObjects.OpCtx.AddMsgCtx | src/core/description/op.c:1172-1311 | the four add functions in place |
| ContextObjects.ConfCtx.RegisterOpCtx | src/core/context/conf_ctx.c:171-186 | the registering step on the objects |
| ContextObjects.ConfCtx.FindOpCtx | src/core/description/op.c:1016-1072 | the step of a message with or without RelatesTo on the objects: the context it is given is the one the model says, a new one has the service context as parent, the map stays |
| ContextObjects.ConfCtx.DispatchOpCtx | src/core/engine/addr_disp.c:200-240 | the addressing dispatcher's step on the objects |
| ContextObjects.ConfCtx.TakeOpCtx | src/core/description/op.c:1120-1170 | the taking up of a context on the objects |
| ContextObjects.ConfCtx.AddToOpCtx | src/core/description/op.c:1172-1311 | the adding steps on the objects |
| ContextObjects.OpCtx.AttachMsgCtx | src/core/context/op_ctx.c:246-277 | the message receiver's addition in place |
| ContextObjects.ConfCtx.FindExistingOpCtx | src/core/description/op.c:1074-1118 | the message's own context, else the one the model looks up, never a new one |
| ContextObjects.SvcGrpCtx.constructor | src/core/context/svc_grp_ctx.c:46-98 | one linked service context per service of the group |
| ContextObjects.ConfCtx.GroupCtx | src/core/context/conf_ctx.c:492-556 | reuses the registered group context or makes and registers one, if it has the service |
| ContextObjects.ConfCtx.FillCtxs | src/core/context/conf_ctx.c:449-572 | success leaves message, operation, service, group and configuration in one chain of parents; failure leaves message and operation context alone |
| Contexts.RegistryIsFirst | src/core/context/conf_ctx.c:539-556 | a group's context has the services the group had at the first message for one of them |
| Contexts.PlacedExactly | src/core/context/conf_ctx.c:449-572 | after any run a message of a grouped service is placed if and only if it has its operation context and its service was there when the group's context was made, and a missing service is reported before a missing operation context; the carried id makes no difference |
| Contexts.PlacedById | src/core/context/conf_ctx.c:449-572 | a message of a service without a group goes by the id it carries, is refused for the reason that applies, and changes nothing |
| Contexts.ContextsStay | src/core/context/conf_ctx.c:244-259 | a registered group context stays for good |
| Contexts.OneContextPerName | src/core/context/conf_ctx.c:449-572 | two placed messages share a group context if and only if they were placed under the same name |
| Contexts.NoneMadeTwice | src/core/context/conf_ctx.c:449-572 | contexts made are those registered plus one for each message refused at that point |
| Contexts.SecondFill | src/core/context/conf_ctx.c:449-572 | filling a message twice changes nothing the second time, except when the group lacks the service |

## Left out

- Null descriptions, missing rules and missing handler names, each of which the source answers with an error before doing anything.
- Handlers that change the phase they run in, or the message's cursor other than through the paused flag: a handler is its status and its effect on that flag.
- The must-understand header computation of `axis2_engine_check_must_understand_headers` is a parameter, as are the status of the transport sender and of the message receiver.
- The fault flows of `axis2_engine_send_fault` and `axis2_engine_receive_fault`, which have the shape of send and receive over other phase lists.
- Module operations added by `axis2_svc_add_module_ops`, the wsa-mappings and the list of module names of a service group, which `engage_module_globally` also fills in.
- Where the lists of engaged modules of the configuration and of a service come from: the chain builder takes both as given. `axis2_svc_disengage_module` (`svc.c:1035-1064`) never takes a module off the service's list, so a chain built later has its handlers again.
- ServiceObjects.EngageService: does not model the module operations added before the pass, nor that a service without a table of operations is answered with a failure.
- ServiceObjects.DisengageService: its status is that of the pass, true when no operation failed; the source's is a failure when no operation had the module.
- The order in which a service's operations are visited is that of a hash table; they are a sequence here, and the laws hold for every order.
- LateServiceLaws.LateServiceCatchesUp: states the operation's own flows; the source leaves the system phases, which all services share, to the first engagement.
- ChildObjects.Parent.Detach: covers siblings under one parent; the detached node stands for the freed subtree, and the lazy builder that may append siblings is not modelled.
- `paused_handler_name`, `paused_phase_index` and the execution chain of the message context, which the engine records but does not read.
- ContextObjects.ConfCtx.FillCtxs: does not model a service without a group whose carried id is not registered, where the source reads the name of a null group; `Contexts.Fill` has an outcome of its own for it.
- ResolverLaws.RemovalUndoesAddition: for names that the phase does not hold; a shared name is covered for one handler at a time by `OneHandlerUndone`, which is not composed over lists of handlers. The same goes for RemoveAllUndoesAddAll, DisengageRestoresFlows, DisengageRestoresSystem, ServiceRestored and ServiceSystemRestored.
- ConfigurationObjects.EngageConfiguration: does not model a configuration without a table of services, which is answered with a failure after the system phases were changed.
- Deployed.DeployedFlows: for phase lists that name no phase twice (`EngineRuns.SameNamesSkip` shows what a doubled name does) and a dispatch order that lists a dispatcher; with an empty one the configuration is left without its last two phases, since the status at `conf_builder.c:219` is not looked at. The same goes for SendsExactly, ReceivesExactly and Delivers.
- Parameter and property lookups along the hierarchy: searches in a fixed order whose bodies are their specification; `axis2_msg_ctx_get_module_parameter` has no body in the repository.
- Callbacks, threads and mutexes, memory and reference counts, deployment from files, transports, the deprecated transport chain builders.
