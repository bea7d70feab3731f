# The kernel's background protocols, verified

A Dafny model of The Joy's kernel: the shared store, the threads that work on it at the same time, and the
algorithms they run. It proves what the repository's documentation promises of them, over every input and every run,
and where a comment promises more than the code gives it states the exact condition and gives a witness.

Check it with `dafny verify dfyconfig.toml` (Dafny 4.11).

## How it is laid out

**One machine for the protocols.** `Kernel` is a state machine over the whole store. Its state holds the tables
(messages, stream, Gists, missives, reminders and declines, enrichment rows, the diary) and what each thread holds in
the middle of its pass: a worker its claimed message, a fold its lock and what it has read, an enrichment pass the
burst it read before or after it got its lock, a firing its row lock, an ingestion the message it found unfiled. A step
is one committed transaction, one guarded UPDATE, one lock or one read. A run is any sequence of steps, so any thread may
be late, be overtaken or die between any two of them, and a restart may happen at any point. Replies, verdicts,
timestamps and the ids handed out are arbitrary.

- `Tables`: the rows. Three columns are history the store does not keep: what a Gist has absorbed, what a missive was
  raised for, which pass wrote an enrichment row.
- `Lifecycle`: the legal moves of a message row, its retry budget and the measure that bounds its walk.
- `Stream`: the conversation stream beside the rows it points at.
- `Gradient`: the stream's tail, the running-sum selection of what to fold, and the Gist's cutoff.
- `Bursts`: the window-function grouping of answered messages against maximal runs.
- `ReminderTool`: the reminder table and its executors.
- `Filing`: filing a message into the diary, and minting a type.
- `KernelInvariants`: what every reachable state satisfies, and that each step keeps it.
- `KernelTheorems` and `KernelPromises`: the theorems over runs.
- `Transactions`: the same store as an object the source's functions rewrite in place, each transaction shown to be the
  machine's step for it.

**The algorithms on their own.**

- `Closure`, `UnionFind`, `OntologyClusters`: the in-place union-find with path halving against the closure of the pairs.
- `Ontology`, `OntologyTree`, `OntologyGc`: the collapse of one type into another, the parent tree over a pass, and a
  whole merge pass as a quotient.
- `Sorting`, `Echoes`: the echoes lens, a second union-find with headlines and a partition.
- `PromptBudget`, `Llm`: the prompt-budget guard's ceiling arithmetic, and the fallback ladder with its attribution.
- `RateLimiter`: the sliding-window limiter against the full history it forgets. Its answer to a refused request is the
  429 of section 4 of RFC 6585 with the Retry-After of section 10.2.3 of RFC 9110.

## What holds only under a condition

- *A late answer changes nothing* (services/memory/intake.py:190-192). It does when the row was re-queued and claimed
  again: the guard names a state, not an attempt. `AnswerLandsExactly` gives the condition, `LateAnswerStands` the run.
  A late timeout or crash does harm likewise: `FailureLandsExactly`, and `LateFailureDropsAnswer`, where it costs the
  second worker its answer.
- *No type ends up in a loop* (services/memory/ontology_gc.py:207-210). A loser two or more levels above its survivor
  closes one, and `AcyclicExactly` is the equivalence; over a whole pass it is a ring of survivors, which two clusters
  can close that alone would not: `PassAcyclicExactly` and `TwoClustersLoop`.
- *The budget is a promise* (services/adapters/llm.py:711-713). Two ceiling divisions can lose one token, and the floor
  can overrun the budget; `WithinBudgetExactly` is the equivalence, `OneTokenOver` and `OneTokenOverTheFloor` the prompts.
- *The local branch re-fits the prompt* (services/adapters/llm.py:433-437). It splices with the original context, so it
  does nothing if and only if the first fitting already replaced that text: `RefitDoesNothingExactly`. `SentOverTheBox` is a
  prompt sent over the box's budget that way.
- *With no lull every message is its own burst* (services/memory/enrichment.py:225). Two received at one instant share
  one; `NoLull` and `TwoAtOnce`.
- *Nothing newer joins a settled burst* (services/memory/enrichment.py:220). True of messages received after the read,
  not of messages answered after it: `InsertedLine` is the equivalence, `LateAnswerBridges` the rows.
- *Only the spoken confirmation is re-derived on a retry* (services/tools/reminder.py:469-472). The confirmation names
  the retry's reading; the store keeps the first try's, even when it has been called off since. `ActedHolds` is the
  equivalence, `CalledOffYetConfirmed` the run.
- *A refusal says what became of the reminder* (services/tools/reminder.py:745-752, 913-920). It names the state the row
  was read in; one that fires before the write is reported as called off. `RefusedAsRead` is the equivalence over
  any run in between, `FiredYetCalledOff` the rows.
- *The stamp pins exactly-once* (services/tools/reminder.py:245). By itself it would put both stamps on a cancelled row;
  the claim's row lock is what prevents it; `StampNeedsLive` and `FireKeeps`.
- *A fact is filed under a live type* does not follow from minting, which reuses a merged type's name: `Mint` returns a live
  type if and only if the name was new or its type live, `Ingest` links to live types only if and only if all it was
  routed to are, and `FiledUnderTombstone` is the run. Filing is right modulo the redirect, `FiledModuloRedirect`.

## Assumptions

- A symbiot's stream rows become visible in the order of their ids. `ArrivalCovered` says exactly what a row that breaks
  this would cost.
- One kernel process works against the database, as services/memory/intake.py:280-282 says; a restart ends every thread
  and rolls their open transactions back. The retry budget is fixed over a run, and may be any number, zero and below
  included. The merge pass over the ontology runs alone.
- The words written are never empty, as the schemas at every door demand: core/dtos.py:43 of a line received,
  services/loop/reply.py:138 of a reply, services/tools/tools.py:231 of a confirmation. A missive of no words, which
  services/loop/missive.py:96-120 would accept, is never raised; a step with none changes nothing.
- A committed transaction is one step. Where a transaction reads, waits for a model and then writes, the lock, each read
  and the commit are separate steps. A write that a row lock keeps waiting changes nothing and may be tried again.
- Steps allow more than the source does where that only makes the theorems stronger: a claim may take any waiting row
  (`ClaimNext` takes the oldest), a firing any due reminder (`ClaimDue` takes a soonest), a fold any symbiot and budget, an
  enrichment pass any eligible messages of one symbiot (`BurstIsReadable` shows the grouping's pick is such), a worker
  any number of tool calls between its claim and its report.
- Times and similarities are real numbers; texts are counted by the character estimate of services/adapters/models.py:242.

## Model

| member | source | states |
|---|---|---|
| `RateLimiter.NoWindowOverfull` | core/rate_limit.py:69-74 | in a history admitted by the limiter no window of the configured length, wherever it ends, holds more than the limit |
| `RateLimiter.KeptCounts` | core/rate_limit.py:68-71 | the length of the pruned deque is the number of admitted hits in the window, whatever has been forgotten |
| `RateLimiter.RoomReturnsExactly` | core/rate_limit.py:71-72 | a full window has room again from the very instant its oldest hit ages out, and not before |
| `RateLimiter.AdmitKeepsLegal` | core/rate_limit.py:71-74 | recording a hit when the deque is short of the limit keeps the whole admitted history within it |
| `RateLimiter.RateLimiter.Prune` | core/rate_limit.py:68-70 | the loop splits the history at the window's edge: what it drops has aged out, what it keeps has not |
| `RateLimiter.RateLimiter.Decide` | core/rate_limit.py:66-74 | a hit is refused exactly when the window is full; a refusal records nothing, and its wait is enough and at most a second too long |
| `RateLimiter.RateLimiter.RetryAfter` | core/rate_limit.py:57-74 | the same for a route's bucket and its ceiling, no other bucket touched; a disabled limiter or the exempt route admits and records nothing |
| `RateLimiter.RateLimiter.Reset` | core/rate_limit.py:53-55 | every bucket's history is empty afterwards |
| `RateLimiter.CeilingsOfTheRoutes` | core/rate_limit.py:30-43 | the two login routes have their own ceilings, every other route the default, and only the health probe is exempt |
| `RateLimiter.ConfiguredCeiling` | core/rate_limit.py:66 | a route configured with a ceiling has that one, and no other route does |
| `Closure.NaiveIsClosure` | services/memory/ontology_gc.py:128-136 | the reference: one label per id, repainted on every union, is equal on two ids exactly when a chain of confirmed pairs links them |
| `UnionFind.HalvingKeepsRoots` | services/memory/ontology_gc.py:139-144 | pointing an id at its grandparent changes no id's root and brings the id strictly nearer to it |
| `UnionFind.LinkingRepaints` | services/memory/ontology_gc.py:146-149 | hanging one root under another moves exactly the ids under it |
| `UnionFind.Forest.Find` | services/memory/ontology_gc.py:139-144 | find terminates at the root, changes no root, and adds an unknown id as its own |
| `UnionFind.Forest.Union` | services/memory/ontology_gc.py:146-149 | a union is the reference's merge of the two labels |
| `UnionFind.Forest.Join` | services/observe.py:238-245 | the same for the lens's union, which does not ask first whether the two are apart |
| `UnionFind.Forest.UnionAll` | services/memory/ontology_gc.py:151-152 | after all the pairs the roots are the reference's labels |
| `UnionFind.Forest.Groups` | services/memory/ontology_gc.py:154-156 | every id gathered once under its root, the groups in the order their roots came up |
| `OntologyClusters.Cluster` | services/memory/ontology_gc.py:128-157 | the clusters are exactly the connected components of size two or more, disjoint, each ascending |
| `Ontology.AcyclicExactly` | services/memory/ontology_gc.py:228-238 | from an acyclic parent relation a collapse leaves an acyclic one if and only if the loser was not an ancestor of the survivor two or more levels up |
| `Ontology.GrandparentLoserLoops` | services/memory/ontology_gc.py:228-238 | the witness: a loser two levels above its survivor leaves the two types in between in a loop |
| `Ontology.NoSelfOrTombstoneParent` | services/memory/ontology_gc.py:207-210 | no type ends up parented to itself or to the loser |
| `OntologyTree.GraftedNext` | services/memory/ontology_gc.py:228-238 | one more collapse in a pass moves every parent edge to a loser onto its survivor, and drops the survivor's own |
| `OntologyTree.PassAcyclicExactly` | services/memory/ontology_gc.py:251-273 | from an acyclic parent relation a whole pass leaves an acyclic one if and only if no survivors sit in a ring, each beneath a loser of the next |
| `OntologyTree.OneClusterAcyclicExactly` | services/memory/ontology_gc.py:267-272 | for one cluster: if and only if the survivor's own parent is a loser or no ancestor of it is |
| `OntologyTree.TwoClustersLoop` | services/memory/ontology_gc.py:267-272 | the witness: two clusters neither of which loops alone, and a pass over both that does |
| `Ontology.ChainsEnd` | services/memory/ontology_gc.py:239-245 | every redirect chain ends at a live type |
| `Ontology.ResolutionIsUnique` | services/memory/ontology_gc.py:239-245 | and at one only, which the table alone decides |
| `Ontology.CollapseResettles` | services/memory/ontology_gc.py:195-249 | a collapse moves exactly what resolved to the loser, onto the survivor |
| `Ontology.CollapseKeepsLinks` | services/memory/ontology_gc.py:213-227 | read through the redirects a collapse loses no link and makes up none |
| `OntologyGc.Store.RepointLinks` | services/memory/ontology_gc.py:224-227 | a blind re-point breaks the composite key exactly when some fact is linked to both types |
| `OntologyGc.Store.DropCollidingLinks` | services/memory/ontology_gc.py:213-223 | after the delete no fact is linked to both, and the re-pointed links are those of a blind re-point |
| `OntologyGc.Store.RepointTypes` | services/memory/ontology_gc.py:228-245 | the three updates of the type rows, each row's new parent and redirect |
| `OntologyGc.Store.Collapse` | services/memory/ontology_gc.py:195-249 | the statements in their order equal the declarative collapse, keep every chain ending at a live type and every resolved link |
| `OntologyGc.FateIsQuotient` | services/memory/ontology_gc.py:267-272 | picking any survivor per cluster sends two types to one fate exactly when the confirmed pairs connect them |
| `OntologyGc.Store.FoldCluster` | services/memory/ontology_gc.py:267-272 | folding a cluster's losers one by one moves exactly what resolved to them |
| `OntologyGc.Store.RunOnce` | services/memory/ontology_gc.py:252-273 | a pass is a quotient: two types resolve alike afterwards if and only if the confirmed pairs connect what they resolved to before; exactly the reported losers stop being live; every fact keeps exactly its resolved links; an acyclic parent tree stays acyclic if and only if no survivors sit in a ring |
| `OntologyGc.Store.PickSurvivor` | services/memory/ontology_gc.py:179-192 | the survivor is some member of the cluster |
| `Sorting.SortSame` | services/observe.py:268-269 | a sort returns the same elements, as many of each |
| `Sorting.SortOrders` | services/observe.py:268-269 | and in descending key order |
| `Echoes.OnTopIsClosure` | services/observe.py:235-245 | from singletons, two lines have one root exactly when close pairs connect them |
| `Echoes.LinkClose` | services/observe.py:247-254 | every ordered pair is scored and kept, and exactly the pairs at or above the threshold are joined |
| `Echoes.Strongest` | services/observe.py:264 | the headline is attained by a pair of the group and no pair of the group exceeds it |
| `Echoes.GroupIsComponent` | services/observe.py:256-267 | a cluster is a whole component of the close pairs and its headline reaches the threshold |
| `Echoes.CloseTogether` | services/observe.py:253-254 | two lines at or above the threshold are never in different groups |
| `Echoes.MachineEchoes` | services/observe.py:213-270 | every line of the page comes back exactly once, scored or not; a scored page comes back as the components of the close pairs, headlines nonincreasing, singles newest first |
| `Gradient.OverflowIsPrefix` | services/memory/conversation.py:349-375 | the newest-first running-sum selection is exactly the oldest turns beyond the longest newest suffix that fits |
| `Gradient.CutFits` | services/memory/conversation.py:339-342 | what is kept fits the budget, and no longer suffix does |
| `Gradient.TriggerAgrees` | services/memory/conversation.py:299-329 | there is something to fold exactly when the trigger's sum is over the budget |
| `Gradient.TriggerFindsWork` | services/memory/conversation.py:299-329 | the trigger names the lowest symbiot the trim finds work for, and nobody only when there is none |
| `Gradient.PickedBySilence` | services/memory/conversation.py:263-297 | silence picks a symbiot only if every turn past the cutoff is older than the idle time, and picks one at or below any symbiot of whom that is so |
| `Gradient.LiveExchangeIsKept` | services/memory/conversation.py:263-297 | a row past the cutoff that is no older than the idle time keeps its symbiot from being picked, however old the others are |
| `Gradient.TotalSums` | services/memory/conversation.py:349-375 | what turns measure is the sum of their token counts |
| `Gradient.ZeroBudgetEmpties` | services/loop/worker.py:192-193 | over any rows, a zero-budget selection takes all of them if and only if the newest has tokens |
| `Gradient.ZeroBudgetTakesAll` | services/memory/conversation.py:349-375 | on a stream of spoken lines, none of them empty, a zero budget takes the whole tail |
| `Gradient.FoldCovers` | services/memory/conversation.py:332-375 | a fold at any budget keeps Gist and tail together equal to the whole stream and moves the cutoff strictly forward |
| `Gradient.FoldFits` | services/memory/conversation.py:337-342 | after a fold the tail fits the budget, and with one turn more it would not |
| `Gradient.ArrivalCovered` | services/memory/conversation.py:378-389 | a row that becomes visible keeps the reader whole if and only if its id is past the cutoff: the id-order assumption, exactly |
| `Gradient.ExcludingExactly` | services/memory/conversation.py:397-406 | leaving messages out drops exactly their turns and never a missive |
| `Gradient.RecentExactly` | services/memory/conversation.py:412-430 | the tail of a reply holds exactly the symbiot's rows past the cutoff less those of the excluded messages, in id order |
| `Gradient.ExcludingNothing` | services/memory/conversation.py:406 | with nothing left out the reader gets the whole tail |
| `Bursts.NumberingIsBursts` | services/memory/enrichment.py:236-254 | two rows carry one burst number exactly when they lie in one maximal run without a gap over the lull |
| `Bursts.InABurst` | services/memory/enrichment.py:216-222 | every row lies in such a run |
| `Bursts.OneBurst` | services/memory/enrichment.py:216-222 | and in only one |
| `Bursts.NumberedIsSlice` | services/memory/enrichment.py:263-266 | the members of a number are the consecutive rows of its run, oldest first |
| `Bursts.ReadsABurst` | services/memory/enrichment.py:255-273 | what is read is one whole settled burst, ending in the row that was picked |
| `Bursts.OldestSettled` | services/memory/enrichment.py:255-262 | of all settled bursts it is the one whose last message has the lowest id, and none is missed |
| `Bursts.SpendingLeavesEarlier` | services/memory/enrichment.py:335-346 | taking a recorded burst out leaves each earlier burst as it was |
| `Bursts.SpendingLeavesLater` | services/memory/enrichment.py:335-346 | and each later one |
| `Bursts.LaterLine` | services/memory/enrichment.py:219-222 | a line after a burst's last message is one with it if and only if it came within the lull |
| `Bursts.InsertedLine` | services/memory/enrichment.py:229-254 | a line put at its place in time leaves a burst whole if and only if it was received more than the lull before its first or after its last message |
| `Bursts.SettledStaysWhole` | services/memory/enrichment.py:219-222 | a message received after the read leaves a settled burst whole, wherever in time the burst lies |
| `Bursts.LateAnswerBridges` | services/memory/enrichment.py:229-235 | the witness: a message received before the read but answered after it is clear of neither of two bursts the read judged apart, and makes them one |
| `Bursts.NoLull` | services/memory/enrichment.py:225 | with no lull two messages share a burst if and only if they were received at the same instant |
| `Bursts.TwoAtOnce` | services/memory/enrichment.py:225 | the witness: two messages of one instant are one burst, whatever the lull, none included |
| `Bursts.MembersEligible` | services/memory/enrichment.py:229-235 | every member is an eligible row of the one symbiot |
| `Bursts.PartIsTheirs` | services/memory/enrichment.py:236-254 | a partition holds exactly the symbiot's rows, in the list's order |
| `Bursts.MembersOldestFirst` | services/memory/enrichment.py:263-273 | the members of a burst come by their time of receipt, then by id |
| `PromptBudget.TruncateFits` | services/adapters/models.py:326-345 | the cut is the longest prefix the count allows, and the text itself exactly when it was within |
| `PromptBudget.FindsFirst` | services/adapters/llm.py:547 | the occurrence replaced is the first |
| `PromptBudget.SplicedWhereItSat` | services/adapters/llm.py:547 | what stood before the replaced part and after it stay as they were, in their order, around the new words |
| `PromptBudget.RoomOrFloor` | services/adapters/llm.py:544-546 | the room for the context is the larger of what the instructions leave and the floor |
| `PromptBudget.FittedBound` | services/adapters/llm.py:517-547 | with the context in the prompt the fitted prompt counts at most budget + 1 tokens, or, with the target floored, at most overhead + 1 + 128 |
| `PromptBudget.WithinBudgetExactly` | services/adapters/llm.py:517-547 | it is within the budget for every summary if and only if the target was not floored past it and the two ceilings lose nothing |
| `PromptBudget.OneTokenOver` | services/adapters/llm.py:517-547 | the witness: 400 characters of context and one of instructions over a budget of 128 are fitted to 129 |
| `PromptBudget.OneTokenOverTheFloor` | services/adapters/llm.py:517-547 | the witness with the target floored: overhead, floor and one token |
| `PromptBudget.WithinRoomExactly` | services/adapters/llm.py:517-547 | the same equivalence for any target and any room |
| `PromptBudget.NothingToSplice` | services/adapters/llm.py:547 | with the context no longer in the prompt the splice changes nothing |
| `PromptBudget.SpliceDoesNothingExactly` | services/adapters/llm.py:547 | the splice changes nothing, whatever summary comes back, if and only if the context is not in the prompt |
| `Llm.SubstitutesOnce` | services/adapters/llm.py:427-437 | the model that stands in on a local-only box stands in for itself |
| `Llm.TriedExactly` | services/adapters/llm.py:441-514 | a rung is tried if and only if every rung above it was tried and out |
| `Llm.AskedInOrder` | services/adapters/llm.py:427-514 | the rungs written out: off the box a Google model, its Scaleway catch, that one's Mistral catch, the floor; a Scaleway model, its Mistral catch, the floor; any other alone; on the box the box's own model; each only after the outage of the one above |
| `Llm.CatalogFirst` | services/adapters/models.py:312-323 | the store's row stands for its model, else the builtin one, and a name in neither is unmapped |
| `Llm.RoleFallsBack` | services/adapters/models.py:285-296 | a role's model is the store's, else the builtin one, else the rerank default, an empty name counting as none |
| `Llm.NameAsked` | services/adapters/llm.py:843 | a call is for the model named, else its role's, else the rerank role's |
| `Llm.BudgetIsShare` | services/adapters/llm.py:535 | the budget is the share of the window that the margin leaves, in whole tokens |
| `Llm.OutageEscapes` | services/adapters/llm.py:507-511 | an outage reaches the caller only from a Mistral model asked for by name |
| `Llm.CapsHold` | services/adapters/llm.py:571-587 | each tier is asked for its own model's limit, or for the caller's override where that is lower; an unmapped model for the override |
| `Llm.FittedWithin` | services/adapters/llm.py:517-547 | what the fitting leaves is within the budget and one token, or the overhead, the floor and one |
| `Llm.TouchedOnlyOver` | services/adapters/llm.py:531-542 | a prompt of an unmapped model or within the budget goes through as it is; one over it with no context is refused; a failed condensing is the failure handed back |
| `Llm.InstructionsSurvive` | services/adapters/llm.py:517-547 | a condensed prompt is what stood before the context, the parsed summary cut to the room they leave or the floor, and what stood after it |
| `Llm.RefitDoesNothing` | services/adapters/llm.py:433-437 | a local re-fit whose context the first fitting already replaced pays for a summary and sends the prompt as it was |
| `Llm.RefitDoesNothingExactly` | services/adapters/llm.py:433-437 | over the box's budget a re-fit sends the prompt as it was, whatever its summary, if and only if the prompt no longer holds the context |
| `Llm.SentOverTheBox` | services/adapters/llm.py:433-437 | the witness: on a local-only box the first fitting replaces the context, the second changes nothing, and the prompt is sent over the box's budget |
| `Llm.OneFittingServes` | services/adapters/llm.py:410-415 | where the ladder's windows never narrow, a prompt that fits the model asked for fits every rung beneath it |
| `Llm.CondensedServesExactly` | services/adapters/llm.py:410-415 | a condensed prompt is within a rung's budget, whatever the summary, if and only if target, overhead and the token of the two ceilings are |
| `Llm.CondensedServes` | services/adapters/llm.py:410-415 | where the windows never narrow and the target was not floored, a condensed prompt is at most one token over any rung beneath, and over it only where that rung is no wider |
| `Llm.Boundary.Tier` | services/adapters/llm.py:661-696 | one request: an empty body is an error, the last resort reports no outage, and only an answer is noted as served |
| `Llm.Boundary.Call` | services/adapters/llm.py:373-514 | terminates; walks the ladder from the top with one prompt, every request meeting its own answer; only a stand-in re-fits; what is noted as served is the last rung tried |
| `Llm.Boundary.Fit` | services/adapters/llm.py:517-547 | untouched within the budget or unmapped, refused with nothing to condense, else one walk of the ladder and a splice in the context's place |
| `Llm.Boundary.Summarise` | services/adapters/llm.py:699-733 | the condensed context is the parsed reply of its own walk, cut to the target |
| `Llm.Boundary.RecordCall` | services/adapters/llm.py:590-622 | a row exactly when a role was named and a rung noted |
| `Llm.Boundary.GenerateJson` | services/adapters/llm.py:813-858 | the reply is the last rung's; the ledger names that rung, however many requests condensing took, and is written whether or not the reply validates |
| `Lifecycle.MoveKeepsRow` | services/memory/intake.py:124-313 | every guarded move keeps the row's promises about attempts, answer, reason and delivery |
| `Lifecycle.MoveSpends` | services/memory/intake.py:124-313 | every status move lowers the measure 3 x (budget - attempts) + rank, and nothing raises it |
| `Lifecycle.MoveKeepsWords` | services/memory/intake.py:32-36 | no move changes the words or the sender, nor an outcome or an answer once reached |
| `Lifecycle.SweepsSplit` | services/memory/intake.py:225-244 | a failed row is taken by exactly one of re-queue and abandon |
| `Lifecycle.MovesAreStamped` | services/memory/intake.py:124-313 | only a status move touches the clock, and a delivery touches nothing but its own stamp |
| `Lifecycle.StampOfTheMove` | services/memory/intake.py:124-313 | each move stamps its own instant, and sets the answer or the reason it was given |
| `KernelTheorems.BoundedMoves` | services/memory/intake.py:124-313 | in every run a message makes at most 3 x max(1, max_attempts) status moves |
| `KernelTheorems.BudgetHolds` | services/memory/intake.py:204-244 | in every reachable state attempts are within the budget, received leaves some, abandoned has spent it and says why, delivered is terminal |
| `KernelTheorems.OutcomeIsFinal` | services/memory/intake.py:9-15 | over every run a message keeps its words, and an outcome, its answer and its delivery are final |
| `KernelTheorems.AnsweredOnce` | services/loop/worker.py:547-557 | with stale workers still running a message is answered at most once |
| `KernelTheorems.AnswerLandsExactly` | services/memory/intake.py:156-161 | a reported answer lands if and only if the row is working, whichever attempt the reporter claimed; otherwise it changes neither row nor stream |
| `KernelTheorems.LateAnswerStands` | services/memory/intake.py:190-192 | the witness against the comment: a late answer lands on a row re-queued and claimed again |
| `KernelTheorems.FailureLandsExactly` | services/memory/intake.py:164-178 | a reported timeout or crash lands if and only if the row is working, whichever attempt the reporter claimed; otherwise it changes no row |
| `KernelTheorems.LateFailureDropsAnswer` | services/memory/intake.py:190-192 | the witness: a late timeout or crash fails the try under way on a row re-queued and claimed again, and that try's answer is dropped |
| `KernelTheorems.DeadlineFromClaim` | services/memory/intake.py:181-201 | a row claimed at one instant and still in that try after any run is failed by a sweep more than the ceiling after the claim, and by no other, however long the message had waited |
| `KernelTheorems.RestartLeavesNobody` | services/memory/intake.py:271-313 | after a restart no thread holds anything, and nothing but the orphans' rows has changed |
| `KernelTheorems.OrphanSettled` | services/memory/intake.py:271-313 | an orphan waits again while it has tries left and is given up once it has none |
| `KernelTheorems.EndsAlone` | services/loop/worker.py:163-571 | a thread that ends takes only what it held |
| `Transactions.ReconciledSettles` | services/loop/worker.py:728-732 | one sweep pass leaves no failed row and none that has been worked on for more than the ceiling, and says where each went and with which reason |
| `Transactions.PassIsThreeSteps` | services/loop/worker.py:728-732 | the pass is three steps of the machine, in order |
| `ReminderTool.ScheduleOnce` | services/tools/reminder.py:429-514 | at most one reminder per message however often it is retried; which outcome writes, which declines |
| `ReminderTool.ScheduleCases` | services/tools/reminder.py:474-514 | when setting a reminder declines, asks, refuses or writes, and what it writes: the first decline, or the row unless the message has one |
| `ReminderTool.ActedHolds` | services/tools/reminder.py:508-514 | what an ACTED confirmation says stands, live and with these words and this time, if and only if what an earlier try of the message left is still live and says the same |
| `ReminderTool.CalledOffYetConfirmed` | services/tools/reminder.py:469-514 | the witness: set, called off by the symbiot, retried with the very same reading: confirmed as scheduled while nothing live is left |
| `ReminderTool.CallOffTurns` | services/tools/reminder.py:719-761 | a cancel by language acts exactly on a live row of the symbiot's; when each refusal and its reason is given |
| `ReminderTool.ChangeTurns` | services/tools/reminder.py:865-930 | an edit by language acts if and only if one live row of the symbiot's is meant, something is to change and no moment named has gone by; when each refusal and its reason is given; what the row says afterwards |
| `ReminderTool.RefusalNamesTheState` | services/tools/reminder.py:745-761 | however often the row moved since it was read, the reason a refusal gives is its state at the write if and only if it was not a live row that fired |
| `ReminderTool.FiredYetCalledOff` | services/tools/reminder.py:745-761 | the witness: a live row fires between the read and the write and is reported as called off |
| `ReminderTool.StampNeedsLive` | services/tools/reminder.py:244-253 | the unguarded stamp leaves a row with both stamps if and only if the row was not live |
| `Stream.WordsStay` | services/memory/conversation.py:469-471 | a line's words and owner survive every legal change of the tables |
| `Stream.ReceivedOnStream` | main.py:410-413 | a message and its mirror leave the stream right: in order, each line once, every authed message on it |
| `Stream.AnsweredOnStream` | services/loop/worker.py:547-559 | so do an answer and its mirror, the question first |
| `Stream.RaisedOnStream` | services/loop/missive.py:113-120 | so do a missive and its mirror |
| `KernelInvariants.StepKeeps` | services/loop/worker.py:163-571 | every step of every thread keeps every invariant of the store and of what threads hold |
| `KernelInvariants.RunKeeps` | services/loop/worker.py:163-571 | so does every run, whatever the schedule |
| `KernelInvariants.CommitFoldKeeps` | services/loop/worker.py:194-199 | a fold that commits under its lock takes the oldest turns still verbatim, however the stream grew meanwhile |
| `KernelInvariants.FireKeeps` | services/loop/worker.py:410-422 | under its row lock the unguarded stamp is legal and its missive the first |
| `KernelInvariants.CommitBurstKeeps` | services/loop/worker.py:311-351 | a pass that read its burst before another committed still keeps one row a message and one missive an anchor |
| `KernelPromises.WordsForever` | services/memory/conversation.py:469-485 | over every run a stream row stays where it is and its words exist and never change |
| `KernelPromises.MessageOnStream` | services/loop/worker.py:546-559 | in every reachable state an authed message is on the stream once, its answer once exactly when answered and after it; an anonymous one never |
| `KernelPromises.NoGapNoOverlap` | services/memory/conversation.py:378-389 | from every reachable state, the turns absorbed by the Gist read first, followed by the tail read after any further run, folds included, are the symbiot's whole stream in id order, each row once |
| `KernelPromises.AbsorbedOnce` | services/memory/conversation.py:435-452 | cutoffs strictly increase, every fold takes in some turn, and no turn is taken in by two |
| `KernelPromises.CollapseTakesAll` | services/loop/worker.py:185-200 | in every reachable state a zero-budget selection is the symbiot's whole tail, and after its fold nothing is left verbatim |
| `KernelPromises.QuietUntilSpokenTo` | services/loop/worker.py:163-178 | a symbiot with nothing verbatim has nothing verbatim, and is not picked, in any later state without a new row of its own |
| `KernelPromises.CollapsedUntilSpokenTo` | services/loop/worker.py:163-178 | once a collapse commits, whatever any thread does, no silence picks that symbiot again while it has no new row |
| `KernelPromises.FiredExactlyOnce` | services/loop/worker.py:394-422 | in every reachable state: one reminder per message, never both stamps, fired exactly when one missive with its line was raised, on the stream once |
| `KernelPromises.TakenFromItsMoment` | services/tools/reminder.py:178-197 | a free firing takes a reminder exactly when it is neither fired nor called off nor held, and its moment has come |
| `KernelPromises.FiringHoldsLive` | services/tools/reminder.py:178-197 | a firing in flight holds a live reminder, and alone |
| `KernelPromises.SettledForGood` | services/tools/reminder.py:160-253 | over every run a reminder stays its symbiot's and its message's, and one that has fired or been called off never changes again |
| `KernelPromises.RefusedAsRead` | services/tools/reminder.py:745-761 | with any run between the read and the write, a refusal names the row's state if and only if it was not a live row that fired meanwhile |
| `KernelPromises.FollowedUpOnce` | services/memory/enrichment.py:313-356 | in every reachable state: surfaced exactly when a missive shows it, carried by the anchor only, one missive an anchor, on the stream once |
| `KernelPromises.LosingPassRollsBack` | services/loop/worker.py:283-306 | a pass whose burst someone recorded meanwhile writes no row, no missive and no stream row |
| `KernelPromises.WinningPassSpendsBurst` | services/memory/enrichment.py:335-356 | a pass that wins records every member under its anchor and raises one missive exactly when it surfaces |
| `KernelPromises.SpentForGood` | services/memory/enrichment.py:232-235 | once recorded a message is never read as eligible again |
| `KernelPromises.BurstIsReadable` | services/memory/enrichment.py:212-273 | the burst the grouping picks is one a pass may start from |
| `KernelPromises.ConsideredExactly` | services/memory/enrichment.py:229-235 | a pass takes a burst exactly when every message of it is the symbiot's, answered, and considered by no pass |
| `KernelPromises.LockedExactly` | services/memory/enrichment.py:120-143 | a pass gets the lock exactly when no other pass of the symbiot's has it, and ends where one does |
| `KernelPromises.FiledAtMostOnce` | services/memory/ontology.py:397-430 | in every reachable state a message has at most one fact, with one embedding and no link twice, and was settled and authed |
| `KernelPromises.FiledForGood` | services/memory/intake.py:333-340 | once filed a message keeps its fact and is never offered again |
| `KernelPromises.OfferedExactly` | services/memory/intake.py:316-340 | an ingestion takes a message exactly when it is a symbiot's, answered or given up, and bears no fact |
| `KernelPromises.FiledInItsWords` | services/memory/ontology.py:397-430 | a fact is the message's own words under its id, with one embedding and exactly the routed links |
| `KernelPromises.LosingFilingChangesNothing` | services/memory/ontology.py:407-417 | an ingestion that lost the race changes nothing |
| `Filing.FiledOnce` | services/memory/ontology.py:400-430 | a filing writes one fact, one embedding and one link per concept; a re-file returns the same fact and changes nothing |
| `Filing.ConceptsOnce` | services/memory/ontology.py:234-240 | the concepts filed under are the routed types, each once, in the order of their names |
| `Filing.FactStore.Persist` | services/memory/ontology.py:369-430 | the statements and the link loop equal the filing's specification |
| `Filing.FactStore.Ingest` | services/memory/ontology.py:231-242 | the fact's links are exactly the routed types, all of them live if and only if every routed type is; a second ingest changes nothing |
| `Filing.FactStore.Mint` | services/memory/ontology.py:300-366 | exactly one type bears the name afterwards and it is what comes back; an existing one comes back as it is, so it is live if and only if the name was new or its type was live |
| `Filing.OneOfAName` | services/memory/ontology.py:345-366 | under the unique index no two types bear one name |
| `Filing.RaceHasOneWinner` | services/memory/ontology.py:345-366 | two mints racing to coin a name are both handed the winner's row, and the loser writes nothing |
| `Filing.FactStore.InsertType` | services/memory/ontology.py:345-366 | the insert that does nothing on a known name, and the read of the name's row |
| `Filing.FiledModuloRedirect` | services/memory/ontology.py:329-333 | filing under any type, merged or live, adds exactly one resolved link |
| `Filing.MintedIsLive` | services/memory/ontology.py:345-366 | a minted type is live and moves no other type's resolution |
| `Filing.FiledUnderTombstone` | services/memory/ontology.py:300-366 | the witness, as a run: a merged type's name is minted again and comes back as the tombstone, a fact filed there is linked to no live type, and the redirect says which one is meant |
| `Transactions.Database.RecordMessage` | services/memory/intake.py:72-103 | a fresh received row under a new id |
| `Transactions.Database.ClaimNext` | services/memory/intake.py:124-146 | the oldest waiting row not locked is taken for work, or there was none |
| `Transactions.Database.MarkAnswered` | services/memory/intake.py:149-161 | moves exactly a working row |
| `Transactions.Database.MarkFailed` | services/memory/intake.py:164-178 | moves exactly a working row |
| `Transactions.Database.FailOverdue` | services/memory/intake.py:181-201 | fails exactly the rows whose work began more than the ceiling ago and counts them |
| `Transactions.Database.RequeueFailed` | services/memory/intake.py:204-222 | re-queues exactly the failed rows with tries left and counts them |
| `Transactions.Database.AbandonExhausted` | services/memory/intake.py:225-244 | gives up exactly the failed rows with none left and names them |
| `Transactions.Database.ReconcilePass` | services/loop/worker.py:728-732 | the three sweeps in order; a try stands through it up to the ceiling from its own start; how many failed, how many went back, and exactly which rows became abandoned |
| `Transactions.Database.MarkDelivered` | services/memory/intake.py:247-268 | stamps exactly the named, answered or abandoned, undelivered rows with the instant, and counts them |
| `Transactions.Database.RecoverOrphaned` | services/memory/intake.py:271-313 | leaves no working row; sends each back or gives it up by its tries |
| `Transactions.Database.NextUningested` | services/memory/intake.py:316-340 | the oldest message of a symbiot's that is answered or abandoned and bears no fact, or there is none |
| `Transactions.Database.RecordUtterance` | services/memory/conversation.py:455-485 | one row appended past every other, measured from the text |
| `Transactions.Database.Receive` | main.py:410-413 | an empty line is refused; else the message and its mirror, as one step of the machine |
| `Transactions.Database.Report` | services/loop/worker.py:546-565 | a worker's outcome, as one step of the machine; the mirror only if this report answered |
| `Transactions.Database.FoldAt` | services/memory/conversation.py:332-375 | appends the fold of the overflow exactly when there is some; as the machine's lock, two reads and commit |
| `Transactions.Database.CompressOne` | services/loop/worker.py:241-266 | folds exactly when the trigger names someone, leaves a tail within the budget, and every reader whole |
| `Transactions.Database.CollapseIdleOne` | services/loop/worker.py:181-200 | folds exactly when some symbiot's verbatim turns are all older than the idle time, and such a one; leaves that tail empty under the text of the fold and every reader whole, and that symbiot is not picked again until it has a new row |
| `Transactions.Database.RecordBurst` | services/memory/enrichment.py:335-356 | records every member or refuses, exactly when one was recorded already |
| `Transactions.Database.EnrichOne` | services/loop/worker.py:308-351 | the pass's transaction with its roll-back, as one step of the machine |
| `Transactions.Database.Deliver` | services/loop/missive.py:96-120 | the missive and its mirror, as one step of the machine |
| `Transactions.Database.Create` | services/tools/reminder.py:200-225 | a row unless the message has one already |
| `Transactions.Database.Cancel` | services/tools/reminder.py:160-175 | lands exactly on a live row of the symbiot's |
| `Transactions.Database.Update` | services/tools/reminder.py:371-404 | lands exactly on a live row of the symbiot's with something to change |
| `Transactions.Database.RecordDecline` | services/tools/reminder.py:288-302 | the first decline of a message stands |
| `Transactions.Database.Answer` | services/loop/worker.py:63-160 | the fork of the answer: the executor runs exactly when a known symbiot's shortlisted message is decided to name a tool, with the verdict a completed look named; a failing look never fails the message; what the store becomes, and what is reported |
| `Transactions.Database.Execute` | services/loop/worker.py:369-391 | each tool's effect on the store; reading the reminders has none |
| `Transactions.Database.ExecuteSet` | services/tools/reminder.py:474-514 | the branch order of the executor: decline, ask, refuse, write |
| `Transactions.Database.ExecuteCancel` | services/tools/reminder.py:737-761 | the branch order of the executor: ask, refuse with the reason the row gives, write |
| `Transactions.Database.ExecuteUpdate` | services/tools/reminder.py:883-930 | the branch order of the executor: ask, refuse with the reason the row gives, write |
| `Transactions.Database.ClaimDue` | services/tools/reminder.py:178-197 | a soonest reminder, not locked, neither fired nor called off, whose moment has come; when there is none, every such one is set for later |
| `Transactions.Database.MarkFired` | services/tools/reminder.py:244-253 | stamps by the id alone |
| `Transactions.Database.Fire` | services/loop/worker.py:410-422 | the missive, its stream row and the stamp of a claimed reminder |
| `Transactions.Database.FireOne` | services/loop/worker.py:409-422 | claim, missive, stream row and stamp, as one step of the machine; only from its moment on, and nothing while every other is set for later |

## Left out

- HTTP routes, DTOs, protocol words, logging and configuration parsing: plumbing with no state worth proving; of main.py
  only the intake transaction is modelled.
- The providers, Ollama, embeddings, pgvector ranking and tiktoken: foreign calls, taken as arbitrary answers, arbitrary
  similarities and the character count. The budget's bounds are proved for that count only.
- services/loop/execution.py: a child process is an arbitrary report that may come late, or never.
- Push, email, presence and the notification fan-out, and `seen_at` on a missive: courtesies after the commit.
- Prompt texts, personas, rendering and time zones: the text of a Gist, a summary or a confirmation is arbitrary.
- services/identity.py, services/memory/model_config.py, services/adapters/calibration.py, services/tools/tools.py and
  services/loop/zone.py: single-branch rules, or wall-clock parsing.
- scripts/backfill_conversation_stream.py: its counter is never initialised, so the function as written cannot return.
- Progress of the sweeps: the ingestion, enrichment and fold sweeps always retry their lowest eligible item, so one that
  always fails blocks those behind it. Bounded status moves are proved, being served is not.
- The reads that only list: the standing set, the windowed read, the observe hook's ranking and the other observe lenses.
- The `run_` loops of the worker: a run of the machine is any schedule, so theirs are among them.
- The caches of services/adapters/models.py: a call sees one catalog and one role map throughout.
- A child type minted under a type while the merge pass is folding it.
- The order in which equal keys come out of a sort is the stable one of the source, which no theorem here needs.
- Echoes.MachineEchoes: an utterance is its index on the page and its creation time; its words only reach the similarity.
- Transactions.Database.Deliver: given a body of no words, which no caller passes, it is not a step of the machine.
- Transactions.Database.CompressOne: the fold as one uninterrupted transaction, which is the machine's four steps of it
  with nothing in between; its interleavings are the machine's.
- Transactions.Database.Answer: the children's results, the shortlist and what the look step found are parameters; which
  words are spoken is not modelled.
- Transactions.Database.EnrichOne: the burst, the gate and the echo verdict are parameters.
- Llm.Boundary.GenerateJson: one object per thread stands for the thread-local rung; the ledger it shows is that thread's rows.
