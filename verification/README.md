# Bookkeeping core of the Amdox ERP: a model and its laws

The API keeps many tables that must agree with each other: stock levels, movements and cost layers;
purchase orders, receipts, invoices, payments and journal entries; payslips and project budgets; workflow
instances and their histories; task dependencies; the audit log. The modules here model the services that
write these tables and prove what every step, and every sequence of steps, keeps.

| module | what it holds |
|---|---|
| `Prelude`, `Selections`, `Walks` | sums over sequences and sets; rows picked from a table by a property, with order and multiplicity; walks, closed walks and finish orders of a directed graph |
| `WorkflowDefinitions`, `WorkflowInstances` | validation and cycle detection; transitions and histories |
| `TaskDependencies` | the second cycle search, task creation and deletion, the dependency DAG |
| `Inventory`, `InventoryRuns` | FIFO cost layers and stock movements; conservation laws |
| `Purchasing`, `PurchaseRuns` | approval, cancellation, goods receipts; what runs of them keep |
| `InvoiceMatching` | the three-way match |
| `Payables`, `PayableRuns` | invoices, approvals, payments, payment batches |
| `ProcureToPay` | receipt to invoice to ledger |
| `GeneralLedger`, `LedgerRuns` | journal entries, five event handlers, balances, period locks |
| `Receivables` | sales orders, receivable invoices, customer payments |
| `SubLedgers` | the ledger's control accounts against payables and receivables |
| `AuditChain` | the per-tenant hash chain |
| `PayrollMath`, `PayrollRuns` | gross-to-net arithmetic; the chunked, retried payroll worker |
| `ProjectCosts` | the labour-cost split and budget accumulation |

## Conventions

- Services that update rows are classes; their methods are proved equal to specification functions (or
  relations) on a snapshot of the tables, and the laws are lemmas about those. Calculations are functions.
- One transaction, and one delivery of an event, is one atomic step. Generated ids are new. Document ids are
  unique across the tables that the general ledger reads.
- Quantities in requests are integers in units of 0.000001, so the slack of 1e-6 is one unit; still finer ones are
  not modelled. The columns of quantities (`Quantity`) and amounts (`Money`) hold four decimals, and what is
  written to them is rounded to the nearest, ties away from zero (`StoredQuantity`, `Stored`). Acceptance,
  settlement, status and balance tests see what was given, not what is stored.
- Unit prices are integers in units of 0.0001, so quantity times price is an integer in units of 0.0000000001, the
  unit of invoice totals, payments and ledger amounts (the ledger's 0.0001 tolerance is 1,000,000 of them).
- Payroll and labour costs are in units of 0.0001, hours in units of 0.01, and payroll
  inputs are exact reals.
- Rounding is that of ECMA-262 section 21.1.3.3, Number.prototype.toFixed: nearest, ties away from zero
  (a negative value is negated first, then rounded with ties upward).
- The order of a sequence of rows stands for the order of `receivedAt` or `createdAt`.
- The audit digest is an abstract injective function that never yields `GENESIS`. Workflow conditions and
  actions are abstract: each request carries the verdict of every condition and the success of every action.
- `invoice.approved` is emitted for payable invoices only, but its handler would post any invoice type to 1300 and
  2000; the ledger laws therefore ask that every event speaks of its own kind of document (`WellFormed`).
- Lines of a receipt request are at least 0.0001, as its validator demands, where a law says so (`ValidRequest`).
- An account is identified by its code. A ledger or budget source is present when both the module and the id
  are non-empty strings.

## Where the code and its promises part

- The header of `inventory.service.ts` (line 21) says that no movement drops stock below zero. Only a missing
  level row is guarded: `NegativeLevelIsReachable`, and exactly when, `LevelsStayNonNegativeIff`.
- A receipt may list one order line several times, and each copy is compared with the quantity outstanding
  before the receipt: `RepeatedLineOverReceives`, exactly when in `NoOverReceiptIff`. The status test keeps only
  the last copy, and of it the quantity requested instead of the one stored, so a completed order can stay
  PARTIALLY_RECEIVED: `RepeatedLineLooksPartial` and `ShortReceiptLooksPartial`, exactly when in `StatusAgreesIff`.
- The settlement tests see a payment as it was given, the tables its row: 99.99996 pays 100.0000 in the tables and
  not in the statuses. `ShortPaymentLeavesOrderOpen` and `RoundedPaymentsMislead`, exactly when in
  `LagsIffLastPaymentFellShort` and `StatusMatchesRowsIff`.
- Stock levels are promised to be the sum of all movements (`inventory.service.ts` lines 19-20). Off four decimals
  they are not: `HalfStepBreaksLevel`, exactly when in `LevelLawKeptIff`; and cost layers are charged without being
  used up: `HalfStepsDrainNothing`, exactly when in `DrainRefinesQueue`.
- Entries promise that debits equal credits within 0.0001, but are checked before their lines are rounded:
  `FineLinesUnbalanceTheLedger`; `TrialBalance` bounds what this can add.
- Received orders are promised not to be cancellable (`purchase.service.ts` lines 178-183). Approval checks no
  prior status, so receive, approve, cancel succeeds: `ReapprovalAllowsCancellation`, exactly when in
  `CancelAfterGoodsIff`.
- The comment at `purchase.service.ts` lines 386-391 promises one invoice per goods receipt. Only the first
  receipt of an order gets one: `SecondHalfIsNeverInvoiced`, exactly when the invoice still covers the order in
  `InvoiceCoversOrderIff`.
- The DAG check of a workflow definition only warns: `ValidateWorkflowDefinition` accepts a cyclic definition.
- The cycle check of `createTask` can never fire in a reachable state: `CycleCheckNeverFires`,
  `ReachableRejection`.
- `verifyChain` never recomputes a hash, so rewritten payloads pass: `PayloadRewritesGoUnnoticed`; exactly which
  edits of a row are noticed is `EditPassesIff`, and which rewrites of a payload `RewriteNoticedIff`.
- ESI is promised only at or below a gross of 21000 (`payroll-deductions.ts` line 29), but the test sees gross
  after rounding: just above the ceiling, within half of 0.0001, ESI is still charged. `OneMinuteCostsAHundred`
  is such a payslip; `NetIsCloseIff` says that this window is the only exception to the rounding bound.
- A payment is committed before its event is queued, so a batch can report as failed what it has paid:
  `PaidYetReportedFailed`, exactly when in `ReportedTotalMatchesRowsIff`.
- The compensation step of a payroll retry removes payslips, not what was announced about them: the new payslips
  have new ids, so labour cost is recorded again: `RetryRecordsCostTwice`, exactly when in `RunIsRecordedOnceIff`.
- A negative reference price or order total makes the relative deviation negative, and every actual amount is
  then within tolerance: `NegativePriceAcceptsAnything`, exactly when in `LineMatchIff` and `HeaderMatchIff`.
- `fullyReconciled` demands a positive order total, FULFILLED does not: `FreeOrderIsNeverReconciled`;
  `OrderReconciliation` says exactly when the two agree.
- Two allocations of one employee to the same project share a source key, and the second share is lost:
  `TwoAllocationsLoseAShare`; `AllCostsRecordedIff` says exactly when nothing is lost.

## Model

| member | source | states |
|---|---|---|
| WorkflowDefinitions.CycleSearch.HasCycleDFS | apps/api/src/workflow/workflow.service.ts:550-571 | the search terminates; true is backed by a closed walk; false leaves the path as it was and lists the node in a finish order, in which every edge points strictly earlier |
| WorkflowDefinitions.BuildGraph | apps/api/src/workflow/workflow.service.ts:528-536 | the adjacency map has a row for every state and exactly the edges of the transitions |
| WorkflowDefinitions.DetectCycle | apps/api/src/workflow/workflow.service.ts:526-548 | true exactly when the transition relation has a non-empty closed walk, self-loops included |
| WorkflowDefinitions.CycleIsReachableFromSomeStart | apps/api/src/workflow/workflow.service.ts:538-547 | starting a fresh search at every state misses no closed walk |
| WorkflowDefinitions.ValidateWorkflowDefinition | apps/api/src/workflow/workflow.service.ts:496-524 | accepts exactly the definitions whose transitions name listed states, names an unknown state otherwise, and the warning flag is exact on the whole relation |
| WorkflowInstances.WorkflowInstance.Initialize | apps/api/src/workflow/workflow.service.ts:202-239 | a new instance is in the first listed state with no history |
| WorkflowInstances.WorkflowInstance.ExecuteTransition | apps/api/src/workflow/workflow.service.ts:345-454 | the first transition with the label out of the current state decides; each refusal has its own outcome and changes nothing; a move appends one history row |
| WorkflowInstances.RefusedIff | apps/api/src/workflow/workflow.service.ts:358-391 | exactly who is refused: users without a listed role and not listed themselves, when roles are listed at all; a move happens exactly when nobody is refused, every condition holds, no blocking action fails and the target state is listed |
| WorkflowInstances.RunHistoryIsWalk | apps/api/src/workflow/workflow.service.ts:394-428 | after every run the history is a walk, from the first state to the current one, of transitions that a request can reach |
| WorkflowInstances.LongRunReachesCycle | apps/api/src/workflow/workflow.service.ts:519-523 | a run with as many moves as there are states has a cycle within reach |
| WorkflowInstances.AcyclicRunIsBounded | apps/api/src/workflow/workflow.service.ts:519-523 | when no cycle is detected no run makes more than the number of states less one moves |
| WorkflowInstances.FiringEdgesAreTransitions | apps/api/src/workflow/workflow.service.ts:360-363 | the moves that some request can make are transitions, and all of them when no label is used twice in one state |
| WorkflowInstances.WalkCanBeRun | apps/api/src/workflow/workflow.service.ts:345-428 | every walk of such moves from the first state is the trail of a run |
| WorkflowInstances.RunsAreUnboundedIff | apps/api/src/workflow/workflow.service.ts:519-523 | there are runs of every length exactly when such moves lead from the first state to a cycle |
| TaskDependencies.DependencySearch.Dfs | apps/api/src/pm/project/project.service.ts:249-262 | the search terminates; true is backed by a cycle that the root reaches; false restores the visiting set and extends a finish order |
| TaskDependencies.BuildGraph | apps/api/src/pm/project/project.service.ts:229-247 | the graph holds exactly the rows of the project's tasks plus the proposed ones |
| TaskDependencies.WouldCreateCycle | apps/api/src/pm/project/project.service.ts:223-265 | exact, on any rows, for cycles reachable from the new task |
| TaskDependencies.CountCheckIsExact | apps/api/src/pm/project/project.service.ts:268-281 | comparing two counts accepts exactly distinct prerequisites that exist in the same project |
| TaskDependencies.ProjectService.CreateTask | apps/api/src/pm/project/project.service.ts:267-313 | which of the three refusals applies in which order, changing nothing; otherwise the task joins its project, old rows stay a prefix, and one row per requested prerequisite follows in the requested order, no others |
| TaskDependencies.CreationAdds | apps/api/src/pm/project/project.service.ts:300-306 | a row is there afterwards exactly when it was there before or joins the new task to a requested prerequisite; as many rows are added as prerequisites are listed |
| TaskDependencies.ProjectService.DeleteTask | apps/api/src/pm/project/project.service.ts:631-649 | the task goes together with every row that touches it; all other tasks and rows stay, in order |
| TaskDependencies.WithoutIsFiltered | apps/api/src/pm/project/project.service.ts:631-649 | the rows kept are exactly those that name no deleted task on either side, each as often and in the order in which they were |
| TaskDependencies.ProjectService.DeleteProject | apps/api/src/pm/project/project.service.ts:549-607 | a live project goes together with its tasks and every row that touches one of them; all other tasks and rows stay, in order |
| TaskDependencies.CycleCheckNeverFires | apps/api/src/pm/project/project.service.ts:283-289 | on a board that keeps the invariant no valid request closes a cycle |
| TaskDependencies.StepKeepsInv | apps/api/src/pm/project/project.service.ts:267-313 | each creation or deletion keeps the dependencies a DAG, inside single projects, without dangling ends or repeated rows |
| TaskDependencies.RunKeepsInv | apps/api/src/pm/project/project.service.ts:549-649 | so does every sequence of them from an empty board |
| TaskDependencies.ReachableRejection | apps/api/src/pm/project/project.service.ts:267-290 | in a reachable state a task is refused exactly for its prerequisites, never for a cycle |
| Inventory.StockTables.ConsumeFifoCostLayers | apps/api/src/scm/inventory/inventory.service.ts:202-252 | layers, cost and unmatched quantity as the specification of a drain; the per-layer breakdown names real layers at their own cost and adds up |
| Inventory.StockTables.RecordMovement | apps/api/src/scm/inventory/inventory.service.ts:87-189 | exactly when each of the three errors is raised with nothing changed; otherwise the new tables, kind by kind as in `MoveMeaning` |
| Inventory.MoveMeaning | apps/api/src/scm/inventory/inventory.service.ts:115-162 | on existing stock ISSUE and TRANSFER store the level less the quantity and charge for the oldest min(quantity, available) units; RECEIPT and ADJUSTMENT store the level plus the quantity and touch neither layers nor issuances |
| Inventory.StockTables.ReceiveLine | apps/api/src/scm/purchase/purchase.service.ts:303-361 | one received line writes one movement and one full layer and raises the level by its quantity |
| Inventory.DrainRefinesQueue | apps/api/src/scm/inventory/inventory.service.ts:224-243 | the layer loop is a plain queue of costed units: the oldest min(q, available) are charged for and the rest is the shortfall, for every q; they also leave the layers exactly when q has at most four decimals or empties them |
| Inventory.DrainTouchesOnlyItsKey | apps/api/src/scm/inventory/inventory.service.ts:213-221 | only the remaining quantity of rows of the issued key changes, never upwards and never below zero |
| Inventory.DrainIsAdditiveIff | apps/api/src/scm/inventory/inventory.service.ts:202-252 | issuing a and then any b equals issuing a + b in layers, total cost and shortfall exactly when a has at most four decimals or empties the layers |
| Inventory.HalfStepsDrainNothing | apps/api/src/scm/inventory/inventory.service.ts:230-233 | an issue of 0.00005 is charged for and leaves a layer of 0.0001 as it was |
| InventoryRuns.LevelLawKeptIff | apps/api/src/scm/inventory/inventory.service.ts:130-149 | a step keeps the level equal to the signed movements exactly when it does not round a half step of level and movement apart |
| InventoryRuns.ValueLawKeptIff | apps/api/src/scm/inventory/inventory.service.ts:224-243 | a step keeps value received equal to cost issued plus value left exactly when it splits no layer of value at a point its column cannot hold |
| InventoryRuns.ShortfallLawKeptIff | apps/api/src/scm/inventory/inventory.service.ts:202-252 | a step keeps level less layered stock equal to unlayered inbound less unmatched issues exactly when level and layers are rounded alike |
| InventoryRuns.StepConservesIff | apps/api/src/scm/inventory/inventory.service.ts:87-189 | a step keeps all three laws exactly under those three conditions, which can be read off before it |
| InventoryRuns.RunConserves | apps/api/src/scm/inventory/inventory.service.ts:15-20 | the three laws hold for a product and warehouse after every interleaving of steps that meet the conditions |
| InventoryRuns.FourDecimalRunConserves | apps/api/src/scm/inventory/inventory.service.ts:15-20 | in particular after every interleaving of receipts and movements of quantities with at most four decimals |
| InventoryRuns.HalfStepBreaksLevel | apps/api/src/scm/inventory/inventory.service.ts:130-140 | an issue of 0.00005 from 1.0000 leaves the level at 1.0000 and the movements at 0.9999 |
| InventoryRuns.NegativeLevelIsReachable | apps/api/src/scm/inventory/inventory.service.ts:130-140 | a receipt of 5.0000 and an issue of 8.0000 leave a level of -3.0000 |
| InventoryRuns.LevelsStayNonNegativeIff | apps/api/src/scm/inventory/inventory.service.ts:130-149 | a step keeps all levels non-negative exactly when it does not overdraw an existing row by at least half of 0.0001 |
| Purchasing.PurchaseService.ApprovePurchaseOrder | apps/api/src/scm/purchase/purchase.service.ts:132-139 | approval overwrites whatever status there was |
| Purchasing.PurchaseService.CancelPurchaseOrder | apps/api/src/scm/purchase/purchase.service.ts:184-199 | cancels exactly the orders whose status shows no receipt, closure or cancellation |
| Purchasing.PurchaseService.RequestedLines | apps/api/src/scm/purchase/purchase.service.ts:246-261 | accepts exactly the requests whose every line exists and fits; otherwise names the first refusal and its kind; keeps the positive quantities in order |
| Purchasing.PurchaseService.OutstandingLines | apps/api/src/scm/purchase/purchase.service.ts:262-267 | without requested lines, everything outstanding beyond the slack |
| Purchasing.PurchaseService.AllLinesFullyReceived | apps/api/src/scm/purchase/purchase.service.ts:364-371 | the status test, as it sees the last quantity per line |
| Purchasing.PurchaseService.BookEntries | apps/api/src/scm/purchase/purchase.service.ts:283-362 | receipt rows, running totals and stock tables after all entries, as their columns store them, copies of a line included |
| Purchasing.PurchaseService.ReceiveGoods | apps/api/src/scm/purchase/purchase.service.ts:217-383 | accepted exactly when receivable, the warehouse exists and entries result; the new order and stock as stored, the status as tested on the request, or an error with both unchanged |
| Purchasing.OutstandingEntries | apps/api/src/scm/purchase/purchase.service.ts:262-267 | each line outstanding contributes exactly its remaining quantity, other lines nothing |
| Purchasing.ValidEntriesAreStored | apps/api/src/scm/dto/receive-goods.dto.ts:9 | with the validator's minimum every booked entry leaves a positive quantity in its rows |
| PurchaseRuns.NoOverReceiptIff | apps/api/src/scm/purchase/purchase.service.ts:246-261 | a line ends within ordered plus slack exactly when what the rows get of the request for it fits what was outstanding |
| PurchaseRuns.RepeatedLineOverReceives | apps/api/src/scm/purchase/purchase.service.ts:246-261 | two copies of 8.0000 against an order of 10.0000 are accepted |
| PurchaseRuns.StatusIsSound | apps/api/src/scm/purchase/purchase.service.ts:364-377 | RECEIVED is only written when every line is fully received, for every kind of request; with distinct line ids and at most four decimals, exactly then |
| PurchaseRuns.StatusAgreesIff | apps/api/src/scm/purchase/purchase.service.ts:364-377 | for requested lines: the order is complete exactly when the stored totals per line cover what was outstanding, RECEIVED exactly when the last copies alone do as requested, and the two agree exactly when the one implies the other |
| PurchaseRuns.RepeatedLineLooksPartial | apps/api/src/scm/purchase/purchase.service.ts:367-371 | two copies of 5.0000 against an order of 10.0000 complete it and leave it PARTIALLY_RECEIVED |
| PurchaseRuns.ShortReceiptLooksPartial | apps/api/src/scm/purchase/purchase.service.ts:364-377 | so does 0.99996 against 1.0000, which its row rounds up |
| PurchaseRuns.ReceiptWithoutLinesCompletes | apps/api/src/scm/purchase/purchase.service.ts:262-267 | a receipt without lines always ends RECEIVED with every line fully received |
| PurchaseRuns.CompleteOrderAcceptsNothing | apps/api/src/scm/purchase/purchase.service.ts:254-271 | once all lines are fully received no receipt is accepted, whatever the status, so re-approval does not help |
| PurchaseRuns.RunReconciles | apps/api/src/scm/purchase/purchase.service.ts:285-301 | in every run from a draft or submitted order each line's running total is the sum of its receipt rows and nothing else of a line changes |
| PurchaseRuns.RunStaysWithinOrdered | apps/api/src/scm/purchase/purchase.service.ts:254-259 | with distinct line ids per request no run receives more than was ordered; rounding takes the slack away |
| PurchaseRuns.ReceiptConservesStock | apps/api/src/scm/purchase/purchase.service.ts:303-361 | every receipt keeps the conservation laws of the stock tables, unless it brings half steps to a level below zero |
| PurchaseRuns.StatusShowsGoodsIff | apps/api/src/scm/purchase/purchase.service.ts:132-139 | a step loses the status's record that goods arrived exactly when it approves the order again |
| PurchaseRuns.GoodsNeedApproval | apps/api/src/scm/purchase/purchase.service.ts:225-227 | in every run goods only arrive on an order that has left DRAFT and SUBMITTED |
| PurchaseRuns.CancelAfterGoodsIff | apps/api/src/scm/purchase/purchase.service.ts:178-199 | in every run, a cancellation after goods have arrived goes through exactly when the status is APPROVED |
| PurchaseRuns.CancelledMeansNothingReceived | apps/api/src/scm/purchase/purchase.service.ts:178-192 | without re-approval after goods arrived, a cancelled order never received any |
| PurchaseRuns.ReapprovalAllowsCancellation | apps/api/src/scm/purchase/purchase.service.ts:132-199 | approve, receive, approve, cancel leaves a cancelled order with receipt rows |
| InvoiceMatching.FindByProductIsFirst | apps/api/src/finance/ap/invoice-matching.service.ts:80 | the lookup returns the first order line of the product, and nothing only when there is none |
| InvoiceMatching.ToleranceWithoutDivision | apps/api/src/finance/ap/invoice-matching.service.ts:33 | the 2% test without division, and what it does for negative references |
| InvoiceMatching.LineMatchIff | apps/api/src/finance/ap/invoice-matching.service.ts:74-119 | an invoice whose lines name products matches exactly when the documents belong together and each line is covered in quantity and price by the first order line of its product |
| InvoiceMatching.HeaderMatchIff | apps/api/src/finance/ap/invoice-matching.service.ts:121-137 | otherwise it matches exactly when the documents belong together and the totals are within tolerance |
| InvoiceMatching.NegativePriceAcceptsAnything | apps/api/src/finance/ap/invoice-matching.service.ts:103-108 | an order price of -0.0001 lets an invoice line with any price match |
| InvoiceMatching.MatchedInvoiceIsBounded | apps/api/src/finance/ap/invoice-matching.service.ts:76-119 | a line-level match on distinct products bounds the invoiced value by 1.02 times (received + 1e-6) at order prices |
| Payables.ApService.CreateInvoice | apps/api/src/finance/ap/ap.service.ts:119-251 | the stored invoice, line by line; APPROVED with one more event exactly when its documents justify it, PENDING_MATCH with none otherwise |
| Payables.CreationApprovesIff | apps/api/src/finance/ap/ap.service.ts:183-243 | the new row is APPROVED and announced exactly when order and receipt are named, vendor and receipt belong to the order, and either every line names a product and is covered by its order line, or not all do and the stored total is within 2% of the order total |
| Payables.ApService.CreateInvoiceFromGoodsReceipt | apps/api/src/finance/ap/ap.service.ts:268-322 | nothing happens when some invoice names the order; otherwise one invoice for everything received so far |
| Payables.GeneratedInvoiceMeaning | apps/api/src/finance/ap/ap.service.ts:296-321 | one line for every order line on which something has arrived, in order, with the quantity received and the order price |
| Payables.ApService.ManuallyApproveInvoice | apps/api/src/finance/ap/ap.service.ts:328-364 | any existing invoice becomes APPROVED and an event is emitted |
| Payables.ApService.CancelInvoice | apps/api/src/finance/ap/ap.service.ts:384-404 | only invoices that have not entered the ledger are cancelled; each refusal has its own outcome |
| Payables.ApService.RecordPayment | apps/api/src/finance/ap/ap.service.ts:424-504 | one payment row, stored with four decimals, and the status that the paid total calls for with the payment as given, also when the event queue fails afterwards, or a refusal without change |
| Payables.ApService.RunPaymentBatch | apps/api/src/finance/ap/ap.service.ts:523-582 | from a stale snapshot and with repeated ids, a payment is made at position i exactly when its invoice was payable at the start and does not occur earlier, and reported as paid exactly when its event is also queued; the counts add up to the list length |
| Payables.BatchStep | apps/api/src/finance/ap/ap.service.ts:543-572 | the snapshot's balance is the current balance at an invoice's first occurrence, and a later occurrence is refused by its status |
| Payables.CountsAddUp | apps/api/src/finance/ap/ap.service.ts:574-581 | every result is counted once, as paid or as failed |
| PayableRuns.EachIdPaidAtMostOnce | apps/api/src/finance/ap/ap.service.ts:543-572 | no invoice has two paid results in one batch, whatever the queue does |
| PayableRuns.BatchSettlesExactly | apps/api/src/finance/ap/ap.service.ts:523-582 | an invoice that the batch pays ends PAID with payments equal to its total; every other invoice keeps its payments and status |
| PayableRuns.ReportedTotalMatchesRowsIff | apps/api/src/finance/ap/ap.service.ts:542-582 | the reported total is the sum of the payment rows tagged with the run exactly when every payment's event was queued |
| PayableRuns.PaidYetReportedFailed | apps/api/src/finance/ap/ap.service.ts:505-516 | with the queue down an approved invoice ends PAID and is reported as failed |
| PayableRuns.StatusMatchesRowsIff | apps/api/src/finance/ap/ap.service.ts:455-469 | the status after a payment is the one its rows call for exactly when the payment does not fall short of the total by less than half of 0.0001 and is not a first one that its row stores as zero |
| PayableRuns.RoundedPaymentsMislead | apps/api/src/finance/ap/ap.service.ts:455-469 | 99.99996 on 100.0000 leaves PARTIALLY_PAID with a row of 100.0000, and 0.00004 leaves it with a row of zero |
| PayableRuns.RunKeepsConsistent | apps/api/src/finance/ap/ap.service.ts:375-404 | over every run an approval event exists exactly for statuses past approval, payments only behind those, PAID only on covered invoices, and PARTIALLY_PAID never beyond the total |
| PayableRuns.BatchesNeverOverpay | apps/api/src/finance/ap/ap.service.ts:523-582 | when money leaves only through batches, every invoice is always unpaid or paid exactly |
| ProcureToPay.GeneratedInvoiceMatches | apps/api/src/finance/ap/ap.service.ts:295-322 | with distinct products and positive prices the generated invoice passes the line-level match |
| ProcureToPay.AfterFirstReceipt | apps/api/src/scm/purchase/purchase.service.ts:284-301 | after a first receipt the received worth is the positive worth of its entries |
| ProcureToPay.FirstReceiptIsInvoicedInFull | apps/api/src/finance/ap/ap.service.ts:268-322 | it yields one invoice, approved in line mode, for the value of the cost layers created; the stored total is that value rounded to four decimals, within half of 0.0001 |
| ProcureToPay.ApprovalPostsInvoiceTotal | apps/api/src/finance/gl/journal-entry.service.ts:315-383 | the approval event appends one entry, debit 1300 and credit 2000 by the invoice total, when the total is positive and nothing otherwise |
| ProcureToPay.FirstReceiptReachesLedger | apps/api/src/finance/gl/journal-entry.service.ts:315-383 | the inventory debit is the stored invoice total, so within half of 0.0001 of the layer value; it is missing exactly when the layers are worth less than that half |
| ProcureToPay.LaterReceiptIsNotInvoiced | apps/api/src/finance/ap/ap.service.ts:273-281 | a later receipt adds worth but no invoice |
| ProcureToPay.WorthGrowsWithReceipts | apps/api/src/scm/purchase/purchase.service.ts:284-301 | along every run the received worth grows exactly with the receipt rows |
| Prelude.StoredIsNear | packages/db/prisma/schema.prisma:585 | a four-decimal column moves an amount by at most half of 0.0001, is zero or less exactly below that half, and storing again changes nothing |
| Prelude.StoredQuantityIsNear | packages/db/prisma/schema.prisma:1069 | the same for quantity columns |
| Prelude.SettlementTestsAgreeIff | packages/db/prisma/schema.prisma:630 | the settlement test on the payment as given and on its row agree exactly when it does not fall short of the total by less than half of 0.0001 |
| ProcureToPay.StepAddsWorth | apps/api/src/scm/purchase/purchase.service.ts:284-301 | a step adds worth exactly when it adds receipt rows |
| ProcureToPay.InvoiceCoversOrderIff | apps/api/src/finance/ap/ap.service.ts:273-281 | the invoice generated at one point of an order's life is for everything received by a later point exactly when no receipt came in between, and short of it otherwise |
| ProcureToPay.SecondHalfIsNeverInvoiced | apps/api/src/finance/ap/ap.service.ts:273-281 | ten units received five and five: one invoice, for half of what arrived |
| GeneralLedger.JournalEntryService.CloseFiscalPeriod | apps/api/src/finance/gl/journal-entry.service.ts:180-192 | locks an existing period and nothing else |
| GeneralLedger.JournalEntryService.CreateJournalEntry | apps/api/src/finance/gl/journal-entry.service.ts:223-285 | appends the entry, its lines stored with four decimals, exactly when the period is open, debits and credits agree within 0.0001 as given and the accounts exist; the first failing check names the error |
| GeneralLedger.JournalEntryService.EnsureStandardAccount | apps/api/src/finance/gl/journal-entry.service.ts:94-112 | the account exists afterwards, and an existing one is kept as it is |
| GeneralLedger.JournalEntryService.PostGlEntry | apps/api/src/finance/gl/journal-entry.service.ts:447-474 | period and both accounts are made ready, then the two-line entry is attempted |
| GeneralLedger.JournalEntryService.HandleInvoiceApproved | apps/api/src/finance/gl/journal-entry.service.ts:315-383 | one delivery: debit 1300, credit 2000 once per invoice with a positive total |
| GeneralLedger.JournalEntryService.HandleInvoiceIssued | apps/api/src/finance/gl/journal-entry.service.ts:480-522 | one delivery: debit 1200, credit 4000 once per AR invoice with a positive total |
| GeneralLedger.JournalEntryService.HandlePayrollCompleted | apps/api/src/finance/gl/journal-entry.service.ts:530-592 | one delivery: debit 6000, credit 2100 once per run with a positive total |
| GeneralLedger.JournalEntryService.HandlePaymentReceived | apps/api/src/finance/gl/journal-entry.service.ts:598-643 | one delivery: debit 1000, credit 1200 once per payment, by the event's amount if it has one |
| GeneralLedger.JournalEntryService.HandlePaymentMade | apps/api/src/finance/gl/journal-entry.service.ts:650-695 | one delivery: debit 2000, credit 1000 once per payment, by the event's amount if it has one |
| GeneralLedger.DeliveryMeaning | apps/api/src/finance/gl/journal-entry.service.ts:447-474 | a new source posts one two-line entry exactly when the current period is open; period and missing standard accounts are created, existing ones kept, and a known source changes nothing |
| GeneralLedger.GroupsAreFolds | apps/api/src/finance/gl/journal-entry.service.ts:136-150 | a group's debit less credit is the fold over the account's lines, and no group means zero |
| GeneralLedger.BalancesAreFolds | apps/api/src/finance/gl/journal-entry.service.ts:129-157 | the grouped balances are the plain folds, one for every account asked for |
| LedgerRuns.TrialBalance | apps/api/src/finance/gl/journal-entry.service.ts:235-249 | after every run the balances add up to within 0.0001 per entry and, for the rounding of finer manual lines, per line; to within 0.0001 per entry when manual lines have at most four decimals; to zero when every entry was posted by a handler |
| LedgerRuns.FineLinesUnbalanceTheLedger | apps/api/src/finance/gl/journal-entry.service.ts:235-249 | five debits of 0.00005 against a credit of 0.00025 are accepted and stored 0.0002 apart |
| LedgerRuns.AutomaticEntriesBalance | apps/api/src/finance/gl/journal-entry.service.ts:447-474 | without manual entries every entry balances exactly |
| LedgerRuns.ClosedPeriodIsFrozen | apps/api/src/finance/gl/journal-entry.service.ts:225-233 | once locked, a period stays locked and its entries stay as they are |
| LedgerRuns.RunAgrees | apps/api/src/finance/gl/journal-entry.service.ts:315-695 | at every point of every run each document is posted at most once and every account equals the effect of the documents posted so far and of the manual entries |
| LedgerRuns.DeliveredIsPosted | apps/api/src/finance/gl/journal-entry.service.ts:315-695 | a document delivered once into an open period is posted for good |
| LedgerRuns.PostedIffDelivered | apps/api/src/finance/gl/journal-entry.service.ts:315-695 | a document is posted exactly when an event that asks for a positive amount was ever delivered for it into an open period |
| LedgerRuns.EntriesForEach | apps/api/src/finance/gl/journal-entry.service.ts:328-335 | in any order and with any duplication a document has exactly one entry in that case and none otherwise |
| LedgerRuns.ControlAccountsMatchDeliveries | apps/api/src/finance/gl/journal-entry.service.ts:315-695 | at every point of every run accounts 1000, 1200, 1300 and 2000 are, apart from manual entries on them, the sums of the amounts delivered so far |
| LedgerRuns.RedeliveryChangesNothing | apps/api/src/finance/gl/journal-entry.service.ts:328-335 | a further delivery leaves the books as they are |
| SubLedgers.ControlAccountsMatchSubLedgers | apps/api/src/finance/gl/journal-entry.service.ts:315-695 | once the emitted events have reached the ledger, with pending and cancelled invoices in the tables and any manual entries besides: 1300 is the invoices approved, partly paid or paid; 2000 the payments less those; 1200 the customer invoices less their payments; 1000 the payments in less those out |
| SubLedgers.PendingInvoiceIsCovered | apps/api/src/finance/ap/ap.service.ts:121-145 | a pending invoice alone satisfies the premises of that law and contributes nothing |
| SubLedgers.PayablesAreOpenBalances | apps/api/src/finance/ap/ap.service.ts:375-383 | then account 2000 is, invoice by invoice, the open balance of what entered the ledger |
| SubLedgers.ReceivablesAreOpenBalances | apps/api/src/finance/ar/ar.service.ts:95-185 | and account 1200 the open balance of every customer invoice |
| Receivables.ReceivablesService.CreateSalesOrder | apps/api/src/finance/sales/sales-order.service.ts:18-60 | an active customer gets a CONFIRMED order with the stored sum of quantity times price over any lines as total |
| Receivables.LineTotalsAddUp | apps/api/src/finance/sales/sales-order.service.ts:25-31 | the accumulated line totals are the sum of quantity times unit price, for all lines |
| Receivables.ReceivablesService.CreateInvoiceFromOrder | apps/api/src/finance/sales/sales-order.service.ts:79-146 | only a CONFIRMED order is invoiced, by its own total; each refusal has its own outcome |
| Receivables.ReceivablesService.CreateInvoice | apps/api/src/finance/ar/ar.service.ts:32-88 | an approved invoice that belongs to no order |
| Receivables.ReceivablesService.RecordPayment | apps/api/src/finance/ar/ar.service.ts:95-185 | one payment row, stored with four decimals, the invoice status called for with the payment as given, and FULFILLED for the order of a PAID invoice |
| Receivables.ReceivablesService.GetReconciliation | apps/api/src/finance/sales/sales-order.service.ts:155-183 | total paid over the order's invoices, the balance that completes it to the order total, and the reconciled flag |
| Receivables.RunKeepsInv | apps/api/src/finance/ar/ar.service.ts:95-185 | in every run an order past CONFIRMED has one invoice with its total, a PAID invoice is covered by its payment rows, and order and invoice status go together |
| Receivables.LagsIffLastPaymentFellShort | apps/api/src/finance/ar/ar.service.ts:117-135 | in every run the payment rows cover a positive total without PAID exactly when the last payment fell short of it by less than half of 0.0001 |
| Receivables.OrderReconciliation | apps/api/src/finance/sales/sales-order.service.ts:155-183 | FULFILLED exactly when the order's only invoice is PAID; FULFILLED agrees with fullyReconciled exactly when nothing was paid, or the total is positive and the last payment did not fall short of it in that way |
| Receivables.FreeOrderIsNeverReconciled | apps/api/src/finance/sales/sales-order.service.ts:155-183 | a run: an order worth zero is invoiced and paid 0.0001, so FULFILLED, and is not fully reconciled |
| Receivables.ShortPaymentLeavesOrderOpen | apps/api/src/finance/ar/ar.service.ts:117-145 | a run: 99.99996 on an order of 100.0000 is stored as 100.0000 and fully reconciled, but leaves PARTIALLY_PAID and INVOICED |
| AuditChain.VerifyChain | apps/api/src/audit/hash-chain.service.ts:25-36 | the verdict is valid when every row links back, and otherwise names the first that does not |
| AuditChain.AuditService.LastOfTenant | apps/api/src/audit/audit.service.ts:25-29 | the hash of the newest row whose tenant is this one, none exactly when there is no such row |
| AuditChain.AuditService.Record | apps/api/src/audit/audit.service.ts:24-57 | appends one row, linked to the newest row of the same tenant or to nothing, and nothing else |
| AuditChain.AuditService.VerifyIntegrity | apps/api/src/audit/audit.service.ts:80-87 | the verdict on the rows of this tenant, all of them and in table order |
| AuditChain.OfTenantIsFiltered | apps/api/src/audit/audit.service.ts:81-85 | the rows verified are exactly those whose tenant is this one, as often and in the order in which the table has them |
| AuditChain.RecordedRowLinks | apps/api/src/audit/audit.service.ts:25-57 | in every recorded log each row points to the newest earlier row of its own tenant, and to nothing when it is the first of its tenant |
| AuditChain.OtherTenantsDoNotMatter | apps/api/src/audit/audit.service.ts:80-87 | recording or deleting rows of other tenants never changes the verdict on a tenant |
| AuditChain.RecordedIsChain | apps/api/src/audit/audit.service.ts:24-57 | with tenants interleaved anyhow, each tenant's rows (`OfTenantIsFiltered`) form a chain of their own |
| AuditChain.HashesAreDistinct | apps/api/src/audit/hash-chain.service.ts:17-23 | in a chain no two rows share a hash, by unwinding equal hashes to GENESIS |
| AuditChain.KeptRowLinksIff | apps/api/src/audit/hash-chain.service.ts:28-34 | after deletions a row links to its kept predecessor exactly when nothing between them was deleted |
| AuditChain.SubHistoryVerifiesIffPrefix | apps/api/src/audit/hash-chain.service.ts:25-36 | a sub-history verifies exactly when it is a prefix; brokenAt is the length of the longest common prefix |
| AuditChain.RecordedLogVerifies | apps/api/src/audit/audit.service.ts:80-87 | an undisturbed log verifies for every tenant |
| AuditChain.EditVerdict | apps/api/src/audit/hash-chain.service.ts:25-36 | the verdict on a chain with one row replaced: broken at that row when it points elsewhere, at the next when its hash differs, valid otherwise |
| AuditChain.EditPassesIff | apps/api/src/audit/hash-chain.service.ts:25-36 | a replaced row of a recorded log passes exactly when it keeps its link and, unless it is the last, its hash |
| AuditChain.RewriteNoticedIff | apps/api/src/audit/hash-chain.service.ts:17-36 | a rewritten payload is noticed exactly when the hash is recomputed, the payload differs and another row follows |
| AuditChain.PayloadRewritesGoUnnoticed | apps/api/src/audit/hash-chain.service.ts:25-36 | a recorded log with any or all payloads rewritten and the stored links kept verifies |
| PayrollMath.RoundIsNear | apps/api/src/hr/payroll/payroll-deductions.ts:48-50 | rounding moves a value by at most half a unit |
| PayrollMath.RoundIsMonotone | apps/api/src/hr/payroll/payroll-deductions.ts:48-50 | rounding keeps order |
| PayrollMath.ResolveTaxSlabRate | apps/api/src/hr/payroll/payroll-deductions.ts:105-115 | the rate of the first slab that holds the salary, 0.12 when none does |
| PayrollMath.AdjoiningSlabs | apps/api/src/hr/payroll/payroll-deductions.ts:105-115 | both bounds of a slab belong to it, of two adjoining slabs the earlier holds the common one, and 0.12 applies below them |
| PayrollMath.GrossIsNetPlusDeductions | apps/api/src/hr/payroll/payroll-deductions.ts:82-85 | gross equals net plus the five deductions to the unit |
| PayrollMath.NetIsCloseToFormula | apps/api/src/hr/payroll/payroll-deductions.ts:62-85 | whatever the salary, net lies within 4.5 units of the unrounded formula less the ESI charged in the window of half a unit above the ceiling |
| PayrollMath.NetIsCloseIff | apps/api/src/hr/payroll/payroll-deductions.ts:62-85 | net lies within 4.5 units of the unrounded formula exactly when gross is not in that window, for rates at which ESI on the ceiling exceeds nine units |
| PayrollMath.EmployeeSideIsClose | apps/api/src/hr/payroll/payroll-deductions.ts:55-85 | the same for a payslip, in terms of base salary and overtime |
| PayrollMath.InformationalAmountsAreClose | apps/api/src/hr/payroll/payroll-deductions.ts:63-80 | base, overtime, employer PF and gratuity lie within their rounding units of their formulas; the employer's ESI exactly outside the window |
| PayrollMath.WindowIsCostly | apps/api/src/hr/payroll/payroll-deductions.ts:69-70 | with the default settings every gross in the window loses more than 100 against the formula |
| PayrollRuns.OneMinuteCostsAHundred | apps/api/src/hr/payroll/payroll.processor.ts:114-128 | a salary of 20996.7193 and one minute of overtime are such a case |
| PayrollMath.OvertimeNeverCostsMuch | apps/api/src/hr/payroll/payroll-deductions.ts:68-85 | with ESI and tax rates of at most 1 together, more overtime never lowers net pay by more than 0.0002, even across the ESI ceiling |
| PayrollRuns.PayrollProcessor.ProcessChunk | apps/api/src/hr/payroll/payroll.processor.ts:102-157 | the payslips of a chunk in listing order and the sum of their net pay |
| PayrollRuns.PayrollProcessor.ProcessChunks | apps/api/src/hr/payroll/payroll.processor.ts:73-164 | after any number of chunks exactly a prefix of the listing is paid and summed |
| PayrollRuns.PayrollProcessor.Process | apps/api/src/hr/payroll/payroll.processor.ts:43-203 | what an attempt leaves behind, for every point at which it may stop; payslips of other runs stay, as often and in the same order |
| PayrollRuns.AttemptsKeepOthers | apps/api/src/hr/payroll/payroll.processor.ts:48-58 | no attempt touches the payslips (`OthersIsFiltered`) or rows of other runs |
| PayrollRuns.OthersIsFiltered | apps/api/src/hr/payroll/payroll.processor.ts:52-52 | the cleanup keeps exactly the payslips of other runs, as often and in the order in which they were |
| PayrollRuns.AttemptsKeepOtherRows | apps/api/src/hr/payroll/payroll.processor.ts:48-58 | after any attempts, stopped anywhere, the store holds every payslip of another run as often as before and in the same order |
| PayrollRuns.CompletedRunReplacesItsRows | apps/api/src/hr/payroll/payroll.processor.ts:52-164 | after a completing attempt the rows of the run are exactly the new payslips, and those of other runs the old ones |
| PayrollRuns.SlipsFollowTheListing | apps/api/src/hr/payroll/payroll.processor.ts:104-157 | the payslips are those of the employees that get one, one each, in listing order |
| PayrollRuns.OvertimeRate | apps/api/src/hr/payroll/payroll.processor.ts:109-121 | overtime pay is the employee's own minutes times a 6400th of the salary |
| PayrollRuns.PayslipMeaning | apps/api/src/hr/payroll/payroll.processor.ts:105-131 | a payslip uses the newest salary, its slab and the employee's own minutes: gross within half a unit and net within 4.5 units of the formula less undue ESI |
| PayrollRuns.RetriesEqualOneCleanPass | apps/api/src/hr/payroll/payroll.processor.ts:43-203 | any attempts that stopped anywhere, then one that completes: exactly the payslips and total of one unchunked pass |
| PayrollRuns.OnePayslipPerEligibleEmployee | apps/api/src/hr/payroll/payroll.processor.ts:104-106 | one pass lists exactly one payslip for every employee with a contract in force, none for anybody else |
| PayrollRuns.CompletedRunPaysEachOnce | apps/api/src/hr/payroll/payroll.processor.ts:43-174 | after any attempts and one that completes, the store holds exactly one payslip of the run per eligible employee, and the run's total is their sum |
| ProjectCosts.LaborCostBridge.OnPayrollCompleted | apps/api/src/pm/budget/labor-cost-bridge.listener.ts:24-81 | emits exactly the specified reports, payslip by payslip, and counts them |
| ProjectCosts.ReportsOfPayslipAre | apps/api/src/pm/budget/labor-cost-bridge.listener.ts:43-74 | reported are exactly the positive rounded shares of the employee's own allocations by their hours, keyed by payslip and project |
| ProjectCosts.SplitIsClose | apps/api/src/pm/budget/labor-cost-bridge.listener.ts:43-75 | the shares of a payslip differ from its net pay in total by at most half a unit per allocation |
| ProjectCosts.BudgetService.SetBudget | apps/api/src/pm/budget/budget.service.ts:21-38 | appends an unspent budget, with a tolerance of 10 when none is given |
| ProjectCosts.BudgetService.HandleCostReported | apps/api/src/pm/budget/budget.service.ts:78-141 | a known source or a missing budget changes nothing; otherwise one line and the newest budget's actual amount; the overrun is reported exactly when actual times 100 exceeds planned times 100 plus the tolerated percentage |
| ProjectCosts.RunKeepsInv | apps/api/src/pm/budget/budget.service.ts:112-134 | in every run each budget's actual amount is the sum of its lines and no source has two lines |
| ProjectCosts.DeliveriesRecord | apps/api/src/pm/budget/budget.service.ts:78-134 | delivered reports are recorded for no more than their amounts, and for all of them exactly when every source is new |
| ProjectCosts.DeliveriesRecordSources | apps/api/src/pm/budget/budget.service.ts:81-89 | the sources recorded afterwards are those recorded before and those delivered |
| ProjectCosts.AllCostsRecordedIff | apps/api/src/pm/budget/labor-cost-bridge.listener.ts:65-74 | all reported amounts are recorded exactly when every source key is new |
| ProjectCosts.TwoAllocationsLoseAShare | apps/api/src/pm/budget/labor-cost-bridge.listener.ts:60-74 | two equal allocations to one project: half of the net pay is never recorded |
| ProjectCosts.RunSourcesAreDistinct | apps/api/src/pm/budget/labor-cost-bridge.listener.ts:60-74 | with one allocation per employee and project a payroll run never repeats a key |
| ProjectCosts.RedeliveryChangesNothing | apps/api/src/pm/budget/budget.service.ts:81-89 | a redelivered source-keyed cost changes nothing once its line is recorded |
| ProjectCosts.AnnouncementsAreAllRecorded | apps/api/src/pm/budget/labor-cost-bridge.listener.ts:43-75 | announcements of attempts with new payslip ids are all recorded |
| ProjectCosts.RunIsRecordedOnceIff | apps/api/src/pm/budget/labor-cost-bridge.listener.ts:65-74 | so the labour cost of a retried run is recorded once exactly when no earlier attempt had announced any |
| ProjectCosts.RetryRecordsCostTwice | apps/api/src/pm/budget/labor-cost-bridge.listener.ts:65-74 | two announcements with payslips of different ids: net pay is 100 units, 200 are recorded |

## Left out

- Floating-point error, and quantities and amounts finer than the units above.
- A failing event queue anywhere but in a payment: the rows are committed all the same, and only the caller sees the error.
- Concurrency: races between a check and the write behind it, and the delivery guarantee of the outbox.
- `updateWorkflow` after instances exist: a definition is frozen once it is in use.
- The `expression` condition, webhook and notification actions; that actions already performed stay performed when a later one blocks.
- The labels, comments and snapshots kept in workflow history rows, and the events a transition emits.
- Milestones, resource allocations, budgets and back-references that `deleteProject` and `deleteTask` also clean up.
- The product's latest unit cost, which a goods receipt overwrites, and purchase-order creation and closing.
- Employer-side and yearly payroll reports, PDF generation and storage, and attendance capture.
- `inferAccountType`: the handlers only name standard accounts, so its fallback is never reached.
- Intercompany transfers, soft-deleted or unposted journal entries and deactivated accounts.
- Uniqueness of invoice numbers, OCR extraction, currencies, due dates and the AR aging report.
- Tenant scoping except in the audit log: every other module models the tables of one tenant.
- Notifications, search indexing, webhooks and log output of all services.
- A text collision between a labour source key and the key of another module; the two are different constructors here.
