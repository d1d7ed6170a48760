# Aurum POS, verified model

Aurum POS is a point-of-sale service for jewellery shops. This project models the parts of it in which
many callers, workers or roundings meet, and proves what they keep over every input, interleaving and run:

- the leased job queues (emails, invoice PDFs, WhatsApp messages) and the publication of an invoice PDF
  through a read transaction, a create-if-absent upload, a checksum read, a write transaction and a deletion;
- the merge of delivery reports that arrive duplicated and out of order;
- the inventory: what a payload is normalised to, what the table constraints promise, how an edit, an import,
  a sale or an archive changes a row and its history, and how past inventory is read back;
- the checkout: stock, prices, invoice numbers, idempotency keys and the running total;
- the money: half-up rounding, tax, the figures on the printed invoice, the layout of its pages and the amount in words;
- the files inventory is exported to and imported from;
- the staff of an organization: a single owner, ownership transfers, seats;
- the paged list of invoices.

Each database transaction, object-store call and webhook delivery is one atomic step. Code that updates rows in
place is a class whose methods are proved equal to functions on the state (`Delivery`, `JobTable`,
the two classes named `Store`, `Shop`); loops over lists are methods with loops. The lemmas are about those functions.
Money is in whole paise, weights and Ratti in thousandths, purity in hundredths of a percent, time in seconds.

`ItemContracts`, `Inventory` and `Checkout` hold the operations on the inventory and the cart, `Ledger` joins them into one
machine with its invariant, `Runs`, `Purchases`, `Dashboard` and `InvoiceMath` state what follows over its runs, and `ShopStore` is the
imperative form, as `TeamStore` is of `Team`. The other modules each stand for one component.

Verify everything with `dafny verify dfyconfig.toml`.

## What was found

- A delivery report "pending" for a WhatsApp job that a worker holds makes the job claimable again, so two
  workers hold unexpired leases of it (`LeaseQueue.PendingReportOverlapsLeases`). In a run of any queue the leases of each
  job stay apart if and only if no claim in the run hits a pending row that still carries an unexpired lease
  (`LeaseQueue.OverlapExactly`); no claim of an email or an invoice does.
- A worker that was overtaken can publish an invoice and the worker that overtook it then fail on the file it finds: the
  sale has its key and its PDF but is marked pending or failed (`Publication.LateFailureHidesInvoice`). A published sale
  stays ready exactly when no such failure is reported under the job's token, and never becomes ready again after one
  (`Publication.ReadyExactly`), so the delivery that waits for it is put off each time.
- The merge of delivery reports is independent of their order exactly when `Webhooks.OrderFree` holds: a report of sent
  or above is present, or no failure is, or no report below sent is (`Webhooks.ConfluentExactly`).
- Stock value and sale value read from the history count archived weighed items, which keep their weight; they equal the
  live values exactly when none of those has worth left (`Dashboard.PastValueIsLiveValueExactly`,
  `Dashboard.DeletedWeightIsStillCounted`). The item count does agree.
- An item for sale comes back from a file, with its metal in lower case, exactly when `Csv.Survives` holds of its texts
  (`Csv.RoundTripExactly`). A whole export is read without an issue and gives back the items in stock if and only if that
  holds of each of them and none is used up (`Csv.ExportReturnsExactly`): a single emptied item in stock makes the
  import refuse the file.
- Of an item created in the shop, what is gone is exactly what was sold; of an imported one only what went after the
  import is accounted for (`Runs.CreatedItemsBalance`, `Runs.WeightIsConserved`).
- Selling a weight in two parts changes the price by at most two paise, and two is reached in both directions.

## Model

| member | source | states |
|---|---|---|
| Text.StripIsTrimmed | app/modules/items/importer.py:86-90 | str.strip leaves a string without outer white space, and is the identity exactly on such strings |
| Text.StripDropsSpace | app/modules/items/importer.py:86-90 | str.strip removes white space at the two ends and nothing else |
| Text.ZeroPadInjective | app/modules/sales/service.py:231 | zero-padded decimal numerals name different numbers differently |
| Pricing.HalfUpIsNearest | app/modules/items/pricing.py:21-22 | rounding half up lies within half a unit of the exact value, the upper end included |
| Pricing.HalfUpSplits | app/modules/items/pricing.py:21-22 | rounding two parts or their sum differs by at most one unit |
| Pricing.FinalPriceIsClose | app/modules/items/pricing.py:111-132 | the locked price is within 1.015 paise of the unrounded price with 3% tax |
| Pricing.PriceMonotoneInWeight | app/modules/items/pricing.py:59-79 | a heavier piece never costs less |
| Pricing.SplitSaleWithinTwoPaise | app/modules/items/pricing.py:66-79 | per-gram pricing of two weights sold apart is within two paise of the weights sold at once |
| Pricing.SplitBoundIsTight | app/modules/items/pricing.py:66-79 | two paise are really reached, dearer and cheaper |
| Pricing.ComponentsWithinOnePaisa | app/modules/items/pricing.py:70-79 | the printed metal value, fixed rate and making charge add up to the subtotal within one paisa |
| Pagination.PaginateLines | app/modules/sales/invoice.py:305-321 | the loop returns a contiguous split within the page limits that no other split beats in pages; no lines give one empty page |
| Pagination.FirstPageMaximal | app/modules/sales/invoice.py:312-319 | the first page holds a prefix of the lines exactly when that prefix fits a page |
| Pagination.PageLimits | app/modules/sales/invoice.py:18-28 | the limits in figures: sixteen lines, within an A4 page less its margins, header and footer |
| Pagination.GreedySplits | app/modules/sales/invoice.py:305-321 | the pages concatenate to the lines, each with at most sixteen lines and within the area unless it is one line |
| Pagination.GreedyOfSuffix | app/modules/sales/invoice.py:305-321 | dropping lines from the front never costs a page |
| Pagination.GreedyIsOptimal | app/modules/sales/invoice.py:305-321 | no contiguous split within the limits has fewer pages |
| Pagination.BlanksFillTheArea | app/modules/sales/invoice.py:430-442 | blank rows are at least a standard row high, at most sixteen rows are reached, and any blanks use up the page exactly |
| Pagination.NoMoreBlanks | app/modules/sales/invoice.py:430-442 | while there is a free slot, no further standard row would fit |
| Pagination.TableIsFilled | app/modules/sales/invoice.py:445-485 | the drawn table fills its height within the tolerance and every row keeps a positive height |
| Pagination.RowsInOrder | app/modules/sales/invoice.py:475-485 | the rows are the header, the lines at their own heights, the blanks and the footer, and only the row above the footer may stretch |
| AmountWords.UnderThousandToWords | app/modules/sales/invoice.py:83-133 | succeeds exactly below a thousand and prints that number's words |
| AmountWords.RupeesToWords | app/modules/sales/invoice.py:142-155 | the loop over crore, lakh and thousand succeeds exactly below 1000 crore and gathers the words of the rupees |
| AmountWords.NumberToWordsIndian | app/modules/sales/invoice.py:136-162 | the printer stays within its word tables exactly for amounts below 1000 crore rupees, either sign, and prints the amount's words |
| AmountWords.SplitJoin | app/modules/sales/invoice.py:136-162 | splitting the printed sentence at spaces gives back its words |
| AmountWords.EvaluateRupees | app/modules/sales/invoice.py:136-162 | reading the printed rupees back gives their number |
| AmountWords.DecodeSpelt | app/modules/sales/invoice.py:136-162 | the decoder recovers exactly the rupees and paise from the printed words, negative amounts included |
| AmountWords.WordsAreInjective | app/modules/sales/invoice.py:136-162 | different amounts never print the same words |
| AmountWords.SentenceReads | app/modules/sales/invoice.py:136-162 | one rupee and twenty three paise, printed word for word |
| Webhooks.FoldOutcome | app/modules/whatsapp/routes.py:153-167 | replaying any reports one by one gives the outcome computed from the highest rank, whether a failure was seen, and what came after the last failure |
| Webhooks.RankNeverDrops | app/modules/whatsapp/routes.py:153-158 | once sent or above, no reports bring a delivery back down |
| Webhooks.Confluent | app/modules/whatsapp/routes.py:153-167 | order-free reports end in the same status in every arrival order, duplicates included |
| Webhooks.OrderMatters | app/modules/whatsapp/routes.py:153-167 | any reports that are not order free have two arrival orders that end differently |
| Webhooks.ConfluentExactly | app/modules/whatsapp/routes.py:153-167 | the final status is the same in every order if and only if the reports are order free |
| Webhooks.FinalStatus | app/modules/whatsapp/routes.py:33-40 | sent, delivered, read and failed reports end in read if it was ever seen, else delivered, else sent, else failed, else the start |
| Webhooks.RanksInOrder | app/modules/whatsapp/routes.py:33-40 | pending, processing, accepted, sent, delivered, read rank in this order, and the others below |
| Webhooks.ParseStatusReads | app/modules/whatsapp/routes.py:116-119 | exactly the seven reported names are read, each as its own status, in either case |
| Webhooks.Delivery.RecordStatus | app/modules/whatsapp/routes.py:112-178 | a report changes both rows, ids, times and error exactly when it is applied, and nothing otherwise |
| Webhooks.Delivery.ReceiveAll | app/modules/whatsapp/routes.py:112-178 | a batch of reports ends in the fold of its accepted statuses |
| LeaseQueue.JobTable.Claim | app/jobs/invoices.py:28-65 | each selected row becomes processing under its own token and a lease of ten minutes, keeping its attempts, and every other row is untouched |
| LeaseQueue.JobTable.Finish | app/jobs/emails.py:66-98 | only the holder of the token (for emails, of a row being processed) settles the row: a success is final, anything else costs an attempt and is tried again after its delay while it may, and otherwise ends in failure or the status sent back |
| LeaseQueue.JobTable.Defer | app/jobs/whatsapp.py:99-114 | a deferred job is pending again in five seconds if the token is still its own |
| LeaseQueue.StepKeepsInv | app/jobs/whatsapp.py:31-69 | every step of every worker keeps tokens traced to claims, workers distinct, and the retry budget |
| LeaseQueue.FencingHolds | app/jobs/invoices.py:28-113 | in every run tokens are used once, a claim is settled at most once and only while it is the job's latest, and status, token and attempts agree |
| LeaseQueue.LeasesAreExclusive | app/jobs/invoices.py:35-55 | unexpired leases of one email or invoice job never overlap in any run |
| LeaseQueue.WhatsAppLeasesAreExclusive | app/jobs/whatsapp.py:39-60 | WhatsApp leases never overlap in a run in which no report puts a held row back to pending |
| LeaseQueue.PendingReportOverlapsLeases | app/modules/whatsapp/routes.py:157-167 | after a claim, a report "pending" and another claim, two workers hold the same job under leases that have not run out |
| LeaseQueue.OverlapExactly | app/jobs/whatsapp.py:39-50 | in every run of every queue the leases of each job stay apart if and only if no claim of the run hits a pending row that still carries an unexpired lease |
| LeaseQueue.StaleFinishIsInert | app/jobs/invoices.py:79-88 | a finish without the current token changes no job, no delivery and settles nothing |
| LeaseQueue.OneCurrentWorker | app/jobs/invoices.py:52-56 | of two workers on one job at most one holds its current token |
| LeaseQueue.FinishDecides | app/jobs/whatsapp.py:116-176 | the finish of a current worker has that outcome, the delivery ends in the job's status, and no other job changes |
| LeaseQueue.BackoffIs | app/jobs/whatsapp.py:142-144 | the delays are two, four, eight, sixteen and thirty two minutes and then an hour |
| LeaseQueue.ReclaimedExactly | app/jobs/invoices.py:35-56 | a claimed row becomes claimable again exactly when more than ten minutes have gone by without an answer |
| LeaseQueue.SettledForGood | app/jobs/whatsapp.py:142-149 | in every run a job settled for good is never claimed again unless a report pending is applied to it or a failed invoice is asked for again; an email, and an invoice that succeeded, never |
| LeaseQueue.RetryWaits | app/jobs/emails.py:92-98 | in every run a job that is to be tried again is not claimed before its delay is over, whatever is reported |
| Publication.ObjectKeysDiffer | app/modules/sales/storage.py:47-58 | the object keys built for different sales differ, whatever prefix, shop and year |
| Publication.ObjectKeyReads | app/modules/sales/storage.py:47-58 | a key in full: prefix without outer blanks and slashes, shop, year and sale; a prefix of nothing else gives none |
| Publication.Store.Read | app/modules/sales/service.py:109-129 | the first transaction returns at once for a missing or published sale and otherwise renders under the sale's key |
| Publication.Store.Upload | app/modules/sales/storage.py:80-98 | the put never replaces an object, and a refused put leaves the object to be compared |
| Publication.Store.Compare | app/modules/sales/storage.py:99-105 | a refused put counts as an upload only if the object there has the checksum of the file |
| Publication.Store.Write | app/modules/sales/service.py:133-152 | a sale without a key gets key and checksum and becomes ready; one that has its key and every other sale stay as they are; a sale that is gone leads on to the deletion |
| Publication.Store.Delete | app/modules/sales/service.py:154-155 | the upload of a vanished sale is removed, and no other object |
| Publication.Store.Finish | app/jobs/invoices.py:68-113 | settling a publication changes job and sale only under the job's token; a failure costs an attempt and marks the sale pending or, at the last attempt, failed |
| Publication.Store.RequestInvoice | app/modules/sales/routes.py:223-240 | asking for an unpublished invoice creates its job, or restarts a failed one and its sale, and changes nothing else |
| Publication.DeleteExtends | app/modules/sales/service.py:154-155 | a deletion touches no key, checksum or object of a sale that is there, whatever happened since its own was seen gone |
| Publication.StepKeepsInv | app/modules/sales/service.py:103-155 | every transaction and every object-store call of any number of workers keeps the publication invariant |
| Publication.PublicationIsSafe | app/modules/sales/service.py:103-155 | in every reachable state a set key names an object whose hash is the recorded checksum, no two sales share a key, and ready implies a key |
| Publication.KeyNeverChanges | app/modules/sales/service.py:144-152 | once set, key, checksum and object never change while the sale exists |
| Publication.StaysGone | app/modules/sales/service.py:154-155 | a removed sale never comes back, so no later write publishes it |
| Publication.WritePublishes | app/modules/sales/service.py:133-152 | the second transaction makes a sale without a key ready under the uploaded key and checksum, and touches no other sale, job or object |
| Publication.KeyMakesReady | app/modules/sales/service.py:144-152 | whatever the step, a sale that gains a key is ready with the checksum of the object under it |
| Publication.ReadyExactly | app/jobs/invoices.py:101-113 | in every run a published sale stays ready if and only if no worker that failed on it finishes while holding the job's token; once lost, the readiness never comes back |
| Publication.LateFailureHidesInvoice | app/jobs/invoices.py:101-113 | eleven steps of two workers after which a sale has its key and its object and is not ready |
| Paging.ListingIsSorted | app/modules/sales/service.py:92-99 | a table has exactly one strictly descending listing |
| Paging.PageContents | app/modules/sales/service.py:84-100 | a page holds rows below its cursor in order, a full page exactly when more follow, and what it leaves out lies below its next cursor |
| Paging.WalkIsComplete | app/modules/sales/routes.py:174-200 | whatever is inserted or removed between pages, following the cursor lists strictly downwards, nothing twice, and every row present throughout |
| Paging.StableWalkIsSorted | app/modules/sales/service.py:83-100 | on an unchanged table the walk equals the one-shot sorted list |
| Paging.StableWalkEnds | app/modules/sales/routes.py:174 | on an unchanged table the walk does reach a page without a cursor |
| Team.SingleOwnerAlways | app/modules/shops/routes.py:120-150 | every run of shop creation, staff changes and transfers keeps one active owner on record per shop |
| Team.SingleOwnerFromEmpty | app/modules/shops/routes.py:384-388 | in every shop of every run exactly the organization's owner has the owner role, and is active |
| Team.CompletionKeepsInv | app/jobs/ownership_transfers.py:73-151 | completing or failing a transfer leaves exactly one owner everywhere |
| Team.ThirdPartiesUntouched | app/jobs/ownership_transfers.py:124-151 | a transfer changes no third party's row and no other organization's |
| Team.TransferIsFinal | app/jobs/ownership_transfers.py:80-81 | a completed or failed transfer never moves again |
| Team.AcceptAddsNoSeat | app/modules/auth/routes.py:97-122 | accepting an invitation never enlarges the set of seats |
| Team.InviteAddsOneSeat | app/modules/shops/routes.py:603-640 | the seats after an invitation are among those before and the address it was checked for, and within the limit or no more than before |
| Team.SeatsStayCapped | app/modules/subscriptions/service.py:272-300 | no step takes an organization past the larger of its present seats and the limit in force |
| Team.OneOpenTransfer | app/modules/shops/routes.py:523-541 | in every run an organization has at most one open transfer, and a user at most one coming |
| Team.ManagesExactly | app/modules/shops/routes.py:384-396 | owners and administrators manage exactly the members below them, give only roles below their own, and never manage themselves |
| Team.InvitesExactly | app/modules/shops/routes.py:603-640 | an invitation is for a role below the inviter's, to an address of no member of the shop, on a free seat, and every such invitation is allowed |
| Team.RequestsExactly | app/modules/shops/routes.py:482-545 | in a sound database a transfer may be requested exactly by the owner on record, to an active colleague who owns nothing and expects nothing, when none is open |
| Team.AddsShopExactly | app/modules/shops/routes.py:129-155 | in a sound database a shop may be added exactly by the owner on record, below the limit |
| Team.CompletionDecides | app/jobs/ownership_transfers.py:73-151 | a transfer completes exactly while it is still the owner's and its target works there and owns no other organization; the target then owns every shop and the former owner administers; otherwise it fails and nothing else changes |
| Team.RetryDecides | app/jobs/ownership_transfers.py:166-191 | a failed attempt waits two minutes, doubling up to an hour, and the eighth is the last |
| Team.ClaimDecides | app/jobs/ownership_transfers.py:24-44 | exactly a due request is claimed, and each claim is an attempt |
| TeamStore.HandedOneMore | app/jobs/ownership_transfers.py:132-147 | handing over shop by shop composes to handing over all of them, in any order |
| TeamStore.Store.ClaimTransfer | app/jobs/ownership_transfers.py:24-44 | claims the first due request in order of creation, or none when none is due |
| TeamStore.Store.CompleteTransfer | app/jobs/ownership_transfers.py:73-151 | the loop over shops ends in the completed hand-over, or in a failed transfer and nothing else |
| TeamStore.Store.RetryOrFail | app/jobs/ownership_transfers.py:166-191 | a failed attempt is retried later with its delay or failed for good at the last attempt |
| TeamStore.Store.TeamEmails | app/modules/subscriptions/service.py:103-129 | the loops over members and invitations gather exactly the addresses that take a seat |
| TeamStore.Store.SeatIsFree | app/modules/subscriptions/service.py:272-300 | an address that has a seat needs none; any other needs one within the limit |
| TeamStore.Store.OrganizationShops | app/modules/subscriptions/service.py:93-100 | the loop counts the shops of the organization |
| TeamStore.Store.AcceptInvitation | app/modules/auth/routes.py:97-122 | accepts exactly an open invitation to the user's own address, uses it up, never rewrites a membership that was there, seats nobody new, and keeps the ownership invariant |
| TeamStore.Store.AssignMember | app/modules/shops/routes.py:397-413 | role and activity are written together or, when no seat is left, not at all |
| TeamStore.Store.UpdateMember | app/modules/shops/routes.py:384-413 | succeeds exactly when the actor may manage the member and a seat is free for a re-activation |
| TeamStore.Store.Invite | app/modules/shops/routes.py:603-640 | the checks made in order succeed exactly when the actor may invite, no member has the address and a seat is free; the invitation is open for seven days and the seats become those before and that address |
| TeamStore.Store.RequestTransfer | app/modules/shops/routes.py:482-558 | the checks made in order succeed exactly when the owner asks for an active member who owns nothing else; the request is then the only open one of its organization and to its target, and no row has moved |
| TeamStore.Store.AddShop | app/modules/shops/routes.py:129-155 | the checks made in order succeed exactly within the shop limit; the organization has one shop more, owned by its owner, and seats nobody new |
| ItemContracts.Normalize | app/modules/items/schemas.py:45-94 | the entry-by-entry rewriting equals the staged normalisation |
| ItemContracts.NormalCategoryIsNormal | app/modules/items/catalog.py:8-10 | category normalisation is idempotent, alias included |
| ItemContracts.NormalCategoryReads | app/modules/items/catalog.py:8-10 | a category loses outer white space and capitals, and earrings reads as earring |
| ItemContracts.LegacyPricingIsUsual | app/modules/items/pricing.py:25-31 | without a pricing method unique pieces have a fixed rate, other ones a fixed making charge, and the rest one by the gram |
| ItemContracts.NormalizedTwice | app/modules/items/schemas.py:45-94 | normalising a normalised payload changes nothing |
| ItemContracts.AcceptedIsStorable | app/modules/items/schemas.py:96-129 | every accepted payload meets all table constraints on sign, type, stock and pricing |
| ItemContracts.StorableIsAccepted | app/modules/items/models.py:30-80 | the items validation returns unchanged are exactly those that meet the constraints and the schema's own demands |
| ItemContracts.AcceptedExactly | app/modules/items/schemas.py:45-129 | validation accepts exactly the complete payloads that describe a storable item, and stores what they describe, entry by entry |
| ItemContracts.AcceptedNewExactly | app/modules/items/schemas.py:145-153 | of those, a new item is refused exactly when jewellery does not name metal and purity or a remaining weight differs from the total |
| ItemContracts.PartialWriteIsWhole | app/modules/items/service.py:231-254 | writing only fields_to_update gives the row that writing the whole validated item would |
| Inventory.LatestIsGreatest | app/modules/dashboard/service.py:115-125 | the entry read for an item at a time is the one with the strictly greatest time up to it, and there is none exactly when no entry qualifies |
| Inventory.CommitKeepsHistory | app/modules/items/service.py:31-55 | recording every changed row once keeps the history ordered and equal to the table |
| Inventory.CreateExactly | app/modules/items/service.py:83-125 | an item is created exactly when its payload is accepted as new, there is room and its barcode is free, and is then what the payload describes, in stock and recorded once |
| Inventory.CreatedIsWhole | app/modules/items/schemas.py:147-152 | a new weighed item has all of its weight, and new jewellery was given metal and purity |
| Inventory.CreateIsSound | app/modules/items/service.py:83-125 | a created item keeps contracts, barcodes, history and the cap |
| Inventory.ReconciledKeepsConsumption | app/modules/items/service.py:17-28 | a new total is accepted exactly when it is positive and covers what was consumed, and keeps the consumption |
| Inventory.EditStoresValidated | app/modules/items/service.py:231-290 | an edit stores exactly the item validated from the merged payload, and that item is storable |
| Inventory.EditStoresRequest | app/modules/items/service.py:231-290 | every requested entry is stored where the item's type, pricing and stock mode allow it, every other entry stays, and an emptied weighed item is sold |
| Inventory.EditExactly | app/modules/items/service.py:139-290 | an edit is made exactly when its checks pass and the merged item is complete, storable and under a free barcode |
| Inventory.EditConservesWeight | app/modules/items/service.py:164-208 | no edit changes the weight a weighed item has consumed, a newly weighed item starts full, and a sold item keeps its stock mode |
| Inventory.UpdateIsSound | app/modules/items/service.py:128-312 | an edit keeps contracts, barcodes, history and the cap |
| Inventory.UpdateExactly | app/modules/items/service.py:128-312 | an update replaces the one row by its edit and records it |
| Inventory.ArchivingIsSound | app/modules/items/service.py:359-362 | archiving keeps contracts and history and adds no active item |
| Inventory.ArchiveExactly | app/modules/items/service.py:382-409 | items are deleted exactly when all are different, there and in stock; they then hold nothing, and each has one entry that says so |
| Inventory.ClearExactly | app/modules/items/service.py:412-456 | clearing archives exactly the items in stock |
| Inventory.PartitionRows | app/modules/items/importer.py:309-324 | the loop splits the rows of a file as the partition function does |
| Inventory.PartitionIsExact | app/modules/items/importer.py:297-324 | every row of the file is accepted or returned, as often as it stands there; accepted rows have new, different barcodes, and every duplicate has its true reason |
| Inventory.RowsOfExactly | app/modules/items/importer.py:214-238 | the rows of a file are what its entries describe, if each describes a storable item with stock |
| Inventory.BarcodedIsFresh | app/modules/items/importer.py:326-338 | imported items keep supplied barcodes, drawn ones are new, and all differ |
| Inventory.ImportIsSound | app/modules/items/importer.py:326-343 | an import keeps contracts, barcodes and history and counts all accepted rows against the cap |
| Inventory.ImportExactly | app/modules/items/importer.py:281-343 | an import is made exactly when every row describes stock, there is room for all accepted rows, and missing barcodes can be drawn |
| Inventory.ImportAdds | app/modules/items/importer.py:326-343 | it adds the accepted rows in order, each in stock and recorded once |
| Checkout.TallyCart | app/modules/sales/service.py:167-178 | the loop over the cart gathers the tally |
| Checkout.TallyIsTotal | app/modules/sales/service.py:167-182 | the tally holds, for each item, the sum over its cart lines, and exactly the items named |
| Checkout.NoRefusalMeansAll | app/modules/sales/service.py:199-222 | no refusal is reported exactly when every item passes its check |
| Checkout.InvoiceNoInjective | app/modules/sales/service.py:230-231 | one series and year number different sequences differently |
| Checkout.InvoiceNoReads | app/modules/sales/service.py:230-231 | a number in full: prefix in capitals or INV, year, and at least six digits |
| Checkout.SearchSequence | app/modules/sales/service.py:227-240 | the search loop terminates and returns the first free sequence |
| Checkout.FreeSequenceIsFirst | app/modules/sales/service.py:229-239 | it is found within as many steps as there are invoices, is unused, and nothing before it is free |
| Checkout.PriceLines | app/modules/sales/service.py:285-353 | the pricing loop yields the priced lines and their total, or reports a missing metal rate |
| Checkout.LineForIsRight | app/modules/sales/service.py:286-350 | a line's parts, subtotal and tax are the half-up rounded exact amounts of the weight sold or of the whole piece, and its price is charged once for a weight or once for each piece |
| Checkout.SaleKeepsRow | app/modules/sales/service.py:372-387 | a covered sale takes exactly what was asked, never oversells, marks an emptied row sold, keeps everything else, and leaves a row that meets its contracts |
| Checkout.ScreenedIsCovered | app/modules/sales/service.py:180-226 | a sale that passes the checks covers every item it names |
| Checkout.CheckedOutExactly | app/modules/sales/service.py:158-370 | a checkout succeeds exactly when the cart is well formed, every item is there, in stock and has what is asked, the shop is open, metals are rated, and the customer agrees to the total |
| Ledger.StepKeepsInv | app/modules/sales/service.py:158-440 | every create, edit, delete, clear, import and checkout keeps contracts, history, weights, totals, numbers and keys |
| Ledger.AlwaysInv | app/modules/items/service.py:83-456 | that invariant holds in every state of every run |
| Ledger.AnswersExactly | app/modules/sales/routes.py:47-86 | a new key is answered by the checkout itself and remembers body and sale, an old one by what it remembers |
| Ledger.LinesTake | app/modules/sales/service.py:286-350 | the new lines take from each item exactly the weight the cart asked of it |
| Ledger.BookedKeepsOffset | app/modules/sales/service.py:372-387 | a sale moves weight from stock to its lines without loss |
| Ledger.BookedAddsUp | app/modules/sales/service.py:352-370 | a sale's total is that of its lines and the running total that of all lines |
| Runs.WeightIsConserved | app/modules/items/service.py:163-208 | while an item stays weighed, total less stock equals what its sale lines took plus a constant |
| Runs.SoldItemsStayWeighed | app/modules/items/service.py:166-178 | once sold from, a weighed item stays weighed in every continuation |
| Runs.CreatedItemsBalance | app/modules/items/schemas.py:145-153 | of an item created in the shop, whatever is gone while it is weighed is what its sale lines took, in every state of every run |
| Runs.NothingIsOversold | app/modules/sales/service.py:205-213 | no run sells more of a weighed item than its total, and stock is never negative |
| Runs.ContractsAlwaysHold | app/modules/items/models.py:30-80 | in every state of every run every row meets the sign, type, stock and pricing contracts |
| Runs.CheckoutHappensOnce | app/modules/sales/routes.py:47-86 | after any further events a same-body retry returns the same sale and changes nothing, and another body under the key is refused |
| Runs.OneSalePerKey | app/modules/sales/routes.py:52-86 | every key names a sale, no two the same, and there are as many keys as sales; the running total is the sum of all line prices, a sale's total that of its own |
| Runs.SequenceAdvances | app/modules/sales/service.py:227-240 | each sale moves the sequence past its own number, by at most one more than the existing sales; nothing else moves it |
| Runs.InvoiceNumbersAreUnique | app/modules/sales/service.py:229-239 | invoice numbers stay unique in every run even when prefix and year change |
| Runs.ActiveItemsStayCapped | app/modules/subscriptions/service.py:209-237 | no operation takes the active items past the larger of their number and the limit; deleting, clearing and selling never add any |
| Purchases.PurchaseIsRight | app/modules/sales/service.py:158-440 | a checkout that is carried out writes one rightly priced line for each item, takes exactly what was asked of each row, records each once, and makes one sale of the lines' total, the one the customer confirmed |
| Dashboard.HistoryReplaysThePast | app/modules/dashboard/service.py:98-125 | however a run goes on, the latest entry of an item up to a time is the row the table held then |
| Dashboard.PastCountIsLiveCount | app/modules/dashboard/service.py:73-163 | the inventory count read from the history equals the count over the live rows of that time, for every metal filter |
| Dashboard.UnitsCountPieces | app/modules/dashboard/service.py:157-163 | a stored item counts for its pieces, if it is of the metal asked for |
| Dashboard.ItemWorthIs | app/modules/dashboard/service.py:198-216 | a stored item adds its worth once if it is weighed, else for each piece, and nothing if it is of another metal |
| Dashboard.SuggestedIsExactPrice | app/modules/dashboard/service.py:137-172 | the suggested price of a storable item is the exact price before tax that checkout locks, but for silver spelt with blanks around it |
| Dashboard.MetalWorthIs | app/modules/dashboard/service.py:129-144 | the metal value is the one a priced line has, of a piece or of what is left of a weighed item |
| Dashboard.PastValueIsLiveValueExactly | app/modules/dashboard/service.py:126-240 | for every metal filter the historical stock value and sale value are never below the live ones, and equal them exactly when no archived weighed item of that metal has worth left |
| Dashboard.DeletedWeightIsStillCounted | app/modules/items/service.py:359-362 | after the run of one creation and one deletion both historical values exceed the live ones, which are zero |
| InvoiceMath.InvoiceLines | app/modules/sales/invoice.py:211-302 | the loop's totals are the column sums, and every rate has a tax group holding exactly its tax |
| InvoiceMath.PrintedReads | app/modules/sales/invoice.py:247-287 | each printed column is the figure of a piece for as many pieces as the line has, a fixed rate counting as value |
| InvoiceMath.SummaryRows | app/modules/sales/invoice.py:535-572 | the drawn rows are before tax, the tax rows by ascending rate, and with tax |
| InvoiceMath.GroupsShareTheTax | app/modules/sales/invoice.py:291 | the tax groups share out the whole tax |
| InvoiceMath.SummaryReconciles | app/modules/sales/invoice.py:535-564 | before tax plus every SGST and CGST row is the total with tax, for any lines |
| InvoiceMath.EveryGroupIsHalved | app/modules/sales/invoice.py:541-548 | each SGST and CGST pair makes up its group and differs by at most one paisa |
| InvoiceMath.BeforeTaxIsSubtotals | app/modules/sales/service.py:315-353 | the amount before tax is the sum of subtotals times pieces |
| InvoiceMath.ColumnsDriftLittle | app/modules/sales/invoice.py:243-291 | the value and making columns drift from the amount before tax by at most a paisa a piece |
| InvoiceMath.InvoiceReconciles | app/modules/sales/invoice.py:529-564 | the invoice of any well-priced lines reconciles from subtotals to total |
| InvoiceMath.EverySaleIsWellPriced | app/modules/sales/service.py:301-353 | in every run the lines of every sale are priced so that its invoice reconciles |
| Csv.EscapeIsInvisible | app/modules/items/export.py:50-54 | a cell reads the same escaped or not, for every string |
| Csv.ExportIsInert | app/modules/items/export.py:47-54 | no cell of an export starts with a character that a spreadsheet takes for a formula |
| Csv.PlainExactly | app/modules/items/importer.py:86-90 | a text comes back from a cell exactly when it is trimmed and does not start with an escaped formula |
| Csv.DecimalRoundTrip | app/modules/items/export.py:142-150 | the printed decimal of a column value parses back to it, at every scale |
| Csv.PlacesRead | app/modules/items/importer.py:93-125 | a missing decimal place reads as a zero, a missing point as no places, and too many places as no number |
| Csv.DuplicatesReadTheSame | app/modules/items/importer.py:257-278 | a row of the duplicates file yields the same payload and reading as the row it came from |
| Csv.ReadDecides | app/modules/items/importer.py:203-238 | a row is passed over by its status, or taken exactly when its entries describe stock, as what they describe |
| Csv.CandidateSays | app/modules/items/importer.py:93-125 | the texts and names of a row that is taken are those of its cells |
| Csv.CandidateCosts | app/modules/items/importer.py:93-125 | its money amounts are those of its cells, where type and pricing leave them to the cells |
| Csv.CandidateMeasures | app/modules/items/importer.py:93-125 | so are its pieces or its weights |
| Csv.RoundTripExactly | app/modules/items/importer.py:93-125 | exporting an item for sale and reading the row gives the item with its metal in lower case, if and only if its texts survive |
| Csv.UnchangedExactly | app/modules/items/importer.py:93-125 | it gives the very item exactly when, besides, its metal was in lower case |
| Csv.ParseRows | app/modules/items/importer.py:181-238 | the loop over rows gathers candidates, ignored rows and issues as the parse function does |
| Csv.BuildInventoryCsv | app/modules/items/export.py:128-158 | the loop writes one row for every item that is not archived, in order |
| Csv.ExportParses | app/modules/items/importer.py:204-243 | when the texts of every item in stock survive, the export parses without an issue exactly when none of them is used up, and then to those items, in order |
| Csv.ExportReturnsExactly | app/modules/items/importer.py:204-243 | a whole export is read without an issue and gives exactly the items in stock if and only if the texts of each survive and none is used up |
| Csv.ExportThenImportRestoresStock | app/modules/items/importer.py:281-343 | importing such an export into a shop without its barcodes adds exactly the items that were in stock, every field as it was but for the case of the metal, or nothing if there were none |
| ShopStore.Shop.Record | app/modules/items/service.py:31-55 | appends one snapshot of the row |
| ShopStore.Shop.CreateItem | app/modules/items/service.py:83-125 | the method ends in the state and answer of the create function, refusals changing nothing |
| ShopStore.Shop.EditRow | app/modules/items/service.py:139-290 | the checks and the partial write equal the edit function |
| ShopStore.Shop.UpdateItem | app/modules/items/service.py:128-312 | an edit replaces exactly one row and records it, or changes nothing |
| ShopStore.Shop.ArchiveAll | app/modules/items/service.py:406-409 | archiving row by row, each with its history entry, equals archiving them at once |
| ShopStore.Shop.DeleteItems | app/modules/items/service.py:382-409 | deletes all of the distinct, present, in-stock items named, or nothing |
| ShopStore.Shop.ClearInventory | app/modules/items/service.py:412-456 | archives exactly the items in stock and returns their number |
| ShopStore.Shop.ImportItems | app/modules/items/importer.py:281-343 | takes the accepted rows of a file, all or nothing |
| ShopStore.Shop.CheckItems | app/modules/sales/service.py:199-222 | reports the first refusal in the order of the items |
| ShopStore.Shop.Deplete | app/modules/sales/service.py:372-387 | decrementing row by row, each with its history entry, equals selling all at once |
| ShopStore.Shop.PriceSale | app/modules/sales/service.py:224-370 | numbers and prices the sale, and rolls both back when it is refused |
| ShopStore.Shop.ExecuteSale | app/modules/sales/service.py:158-440 | the whole checkout ends in the booked state or leaves every table as it was |
| ShopStore.Shop.Checkout | app/modules/sales/routes.py:47-86 | a key is answered from its first use, or used for a new sale |

## Left out

- HTTP, SQL, row-level security, migrations, the web and mobile clients, PDF and XLSX drawing, and the calls to mail, Meta, Play and S3 themselves.
- The checks of role and of read-only shops that a route makes before the operation starts.
- The invoice job that a sale queues is part of the publication model, not of the ledger.
- UUIDs and tokens are supplied as fresh values, SHA-256 is an injective constructor, and the body of a checkout stands for its digest.
- Upper and lower case are ASCII only; Unicode normalisation and case folding are not modelled.
- Float serialisation of prices and weights in JSON and in the audit log; the audit log itself.
- Inputs are taken to fit their column scale; rounding by a column on insert is not modelled.
- Csv.ParseDecimal: reads plain numerals without sign, exponent, underscores or more decimals than the column has, although the validation library reads more.
- The quoting layer of the CSV reader and writer, blank rows, the size and row limits, rows longer than the header, and the text of validation messages.
- Random barcodes are supplied by the caller; the twenty attempts of the generator are one draw that is fresh or not.
- The reserved status, which no modelled operation sets.
- Queueing a WhatsApp delivery at checkout, the suppression of recipients, and the lookup of a job by its callback id.
- Account deletion, which also removes stored PDFs and clears keys, and Play reconciliation.
- The other metrics of the dashboard, and its choice of periods.
- A second owner added from the command line, and the deactivation of shops and users.
- A transfer left processing by a crashed worker has no lease and stays so; the model states safety only.
- A call to the object store that takes effect only after its caller has given up on it.
- Publication states safety only: a worker whose upload differs from an orphaned object fails on every retry.
- The printed net weight, purity and rate columns of an invoice line, the constant round-off row, and the net amount that repeats the total.
- Paging.ListInvoices: models the cursor and the limit for one fixed filter; the page number with an offset is not modelled.
- The delivery status a WhatsApp worker writes is not rank checked, so monotonicity is claimed for reports only.
