# AgentPay: a verified model

This project models the stateful core of the AgentPay commerce service in Dafny and proves
what it keeps over whole runs. `dafny verify dfyconfig.toml` checks everything.

| file | what it models |
|---|---|
| `Transitions.dfy`, `StatusRefinement.dfy`, `TransitionAnswers.dfy` | the status machine all aggregates share: canonical tokens, status text in any casing, the rules, `transition` |
| `CommerceModel.dfy`, `CommerceSession.dfy` | checkouts, authorizations, reservations, stock and the audit log; the services write step by step inside a unit of work that commits or rolls back, and are proved equal to all-or-nothing operations |
| `CommerceInvariant.dfy`, `CommerceSteps.dfy`, `CommerceRuns.dfy` | what every committed state satisfies, for any interleaving of operations by any callers at any times |
| `CommerceAnswers.dfy` | when each of those operations succeeds, and what it answers and leaves |
| `CatalogStream.dfy`, `CatalogVerdicts.dfy`, `CatalogStage.dfy` | the resumable catalog pipeline: streaming, the verdict on a record, deduplication, batches, crashes |
| `CatalogImages.dfy`, `ImageAnswers.dfy` | the images of a product: two input shapes, URLs and storage keys |
| `Money.dfy`, `Decimal.dfy`, `Text.dfy` | printing and parsing exact amounts |
| `JsonText.dfy`, `PriceHash.dfy` | the canonical JSON text a price hash is taken of |
| `Base64Url.dfy`, `Tokens.dfy`, `TokenAnswers.dfy` | signed tokens: JWS Compact Serialization (section 7.1 of RFC 7515), base64url (section 5 of RFC 4648), HS256 (section 3.2 of RFC 7518), `exp` (section 4.1.4 of RFC 7519) |
| `Cache.dfy`, `CacheRuns.dfy` | the read-through cache against the source it stands for, one call at a time and with calls in flight |
| `Campaigns.dfy`, `CampaignAnswers.dfy` | the campaign policy engine and lifecycle |
| `CatalogPublication.dfy`, `CatalogImports.dfy`, `ImportAnswers.dfy` | catalog versions, CSV validation and publication |
| `Webhooks.dfy` | retries with doubling delays |
| `Outcomes.dfy` | `Option` and `Result` |

Code that changes things step by step is a class with methods (`Session`, `Aggregate`,
`CandidatesDb`, `CandidateWriter`, `InMemoryCacheBackend`, `CampaignService`, `CatalogService`,
`CatalogVersionTable`, `FailedWebhookTable`), each method proved against a function of the old
state; the lemmas are about those functions and about runs of them. A crash or a failing flush is
an arbitrary choice, so every statement holds wherever it strikes.

The modules named `...Answers` and `CatalogVerdicts.dfy` say of each operation, for all inputs, when it
succeeds, what refuses it and what it leaves, with every date, amount, limit, status and text written out
rather than by naming a function of the model.

SHA-256, HMAC, the JSON library, ISO dates, the subcategory classifier and the printing of nested
JSON as text are parameters. What is assumed of them is written as a `requires` about the values at
hand: that a token's header and claims read back as they were printed (`Tokens.ReadsBack`;
`Tokens.RoundTripsHappen` shows such a library for every request), and that a cached value reads back
(`Cache.ReadsBack`) where a result depends on it. Nothing is assumed of the hash functions. Times are
integers (microseconds) or reals where the source uses floats, and the clock is a parameter of each
call.

## What does not hold, and when exactly it does

- A payment stored as `verified` in lower case can be order-confirmed for ever and never shows another
  status (`StatusRefinement.VerifiedPaymentNeverCompletes`): `format_target_status` writes
  ORDER_CONFIRMED as `verified`, which reads back as PAYMENT_VERIFIED. Text simulates tokens for every
  step but this one (`StatusRefinement.StepSimulates`), and lower-case payments simulate them exactly in
  the runs that confirm no order (`StatusRefinement.PaymentRunSimulates`); both are equivalences.
- The payment gate does not look at the checkout. It is open on a payable checkout exactly while the
  checkout is neither cancelled nor expired (`CommerceRuns.OpenGateIsPayableIff`); cancelling, and expiring
  in a sweep, leave it open, and both are reached from anything on sale
  (`CommerceRuns.ClosedCheckoutsPassTheGate`).
- `policy_checked` rows are selected by the sweep but have no expiry rule, so they keep their stock
  (`CommerceRuns.SweepExpires`, `CommerceRuns.CheckedRowIsNeverSwept`). The invariant admits such rows, and
  every operation keeps it with them present; no service in the repository writes that status
  (`CommerceRuns.RunChecksNone` for the modelled ones).
- A cached read with no suffix (no parts, or one empty part) goes stale: its entry survives a write of the
  namespace and its invalidation (`CacheRuns.NoSuffixGoesStale`). With a suffix, in sequential use, it
  answers the source's value exactly when it misses or the value reads back (`CacheRuns.CachedAgreesIff`):
  `json.dumps(value, default=str)` prints a date as text, and text is what comes back
  (`CacheRuns.DatesComeBackAsText`).
- With calls in flight, what is served is current when the call that stored it was not in flight across a
  change of its entry, and only then unless the entry came back to an old value
  (`CacheRuns.StaleOnlyAcrossWrite`); a run that breaks it is `CacheRuns.LateStoreServesOldValue`.
- Invalidating one entry, which the documentation calls dropping one entry, drops every entry whose suffix
  extends it; with one empty part it drops every entry of every namespace that extends this one, so
  `invalidate("offer", "")` also drops `offers` (`Cache.EntryDrop`, an equivalence in both cases).
- Two approved campaigns of a merchant that share a product block each other's activation
  (`Campaigns.OverlappingApprovalsDeadlock`), and a run gets there from any compliant proposal
  (`Campaigns.DeadlockIsReached`).
- The policy engine finds the rules that passed by searching texts that hold product ids, so an item that
  breaks one rule under an id with another rule's word keeps that other rule from being reported as passed
  (`Campaigns.ViolationKinds`, an equivalence; `Campaigns.WordInIdHidesRule`, an input); without such ids the report is right
  (`Campaigns.PlainIdsReportRules`). The decision is not affected.
- Publishing an unknown catalog version takes the merchant's catalog offline
  (`CatalogPublication.UnknownTargetUnpublishes`); the call succeeds exactly when
  `CatalogPublication.PublishesIff` says.
- `publish_import` documents a number of products created and always returns zero; its documentation
  asks for a valid import, its code accepts an invalid one and promotes the valid rows
  (`CatalogImports.CatalogService.PublishImport`). Validation can move a published import back to
  valid (`CatalogImports.CatalogService.ValidateImport`).
- Running stage 1 at another line cap first leaves its result alone exactly when each identifier has the
  same first eligible record in the lines read under both caps (`CatalogStream.CapChangeIsHarmlessIff`);
  two sources and two caps where it does not are `CatalogStream.RaisingTheCapCanKeepAnotherRecord`.
- Stage 3 compares image URLs as written but stores them stripped: the source URLs of a manifest are
  distinct exactly when no two URLs of the product differ only in the whitespace around them
  (`CatalogImages.SourcesDistinctIff`; an input that repeats one is `CatalogImages.UnstrippedUrlsRepeat`).

## Model

| member | source | states |
|---|---|---|
| Transitions.Transition | services/checkout/transitions.py:372-413 | one call moves the status text and appends one audit event, or raises and leaves both alone |
| StatusRefinement.FormatThenNormalize | services/checkout/transitions.py:249-354 | a written target status reads back as itself, except ORDER_CONFIRMED on a lower-case payment, and only then |
| StatusRefinement.StepSimulates | services/checkout/transitions.py:249-413 | one call on status text is one step of the canonical machine, exactly outside that exception |
| StatusRefinement.RunSimulates | services/checkout/transitions.py:318-413 | whole runs in any casing visit the tokens of the canonical run, with the same outcome at every attempt |
| StatusRefinement.PaymentRunSimulates | services/checkout/transitions.py:249-413 | a lower-case payment visits the tokens of the canonical run exactly in the runs that confirm no order, and then has its outcomes |
| StatusRefinement.VerifiedPaymentLoops | services/checkout/transitions.py:263-284 | any number of confirmations of a `verified` payment succeed and change nothing |
| StatusRefinement.VerifiedPaymentNeverCompletes | services/checkout/transitions.py:263-284 | no run from any lower-case text that reads as PAYMENT_VERIFIED ever shows another status |
| StatusRefinement.LowerPaymentsAreBounded | services/checkout/transitions.py:87-212 | a lower-case payment that confirms no order makes at most as many transitions as its rank, six after `created` |
| StatusRefinement.RankDrops | services/checkout/transitions.py:87-212 | every rule strictly lowers a rank |
| StatusRefinement.TransitionsAreBounded | services/checkout/transitions.py:87-212 | at most ten transitions follow `created`, in any run |
| StatusRefinement.BoundIsTight | services/checkout/transitions.py:87-212 | ten is reached |
| StatusRefinement.TerminalAbsorbs | services/checkout/transitions.py:45-57 | the terminal tokens are exactly those that refuse every event as already finalized |
| StatusRefinement.TerminalTextIsFinal | services/checkout/transitions.py:372-413 | a terminal status text never changes again |
| StatusRefinement.PaidOnlyThroughAuthorized | services/checkout/transitions.py:87-212 | no token run reaches a paid state without AUTHORIZED before it |
| StatusRefinement.PaidTextOnlyThroughAuthorized | services/checkout/transitions.py:87-413 | the same for the status texts of a checkout |
| TransitionAnswers.PaymentCreationIff | services/checkout/transitions.py:173-182 | a payment is created exactly from AUTHORIZED, at the persisted price hash, under a valid unconsumed authorization, in time, by the buyer or an agent |
| TransitionAnswers.ChangedPriceIsRefused | services/checkout/transitions.py:357-389 | another hash is refused as a changed price, before anything else |
| TransitionAnswers.PaymentRefusals | services/checkout/transitions.py:390-398 | what refuses it next, in order |
| TransitionAnswers.MoneyMovesByPlatform | services/checkout/transitions.py:186-211 | a payment is verified only by the platform or the provider, an order confirmed or completed only by the platform |
| TransitionAnswers.AuthorizedIff | services/checkout/transitions.py:105-139 | what authorizes, from which status, by whom; only a buyer approves, and only what awaits it |
| TransitionAnswers.PendingIff | services/checkout/transitions.py:98-123 | what makes a checkout await approval |
| TransitionAnswers.CancelledIff | services/checkout/transitions.py:114-190 | who cancels, and from where: never once a payment was created |
| TransitionAnswers.ExpiredIff | services/checkout/transitions.py:116-185 | who expires a checkout, and from where: not from POLICY_CHECKED |
| TransitionAnswers.OpenedIff | services/checkout/transitions.py:89-96 | a checkout is opened by a buyer or an agent who names a quantity |
| TransitionAnswers.ActorsKeepToTheirEvents | services/checkout/transitions.py:87-212 | which events each kind of actor can make happen, over the whole table |
| TransitionAnswers.ReadsIff | services/checkout/transitions.py:214-354 | a status text reads as a token exactly when its upper case is one of the spellings of that token on this kind of aggregate |
| TransitionAnswers.OtherTextsStay | services/checkout/transitions.py:354 | any other text names itself |
| CommerceSession.Session.CreateCheckout | services/checkout/service.py:135-257 | its writes, when it succeeds, are the all-or-nothing operation; its refusals are that operation's |
| CommerceSession.Session.RequestAuthorization | services/authorization/service.py:89-264 | likewise, with the early audit event and the early expiry write |
| CommerceSession.Session.ApproveAuthorization | services/authorization/service.py:266-340 | likewise, although `approved` is written before the transition may raise |
| CommerceSession.Session.RejectAuthorization | services/authorization/service.py:342-425 | likewise, transition before release |
| CommerceSession.Session.CancelCheckout | services/checkout/service.py:273-318 | likewise; closed checkouts are returned as they are |
| CommerceSession.Session.RevalidateForPayment | services/authorization/service.py:465-529 | opens exactly for a visible, approved, unexpired authorization of this checkout at this price hash, and commits nothing |
| CommerceSession.Session.TransitionCheckout | services/checkout/transitions.py:372-413 | moves one row and logs it, or changes nothing |
| CommerceSession.Session.Reserve | services/inventory/service.py:75-139 | takes stock only if enough is free, one reservation a checkout |
| CommerceSession.Session.Release | services/inventory/service.py:141-175 | gives back a held reservation once; otherwise does nothing |
| CommerceSession.Session.Execute | apps/api/commerce.py:75-89 | a request commits the operation's result or exactly what was committed before |
| CommerceSession.Session.SweepItem | apps/worker/main.py:148-173 | one item is both writes or neither |
| CommerceSession.Session.SweepExpiredCheckouts | apps/worker/main.py:111-175 | a sweep is its items in order, committed once; a row that is not due keeps itself and its hold |
| CommerceSession.SweepRowIsLocal | apps/worker/main.py:123-148 | expiring one row neither selects nor deselects another |
| CommerceInvariant.HeldAfterWrite | services/inventory/models.py:9-32 | the sum held for an offer changes by exactly what a written reservation contributes |
| CommerceSteps.CreateKeepsInv | services/checkout/service.py:135-257 | opening a checkout keeps the whole invariant |
| CommerceSteps.RequestKeepsInv | services/authorization/service.py:89-264 | requesting keeps it, for any policy decision |
| CommerceSteps.ApproveKeepsInv | services/authorization/service.py:266-340 | approving keeps it |
| CommerceSteps.RejectKeepsInv | services/authorization/service.py:342-425 | rejecting keeps it |
| CommerceSteps.CancelKeepsInv | services/checkout/service.py:273-318 | cancelling keeps it |
| CommerceSteps.SweepKeepsInv | apps/worker/main.py:111-175 | sweeping keeps it |
| CommerceSteps.RequestIsFresh | services/authorization/service.py:124-230 | a request that goes through finds `created` or `policy_checked`, and no authorization |
| CommerceSteps.CheckKeepsInv | services/checkout/transitions.py:97 | the invariant admits rows a policy check would leave |
| CommerceSteps.ApprovalIsAwaited | services/authorization/service.py:299-324 | an effective approval finds its checkout pending and bound to it |
| CommerceSteps.RejectionCloses | services/authorization/service.py:366-410 | an effective rejection always closes the checkout and frees its hold |
| CommerceRuns.RunKeepsInv | apps/api/commerce.py:75-89 | every run of operations, successful or rolled back, keeps the invariant |
| CommerceRuns.StockIsConserved | services/inventory/models.py:9-32 | a reservation is held exactly while its checkout is neither cancelled nor expired; reserved equals the held sum and stays within available |
| CommerceRuns.StatesAgree | services/authorization/service.py:124-410 | `created` has no authorization, pending a pending one, authorized an approved one, a rejected one means cancelled; terms are the checkout's |
| CommerceRuns.OneAuthorization | services/authorization/service.py:124-230 | no checkout has two authorizations |
| CommerceRuns.RunFreezes | services/checkout/service.py:185-257 | from any state, later states keep every row and every term; only statuses, holds and the end of the log change |
| CommerceRuns.PricesStayFrozen | services/checkout/hash.py:26-73 | in every state the stored snapshot repeats the row in all nine factors, and rehashing it, product id included, gives the stored hash |
| CommerceRuns.AuditReplaysEveryRun | services/checkout/transitions.py:372-413 | a checkout's logged changes chain from `created` to its status, each allowed by a rule to its actor |
| CommerceRuns.ChainIsBounded | services/checkout/transitions.py:87-212 | such a history has at most ten entries |
| CommerceRuns.PaymentGate | services/authorization/service.py:465-529 | with the checkout's own hash the gate opens exactly for a visible, matching, approved, unexpired authorization, whose ceiling is unit price times quantity |
| CommerceRuns.ApprovalNeedsConsent | services/authorization/service.py:194-324 | the only operations that make an authorization approved are an ALLOW request and a buyer's approval |
| CommerceRuns.NoPaymentWithoutConsent | services/authorization/service.py:194-529 | whenever the gate opens after a run, an earlier operation of that run consented to that checkout |
| CommerceRuns.OpenGateIsPayableIff | services/authorization/service.py:465-529 | an open gate is on an authorized checkout exactly while that is neither cancelled nor expired |
| CommerceRuns.CancellationLeavesGateOpen | services/checkout/service.py:273-318 | cancelling an authorized checkout leaves its gate open |
| CommerceRuns.ExpiryLeavesGateOpen | apps/worker/main.py:111-175 | so does expiring it in a sweep |
| CommerceRuns.ClosedCheckoutsPassTheGate | apps/worker/main.py:111-175 | for anything on sale, opening, an ALLOW and then a cancellation, or a sweep, end with an open gate on a closed checkout |
| CommerceRuns.SweepExpires | apps/worker/main.py:111-175 | a sweep expires every selected row but `policy_checked`, and changes no other checkout, in databases that hold such rows too |
| CommerceRuns.CheckedRowIsNeverSwept | apps/worker/main.py:123-175 | a `policy_checked` row stays so through any sweep, with its stock held |
| CommerceRuns.RunChecksNone | services/checkout/transitions.py:97 | no modelled operation writes `policy_checked` |
| CommerceRuns.SweepSkipsPolicyChecked | apps/worker/main.py:123-175 | a `policy_checked` row leaves the whole database as it was |
| CommerceRuns.CancelUndoesCreate | services/checkout/service.py:135-318 | cancelling gives back exactly the stock that opening took |
| CommerceAnswers.OpensIff | services/checkout/service.py:135-257 | a checkout opens exactly for an own, active, unexpired offer with at least one and at most the free units |
| CommerceAnswers.OpenedCheckout | services/checkout/service.py:170-257 | its whole row, hold, stock and log entries |
| CommerceAnswers.OpeningRefusals | services/checkout/service.py:153-181 | what refuses an opening; nothing changes then |
| CommerceAnswers.RequestSucceedsIff | services/authorization/service.py:89-264 | a request succeeds exactly on an own open checkout with a live authorization, or with none and a decision other than BLOCK |
| CommerceAnswers.RequestedAuthorization | services/authorization/service.py:194-264 | a new authorization repeats the checkout's terms, approved outright only by ALLOW; the status and the three log entries that go with it |
| CommerceAnswers.RequestRefusals | services/authorization/service.py:138-192 | a block, and an authorization past its date, are refused as what they are |
| CommerceAnswers.RequestAgain | services/authorization/service.py:112-170 | a live authorization is answered again unchanged; closed and unknown checkouts are refused |
| CommerceAnswers.ApproveSucceedsIff | services/authorization/service.py:266-340 | an approval succeeds exactly for its own buyer, while pending, in date and awaited, or once approved |
| CommerceAnswers.ApprovedAnswer | services/authorization/service.py:312-340 | it makes the authorization approved and its checkout authorized, with two log entries, or changes nothing |
| CommerceAnswers.RejectSucceedsIff | services/authorization/service.py:342-425 | a rejection succeeds exactly for its own buyer, in date and on an open checkout, or once rejected |
| CommerceAnswers.RejectedAnswer | services/authorization/service.py:396-425 | it closes the checkout, frees its stock and logs that, or changes nothing |
| CommerceAnswers.DecisionRefusals | services/authorization/service.py:281-394 | what refuses an approval or a rejection; nothing changes then |
| CommerceAnswers.CancelSucceedsIff | services/checkout/service.py:273-318 | a cancellation succeeds exactly for its own buyer and tenant |
| CommerceAnswers.CancelledAnswer | services/checkout/service.py:273-318 | it closes an open checkout, frees its stock and logs that; a closed one is answered as it is |
| CommerceAnswers.CancellationRefusal | services/checkout/service.py:283-292 | a checkout of another buyer is answered like one that is not there |
| CommerceAnswers.SweepSparesUndue | apps/worker/main.py:137-148 | whatever the batch, a checkout that is not due keeps its row and its hold |
| CommerceAnswers.SweepTakesDue | apps/worker/main.py:123-175 | a due row of the batch that is created, awaiting approval or authorized ends expired, with its hold released |
| CommerceAnswers.GateOpensIff | services/authorization/service.py:465-529 | for any hash, the gate opens exactly for a visible, approved, unexpired authorization of this checkout at that hash |
| CommerceAnswers.GateNeedsOwnHash | services/authorization/service.py:515-529 | in every reachable state that is the checkout's own hash; any other is refused as a changed price |
| CommerceAnswers.GateRefusals | services/authorization/service.py:480-529 | each refusal, exactly when it is given |
| CatalogStream.SeenOnlyRejectsDuplicates | pipeline/build_catalog.py:1025-1091 | the set of seen identifiers adds the duplicate reject and nothing else, after the other three |
| CatalogStream.FirstWinsCovers | pipeline/build_catalog.py:1158-1163 | stored rows stay, and no eligible identifier is missed |
| CatalogStream.NewRowsAreFirst | pipeline/build_catalog.py:1421-1430 | every new row is the first eligible record of its identifier in the stream |
| CatalogStream.CoveredIsFinal | pipeline/build_catalog.py:1218-1225 | any table between the stored rows and the result that covers the stream is the result |
| CatalogStream.CapChangeIsHarmlessIff | pipeline/build_catalog.py:1338-1357 | running at another cap first changes nothing exactly when each identifier has the same first eligible record in both capped streams |
| CatalogStream.RaisingTheCapCanKeepAnotherRecord | pipeline/build_catalog.py:1338-1357 | two sources and two caps where the smaller cap first decides an identifier for another record |
| CatalogStream.KeepsReady | pipeline/build_catalog.py:1421-1430 | buffering a new candidate keeps stored rows, buffer and seen set consistent with the result |
| CatalogStream.InsertKeepsFresh | pipeline/build_catalog.py:1202-1216 | INSERT OR IGNORE of a pending batch ignores nothing |
| CatalogVerdicts.VerdictIff | pipeline/build_catalog.py:1025-1056 | a record is kept exactly when it names a parent, has a title of 8 to 300 characters, offers an http or https image and its parent was not seen; when each of the four rejects is given |
| CatalogVerdicts.ImagesRemainIff | pipeline/build_catalog.py:261-296 | normalized images remain exactly when some image of either shape offers a URL |
| CatalogVerdicts.EntriesSay | pipeline/build_catalog.py:299-330 | what each image entry of either shape says |
| CatalogVerdicts.UsableInOrder | pipeline/build_catalog.py:291-296 | the usable ones are kept in their order |
| CatalogVerdicts.KeptTells | pipeline/build_catalog.py:1067-1091 | a candidate says what its record says |
| CatalogVerdicts.EligibleIff | pipeline/build_catalog.py:239-255 | a line is eligible exactly when it holds a JSON object that can be kept |
| CatalogVerdicts.StreamReads | pipeline/build_catalog.py:218-255 | a run reads exactly the first lines, up to its cap, of the sources on disk |
| CatalogVerdicts.ResultIsStaged | pipeline/build_catalog.py:1405-1457 | the result table has exactly the stored identifiers and those some line read offers; each new row is what such a line says, with such a title and image |
| CatalogStage.CandidatesDb.InsertBatch | pipeline/build_catalog.py:1158-1163 | inserts row by row, keeping what is stored |
| CatalogStage.CandidateWriter.Add | pipeline/build_catalog.py:1202-1206 | the buffer never reaches past a batch, and a crash has written all of it or nothing |
| CatalogStage.CandidateWriter.Flush | pipeline/build_catalog.py:1208-1216 | writes the buffer whole and empties it, or crashes before or after the commit |
| CatalogStage.TakeLine | pipeline/build_catalog.py:1421-1430 | every line is blank, malformed, rejected or kept, once |
| CatalogStage.ScanSource | pipeline/build_catalog.py:1405-1457 | a scanned source is covered, its kept count is the rows added, and recording it as done is honest |
| CatalogStage.ScanSources | pipeline/build_catalog.py:1362-1389 | the walk over the sources ends with the result table, whatever was skipped or missing |
| CatalogStage.StageProducts | pipeline/build_catalog.py:1312-1402 | however it ends the database can be resumed from; when it completes the table is the first-wins table, every new row from a line that was read, with a title of 8 to 300 characters and a usable image, nothing counted twice, the buffer within a batch |
| CatalogStage.CrashedRunsEqualOneRun | pipeline/build_catalog.py:1312-1472 | any number of crashed attempts, at any points and with any batch sizes, end in the table of one uninterrupted run |
| CatalogStage.NewDatabaseIsResumable | pipeline/build_catalog.py:1467-1472 | a database with no progress at this cap is a fair start |
| CatalogImages.ShapesAgree | pipeline/build_catalog.py:271-330 | the columnar shape, with any trailing nulls cut, normalizes like the list of images |
| CatalogImages.ResolutionWon | pipeline/build_catalog.py:333-339 | the recorded resolution is the one whose URL was taken, and no better one was usable |
| CatalogImages.ResolveProductImages | pipeline/build_catalog.py:2015-2040 | the loop computes the resolution that the next three state properties of |
| CatalogImages.ResolutionIsDistinct | pipeline/build_catalog.py:2015-2040 | positions are 0, 1, 2, ... and URLs are pairwise distinct |
| CatalogImages.ResolutionKeepsOrder | pipeline/build_catalog.py:2015-2040 | each row comes from the first entry to offer its URL, in source order |
| CatalogImages.EveryOfferIsKept | pipeline/build_catalog.py:2015-2040 | every usable entry's URL is there |
| CatalogImages.ImageStorageKey | pipeline/build_catalog.py:2051-2076 | the search ends, for any used keys, with the first free key of the sequence, under its product |
| CatalogImages.FallbacksDiffer | pipeline/build_catalog.py:2068-2075 | no key is tried twice |
| CatalogImages.ImageManifestRows | pipeline/build_catalog.py:2079-2115 | one row for each URL in order, positions 0, 1, 2, ..., each with the variant and resolution of the first entry that gives its URL, under the first free key; storage keys distinct; source URLs distinct exactly when no two URLs differ only in outer whitespace |
| CatalogImages.SourcesDistinctIff | pipeline/build_catalog.py:2092-2107 | the same of any such manifest |
| CatalogImages.KeysTellProducts | pipeline/build_catalog.py:2051-2076 | a key determines its product id, even for ids that contain slashes |
| CatalogImages.StageImages | pipeline/build_catalog.py:2574-2610 | with distinct product ids the duplicate check never fires; what is written has distinct keys |
| CatalogImages.ResolvedImagesReachManifest | pipeline/build_catalog.py:2015-2115 | what stage 2 resolved reaches the manifest whole |
| CatalogImages.UnstrippedUrlsRepeat | pipeline/build_catalog.py:2092-2107 | a URL given twice, once after a space, has two rows with one source URL |
| ImageAnswers.BestUrlIs | pipeline/build_catalog.py:333-339 | the best URL is the first http or https one in the order hi_res, large, thumb; none only when all three fail |
| ImageAnswers.RawUrlsIff | pipeline/build_catalog.py:2092-2097 | a manifest holds a URL exactly when some entry gives it |
| ImageAnswers.RawUrlsInOrder | pipeline/build_catalog.py:2092-2099 | URLs stand in the order in which they are first given |
| ImageAnswers.SlugOfWord | pipeline/build_catalog.py:1872-1875 | the slug of letters and digits is their lower case |
| ImageAnswers.SlugJoins | pipeline/build_catalog.py:1872-1875 | around any other character, a slug joins the slugs on both sides with one underscore, or is the one that is not empty |
| ImageAnswers.FirstKeyTried | pipeline/build_catalog.py:2065-2066 | the first key is the slug, or the position, under the product |
| ImageAnswers.LaterKeysTried | pipeline/build_catalog.py:2070-2075 | then the position is appended, and then a count |
| ImageAnswers.TwoDigitsAre | pipeline/build_catalog.py:2065-2075 | positions are written with two digits, or as many as they need |
| Money.FormatThenParse | packages/money/__init__.py:88-150 | every amount survives printing and parsing, with any supported currency or none, grouped or not |
| Money.ParseIsExact | packages/money/__init__.py:113-150 | parsing accepts exactly the decimals of at most two places, at their exact value |
| Money.UngroupNumber | packages/money/__init__.py:100-142 | removing separators undoes grouping |
| Money.SupportedIff | packages/money/__init__.py:36-42 | a currency is one of two codes, in any casing and padding |
| Money.FormatIs | packages/money/__init__.py:88-105 | a negative amount and an unknown currency are refused; otherwise the code, a space and the number |
| Money.NumberIs | packages/money/__init__.py:100-104 | the number is the amount in hundredths: a whole part without leading zeros, a point and two digits |
| Decimal.GroupedByThrees | packages/money/__init__.py:103 | commas stand before every third digit from the end of the whole part, and nowhere else |
| Money.CodeIsDropped | packages/money/__init__.py:133-138 | the currency's code may stand before the number in any casing, with or without a space |
| Money.SymbolIsDropped | packages/money/__init__.py:136-140 | so may the rupee sign for INR and the dollar sign for USD |
| Money.OtherSymbolIsRefused | packages/money/__init__.py:136-145 | the other currency's sign is refused |
| Money.PlainNumberIsKept | packages/money/__init__.py:133-141 | a number needs no mark |
| Text.StripCuts | packages/money/__init__.py:133 | stripping cuts off whitespace, all of it, and nothing else, at both ends |
| Money.WholeUnitsAre | packages/money/__init__.py:124-129 | a whole number counts major units; floats and booleans are refused |
| Money.TotalIff | packages/money/__init__.py:55-85 | a total is price times quantity plus shipping and tax less discount, exactly when none is negative, the quantity is at least one and the discount is covered |
| JsonText.EscapedTextReads | services/checkout/hash.py:69-73 | escaped text followed by a quote determines the text and what follows |
| JsonText.ScalarReads | services/checkout/hash.py:69-73 | so does a printed string or number followed by a separator |
| JsonText.PlainTextIsKept | services/checkout/hash.py:69-73 | printable ASCII but the quote and the backslash is printed as it is |
| JsonText.ShortEscapes | services/checkout/hash.py:69-73 | the seven escapes of one letter |
| JsonText.NumberEscapes | services/checkout/hash.py:69-73 | other control and non-ASCII characters are printed as their number in hexadecimal |
| JsonText.PairEscapes | services/checkout/hash.py:69-73 | those beyond the basic plane as their two UTF-16 code units |
| PriceHash.ProductIdIsNotHashed | services/checkout/hash.py:58-73 | a product id in the dict does not change the hash |
| PriceHash.PreimageIsInjective | services/checkout/hash.py:26-73 | two snapshots have the same preimage exactly when all nine factors agree |
| PriceHash.FactorsAreSorted | services/checkout/hash.py:45-73 | the factors are printed in the order sort_keys gives |
| PriceHash.PreimageText | services/checkout/hash.py:26-73 | what is hashed, from end to end: each of the nine factors under its own key |
| Base64Url.DecodeEncode | packages/security/tokens.py:113-124 | decoding an encoding is the identity on all byte strings |
| Base64Url.DecodesIffLengthFits | packages/security/tokens.py:117-124 | text over the alphabet decodes exactly when its length is not 1 modulo 4 |
| Base64Url.LettersOfAlphabet | packages/security/tokens.py:113-114 | the letters are those of the URL-safe alphabet, in its order |
| Base64Url.ThreeBytesAreFourDigits | packages/security/tokens.py:113-114 | three bytes are printed as the four base-64 digits of the number they make |
| Base64Url.ShortGroupsDropZeros | packages/security/tokens.py:113-114 | one or two bytes are printed as the first digits of the group that zeros fill up |
| Base64Url.EncodesByThrees | packages/security/tokens.py:113-114 | longer texts are printed three bytes at a time |
| Tokens.SplitThree | packages/security/tokens.py:180-190 | splitting undoes joining three segments |
| Tokens.SignedTokenDecodes | packages/security/tokens.py:138-226 | what was signed decodes to its claims, subject to length, type and time alone |
| Tokens.ClaimsNamePrincipal | packages/security/tokens.py:300-464 | the claims of an issued credential name exactly the issued principal |
| Tokens.IssuedTokenVerifies | packages/security/tokens.py:281-470 | the outcome of verifying an issued token, in every case |
| Tokens.AccessTokenRoundTrip | packages/security/tokens.py:342-470 | an access token of at most 4096 characters rebuilds its principal exactly in iat - 60 <= now < exp, and is no session value |
| Tokens.SessionTokenRoundTrip | packages/security/tokens.py:372-476 | a session value likewise, with every scope of its role, and is no access token |
| Tokens.RoundTripsHappen | packages/security/tokens.py:342-470 | for every request that is not refused, some library issues a token that fits and verifies |
| Tokens.AcceptedMeansSigned | packages/security/tokens.py:156-226 | any accepted text is signed over what it says, of the expected type, within its window |
| Tokens.AcceptedOnceRefusedLater | packages/security/tokens.py:205-224 | any accepted text is refused as the other type, and from its expiry on |
| Tokens.VerifiedWithinRole | packages/security/principals.py:112-143 | no verified credential exceeds its role; only buyers hold the checkout and payment scopes, only platform administrators the settlement scope, merchant roles nothing but the catalog |
| TokenAnswers.CredentialsStayWithinRole | packages/security/principals.py:49-143 | issued or verified, of either type: checkout and payment scopes only for a buyer, settlement only for a platform administrator, nothing but the catalog for merchant roles |
| TokenAnswers.IssuesIff | packages/security/tokens.py:281-406 | a credential is issued exactly when its request is whole, within its role and lives one second to a day (a session, to thirty days) |
| TokenAnswers.IssuedPrincipal | packages/security/tokens.py:281-406 | it grants the scopes that were asked for, or all of the role's when none were named (each role's set written out), to whom they were asked for |
| TokenAnswers.IssuedAtTheSecond | packages/security/tokens.py:300-301 | it is dated in whole seconds, rounded towards 1970 |
| TokenAnswers.ClaimsSay | packages/security/tokens.py:317-334 | what each claim of a credential says, as printed |
| TokenAnswers.RebuiltMeansSaid | packages/security/tokens.py:409-464 | the claims of any principal that is rebuilt say exactly what it is, scopes included |
| TokenAnswers.DecodesIff | packages/security/tokens.py:156-226 | a text decodes exactly when it is at most 4096 characters in three segments, signed under HS256, of the right type, not expired, and issued no more than a minute ahead |
| TokenAnswers.SplitJoins | packages/security/tokens.py:180 | the segments hold no dot and make up the text |
| Cache.KeysAreUnambiguous | packages/cache.py:260-274 | two colon-free namespaces share a key exactly for equal parts, or for none and one empty part |
| Cache.ColonInNamespaceIsAmbiguous | packages/cache.py:260-274 | a colon in a namespace makes keys collide |
| Cache.InMemoryCacheBackend.Get | packages/cache.py:120-129 | hits exactly unexpired entries, and removes an expired one |
| Cache.InMemoryCacheBackend.DropNamespace | packages/cache.py:135-140 | removes exactly the keys with the prefix, and counts them |
| Cache.CachedRead | packages/cache.py:312-359 | the read-through call is the function that the lemmas are about |
| Cache.Invalidate | packages/cache.py:362-377 | drops by prefix and answers how many of the entries it takes were there |
| Cache.NamespaceDrop | packages/cache.py:362-377 | a namespace is dropped whole but for its zero-part key, and no other namespace is touched |
| Cache.EntryDrop | packages/cache.py:362-377 | dropping by parts drops exactly the entries of the namespace whose suffix extends theirs, and by one empty part exactly those of the namespaces that extend it |
| Cache.KeyText | packages/cache.py:256-274 | a key is the version, the namespace and the parts between colons; a colon in a part is refused |
| Cache.SurvivesIff | packages/cache.py:362-377 | an entry survives an invalidation with its value exactly when it was there and is not taken: the namespace's entries with a suffix, those under the parts, or by one empty part those of the namespaces that extend it |
| Cache.InvalidationCounts | packages/cache.py:362-377 | exactly the taken entries go, and the answer is their number |
| Cache.CachedAnswers | packages/cache.py:312-359 | a live entry that reads is answered and stays; anything else is produced, and stored until its ttl from then if it prints |
| Cache.CallsKeepWellKeyed | packages/cache.py:260-377 | a store that only such calls write has only keys of colon-free namespaces |
| Cache.HitsAreExactlyWhatStands | packages/cache.py:98-140 | under a monotone clock a read hits exactly the last store of its key that is within its ttl and not dropped since |
| Cache.NoHitFromBeforeInvalidation | packages/cache.py:98-140 | no hit was stored before a completed invalidation of its namespace |
| CacheRuns.RunKeepsUpToDate | packages/cache.py:312-377 | when each write invalidates what it changes, a namespace or the suffixes under some parts, every entry with a suffix is the source's present value in print |
| CacheRuns.CachedAgreesIff | packages/cache.py:312-377 | after any such run a read with a suffix answers the source exactly when it misses or the value reads back |
| CacheRuns.SecondReadAgreesIff | packages/cache.py:334-359 | the second read of a cold key agrees with produce exactly when the value reads back |
| CacheRuns.DatesComeBackAsText | packages/cache.py:355-357 | a cached date is a date at first and text from then on |
| CacheRuns.NoSuffixGoesStale | packages/cache.py:260-377 | with no parts or one empty part, a read answers the value from before a write and its invalidation |
| CacheRuns.TraceIsKnown | packages/cache.py:312-359 | with calls in flight, every entry is what the source held when its call began, and has not been invalidated since it was stored |
| CacheRuns.ServedIsAnswered | packages/cache.py:334-359 | `cached` answers what is served, and otherwise what produce returns |
| CacheRuns.ServedIsCurrentIff | packages/cache.py:312-377 | what is served is current exactly when its produce ran after the last change of the entry |
| CacheRuns.StaleOnlyAcrossWrite | packages/cache.py:312-377 | with every write invalidated, it is current exactly when the call that stored it was not in flight across a change |
| CacheRuns.LateStoreServesOldValue | packages/cache.py:312-359 | a call in flight across a write stores the old value, and it is served |
| Cache.RedisCacheBackend.Get | packages/cache.py:192-215 | the server is tried only outside the cooldown, and a failure starts one |
| Cache.CooldownIsKept | packages/cache.py:168-202 | attempts after a failure are at least a cooldown apart, however the clock moves |
| Cache.AttemptsIff | packages/cache.py:168-202 | a call reaches the server exactly when every failed attempt before it is a cooldown old |
| Campaigns.EvaluateCampaign | services/campaigns/policy.py:24-120 | the loops report the broken rules and the passed ones as the texts are searched, and block exactly when a rule is broken |
| Campaigns.NoViolationsIffCompliant | services/campaigns/policy.py:24-120 | no violation is found exactly when every rule holds, conflicts with live and approved campaigns included |
| Campaigns.ViolationKinds | services/campaigns/policy.py:53-104 | a rule is reported as passed exactly when every item keeps it and none that breaks another has its word in the product id |
| Campaigns.WordInIdHidesRule | services/campaigns/policy.py:53-104 | an item with enough stock whose id holds the inventory rule's word hides that rule by breaking the discount rule |
| Campaigns.PlainIdsReportRules | services/campaigns/policy.py:87-104 | without such ids, exactly when every item keeps it |
| Campaigns.CampaignService.Propose | services/campaigns/service.py:269-305 | a proposal is blocked exactly when it does not comply with what is live or approved |
| Campaigns.CampaignService.SubmitForReview | services/campaigns/service.py:313-353 | refused from any status but draft and proposed |
| Campaigns.CampaignService.ApproveCampaign | services/campaigns/service.py:355-397 | refused outside proposed and review, or if the proposal was blocked |
| Campaigns.CampaignService.ActivateCampaign | services/campaigns/service.py:399-460 | refused unless approved and compliant at this moment |
| Campaigns.CampaignService.RejectCampaign | services/campaigns/service.py:462-493 | accepted from every status |
| Campaigns.CampaignService.PauseCampaign | services/campaigns/service.py:519-553 | refused unless active |
| Campaigns.CampaignService.CompleteCampaign | services/campaigns/service.py:555-590 | refused unless active or paused |
| Campaigns.ActiveCampaignsNeverOverlap | services/campaigns/service.py:313-590 | over any run, two live campaigns of one merchant share no product |
| Campaigns.LiveCampaignWasApproved | services/campaigns/service.py:355-460 | each live, paused or completed campaign was approved by an earlier call and then activated while compliant, and meets the stock and duration rules |
| Campaigns.CallsClimb | services/campaigns/service.py:313-590 | a lifecycle call raises the status rank, or repeats a rejection |
| Campaigns.RanksNeverFall | services/campaigns/service.py:313-590 | no run lowers a campaign's rank or changes its products |
| Campaigns.OverlappingApprovalsDeadlock | services/campaigns/service.py:355-444 | two approved campaigns that share a product block each other |
| Campaigns.DeadlockIsReached | services/campaigns/service.py:355-444 | a run gets there from any compliant proposal |
| CampaignAnswers.ProposalIsBlockedIff | services/campaigns/service.py:269-305 | a proposal is blocked exactly when it exceeds the ceiling, lasts under 1 or over 14 days, an item is over the ceiling, has under 3 in stock or a margin under 15, or its product is in a live or approved campaign of the merchant; otherwise it needs approval |
| CampaignAnswers.ViolationsAre | services/campaigns/policy.py:24-120 | every broken rule is reported for each item that breaks it, and no other |
| CampaignAnswers.CallsSucceedIff | services/campaigns/service.py:313-590 | when each of the six lifecycle calls succeeds |
| CampaignAnswers.CallsAreRefusedAs | services/campaigns/service.py:313-590 | what refuses a call; nothing changes then |
| CampaignAnswers.CallsLeave | services/campaigns/service.py:313-590 | the status and dates a call leaves on its campaign, everything else kept |
| CatalogPublication.CatalogVersionTable.AtomicPublish | services/catalog/repository.py:64-132 | two updates in order; answers whether the target is published afterwards |
| CatalogPublication.FalseMeansNothingPublished | services/catalog/repository.py:64-132 | afterwards the target is published or nothing of the merchant is |
| CatalogPublication.PublishesIff | services/catalog/repository.py:88-132 | it succeeds exactly for an own version that is published or can be promoted |
| CatalogPublication.UnknownTargetUnpublishes | services/catalog/repository.py:71-101 | an unknown target takes the catalog offline |
| CatalogPublication.RepublishChangesNothing | services/catalog/repository.py:71-132 | publishing the published version again changes nothing |
| CatalogPublication.RunKeepsOne | services/catalog/repository.py:64-132 | any run keeps at most one published version for a merchant, and leaves other merchants alone |
| CatalogPublication.PublishIs | services/catalog/repository.py:64-110 | what becomes of each version |
| CatalogImports.CatalogService.ValidateImport | services/catalog/service.py:517-618 | marks every row by its errors, in place; the import is valid exactly when no row is marked |
| CatalogImports.AllValidIffClean | services/catalog/service.py:557-612 | the counts say so: all rows are valid exactly when none breaks a rule |
| CatalogImports.ValidRowsAreClean | services/catalog/service.py:557-598 | rows marked valid break no rule and name their unit |
| CatalogImports.CatalogService.PublishImport | services/catalog/service.py:620-779 | adds what its valid rows name, links each row to its offer, and publishes the new version; products_created stays zero |
| CatalogImports.PublicationConserves | services/catalog/service.py:663-752 | one product for each distinct effective unit, one offer and one stock row for each valid row, of the product that carries its unit |
| CatalogImports.PublicationCounts | services/catalog/service.py:663-761 | product_count is valid_count plus needs_review_count, and no identifier is used twice |
| CatalogImports.PublicationKeepsTotals | services/catalog/service.py:742-751 | stock on offer sums to the rows' inventory |
| CatalogImports.NewVersionGoesLive | services/catalog/service.py:645-779 | the new version is its merchant's only published one |
| ImportAnswers.FieldErrors | services/catalog/service.py:557-589 | each field is in error exactly when it is missing or out of its range |
| ImportAnswers.CheckedIs | services/catalog/service.py:590-598 | a checked row is the staged row with its verdict |
| ImportAnswers.ValidRowsInOrder | services/catalog/service.py:663-669 | the rows taken over are exactly the valid ones, in their order |
| ImportAnswers.PublicationSaysItsRows | services/catalog/service.py:674-752 | each offer is on its own row's terms, each product is described by the first row of its unit, with the defaults written out |
| ImportAnswers.LinksAre | services/catalog/service.py:722-723 | each valid row is linked to its own offer; the others stay as they were |
| Webhooks.FailedWebhookTable.Reconcile | apps/worker/main.py:181-241 | one tick is one step of each entry on its own, at most fifty attempted |
| Webhooks.FailedWebhookTable.RetryItem | apps/worker/main.py:205-232 | the writes of one attempt, or a raise part way |
| Webhooks.BackoffHolds | apps/worker/main.py:194-241 | counted attempt k + 1 comes at least 5 * (2^k - 1) minutes after the first, and counts never exceed the maximum |
| Webhooks.RaisingTickChangesNothing | apps/worker/main.py:232-241 | a tick that raises leaves the entry unchanged |
| Webhooks.RestingEntryStays | apps/worker/main.py:194-204 | an entry without a retry date, resolved or exhausted is never touched |
| Webhooks.SelectedIff | apps/worker/main.py:194-204 | a tick attempts the first fifty entries that may be retried, and no other |
| Webhooks.TickIs | apps/worker/main.py:205-241 | an attempt is counted unless it raises: it resolves the entry, or puts the next one off |
| Webhooks.DelaysDouble | apps/worker/main.py:227-229 | the first refusal puts it off by five minutes, each later one by twice as long as the one before |

## Left out

- Payments, orders, the webhook processor, policy evaluation and offer management: a payment is not created here; the policy's decision, the reply of the processor and the offers are inputs of any value.
- The product row behind an offer: it is taken to exist wherever the offer and its inventory row do.
- The codes that refine a policy block (amount, category, merchant) are one error.
- Buyer rows (`_ensure_buyer`) and the checkout item row: they carry no state the modelled operations read back, except the quantity, which is on the checkout here.
- Status texts in the commerce tables: they are canonical tokens there; that runs on text in any casing simulate tokens is proved in `StatusRefinement.dfy`.
- Audit rows other than status changes carry only their kind and identifiers; correlation ids and payloads are not modelled.
- Case folding, stripping of whitespace and decimal digits beyond ASCII letters and digits; Python's limit on integer text.
- Database mechanics: locks, isolation levels and SQL text. A unit of work is modelled as one after another; two workers sweep disjoint rows.
- The pipeline's completeness score, subcategory and other columns of a candidate are one parameter of the record; progress printing, the summary and the check that output lies outside the raw directory are left out, as is the decompression of the source files.
- Stage 3's per-line parsing, its counters and its completion flag; a product whose images are not a list is read as having none.
- The Redis campaign store, campaign titles, estimates and the catalog search behind a proposal: its items are an input.
- `import_catalog_artifacts`, the parsing of CSV cells, the images of a CSV product beyond their URL, error texts and summaries.
- A cache store that raises: `cached` then behaves as if it had missed.
- The Redis cache's connection object and its lock; the process-wide backend variable.
- Constant-time comparison, key strength and the secrecy of tokens.
