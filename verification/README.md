# A Dafny model of the marketplace backend

This project models the parts of the backend whose correctness is not visible from any single function, and proves
what they promise. Every module stands for one component.

* **Pagination** (`Keyset`, `KeysetWalk`, `TokenWalk`, `Feed`, `FeedWalk`, `FeedFacts`, `Search`, `SearchWalk`,
  `SearchFacts`). The Home Feed, Discover and Search answer a request by taking at most `k` rows from each of two
  tables after a cursor, merging, sorting and cutting. `Keyset` says what the answer has to be without any of that:
  the first `k` keys of the whole union after the cursor. The services are proved to give that answer, the two tiers
  of the Home Feed are proved to be one order, and whole walks are followed page by page, on a fixed database and on
  one whose rows come and go.
* **Cursor tokens** (`Decimal`, `IsoTime`, `FlatJson`, `Base64Url`, `CursorText`, `FeedCursors`, `SearchCursors`,
  `CursorFacts`). Printer and parser of the tokens, from the fields down to unpadded URL-safe base64 (sections 3.2 and
  5 of RFC 4648), including the trailing line break the token pattern lets through.
* **Payments** (`Money`, `Payments`, `PaymentRuns`, `PaymentHistory`, `Reconcile`, `PaymentFacts`). The records, the
  event processor with every branch it has, the initiation of a payment and the daily reconciliation; an invariant
  over every run; the verdict on any delivery of events in any order.
* **Featured subscriptions** (`Subscriptions`, `SubscriptionRuns`, `SubscriptionFacts`). Activation and deactivation,
  first in one piece and then as transactions of several statements with row locks and READ COMMITTED reads. Every
  interleaving is proved equal to running the committed calls one after another.
* **Translation catalogues** (`Utf8`, `MoFile`, `MoCompiler`, `MoFacts`, `PoParser`, `Catalog`, `PoText`). The
  line-driven .po parser, the .mo writer with its offset arithmetic, the format and its binary search (section 10.3 of
  the GNU gettext manual), and the order of UTF-8 (section 3 of RFC 3629) that makes the search work.
* **Categories** (`CategoryTree`, `CategoryForest`, `CategoryFacts`, `NameSlug`, `CategorySlug`, `SlugFacts`). The
  forest built through shared mutable nodes, equal to the naive recursive definition at every depth; Django's
  `slugify` and the slug loop.
* **Moderation** (`Moderation`, `ModerationRuns`, `ModerationFacts`). Decisions under a row lock while creations,
  transcodes, edits and deletions save stale copies of whole rows.
* `Publication`: the statuses of posts and reels and when the public sees them, for the feeds and for moderation.
* `Bytes`, `Text`, `Wrappers`: bytes, a few string operations of the Python runtime and the stock result types.

The modules whose names end in `Facts`, and `PoText`, say once more what each component does, in the fields of the
rows, the characters of the text or the bytes of the file, and without the functions the component is built from:
which rows a screen shows and in which order, what one event changes, how long a purchase lasts, what a written .po
file is read as. They are proved equivalent to those functions, so that a mistake in one of these cannot pass unseen.

Two statements a reader might expect do not hold, and the exact condition is proved instead.

* The slug loop does not always stop within one probe per existing slug plus one. A base of full length that ends in a
  counter of its own is tried twice; `CategorySlug.ProbesBound` says that this is the only case. A name can lead there
  because `slugify` decomposes characters: 46 times the ligature U+FB03 and "-2" are 48 of the 100 characters the
  `name` column takes, and 140 characters as a slug. `CategorySlug.OneSlugThreeProbes` shows the three probes with
  that one slug taken. Shorter bases, and so all ASCII names, meet the bound (`CategorySlug.ShortBasesMeetBound`,
  `CategorySlug.AsciiNamesMeetBound`). Two more probes than slugs are always enough.
* Marking a payment failed after its initiation is two saves in no transaction, of rows loaded earlier. The invariant
  of the payment records survives the first save exactly if no event completed the payment in the meantime
  (`PaymentRuns.MarkPaymentFailedKeepsInvIff`), and the second exactly if no event completed the transaction
  (`PaymentRuns.MarkTxnFailedKeepsInvIff`). `PaymentHistory.LateFailureLosesCompletion` and
  `PaymentHistory.SuccessBetweenSavesLosesTransaction` give a run for each that breaks it. Between the two saves a
  FAILED payment still has its untouched row.

Python exceptions and error answers are `Result` and `Option` values. Time, the gateway's answers, the outcome of a
transcoding, text-search hits, the text form of floats, `ast.literal_eval` and the compatibility decomposition of
characters are parameters.

## Model

| member | source | states |
|---|---|---|
| `Keyset.FirstAfterUnique` | feed/services.py:195-196 | a page is determined by the rows, the cursor and the limit alone |
| `Keyset.PageIsSliceOfRanking` | feed/services.py:169-196 | the page after the i-th key is the next slice of the one sorted list of everything |
| `Keyset.MergeIsExact` | feed/services.py:186-196 | the first k of each of two sources, merged and cut to k, are the first k of the union after the cursor |
| `Keyset.SourcePage` | feed/services.py:189-193 | filtering after the cursor, ordering and limiting one table gives its first k keys after the cursor |
| `KeysetWalk.ServedDescends` | feed/services.py:239-290 | over changing rows, everything a walk serves is in strictly descending key order, so nothing comes twice |
| `KeysetWalk.ServedUnlessAfter` | feed/services.py:239-290 | a row present at every request is served unless it lies after the last key served |
| `KeysetWalk.FinishedWalkServesAll` | feed/services.py:239-290 | a finished walk has served every row that was there all along |
| `KeysetWalk.FixedRowsWalkIsRanking` | feed/services.py:239-290 | on fixed rows a finished walk is the ranking of all rows |
| `KeysetWalk.ServedIsPrefix` | feed/services.py:239-290 | on fixed rows a walk has served the ranking from its start, and all of it once a page is not full |
| `KeysetWalk.WalkLength` | feed/services.py:283-288 | over n fixed rows with pages of p no walk gets beyond n / p + 1 requests, and it has finished exactly if it made that many |
| `KeysetWalk.NoRowTwice` | feed/services.py:239-290 | while rows keep their keys none is served twice, whatever comes and goes |
| `KeysetWalk.NoRowMissed` | feed/services.py:239-290 | a row present at every request of a finished walk is served |
| `TokenWalk.TokensMakeKeysetWalk` | feed/services.py:239-290 | sending next_cursor back makes any service of answered keyset pages a keyset walk, ended exactly by a missing token |
| `TokenWalk.PageCount` | feed/services.py:283-290 | on a fixed database of n rows the token is missing exactly on request n / p + 1, and no walk gets beyond it |
| `Feed.FollowingFilterIsKeyOrder` | feed/services.py:125-145 | the following tier's "rows after" filter holds exactly of rows whose sort key is below the cursor's |
| `Feed.BackfillFilterIsKeyOrder` | feed/services.py:148-166 | the same for the Featured-first tier |
| `Feed.SelectIsPastOnly` | feed/services.py:190-193 | the filtered query keeps exactly the rows of the tier past the cursor |
| `Feed.FetchTable` | feed/services.py:187-193 | one table contributes its ordered, limited rows as entries appended to the list |
| `Feed.FetchTier` | feed/services.py:186-196 | the merged answer of a tier is the first k of all its visible rows after the cursor |
| `Feed.FetchFollowingTier` | feed/services.py:169-196 | refuses a cursor of the other phase; otherwise the first k rows of the followed businesses |
| `Feed.FetchBackfillTier` | feed/services.py:199-236 | refuses a cursor of the other phase; otherwise the first k rows of the businesses not excluded |
| `Feed.TwoTiersAreOnePage` | feed/services.py:264-281 | followed items topped up from the backfill are one page of a single order |
| `Feed.TokenIsNext` | feed/services.py:283-288 | a full page always carries the token of its last item |
| `Feed.GetHomeFeed` | feed/services.py:239-290 | error cases exactly as listed, else the first page_size of everything the screen shows after the cursor, with the next token; `FeedFacts` says in row fields what is shown, in which order and where the cursor lies |
| `Feed.GetDiscoverFeed` | feed/services.py:293-339 | the same for the backfill tier alone, refusing following cursors |
| `FeedWalk.FeedWalkIsTokenWalk` | feed/services.py:239-290 | every answered feed walk is a walk over one order, across tiers and tables, resumed by its tokens |
| `FeedWalk.NothingServedTwice` | feed/services.py:239-290 | rows may come and go between requests: no walk serves an item twice |
| `FeedWalk.NothingMissed` | feed/services.py:239-290 | an item visible during a whole finished walk is served |
| `FeedWalk.FixedDatabaseWalk` | feed/services.py:264-290 | on a fixed database: the followed items sorted, then the rest Featured-first, for any page sizes |
| `FeedWalk.PagesNeeded` | feed/services.py:283-290 | on a fixed database where the screen shows n items, in pages of p: no walk gets beyond n / p + 1 pages, and it ends exactly on that one |
| `FeedWalk.OneKeyPerItem` | feed/services.py:64-122 | the keys of a screen count its items: two shown items have one key exactly if they are the same |
| `FeedFacts.ShownInFields` | content/models.py:30-38 | a screen shows exactly the published, undeleted and, if reels, ready rows: on Home of followed businesses, on both of the others but the viewer's own |
| `FeedFacts.OrderInFields` | feed/services.py:110-122 | followed first, then featured, then newer, of one moment reels before posts, then the higher id |
| `FeedFacts.BehindInFields` | feed/services.py:125-166 | which items lie behind a cursor, in the fields of both |
| `FeedFacts.RefusedInFields` | feed/services.py:249-319 | a page size outside 1 to 50, a token that does not decode, and on Discover a following cursor are refused, and nothing else |
| `FeedFacts.TokenInFields` | feed/services.py:283-290 | a page carries a token exactly if it is full: the encoded fields of its last item |
| `FeedFacts.PageInFields` | feed/services.py:239-339 | every answered page is in order and holds only shown items behind the cursor, and no such item is left out that is ahead of one on it or for which there was room |
| `FeedFacts.FixedWalkInFields` | feed/services.py:239-339 | on a fixed database a finished walk serves exactly the rows the screen shows, each once, in order |
| `FeedFacts.ChangingWalkInFields` | feed/services.py:239-339 | rows may come and go between requests: nothing is served twice and the order holds across pages |
| `FeedFacts.AlwaysShownIsServed` | feed/services.py:239-339 | what is shown at every request of a finished walk is served |
| `Search.RowsAfterIsKeyOrder` | search/services.py:197-221 | the pushed-down filter holds exactly of results whose key is below the cursor's, in both modes |
| `Search.FetchEntries` | search/services.py:268-348 | one table contributes its matching rows after the cursor, ordered and limited |
| `Search.MergedItems` | search/services.py:378-397 | the merged list is the first k of all matches after the cursor |
| `Search.GetSearchResults` | search/services.py:351-403 | error cases as listed, else the first page_size of everything that matches after the cursor, with the next token |
| `Search.TokenIsNext` | search/services.py:399-401 | a full page always carries the token of its last result |
| `SearchWalk.SearchWalkIsTokenWalk` | search/services.py:351-403 | every answered search walk is a walk over one order, resumed by its tokens |
| `SearchWalk.ResultsDescend` | search/services.py:187-194 | results descend strictly in (featured, secondary, rank, id) across pages |
| `SearchWalk.NothingServedTwice` | search/services.py:351-403 | rows may come and go between requests: no walk serves a business or product twice |
| `SearchWalk.NothingMissed` | search/services.py:351-403 | a business or product that matches during a whole finished walk is served |
| `SearchWalk.AllMatchesOnce` | search/services.py:376-403 | on a fixed database the pages together are the sorted union of all matches, nothing repeated or skipped |
| `SearchWalk.EveryMatchServed` | search/services.py:376-403 | on a fixed database every business or product that matches is served |
| `SearchWalk.PagesNeeded` | search/services.py:399-403 | on a fixed database with n matches, in pages of p: no walk gets beyond n / p + 1 pages, and it ends exactly on that one |
| `SearchWalk.OneKeyPerMatch` | search/services.py:187-194 | the keys of a search count its matches |
| `SearchFacts.FoundInFields` | search/services.py:224-348 | a search finds exactly the undeleted businesses and undeleted active products that pass every filter given, prices and ratings inclusive, and are hit by the words if there are any |
| `SearchFacts.OrderInFields` | search/services.py:187-194 | featured first, then the higher rank or the newer, of equals products before businesses, then the higher id |
| `SearchFacts.RequestInFields` | search/services.py:372-373 | the query is stripped, and with nothing left the order is by recency |
| `SearchFacts.RefusedInFields` | search/services.py:369-376 | a page size outside 1 to 50 and a token that does not decode in the mode of the search are refused, and nothing else |
| `SearchFacts.TokenInFields` | search/services.py:399-403 | a page carries a token exactly if it is full: the encoded fields of its last result, in the mode of the search |
| `SearchFacts.PageInFields` | search/services.py:351-403 | every answered page is in order and holds only results behind the cursor, and none is left out that is ahead of one on it or for which there was room |
| `SearchFacts.FixedWalkInFields` | search/services.py:351-403 | on a fixed database a finished walk serves exactly what the search finds, each result once, in order |
| `SearchFacts.AlwaysFoundIsServed` | search/services.py:351-403 | what is found at every request of a finished walk is served |
| `IsoTime.InstantOrder` | feed/services.py:125-145 | instants compare as the timestamps do, field by field from the year down |
| `IsoTime.InstantInjective` | feed/services.py:143-145 | instants are equal only for equal timestamps, so equality of keys is equality of timestamps |
| `IsoTime.FromIsoInvertsIsoFormat` | feed/cursor.py:112-163 | a timestamp printed in ISO form is read back |
| `FlatJson.LoadsInvertsDumps` | feed/cursor.py:118-133 | compact JSON of flat members is read back as the same object |
| `Base64Url.DecodeInvertsEncode` | feed/cursor.py:119-132 | unpadded URL-safe base64 is read back, with the padding recomputed |
| `Base64Url.EncodeLength` | feed/cursor.py:119 | the exact length of an encoded token |
| `FeedCursors.TokenFits` | feed/cursor.py:108-119 | a token of a valid cursor with id below 2^63 has at most 512 characters of the URL-safe alphabet |
| `FeedCursors.DecodeInvertsEncodeCursor` | feed/cursor.py:108-169 | decoding an encoded feed cursor gives it back |
| `FeedCursors.AcceptedCursorsAreWellFormed` | feed/cursor.py:122-169 | whatever token is accepted, the cursor meets every constructor check |
| `FeedCursors.TokenCodecIsLawful` | feed/cursor.py:108-169 | the codec the walks rely on is this one |
| `SearchCursors.TokenFits` | search/cursor.py:127-141 | a search token fits the limit and the alphabet |
| `SearchCursors.DecodeInvertsEncodeCursor` | search/cursor.py:127-206 | decoding an encoded search cursor in its own mode gives it back |
| `SearchCursors.OtherModeRefuses` | search/cursor.py:166-174 | a token of one mode is refused in the other |
| `SearchCursors.AcceptedCursorsAreWellFormed` | search/cursor.py:144-206 | whatever token is accepted, the cursor meets every constructor check and has the expected mode |
| `SearchCursors.TokenCodecIsLawful` | search/cursor.py:127-206 | the codec the search walks rely on is this one |
| `CursorFacts.SymbolsInOrder` | feed/cursor.py:119 | the 64 symbols are the capitals, the small letters, the digits, minus and underline, in this order |
| `CursorFacts.GroupInBits` | feed/cursor.py:119 | the bits of one to three bytes are the bits of their two to four symbols |
| `CursorFacts.EncodedOneByOne` | feed/cursor.py:119 | groups of three bytes are encoded one after another |
| `CursorFacts.GroupFromBits` | feed/cursor.py:132 | and decoded from the same bits, those that make no byte being dropped |
| `CursorFacts.DecodableInLengths` | feed/cursor.py:132 | symbols decode unless a single one is left over |
| `CursorFacts.DecodableWithLineFeed` | feed/cursor.py:73-132 | with the final line feed the pattern lets through, only if none is |
| `CursorFacts.IsoInCharacters` | feed/cursor.py:112 | a timestamp is printed as YYYY-MM-DDTHH:MM:SS, the fraction if there is one, and +00:00 |
| `CursorFacts.TimesAreRead` | feed/cursor.py:160-163 | a text of this shape is read as the time it shows if there is one, and any other is left to the library |
| `CursorFacts.TokensAreBase64` | feed/cursor.py:108-119 | a token is the base64 of the payload, written out member by member for both formats |
| `CursorFacts.LoadedWasThere` | feed/cursor.py:133 | what is read without the library is an object whose members are those spelled out in the braces |
| `CursorFacts.AcceptedFeedTokens` | feed/cursor.py:122-169 | a feed token is accepted exactly if its keys, version, names and flag are those written, its id is positive and its time is one |
| `CursorFacts.AcceptedSearchTokens` | search/cursor.py:144-206 | a search token likewise, and only in its own mode |
| `Money.RoundHalfUp` | payments/webhooks.py:56-58 | the nearest integer, halves away from zero |
| `Money.CentsAreExact` | payments/gateways/paymob.py:76-79 | for two-decimal prices the cents lose nothing |
| `Money.DistinctPricesDistinctCents` | payments/webhooks.py:56-67 | distinct two-decimal prices have distinct cents |
| `Payments.OnePriceIsPaid` | payments/webhooks.py:61-67 | an event for the cents sent to the gateway matches that price and no other |
| `Payments.MerchantReferenceComesBack` | payments/gateways/paymob.py:105-110 | a merchant reference sent out is resolved to its payment when it comes back |
| `Payments.FindId` | payments/webhooks.py:134-138 | finds a row with the gateway id if there is one |
| `Payments.FirstOpen` | payments/webhooks.py:159-168 | finds the first row of the payment no event has touched |
| `Payments.LastByReference` | payments/webhooks.py:80-88 | finds the newest payment with the gateway reference |
| `Payments.PaymentStore.ProcessWebhookEvent` | payments/webhooks.py:100-229 | the stepwise code changes the tables as the event function says, in every branch; `PaymentFacts` says in fields what that is |
| `Payments.PaymentStore.InitiateSubscriptionPayment` | payments/services.py:37-89 | both rows are created, then the reference is recorded or both are marked failed, the payment before its transaction; in fields: the one payment and the one transaction added |
| `PaymentRuns.ProcessKeepsInv` | payments/webhooks.py:100-229 | the event processor keeps the invariant of the records |
| `PaymentRuns.CreateKeepsInv` | payments/services.py:57-67 | a new payment keeps it and starts with one untouched row |
| `PaymentRuns.RecordReferenceKeepsInv` | payments/services.py:87-88 | recording the reference keeps it |
| `PaymentRuns.MarkPaymentFailedKeepsInvIff` | payments/services.py:31-32 | the first save of a failure marking keeps it exactly if the payment is not COMPLETED |
| `PaymentRuns.MarkTxnFailedKeepsInvIff` | payments/services.py:33-34 | the second save, on a payment no longer PENDING, keeps it exactly if the transaction is not COMPLETED |
| `PaymentRuns.MarkedInFull` | payments/services.py:30-34 | with no event in between the two saves leave a FAILED payment with a FAILED row, and the invariant |
| `PaymentRuns.PendingIffUntouched` | payments/webhooks.py:157-168 | unless it stands between the two saves of a failure marking, a payment is PENDING exactly if its only transaction is its untouched row without an id |
| `PaymentRuns.CompletedMeansPaidOnce` | payments/webhooks.py:200-220 | COMPLETED means one completed transaction and one activation, anything else means none of either |
| `PaymentHistory.RunKeepsInv` | payments/webhooks.py:100-229 | the invariant holds after every run of initiations, deliveries and single saves of failure markings, no save overtaken by a success of its payment |
| `PaymentHistory.PendingIffUntouchedInRuns` | payments/services.py:30-34 | over whole runs: PENDING exactly if untouched, for every payment whose marking is not between its two saves |
| `PaymentHistory.SnapshotsAreKept` | payments/webhooks.py:170-185 | all transactions of a payment carry the price and currency of its initiation |
| `PaymentHistory.ActivationsAreBacked` | payments/webhooks.py:187-220 | every activation goes back to a delivered final success that matches the price and currency of the initiation; `PaymentFacts.EveryActivationWasPaid` says it in numbers and letters |
| `PaymentHistory.CompletedForever` | payments/webhooks.py:200-228 | COMPLETED is never left |
| `PaymentHistory.CompletedIffPaid` | payments/webhooks.py:100-229 | over whole runs a payment is COMPLETED exactly if some delivery paid for it, whatever happened to others |
| `PaymentHistory.LateFailureLosesCompletion` | payments/services.py:75-85 | initiation, success, then the first save of a failure marking: a possible run, and the payment ends FAILED although it was activated |
| `PaymentHistory.SuccessBetweenSavesLosesTransaction` | payments/services.py:30-34 | initiation, first save, success, then the second save: the payment ends COMPLETED and activated with no completed transaction |
| `PaymentHistory.DeliveryVerdict` | payments/webhooks.py:100-229 | any events of one payment: COMPLETED exactly if one pays exactly, else FAILED exactly if one fails, activated once |
| `PaymentHistory.OrderDoesNotMatter` | payments/webhooks.py:100-229 | status and activations do not depend on order, time or repetition of the events |
| `PaymentHistory.ProcessIsIdempotent` | payments/webhooks.py:140-146 | a second delivery of an event changes nothing and activates nothing |
| `PaymentFacts.MatchInFields` | payments/webhooks.py:56-67 | an event matches exactly if its cents are the price in cents, halves away from zero, and the currency codes agree letter by letter up to case |
| `PaymentFacts.ResolveInFields` | payments/webhooks.py:70-97 | an event belongs to the payment of its transaction id; else to the newest one with its order id; else to the one its merchant reference numbers |
| `PaymentFacts.UnnamedChangesNothing` | payments/webhooks.py:114-125 | a final event that belongs to no payment changes nothing |
| `PaymentFacts.DuplicateChangesNothing` | payments/webhooks.py:140-146 | nor does one whose transaction is completed |
| `PaymentFacts.MismatchChangesNothing` | payments/webhooks.py:187-198 | a final success over other cents or another currency leaves everything as it was and activates nothing |
| `PaymentFacts.ExactSuccessActivates` | payments/webhooks.py:148-220 | a final success over the exact price is recorded on one row, completes the payment and activates once; on a COMPLETED payment it is ignored, and a failing activation undoes all |
| `PaymentFacts.FailureIsRecorded` | payments/webhooks.py:148-229 | a final failure is recorded on one row, fails a PENDING payment and no other, and activates nothing |
| `PaymentFacts.EveryActivationWasPaid` | payments/webhooks.py:187-220 | over whole runs: every activation goes back to a delivered final success over exactly the cents and the currency of the initiation |
| `PaymentFacts.EventsDecide` | payments/webhooks.py:100-229 | any new events about one payment decide its status and activation, in the fields of the events |
| `PaymentFacts.UnderwayInSteps` | payments/services.py:30-34 | in a possible run a payment is between the two saves of its failure marking exactly if some step was the first save and no later step the second |
| `Reconcile.SkippedIffAlwaysIgnored` | payments/gateways/base.py:55-64 | the answers with status pending are exactly those the event processor ignores in every state |
| `Reconcile.PendingSubscriptions` | payments/tasks.py:81-102 | each payment with a stuck transaction is asked about once, oldest first |
| `Reconcile.AskedArePending` | payments/tasks.py:87-95 | in a reachable state those are the PENDING payments initiated up to the cutoff |
| `Reconcile.Handle` | payments/tasks.py:122-157 | only final answers change anything; one answer is skipped exactly if the gateway names no transaction or none final, and an error exactly if the gateway failed or the processing raised |
| `Reconcile.ReconcilePendingTransactions` | payments/tasks.py:105-160 | the run equals delivering the final answers as webhooks in order; errors are the answers not reached and the deliveries that raise, processed the deliveries that do not, skipped the rest |
| `Reconcile.NoFaultNoError` | payments/tasks.py:140-157 | if no activation raises, no delivery is counted as an error |
| `Reconcile.OnlyFinalAnswersMatter` | payments/tasks.py:132-139 | delivering the other answers too would make no difference |
| `Reconcile.SweepSettles` | payments/tasks.py:105-160 | after a run each payment asked about is where its own answer puts it |
| `PaymentFacts.AskedByAge` | payments/tasks.py:81-102 | over whole runs: asked about are exactly the PENDING payments initiated up to the cutoff |
| `PaymentFacts.AskedInOrder` | payments/tasks.py:93-101 | each once, in the order in which they were initiated |
| `PaymentFacts.CountersInFields` | payments/tasks.py:120-138 | the payments left alone and those the gateway was not reached for, counted |
| `PaymentFacts.AnswersDecide` | payments/tasks.py:105-160 | after a run each payment asked about is where its own answer puts it, in the fields of the answer |
| `Subscriptions.SubscriptionStore.SyncBusinessFeaturedFlag` | monetization/services.py:33-61 | recomputes the flags of the given businesses and no others |
| `Subscriptions.SubscriptionStore.ActivateSubscription` | monetization/services.py:78-112 | the stepwise code equals the activation in one piece, which `SubscriptionFacts.ActivationInFields` gives field by field; a missing business changes nothing |
| `Subscriptions.SubscriptionStore.DeactivateSubscriptions` | monetization/services.py:115-153 | the stepwise code equals the deactivation in one piece, and returns the number of active rows among those asked for |
| `Subscriptions.SubscriptionStore.ExpireFeaturedSubscriptions` | monetization/tasks.py:50-67 | deactivates the expired active rows and counts them |
| `Subscriptions.ActivateKeepsConsistent` | monetization/services.py:98-112 | keeps the active row the newest and the flags right, loses no row, leaves the new row active |
| `Subscriptions.DeactivateKeepsConsistent` | monetization/services.py:129-153 | keeps the same and deactivates exactly the rows asked for |
| `Subscriptions.SyncRepairsFlags` | monetization/services.py:33-61 | recomputing the flags of every business whose rows changed makes all flags right |
| `Subscriptions.ExpiryIsExact` | monetization/tasks.py:50-67 | afterwards no active row has expired, other rows are untouched, and a second run finds nothing |
| `SubscriptionFacts.ActivationInFields` | monetization/services.py:98-112 | the new row runs from now for 86400 seconds a day, the business has no other active row and is flagged, and nothing else changes |
| `SubscriptionFacts.DeactivationInFields` | monetization/services.py:129-153 | exactly the rows asked for become inactive, and a business stays flagged exactly if it has another active row |
| `SubscriptionFacts.ExpiryInFields` | monetization/tasks.py:50-67 | rows end exactly from their last moment on, and a business stays flagged exactly if it has a row that runs on |
| `SubscriptionFacts.PurchaseLastsItsDays` | monetization/models.py:78-86 | a purchase of d days at t is active and shown exactly before t + 86400 d, whenever the expiry job runs |
| `SubscriptionRuns.CommitIsAtomic` | monetization/services.py:98-153 | whatever ran in between, a commit changes the tables as the whole call run at that moment would |
| `SubscriptionRuns.ConstraintNeverFires` | monetization/models.py:60-70 | the insertion of an activation never meets another active row, committed or not |
| `SubscriptionRuns.StepKeepsWorldOk` | monetization/services.py:98-153 | every statement, commit and abort keeps the invariant; only commits change what is committed |
| `SubscriptionRuns.RunsAreConsistent` | monetization/services.py:33-153 | after every interleaving: at most one active row per business, the newest, and flag = active row exists |
| `SubscriptionRuns.RunsLoseNothing` | monetization/services.py:85-87 | no committed row is ever lost, changed otherwise than by deactivation, or reactivated |
| `SubscriptionRuns.RunsAreSerializable` | monetization/services.py:98-153 | every interleaving leaves the tables as the committed calls run one after another |
| `SubscriptionRuns.NoDeadlock` | monetization/services.py:139-146 | while a transaction is open some open transaction can take its next step |
| `SubscriptionFacts.RunsInFields` | monetization/services.py:33-153 | after every interleaving: of the rows of a business only the newest can be active, and it is flagged exactly if one is |
| `SubscriptionFacts.RowsStay` | monetization/services.py:85-87 | a committed row keeps its business, plan and dates for good and never becomes active again |
| `SubscriptionFacts.UndisturbedPurchase` | monetization/services.py:98-112 | a purchase of a business nobody has locked can be taken to its commit, which does what one call does |
| `SubscriptionFacts.UndisturbedRetirement` | monetization/services.py:129-153 | so can a deactivation of any rows, lock by lock |
| `SubscriptionFacts.CollectInFields` | monetization/services.py:130-138 | a deactivation takes up the active rows among those asked for and sets out to lock their businesses; with none it is over |
| `Utf8.EncodeKeepsOrder` | core/i18n_tools.py:80-88 | sorting by code points is sorting by UTF-8 bytes |
| `Utf8.EncodeReflectsOrder` | core/i18n_tools.py:80-88 | and conversely, and distinct texts have distinct encodings |
| `Utf8.ZeroOnlyFromNul` | core/i18n_tools.py:85-89 | an encoding contains a zero byte exactly if the text contains NUL |
| `MoFacts.CharInBytes` | core/i18n_tools.py:85-86 | one to four bytes by the size of the code point, which their bits make up (section 3 of RFC 3629) |
| `MoFacts.LessInPositions` | core/i18n_tools.py:80 | one sequence sorts before another if it is a proper beginning of it or smaller at the first difference |
| `MoFile.Search` | core/i18n_tools.py:78-101 | the look-up the written layout is for: binary search over a well-formed file finds the id or shows that no original equals it |
| `MoFile.NulTerminatedReading` | core/i18n_tools.py:88-89 | a reader that stops at the first NUL sees a stored string exactly if it contains none |
| `MoCompiler.KeyOrderIsUnique` | core/i18n_tools.py:79-80 | the sorted keys, and so the file, are determined by the catalogue |
| `MoCompiler.SortedKeys` | core/i18n_tools.py:80 | the keys in strictly ascending order, each once |
| `MoCompiler.EncodeEntries` | core/i18n_tools.py:81-89 | the first loop: both string areas and where each string lies, or failure exactly at a surrogate |
| `MoCompiler.IndexTables` | core/i18n_tools.py:94-98 | the second loop: both tables of lengths and absolute offsets |
| `MoCompiler.BuildMo` | core/i18n_tools.py:78-101 | fails exactly for surrogates or values beyond 31 bits, and otherwise gives the compiled layout |
| `MoCompiler.SmallFilesFit` | core/i18n_tools.py:99-100 | a catalogue of less than 2^31 bytes always fits |
| `MoCompiler.CompiledIsWellFormed` | core/i18n_tools.py:78-101 | offsets in range, strings terminated, ids strictly ascending in bytes, entries in place, in either byte order |
| `MoCompiler.LookupIsTheCatalogue` | core/i18n_tools.py:78-101 | look-up in the file finds the string of every id of the catalogue and nothing for other bytes |
| `MoFacts.FileInBytes` | core/i18n_tools.py:91-101 | the file byte by byte: magic number, header, both tables, and every string where its table says, in either byte order |
| `MoFacts.FormatInBytes` | core/i18n_tools.py:91-101 | the format the look-up relies on, byte by byte: magic number, revision 0, tables and terminated strings in range, originals strictly ascending |
| `MoFacts.LookupInBytes` | core/i18n_tools.py:91-101 | look-up gives the translation of the original that equals the id, and nothing if none does |
| `MoFacts.OnlyLargeFilesAreRefused` | core/i18n_tools.py:99-100 | a catalogue is refused for its size only from two gigabytes on |
| `MoFacts.OnlySurrogatesAreRefused` | core/i18n_tools.py:85-86 | and for its characters exactly if it contains a surrogate |
| `PoParser.ParsePo` | core/i18n_tools.py:32-75 | the loop equals the line-by-line state machine, errors included; `PoText` says what that machine makes of written text |
| `PoParser.UnsupportedLineFails` | core/i18n_tools.py:72-73 | a text with an unsupported line never parses |
| `PoParser.OneBlock` | core/i18n_tools.py:48-71 | one entry block adds its joined id and string, or nothing if fuzzy or untranslated, wherever the parser stands |
| `PoParser.ParserReadsBlocks` | core/i18n_tools.py:32-75 | for every text made of supported blocks the parser gives the block-by-block reading |
| `PoParser.LastBlockWins` | core/i18n_tools.py:40-46 | the last block kept for an id decides what it is read as |
| `Catalog.CompilePoFile` | core/i18n_tools.py:104-107 | the parse error if there is one, else an encoding error exactly for surrogates, else a size error exactly if a word does not fit, else the compiled catalogue, whose bytes `MoFacts` gives |
| `Catalog.CompiledBlocksAnswer` | core/i18n_tools.py:32-107 | end to end: the compiled file answers an id with the string of the last block kept for it |
| `Catalog.DroppedBlocksAnswerNothing` | core/i18n_tools.py:32-107 | end to end: and with nothing if every block for it is fuzzy or untranslated |
| `PoText.ParserReadsEntries` | core/i18n_tools.py:32-75 | a written file is read as exactly the ids of the entries kept, each with the joined string of the last one kept for it |
| `PoText.OneEntry` | core/i18n_tools.py:58-67 | a msgid line and a msgstr line are one entry |
| `PoText.FuzzyIsDropped` | core/i18n_tools.py:53-61 | an entry after a "#," line that contains "fuzzy" is dropped, unless it is the header |
| `PoText.OtherCommentIsKept` | core/i18n_tools.py:53-56 | after any other comment it is kept, also if that contains "fuzzy" |
| `PoText.IdAloneIsForgotten` | core/i18n_tools.py:58-63 | an id without a string is forgotten at the next id |
| `PoText.BlankEndsEntry` | core/i18n_tools.py:49-52 | a string after a blank line belongs to no entry |
| `PoText.StrayPieceIsIgnored` | core/i18n_tools.py:68-71 | a quoted line after a blank line is ignored |
| `PoText.RespacedText` | core/i18n_tools.py:28-48 | white space around a line, or more of it before a piece, makes no difference |
| `PoText.OtherLinesFail` | core/i18n_tools.py:72-73 | a line that is none of these makes the parse fail |
| `PoText.BadPieceFails` | core/i18n_tools.py:28-29 | so does a piece that is no string literal, and the first such line is the error |
| `PoText.CompiledEntriesAnswer` | core/i18n_tools.py:32-107 | end to end: the file compiled from a written text answers every id with the string of the last entry kept for it, and other ids with nothing |
| `CategoryTree.NameIsShown` | categories/services.py:5-14 | a category with a name in any usable language is never nameless |
| `CategoryTree.BuildCategoryTree` | categories/services.py:32-60 | one labelled node per row, children lists and roots in query order; `CategoryFacts.TreeInFields` says it in fields |
| `CategoryFacts.NameInFields` | categories/services.py:5-14 | Arabic readers get the Arabic name if there is one; they and all others else the English one, else the old name |
| `CategoryFacts.TreeInFields` | categories/services.py:32-60 | one node per row with its id, shown name and slug; children are the rows with that parent, roots those without an active one, in query order |
| `CategoryForest.ForestIsNaive` | categories/services.py:48-60 | the forest built in place is the naive recursive definition at every depth |
| `CategoryForest.CountIsHits` | categories/services.py:48-60 | how often a category appears, counted along its ancestors |
| `CategoryForest.AppearsOnceOrNever` | categories/services.py:48-60 | cut off at any depth a category appears once if a root is nearer than that, else not at all |
| `CategoryForest.EveryCategoryOnceIffAcyclic` | categories/services.py:48-60 | every active category appears exactly once exactly if the parent relation has no cycle |
| `CategoryForest.CutOffStopsMattering` | categories/services.py:48-60 | from a depth of as many levels as there are rows on, cutting off changes nothing, with or without cycles |
| `CategoryForest.SiblingsKeepOrder` | categories/services.py:32-36 | siblings and roots stand in the order of the query |
| `CategoryForest.OrphansSurface` | categories/services.py:54-58 | a category is at the top exactly if it has no parent among the active ones |
| `CategorySlug.GenerateUniqueSlug` | categories/models.py:92-103 | ends within two more probes than existing slugs, at the first unused candidate, of at most 140 characters |
| `CategorySlug.CandidatesDiffer` | categories/models.py:100-101 | different counters give different candidates, truncated or not |
| `CategorySlug.ProbesBound` | categories/models.py:92-103 | one more probe than existing slugs always suffices exactly if the base is no full-length string ending in a counter |
| `CategorySlug.OneSlugThreeProbes` | categories/models.py:92-103 | a name of 48 characters, 46 ligatures and "-2", with its slug taken once needs three probes |
| `CategorySlug.ShortBasesMeetBound` | categories/models.py:93-103 | a base below the full length needs at most one more probe than existing slugs |
| `CategorySlug.AsciiNamesMeetBound` | categories/models.py:35-103 | so does every ASCII name the column takes |
| `NameSlug.SlugIsShorter` | categories/models.py:93 | a slug is no longer than the decomposed name, and that of an ASCII name no longer than the name |
| `NameSlug.LigaturesSlug` | categories/models.py:93 | n ligatures U+FB03 and "-2" become a slug of 3n + 2 characters |
| `SlugFacts.SlugsAreSlugs` | categories/models.py:93 | whatever the name, a slug has small letters, digits, underlines and dashes alone, no two dashes together, and no dash or underline at an end |
| `SlugFacts.SlugOfWords` | categories/models.py:93 | words with blanks and any marks around and between them become the words in small letters joined by single dashes |
| `SlugFacts.TriedInCharacters` | categories/models.py:94-103 | the slugs tried are the base, then the base with "-2", "-3" and so on, shortened to at most 140 characters |
| `Moderation.ModerationStore.ApproveItem` | moderation/services.py:165-195 | a pending row becomes APPROVED, its content PUBLISHED, and the log gets one approval without a reason; anything else is refused and changes nothing |
| `Moderation.ModerationStore.RejectItem` | moderation/services.py:198-236 | a pending row becomes REJECTED, its content REJECTED, and the log gets one rejection with the stripped reason; a blank reason is refused first |
| `Moderation.ModerationStore.CreateItem` | moderation/signals.py:53-68 | a new item is not published, and is queued unless it is a reel |
| `Moderation.ModerationStore.TranscodeReel` | content/tasks.py:65-222 | ends ready and queued once, or failed and not queued, also when the exception comes after the finished reel was saved |
| `ModerationRuns.StepKeepsWorldOk` | moderation/services.py:68-88 | every step of every process keeps the invariant, with edits and transcodes saving stale copies |
| `ModerationRuns.VisibleMeansApprovedOnce` | content/models.py:30-38 | content with status PUBLISHED, and so all the public sees, has exactly one logged decision, an approval |
| `ModerationRuns.RejectedMeansRejectedOnce` | moderation/services.py:198-236 | content shown as rejected has exactly one logged decision, a rejection with a reason |
| `ModerationRuns.StepKeepsDecisions` | moderation/services.py:68-88 | only a commit logs, at most one row, and never for a row that has been decided |
| `ModerationRuns.DecisionsAreFinal` | moderation/services.py:68-88 | over whole runs decided queue rows and logged decisions stay as they are |
| `ModerationFacts.CommitInFields` | moderation/services.py:176-193 | whatever ran in between, committing an approval leaves the content as it was read, published, and so shown unless deleted or an unfinished reel; a rejection hides it |
| `ModerationFacts.UndisturbedDecisionInFields` | moderation/services.py:68-236 | a decision about a pending row nobody holds can be taken to its end, and changes the content, the row and the log and nothing else |
| `ModerationFacts.SaveInFields` | content/views.py:91-97 | an editor saves the whole row as it was loaded, with the new caption or marked deleted |
| `ModerationFacts.UndisturbedTranscode` | content/tasks.py:65-222 | an undisturbed transcode leaves the reel ready and in the queue exactly once more if it was not there |
| `ModerationFacts.CreationInFields` | moderation/signals.py:53-68 | new content is not published, and the creation of anything but a reel queues it |

## Left out

- HTTP views, serializers, permissions, URL routing, throttles, admin, migrations and settings.
- ffmpeg, storage, FCM, Paymob HTTP and HMAC: the outcome of a transcoding and the gateway's answers are inputs; the fields of an inquiry answer are taken as parsed.
- Postgres text matching and ranking: a search gets the matching rows and a totally ordered rank of each; tokenising the query is not modelled.
- The text form of floats in relevance cursors: assumed to be read back, as an inverse pair; recency cursors are modelled in full.
- Cursor decoding beyond flat JSON and the ISO forms this code prints: other inputs go through uninterpreted library functions, so which exception a malformed token raises is not modelled.
- How the database plans and runs a query: a query is a function on the sequence of rows of its table.
- The following and the backfill tier, and the two search tables, are fetched by two near-identical functions in the source; here `Feed.FetchTier` and `Search.FetchEntries` take the tier or table as a parameter.
- A walk during which a follow, a creation time, a rank or a featured flag changes: `FeedWalk.Stable` and `SearchWalk.Stable` name what has to stay.
- A row committed while one request is under way: a request issues several queries (the follows, the own business, two tables per tier) that need not see one snapshot, and the model gives each request one database.
- Primary keys lost by rolled-back insertions of payments and transactions: the key of a row is its position.
- Events interleaved with the reconciliation run: each event is one atomic step, so such a run is a run of deliveries and the theorems on runs apply, but the counts are stated for an undisturbed run.
- A gateway that fails an initiation and still reports a success before both saves of the failure are done: excluded in runs, with the exact condition proved for each save and a run given that breaks each.
- Which characters decompose into which ASCII letters: a parameter of `slugify`, of which only U+FB03 and ASCII are fixed where a statement needs them.
- `str.upper` and `\d` beyond ASCII, and decimal prices with more than two places, where cents are rounded.
- Full-row saves of a business elsewhere, which may write an old is_featured back, and the cache entries dropped after a commit.
- The join of payments and subscriptions: for a payment an activation is a step that may fail and roll the event back; the subscription tables are modelled on their own.
- Splitting a text into lines, quoted pieces whose literal is no string, and reading and writing the files of a locale directory.
- Readers of MO files that stop at a NUL, beyond the statement that they see exactly the strings without one.
- The order of names in the database's collation: siblings inherit whatever order the query has.
- CategorySlug.GenerateUniqueSlug: the length of the result is stated for fewer than 10^139 existing slugs, because a longer counter makes the slice bound negative and the candidate longer.
- Reconcile.SweepSettles: takes each answer to be about the payment asked about, under a transaction id of its own, and no activation to fail.
- Two categories saved at the same time with the same slug, which the unique constraint refuses.
- Hard deletion of moderated content, and transcodes of one reel that overlap, which the source rules out.
- The opposite direction for moderation, "approved implies published": a stale save can hide approved content again.
- Counters of likes, follows, shares and comments, chat, ratings, analytics, notifications and devices: shallow members.
