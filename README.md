# CRM application: segment rules, campaigns, customers and delivery logs in Dafny

This project models the core of a small CRM application: a Node/Express server over MongoDB with a React/Redux front end.

The centre of the model is the segment-rule compiler, `buildQueryFromRules`. It turns an ordered list of rules into a MongoDB query. Each rule has a field, an operator, a value and an optional connective. The compiler does not fold the connectives left to right. It puts rule 0 into `$and`. Every later rule goes into `$and` when the rule before it says `AND`, and into `$or` otherwise. The model is proved equal to a specification of those buckets. It is also given a meaning over customer records, which shows what the buckets select: every AND rule holds, and at least one OR rule holds when there are any.

Around the compiler the model covers:

- the campaign handlers: create, update and delete under the ownership rule, execute, the delayed completion, and schedule;
- the keyword tag generator;
- the campaign and customer document schemas: validators, defaults and time stamps;
- the customer handlers: tag coercion and the unique email index;
- the communication-log handlers: status transitions, delivery counters and analytics;
- the four Redux slices;
- the list pages: filters, search, sorting and status counts;
- the rule builder;
- the campaign form: `parseInt`, tags and suggestions;
- the message template preview, its placeholder replacement and its sample-data editor;
- the customer form and the customer detail page;
- the order detail page.

How the source's forms are modelled:

- A Mongo collection that a handler changes is a `map` field of a class: `CampaignStore`, `CustomerStore` and `LogStore`.
- A Redux slice is a class whose reducers are methods.
- A component's pure logic is a function.
- A loop in the source is a `method` with a loop, proved against a specification function.

The database, the HTTP layer, the clock and the timer are parameters:

- the request-validation middleware's verdict is `inputValid`;
- a fresh document id is `newId`;
- the current time is `now`;
- the queued completion is a separate method, `Complete`.

JavaScript's own semantics are written out where the behaviour depends on them:

- falsy values;
- `toString` and `split`;
- `trim` with the ECMAScript white-space set;
- `toLowerCase`, for ASCII letters only (see `Text.Lower` under "Left out");
- `parseInt`;
- a global `replace` of a literal pattern;
- the comparator-driven stable sort;
- Mongoose's casting and its per-field validators.

The code generally agrees with its documentation. Where they differ, the model follows the code:

- Campaign statuses are only `draft`, `active`, `completed` and `failed`. A campaign is never `scheduled`: scheduling only sets `scheduledDate`.
- `createCommunicationLog` passes the body to the log model as it is (backend/controllers/communicationLog.controller.js:128). The status default `sent` is the log model's own (backend/models/CommunicationLog.model.js:19-23). The log model declares neither `deliveryAttempts`, `deliveredAt` nor `failureReason`, and its status enum lacks the statuses the status handler sets. `NewLog` follows the controller: the log starts with `deliveryAttempts` 0 and no delivery time or failure reason (see "Left out").

## Model

| member | source | states |
|---|---|---|
| SegmentQuery.Connective | backend/controllers/campaign.controller.js:319 | the connective read from a rule is never empty |
| SegmentQuery.ConnectiveIsAnd | backend/controllers/campaign.controller.js:319 | a rule's connective reads as `AND` exactly when it is absent, empty or `AND`; lower-case `and` does not |
| SegmentQuery.AsList | backend/controllers/campaign.controller.js:310-312 | an array value is used as it is; a scalar becomes a one-element list |
| SegmentQuery.RuleCondition | backend/controllers/campaign.controller.js:288-316 | the operator table; a non-vacuous condition is on the rule's own field |
| SegmentQuery.VacuityIff | backend/controllers/campaign.controller.js:304-315 | a rule compiles to `{}` exactly when its operator is unknown, or it is a `between` whose value is not a two-element array |
| SegmentQuery.Conditions | backend/controllers/campaign.controller.js:288 | one condition per rule, in rule order |
| SegmentQuery.AndIndices | backend/controllers/campaign.controller.js:328-340 | the AND bucket lists rule indices below the bound |
| SegmentQuery.OrIndices | backend/controllers/campaign.controller.js:328-340 | the OR bucket lists rule indices below the bound |
| SegmentQuery.AndMember | backend/controllers/campaign.controller.js:329-335 | a rule is in the AND bucket iff it is the first rule or the previous rule's connective reads `AND` |
| SegmentQuery.OrMember | backend/controllers/campaign.controller.js:336-338 | a rule is in the OR bucket iff it does not go to AND |
| SegmentQuery.IndicesIncreasing | backend/controllers/campaign.controller.js:328-340 | both buckets keep rule order (strictly increasing indices) |
| SegmentQuery.Pick | backend/controllers/campaign.controller.js:331-337 | the bucket holds exactly the conditions at its indices |
| SegmentQuery.BuildQueryFromRules | backend/controllers/campaign.controller.js:281-354 | the compiler with its map and forEach loop equals the bucket specification `Compile` |
| SegmentQuery.IndicesStep | backend/controllers/campaign.controller.js:328-340 | one pass step adds rule `i` to exactly one bucket |
| SegmentQuery.BucketSizes | backend/controllers/campaign.controller.js:328-340 | the two buckets together hold every rule exactly once |
| SegmentQuery.CompileSmall | backend/controllers/campaign.controller.js:284-322 | absent and empty rule lists give `{}`; a single rule gives its own condition, unwrapped |
| SegmentQuery.CompileGroups | backend/controllers/campaign.controller.js:342-352 | with two or more rules `$and` is present and starts with rule 0, every rule lands in exactly one bucket, and `$or` is present iff some rule goes there |
| SegmentQuery.FirstAndIndex | backend/controllers/campaign.controller.js:329-332 | rule 0 is the first entry of the AND bucket |
| SegmentQuery.Placement | backend/controllers/campaign.controller.js:329-338 | rule `i >= 1` is placed by rule `i - 1`'s stored connective: AND for absent, empty or `AND`, OR otherwise |
| SegmentQuery.BucketsKeepOrder | backend/controllers/campaign.controller.js:328-340 | earlier AND entries come from earlier rules |
| SegmentQuery.LastConnectiveIgnored | backend/controllers/campaign.controller.js:334 | changing the last rule's connective leaves the query unchanged |
| SegmentQuery.SameConnectivesSameIndices | backend/controllers/campaign.controller.js:334 | bucket placement depends only on the connectives |
| SegmentQuery.EmptyRulesMatchAll | backend/controllers/campaign.controller.js:284-286 | absent or empty rules select every record |
| SegmentQuery.VacuousRuleHolds | backend/controllers/campaign.controller.js:304-314 | a rule compiled to `{}` holds of every record |
| SegmentQuery.CompileMeaning | backend/controllers/campaign.controller.js:342-352 | with two or more rules a record matches iff every AND rule holds, and, when the OR bucket is non-empty, some OR rule holds |
| SegmentQuery.CompileMeaningWith | backend/controllers/campaign.controller.js:342-352 | the same meaning for any judgement of single conditions |
| SegmentQuery.AndHalf | backend/controllers/campaign.controller.js:344-346 | `$and` holds iff every AND-placed rule holds |
| SegmentQuery.OrHalf | backend/controllers/campaign.controller.js:348-350 | `$or` holds iff some OR-placed rule holds |
| SegmentQuery.OrEmpty | backend/controllers/campaign.controller.js:348 | the OR bucket is empty iff every rule goes to AND |
| SegmentQuery.AllAndIsConjunction | backend/controllers/campaign.controller.js:334-335 | when all connectives that matter read `AND`, the query is the conjunction of all rules |
| SegmentQuery.FirstRuleRequired | backend/controllers/campaign.controller.js:329-332 | rule 0 must hold of every matched record, whatever its connective |
| SegmentQuery.TwoRulesJoinedByOr | backend/controllers/campaign.controller.js:325-352 | `a OR b` compiles to a query that requires both `a` and `b` |
| SegmentQuery.NotALeftFold | backend/controllers/campaign.controller.js:318-352 | for `a = 1 OR b = 1` and the record `a = 0, b = 1`, a left-to-right reading accepts and the compiled query refuses |
| SegmentQuery.MembershipRules | backend/controllers/campaign.controller.js:309-312 | `in` and `not_in` wrap a scalar, use an array as it is, and `not_in` holds exactly where `in` fails |
| SegmentQuery.NegatedRules | backend/controllers/campaign.controller.js:292-303 | `not_equals` and `not_contains` hold exactly where `equals` and `contains` fail |
| SegmentQuery.BetweenRule | backend/controllers/campaign.controller.js:304-307 | `between` on a two-element array is the inclusive range of its elements |
| SegmentQuery.AudienceSize | backend/controllers/campaign.controller.js:266-278 | the count is 0 when counting fails and never exceeds the number of customers |
| SegmentQuery.AudienceOfNoRules | backend/controllers/campaign.controller.js:266-278 | with no rules every customer is counted |
| CampaignSchema.ValidateRule | backend/models/Campaign.model.js:3-35 | a rule is stored iff field and value are present and the operator is one of the nine and the connective absent, `AND` or `OR`; the connective defaults to `AND` |
| CampaignSchema.StoredRuleConnective | backend/models/Campaign.model.js:12-31 | a stored rule's connective is `AND` or `OR` and its operator is one of the nine |
| CampaignSchema.StatusName | backend/models/Campaign.model.js:42-46 | a status name is one of the four enumerated |
| CampaignSchema.ParseStatus | backend/models/Campaign.model.js:42-46 | a name parses iff it is one of the four enumerated |
| CampaignSchema.StatusRoundTrip | backend/models/Campaign.model.js:42-46 | names and statuses correspond one to one, in both directions |
| CampaignSchema.ScheduledIsNotAStatus | backend/models/Campaign.model.js:44 | `scheduled` is not a campaign status |
| CampaignSchema.TrimOpt | backend/models/Campaign.model.js:39-54 | the `trim` setter trims a present value and leaves an absent one absent |
| CampaignSchema.ValidateRules | backend/models/Campaign.model.js:55 | a rule list is stored iff every rule validates, each rule as `ValidateRule` stores it |
| CampaignSchema.ValidateCampaign | backend/models/Campaign.model.js:37-68 | a campaign is stored iff admissible, with the status, stats and tag defaults, an absent rule list stored as `[]`, and both time stamps set to `now` |
| CampaignSchema.NewCampaignDefaults | backend/models/Campaign.model.js:42-63 | a campaign saved without status, stats or tags is a draft with zero counts and no tags |
| CampaignSchema.SegmentRulesDefault | backend/models/Campaign.model.js:55 | an absent rule list is stored as `[]`; with an empty or absent list a campaign is stored iff its other required fields are valid |
| CampaignController.Find | backend/controllers/campaign.controller.js:92 | `findById` finds exactly the stored document |
| CampaignController.Put | backend/controllers/campaign.controller.js:112-119 | storing or deleting under one id leaves every other id's document unchanged |
| CampaignController.ApplyPatch | backend/controllers/campaign.controller.js:109-119 | an update validates the fields the body sets, sets `updatedAt`, keeps `createdAt`, replaces the stats only with a body's whole `deliveryStats`; each other field the body sets is stored (trimmed where the schema trims, the status parsed, the rules validated) and each one it leaves out is kept |
| CampaignController.EmptyPatchTouchesOnlyTime | backend/controllers/campaign.controller.js:109-119 | an empty body changes only `updatedAt` |
| CampaignController.UpdateStep | backend/controllers/campaign.controller.js:90-132 | 404 when absent, 403 for a non-owner non-admin, 500 on a validation failure, else 200 with the patched document |
| CampaignController.DeleteStep | backend/controllers/campaign.controller.js:137-169 | 404 when absent, 403 for a non-owner non-admin, else 200 and removed |
| CampaignController.OwnershipGuards | backend/controllers/campaign.controller.js:102-154 | only the creator or an admin changes or deletes a campaign; an admin can always delete |
| CampaignController.OwnerCanHandOver | backend/controllers/campaign.controller.js:102-119 | the owner may set another creator, after which they can no longer modify it |
| CampaignController.ExecuteStep | backend/controllers/campaign.controller.js:174-212 | 404 when absent, 400 with the status in the message unless draft, else active |
| CampaignController.CompleteStep | backend/controllers/campaign.controller.js:358-375 | the completion sets `completed` and `sent` to the audience size and changes nothing else but `updatedAt` |
| CampaignController.ScheduleStep | backend/controllers/campaign.controller.js:217-263 | 400 for a missing or falsy (`0`) date, then 404, then 400 for a date not in the future, else only `scheduledDate` is set |
| CampaignController.DraftLifecycle | backend/controllers/campaign.controller.js:174-212 | a draft that is executed and then completed is completed with `sent` equal to its audience size, and cannot be executed again |
| CampaignController.ExecuteOnce | backend/controllers/campaign.controller.js:186-194 | a second execute after a successful one is refused with 400 |
| CampaignController.ScheduleKeepsStatus | backend/controllers/campaign.controller.js:246-249 | scheduling keeps the status, so a scheduled draft can still be executed |
| CampaignController.ExecuteOfferMatchesHandler | frontend/src/pages/CampaignList.jsx:238 | the list offers Execute exactly for the campaigns the handler would start |
| CampaignController.CampaignStore.Create | backend/controllers/campaign.controller.js:56-85 | 400 for invalid input, 500 for a refused document, else 201 with the user as creator |
| CampaignController.CampaignStore.Update | backend/controllers/campaign.controller.js:90-132 | the store changes as `UpdateStep` decides, at the one id |
| CampaignController.CampaignStore.Delete | backend/controllers/campaign.controller.js:137-169 | the store changes as `DeleteStep` decides, at the one id |
| CampaignController.CampaignStore.Execute | backend/controllers/campaign.controller.js:174-212 | the store changes as `ExecuteStep` decides; the completion is queued exactly on success |
| CampaignController.CampaignStore.Complete | backend/controllers/campaign.controller.js:358-375 | the timer callback applies `CompleteStep` to the stored document |
| CampaignController.CampaignStore.Schedule | backend/controllers/campaign.controller.js:217-263 | the store changes as `ScheduleStep` decides |
| CampaignController.FiredTags | backend/controllers/campaign.controller.js:379-398 | no more tags than keyword groups |
| CampaignController.TagNames | backend/controllers/campaign.controller.js:383-397 | the groups' tags in order |
| CampaignController.FiresUnfold | backend/controllers/campaign.controller.js:383-397 | each group fires exactly on its own keywords in the lower-cased message |
| CampaignController.FiredTagsUnfold | backend/controllers/campaign.controller.js:383-397 | the fired tags are the four conditional pushes, in order |
| CampaignController.GenerateAITags | backend/controllers/campaign.controller.js:379-405 | the pushes and the `general` default compute `AiTags` |
| CampaignController.FiredMembers | backend/controllers/campaign.controller.js:383-402 | fired tags are group tags, and none fire exactly when no group fires |
| CampaignController.FiredInOrder | backend/controllers/campaign.controller.js:383-397 | fired tags keep the group order |
| CampaignController.FiredDistinct | backend/controllers/campaign.controller.js:383-397 | no tag is pushed twice, and a group's tag is present iff the group fires |
| CampaignController.TagOrderFacts | backend/controllers/campaign.controller.js:384-396 | the four tags are distinct and none is `general` |
| CampaignController.AiTagsShape | backend/controllers/campaign.controller.js:379-405 | at least one tag, no repeat, `general` alone iff no keyword occurs, otherwise a subsequence of the four |
| CampaignController.AiTagsKeywords | backend/controllers/campaign.controller.js:383-397 | each tag is present iff one of its keywords occurs |
| CampaignController.AiTagsIgnoreCase | backend/controllers/campaign.controller.js:383-395 | a message and its lower-case form get the same tags |
| CampaignForm.ParseInt | frontend/src/components/CampaignForm.jsx:88 | `parseInt` without a radix yields a non-negative number for unsigned input and a non-positive one after `-` |
| CampaignForm.ParseDecimal | frontend/src/components/CampaignForm.jsx:88 | without a `0x` prefix `parseInt` reads the longest decimal digit prefix after white space and sign, and `NaN` when there is none |
| CampaignForm.ParsePlain | frontend/src/components/CampaignForm.jsx:88 | on text starting with a non-space, non-sign character `parseInt` is the value of its decimal digit prefix |
| CampaignForm.ParseMinus | frontend/src/components/CampaignForm.jsx:88 | a leading minus negates the value |
| CampaignForm.ParseShow | frontend/src/components/CampaignForm.jsx:88 | `parseInt` reads back a rendered number, with or without a minus, whatever non-digit text follows |
| CampaignForm.BareHexPrefix | frontend/src/components/CampaignForm.jsx:88 | `0x` not followed by a hex digit gives `NaN` |
| CampaignForm.ShowFacts | frontend/src/components/CampaignForm.jsx:88 | a rendered number is all digits, denotes the number, and starts with `0` only for 0 |
| CampaignForm.NumericValue | frontend/src/components/CampaignForm.jsx:88 | `Math.max(0, parseInt(value) \|\| 0)` is never negative, 0 for unparseable or negative input, and the parsed value otherwise |
| CampaignForm.NumericRoundTrip | frontend/src/components/CampaignForm.jsx:85-90 | typing the digits of `n` stores `n`; typing `-n` stores 0 |
| CampaignForm.HandleNumericChange | frontend/src/components/CampaignForm.jsx:85-90 | only `customerSize` changes, it is non-negative, and unparseable input stores 0 |
| CampaignForm.HandleTagInput | frontend/src/components/CampaignForm.jsx:93-105 | only Enter with a non-blank input acts: the trimmed tag is appended unless present, and the box is emptied |
| CampaignForm.TagInputKeepsDistinct | frontend/src/components/CampaignForm.jsx:93-105 | tag entry keeps the list free of repeats, adds only the trimmed input, and keeps the old list as a prefix |
| CampaignForm.RemoveTag | frontend/src/components/CampaignForm.jsx:108-113 | every occurrence of the tag goes; the other tags keep their order and nothing else changes |
| CampaignForm.AddAiTag | frontend/src/components/CampaignForm.jsx:116-123 | a suggested tag is appended exactly when absent |
| CampaignForm.AddAiTagUndone | frontend/src/components/CampaignForm.jsx:108-123 | adding keeps the tags distinct; removing a tag just added restores the form |
| CampaignForm.RemoveThenAdd | frontend/src/components/CampaignForm.jsx:108-123 | removing and re-adding a tag moves it to the end |
| CampaignForm.MakePayload | frontend/src/components/CampaignForm.jsx:267-270 | the payload's `audienceSize` is the form's `customerSize` |
| CampaignForm.PayloadAudience | frontend/src/components/CampaignForm.jsx:267-270 | the audience sent after editing the size field is non-negative |
| CampaignForm.BaseTheme | frontend/src/components/CampaignForm.jsx:137-155 | the base suggestions come from one of the three segment families |
| CampaignForm.Pitches | frontend/src/components/CampaignForm.jsx:138-177 | a family contributes its texts in order |
| CampaignForm.GenerateAiSuggestions | frontend/src/components/CampaignForm.jsx:126-189 | the pushes compute `Suggestions`: 3 base texts, plus 2 with an age-like rule field, plus 2 with a location-like one |
| CampaignForm.SuggestionsShape | frontend/src/components/CampaignForm.jsx:135-178 | there are 3, 5 or 7 suggestions; the base family fills the first three places; age and location texts appear iff such a rule exists |
| CampaignForm.MessageTagsIgnoreCase | frontend/src/components/CampaignForm.jsx:213-228 | the message tests see the lower-cased message, so case does not matter |
| CampaignForm.GenerateAiTagSuggestions | frontend/src/components/CampaignForm.jsx:192-248 | the pushes, the Set de-duplication and the applied-tag filter compute `TagSuggestions` |
| CampaignForm.TagSuggestionsFacts | frontend/src/components/CampaignForm.jsx:204-237 | no repeats, never an applied tag, exactly the pushed tags not applied, `campaign-2025` and `automation` present unless applied, in first-seen order |
| CampaignForm.OneSegmentGroup | frontend/src/components/CampaignForm.jsx:204-210 | at most one segment group is suggested, and `inactive` takes precedence |
| CampaignList.MineMeaning | frontend/src/pages/CampaignList.jsx:23-28 | nobody signed in sees nothing; otherwise exactly the campaigns whose creator id is the user's `id` or `_id`, in list order |
| CampaignList.DisplayedPermutes | frontend/src/pages/CampaignList.jsx:72 | the sorted rows are a permutation of the user's campaigns |
| CampaignList.DatesSorted | frontend/src/pages/CampaignList.jsx:76-80 | with every date present, a date column is ascending or descending by timestamp as `sortOrder` says |
| CampaignList.DatesConsistent | frontend/src/pages/CampaignList.jsx:76-80 | the date comparator is a consistent order when every date is present |
| CampaignList.DatePair | frontend/src/pages/CampaignList.jsx:76-80 | a non-positive date comparison puts the rows in date order |
| CampaignList.AmountsSorted | frontend/src/pages/CampaignList.jsx:82-86 | an amount column is in numeric order, with a missing `sent` counting as 0 |
| CampaignList.AmountsConsistent | frontend/src/pages/CampaignList.jsx:82-86 | the amount comparator is a consistent order on every list |
| CampaignList.AmountPair | frontend/src/pages/CampaignList.jsx:82-86 | a non-positive amount comparison puts the rows in numeric order |
| CampaignList.TextsSorted | frontend/src/pages/CampaignList.jsx:88-92 | another column holding a string on every row is in string order in the chosen direction |
| CampaignList.TextsConsistent | frontend/src/pages/CampaignList.jsx:88-92 | the string comparator is a consistent order when every row holds a string |
| CampaignList.TextPair | frontend/src/pages/CampaignList.jsx:88-92 | a non-positive string comparison puts the rows in string order |
| CampaignList.NonTextsKeepOrder | frontend/src/pages/CampaignList.jsx:88-94 | a column with no string values compares everything as 0, and the stable sort keeps the list as it is |
| CampaignList.HandleSort | frontend/src/pages/CampaignList.jsx:97-104 | clicking the current column flips the direction; another column is selected, descending |
| CampaignList.HandleSortTwice | frontend/src/pages/CampaignList.jsx:97-104 | two clicks on the current column restore the sort |
| Sorting.Insert | frontend/src/pages/CampaignList.jsx:72 | one insertion step adds exactly one element |
| Sorting.Sort | frontend/src/pages/CampaignList.jsx:72 | `sort` returns a permutation of its input |
| Sorting.SortPermutes | frontend/src/pages/CampaignList.jsx:72 | sorting keeps the length and exactly the elements of its input |
| Sorting.SortSorted | frontend/src/pages/CampaignList.jsx:72 | with a consistent comparator the result is sorted |
| Sorting.SortByKey | frontend/src/pages/OrderList.jsx:57-61 | a key-difference comparator sorts its keys ascending or descending |
| Sorting.SortKeepsTies | frontend/src/pages/CampaignList.jsx:94 | the sort is stable: when nothing compares above a later element, the order is kept |
| IdLists.FindIndex | frontend/src/slices/campaignsSlice.js:41 | `findIndex` gives the first index carrying the id, or -1 exactly when none does |
| IdLists.ReplaceFirst | frontend/src/slices/campaignsSlice.js:41-44 | the replacement keeps the length, changes nothing when no id matches, and touches only entries with the payload's id |
| IdLists.ReplaceFirstAt | frontend/src/slices/campaignsSlice.js:41-44 | only the first matching entry is replaced |
| IdLists.RemoveId | frontend/src/slices/campaignsSlice.js:50 | the filter removes every entry with the id and keeps the others in order |
| IdLists.RemoveAbsentId | frontend/src/slices/campaignsSlice.js:50 | removing an id nobody carries changes nothing |
| CampaignsSlice.CampaignsSlice.SetLoading | frontend/src/slices/campaignsSlice.js:15-20 | starting a request clears the error; finishing one keeps it; nothing else changes |
| CampaignsSlice.CampaignsSlice.SetError | frontend/src/slices/campaignsSlice.js:21-24 | the error is stored and loading stops |
| CampaignsSlice.CampaignsSlice.SetCampaigns | frontend/src/slices/campaignsSlice.js:25-29 | the list becomes the payload, not loading, no error |
| CampaignsSlice.CampaignsSlice.SetCurrentCampaign | frontend/src/slices/campaignsSlice.js:30-34 | the displayed campaign becomes the payload, not loading, no error |
| CampaignsSlice.CampaignsSlice.AddCampaign | frontend/src/slices/campaignsSlice.js:35-39 | one campaign is appended at the end |
| CampaignsSlice.CampaignsSlice.UpdateCampaign | frontend/src/slices/campaignsSlice.js:40-48 | the first campaign with the id is replaced, and the payload becomes the displayed campaign even when no id matched |
| CampaignsSlice.CampaignsSlice.RemoveCampaign | frontend/src/slices/campaignsSlice.js:49-53 | every campaign with the id goes, and the displayed campaign is left as it was |
| OrderSlice.OrderSlice.SetLoading | frontend/src/slices/orderSlice.js:14-19 | starting a request clears the error; finishing one leaves it |
| OrderSlice.OrderSlice.SetError | frontend/src/slices/orderSlice.js:20-23 | the error is stored and loading stops |
| OrderSlice.OrderSlice.SetOrders | frontend/src/slices/orderSlice.js:24-28 | the list becomes the payload, not loading, no error |
| OrderSlice.OrderSlice.SetCurrentOrder | frontend/src/slices/orderSlice.js:29-33 | the displayed order becomes the payload |
| OrderSlice.OrderSlice.AddOrder | frontend/src/slices/orderSlice.js:34-38 | the list grows by one, at the end |
| OrderSlice.OrderSlice.UpdateOrder | frontend/src/slices/orderSlice.js:39-47 | the first order with the id is replaced, and the payload is displayed even when absent from the list |
| OrderSlice.OrderSlice.RemoveOrder | frontend/src/slices/orderSlice.js:48-55 | every order with the id goes, and the displayed order is cleared iff it has that id |
| CommunicationLogSlice.CommunicationLogSlice.SetLoading | frontend/src/slices/communicationLogSlice.js:15-20 | starting a request clears the error; the lists are untouched |
| CommunicationLogSlice.CommunicationLogSlice.SetError | frontend/src/slices/communicationLogSlice.js:21-24 | the error is stored and loading stops |
| CommunicationLogSlice.CommunicationLogSlice.SetLogs | frontend/src/slices/communicationLogSlice.js:25-30 | both lists become the payload |
| CommunicationLogSlice.CommunicationLogSlice.SetFilteredLogs | frontend/src/slices/communicationLogSlice.js:31-35 | only the displayed subset changes |
| CommunicationLogSlice.CommunicationLogSlice.AddLog | frontend/src/slices/communicationLogSlice.js:36-41 | the log is appended to both lists |
| CommunicationLogSlice.CommunicationLogSlice.UpdateLogStatus | frontend/src/slices/communicationLogSlice.js:42-59 | each list has its first entry with the id replaced independently; a list without the id is unchanged |
| CommunicationLogSlice.CommunicationLogSlice.RemoveLog | frontend/src/slices/communicationLogSlice.js:60-65 | every log with the id leaves both lists |
| CommunicationLogSlice.CommunicationLogSlice.SetAnalytics | frontend/src/slices/communicationLogSlice.js:66-70 | the analytics become the payload and the lists are untouched |
| CustomersSlice.SegmentsOf | frontend/src/slices/customersSlice.js:21-27 | a falsy segment (absent, null or a single `''`) contributes nothing, a single other one itself, an array its elements |
| CustomersSlice.TagsOf | frontend/src/slices/customersSlice.js:29-31 | only an array of tags contributes |
| CustomersSlice.AllSegmentsMembers | frontend/src/slices/customersSlice.js:20-32 | a value is a known segment iff some customer contributes it |
| CustomersSlice.AddKeepsDerived | frontend/src/slices/customersSlice.js:37-59 | the incremental pushes keep the derived lists equal to the rebuild and free of repeats |
| CustomersSlice.IncrementalAgreesWithRebuild | frontend/src/slices/customersSlice.js:13-59 | adding one customer's values to the distinct values of a list gives the distinct values of the longer list |
| CustomersSlice.RecomputeStep | frontend/src/slices/customersSlice.js:20-32 | one step of the rebuild loop extends the distinct values by one customer |
| CustomersSlice.DerivedNoDup | frontend/src/slices/customersSlice.js:17-35 | derived segments and tags hold no repeats |
| CustomersSlice.OneSegmentAdded | frontend/src/slices/customersSlice.js:48-49 | a single segment is pushed only when not yet known |
| CustomersSlice.CustomersSlice.Recompute | frontend/src/slices/customersSlice.js:17-35 | the Set-filling loop leaves the list and makes segments and tags the distinct values in first-seen order |
| CustomersSlice.CustomersSlice.SetCustomers | frontend/src/slices/customersSlice.js:13-36 | the list becomes the payload and the derived lists are rebuilt, without repeats |
| CustomersSlice.CustomersSlice.AddCustomer | frontend/src/slices/customersSlice.js:37-60 | one customer is appended, only unknown segments and tags are pushed, and the derived invariant and distinctness are kept |
| CustomersSlice.CustomersSlice.UpdateCustomer | frontend/src/slices/customersSlice.js:61-87 | with no matching id the state is unchanged; otherwise the first match is replaced and the derived lists rebuilt |
| CustomersSlice.CustomersSlice.RemoveCustomer | frontend/src/slices/customersSlice.js:88-111 | every customer with the id goes and the derived lists are rebuilt |
| CustomerList.Visible | frontend/src/components/CustomerList.jsx:16-55 | a store without an array shows nothing |
| CustomerList.VisibleIsOneFilter | frontend/src/components/CustomerList.jsx:22-54 | the staged filters are one filter by their conjunction: an order-preserving subsequence holding exactly the customers that pass search, segment and tag stages |
| CustomerList.StagesAsFilters | frontend/src/components/CustomerList.jsx:22-52 | the visible list is the three stages applied in turn, an inactive stage keeping everyone |
| CustomerList.NoFiltersShowAll | frontend/src/components/CustomerList.jsx:25-47 | with no search term and no active filter every customer is shown, in order |
| CustomerList.SearchIgnoresCase | frontend/src/components/CustomerList.jsx:26-30 | the search lower-cases the term, so its case does not matter |
| CustomerList.Toggle | frontend/src/components/CustomerList.jsx:59-66 | an inactive value is appended; an active one loses its first occurrence |
| CustomerList.ToggleFlips | frontend/src/components/CustomerList.jsx:57-73 | on a list without repeats toggling flips the value's membership, keeps every other value, and keeps it distinct |
| CustomerList.ToggleTwice | frontend/src/components/CustomerList.jsx:57-73 | toggling twice restores the filter list |
| CustomerList.CustomerListView.ToggleFilter | frontend/src/components/CustomerList.jsx:57-73 | only the chosen filter list is toggled; the other list and the search stay |
| CustomerList.CustomerListView.ClearFilters | frontend/src/components/CustomerList.jsx:75-81 | both filter lists are emptied and the search term becomes `''` |
| OrderList.Present | frontend/src/pages/OrderList.jsx:27-34 | the store's entries when none is null, one for one |
| OrderList.Counts | frontend/src/pages/OrderList.jsx:18-35 | without an array every count is 0; a null entry throws; otherwise `all` is the length and each badge counts its exact status |
| OrderList.CountsPartition | frontend/src/pages/OrderList.jsx:27-34 | the five badges and the orders in none of them add up to `all` |
| OrderList.SearchOutcome | frontend/src/pages/OrderList.jsx:48-51 | an empty search matches every order |
| OrderList.SearchMeaning | frontend/src/pages/OrderList.jsx:48-51 | a non-empty search matches iff its lower-cased text is a substring of the lower-cased order number, customer name or email |
| OrderList.ScanKeeps | frontend/src/pages/OrderList.jsx:44-54 | kept orders are exactly the non-null entries whose status and search match |
| OrderList.ScanThrows | frontend/src/pages/OrderList.jsx:44-54 | filtering throws exactly when some entry's search throws |
| OrderList.AllWithoutSearch | frontend/src/pages/OrderList.jsx:45-48 | the status `all` with no search keeps every non-null entry and never throws |
| OrderList.ShownMeaning | frontend/src/pages/OrderList.jsx:38-66 | `[]` when filtering throws; otherwise a permutation of the kept orders, newest first, a missing `createdAt` counting as time 0 |
| RuleBuilder.OperatorOptions | frontend/src/components/RuleBuilder.jsx:23-76 | every offered operator is a stored operator; the first is `contains` for tags and segment and `equals` otherwise |
| RuleBuilder.OperatorTable | frontend/src/components/RuleBuilder.jsx:26-75 | `between` only for numeric and date fields, `in`/`not_in` only for tags and segment, `equals` for all others, `contains` for string and array fields |
| RuleBuilder.AddRule | frontend/src/components/RuleBuilder.jsx:79-89 | one rule is appended: `firstName`, `equals`, empty value, connective `AND` iff the list was non-empty |
| RuleBuilder.RemoveRule | frontend/src/components/RuleBuilder.jsx:92-96 | exactly rule `index` goes; the others keep their order |
| RuleBuilder.UpdateRule | frontend/src/components/RuleBuilder.jsx:99-110 | only rule `index` changes, only in the key set; a new field resets the operator to the field's first and the value to `''` |
| RuleBuilder.UpdateLogicalOperator | frontend/src/components/RuleBuilder.jsx:113-117 | only rule `index`'s connective changes |
| RuleBuilder.DisplayedConnective | frontend/src/components/RuleBuilder.jsx:170-174 | the selector shows from the second rule on, reading `AND` when unset |
| RuleBuilder.SelectorShift | frontend/src/components/RuleBuilder.jsx:170-180 | changing rule `i`'s selector does not move rule `i`; it decides the bucket of rule `i + 1` |
| RuleBuilder.HiddenFirstConnective | frontend/src/components/RuleBuilder.jsx:170-180 | the first rule shows no selector, and with its connective unset the second rule goes to AND |
| MessageTemplate.ReplaceAbsent | frontend/src/components/MessageTemplate.jsx:17-18 | a global replace leaves text without an occurrence of the pattern unchanged |
| MessageTemplate.ReplaceAround | frontend/src/components/MessageTemplate.jsx:17-18 | with the `g` flag every occurrence is replaced: an occurrence between two texts becomes the value between their replacements |
| MessageTemplate.Placeholder | frontend/src/components/MessageTemplate.jsx:17 | the pattern `{{key}}` is the key and four braces |
| MessageTemplate.PlaceholderUnbordered | frontend/src/components/MessageTemplate.jsx:17 | two placeholders of a brace-free key cannot overlap |
| MessageTemplate.ReplacePlaceholder | frontend/src/components/MessageTemplate.jsx:17-18 | a placeholder alone becomes its key's value |
| MessageTemplate.GetPreviewMessage | frontend/src/components/MessageTemplate.jsx:13-22 | the loop over the keys gives the message with each key's replacement applied in key order |
| MessageTemplate.NoPlaceholderUnchanged | frontend/src/components/MessageTemplate.jsx:13-22 | a message holding none of the placeholders is previewed as it is |
| MessageTemplate.LaterStepRewritesEarlierValue | frontend/src/components/MessageTemplate.jsx:16-19 | the replacements run in sequence, so a value that spells a later key's placeholder is itself replaced |
| MessageTemplate.KeyIndex | frontend/src/components/MessageTemplate.jsx:6-30 | the position of the named preview field, or -1 exactly when no field has that name |
| MessageTemplate.SetField | frontend/src/components/MessageTemplate.jsx:25-31 | an existing field takes the value in place and every other field stays; a new name is appended last |
| MessageTemplate.SetFieldKeepsKeys | frontend/src/components/MessageTemplate.jsx:25-31 | the keys stay distinct and the named key holds the new value |
| MessageTemplate.EditingKeepsKeyOrder | frontend/src/components/MessageTemplate.jsx:6-31 | editing one of `firstName`, `lastName`, `email` keeps the three keys in their order |
| CommunicationLogController.StatusRejection | backend/controllers/communicationLog.controller.js:150-163 | a report is refused with 400 exactly when its status is missing, empty or not one of the five |
| CommunicationLogController.Transition | backend/controllers/communicationLog.controller.js:175-190 | the status is set; `delivered` stamps `deliveredAt`; `failed` adds one attempt and takes a truthy failure reason; nothing else changes |
| CommunicationLogController.Tally | backend/controllers/communicationLog.controller.js:198-203 | a `sent` report adds one to `sent`, a `failed` one to `failed`, and only those and the time stamp change |
| CommunicationLogController.CountDelivery | backend/controllers/communicationLog.controller.js:195-205 | only the log's campaign changes, only for `sent` or `failed`, and only when it exists |
| CommunicationLogController.NewLog | backend/controllers/communicationLog.controller.js:128 | the stored log keeps the body's campaign, customer and message, with no delivery time, no attempts and no failure reason |
| CommunicationLogController.ReportsCount | backend/controllers/communicationLog.controller.js:195-205 | over any run of reports the campaign's counters grow by the number of `sent` and of `failed` reports, and nothing else of it changes |
| CommunicationLogController.TrackCountsAttempts | backend/controllers/communicationLog.controller.js:175-190 | over any run of reports the attempt counter grows by the number of failures and the status is the last one reported |
| CommunicationLogController.ByStatus | backend/controllers/communicationLog.controller.js:265-273 | `byStatus` has a key exactly for each status the aggregation returned |
| CommunicationLogController.ByStatusHoldsCounts | backend/controllers/communicationLog.controller.js:270-273 | with distinct statuses, each key holds its own row's count |
| CommunicationLogController.CountInAdd | backend/controllers/communicationLog.controller.js:255-262 | counting the logs of one more status adds that status's occurrences |
| CommunicationLogController.CountInAll | backend/controllers/communicationLog.controller.js:255-262 | counting all the statuses that occur counts every log |
| CommunicationLogController.SumCountsCountIn | backend/controllers/communicationLog.controller.js:270-273 | the total adds up the logs whose status has a row |
| CommunicationLogController.CountInNone | backend/controllers/communicationLog.controller.js:266 | no status counts no log, the total's starting value |
| CommunicationLogController.TotalCountsEveryLog | backend/controllers/communicationLog.controller.js:255-273 | when the aggregation groups every log, `total` is the number of logs |
| CommunicationLogController.LogStore.Create | backend/controllers/communicationLog.controller.js:98-141 | 201 and the new log exactly when the input is valid and both campaign and customer exist; 404 when either is missing; nothing stored otherwise |
| CommunicationLogController.LogStore.UpdateStatus | backend/controllers/communicationLog.controller.js:146-218 | rejection before lookup, then 404 for a missing log, else the log moves by `Transition` and the campaigns by `CountDelivery` |
| CommunicationLogController.LogStore.TallyCampaign | backend/controllers/communicationLog.controller.js:195-205 | the campaigns become `CountDelivery` of the old ones; logs and customers stay |
| CommunicationLogController.LogStore.Delete | backend/controllers/communicationLog.controller.js:223-247 | 200 and removal when the log exists, 404 otherwise |
| CommunicationLogController.GetAnalytics | backend/controllers/communicationLog.controller.js:265-273 | the loop's total and `byStatus` are those of the rows in order |
| CustomerSchema.ValidateCustomer | backend/models/Customer.model.js:3-58 | a customer is saved exactly when every validator passes, with the name trimmed, the submitted email, phone and status stored, and for absent fields the defaults `['default']`, 0, 0, 0, `[]` and `active` |
| CustomerSchema.Defaults | backend/models/Customer.model.js:25-55 | a body with a name and a valid email alone gets every default |
| CustomerSchema.PhoneDigits | backend/models/Customer.model.js:18-24 | 10 to 15 digits pass, with or without a leading `+` |
| CustomerSchema.PhoneShape | backend/models/Customer.model.js:21 | a valid phone has 10 to 16 characters, all digits after an optional leading `+` |
| CustomerSchema.EmailOfParts | backend/models/Customer.model.js:14 | a local part, a host label, a dot and a final label of 2 to 4 characters make a valid email |
| CustomerSchema.OneCharacterEndRefused | backend/models/Customer.model.js:14 | an address ending in a one-character label is refused |
| CustomerSchema.DomainHead | backend/models/Customer.model.js:14 | a valid domain starts with a label, a dot and a label character |
| CustomerSchema.DomainEnd | backend/models/Customer.model.js:14 | a valid domain ends in a dot and a final label of 2 to 4 characters |
| CustomerSchema.EmailEnd | backend/models/Customer.model.js:14 | a valid email ends in a dot and a final label of 2 to 4 characters |
| CustomerForm.LooseEmailUnanchored | frontend/src/pages/CustomerForm.jsx:29 | the form's email pattern is unanchored: text around a match keeps it matching |
| CustomerForm.SchemaEmailPassesForm | frontend/src/pages/CustomerForm.jsx:27-31 | every email the stored schema accepts passes the form's check |
| CustomerForm.FormLooserThanSchema | frontend/src/pages/CustomerForm.jsx:29 | `a@b.c` passes the form and is refused by the schema |
| CustomerForm.Validate | frontend/src/pages/CustomerForm.jsx:24-35 | the errors hold `name` exactly for a blank name and `email` exactly for a blank or non-matching email, with their messages; valid exactly when there are none |
| CustomerForm.ValidFormName | frontend/src/pages/CustomerForm.jsx:26 | a name the form accepts passes the schema's `required` after trimming |
| CustomerForm.HandleChange | frontend/src/pages/CustomerForm.jsx:37-51 | only the named field changes; its shown error becomes null, and no other error changes |
| CustomerForm.AddTag | frontend/src/pages/CustomerForm.jsx:53-61 | a trimmed, non-blank, absent tag is appended and the box emptied; otherwise nothing changes |
| CustomerForm.AddTagKeepsDistinct | frontend/src/pages/CustomerForm.jsx:53-61 | adding keeps the tags free of repeats, and the added tag is trimmed |
| CustomerForm.RemoveTag | frontend/src/pages/CustomerForm.jsx:63-68 | every copy of the tag goes, the other tags stay in order, and no other field changes |
| CustomerForm.RemoveUndoesAdd | frontend/src/pages/CustomerForm.jsx:53-68 | removing a tag just added gives back the earlier list |
| CustomerForm.AddSegment | frontend/src/pages/CustomerForm.jsx:70-78 | a non-blank input becomes the trimmed segment and the box is emptied; a blank one changes nothing |
| CustomerDetail.OrEmpty | frontend/src/pages/CustomerDetail.jsx:31-36 | a missing or falsy text becomes `''`, any other stays |
| CustomerDetail.FormOf | frontend/src/pages/CustomerDetail.jsx:30-37 | each form field is the customer's or its fallback (`''`, `[]`) |
| CustomerDetail.ApplyEdit | frontend/src/pages/CustomerDetail.jsx:50-73 | an edit never changes the fetched customer or the editing flag; a field input, the segment input among them, leaves the tags and the tag box alone, and the segment input stores its text |
| CustomerDetail.EditsKeepCustomer | frontend/src/pages/CustomerDetail.jsx:50-73 | no run of edits changes the fetched customer or the editing flag |
| CustomerDetail.Load | frontend/src/pages/CustomerDetail.jsx:28-37 | the fetch stores the customer and fills the form from it |
| CustomerDetail.Cancel | frontend/src/pages/CustomerDetail.jsx:157-168 | cancel leaves editing and resets the form from the customer |
| CustomerDetail.CancelRestoresLoaded | frontend/src/pages/CustomerDetail.jsx:157-168 | after any edits, cancel brings back the form as it was loaded |
| CustomerDetail.EditsKeepTagsDistinct | frontend/src/pages/CustomerDetail.jsx:58-73 | every edit keeps the form's tags free of repeats |
| CustomerDetail.RemoveAllKeepsNoDup | frontend/src/pages/CustomerDetail.jsx:68-73 | removing a tag keeps the tags free of repeats |
| CustomerController.TrimAll | backend/controllers/customer.controller.js:68 | each piece is trimmed and none is lost |
| CustomerController.CoerceTags | backend/controllers/customer.controller.js:67-69 | a falsy value or an array is left as it is |
| CustomerController.CoercePieces | backend/controllers/customer.controller.js:67-69 | a truthy non-array becomes an array with one trimmed, comma-free piece per comma-separated part |
| CustomerController.TrimInside | backend/controllers/customer.controller.js:68 | trimming introduces no character |
| CustomerController.CoerceIdempotent | backend/controllers/customer.controller.js:67-69 | coercing twice gives what coercing once gives |
| CustomerController.CoerceSingle | backend/controllers/customer.controller.js:67-69 | a text with no comma becomes one trimmed tag |
| CustomerController.CastSegment | backend/models/Customer.model.js:25-28 | a segment is set exactly when the body has one; a single string becomes a one-element array |
| CustomerController.CastTags | backend/controllers/customer.controller.js:67-71 | the tags are set exactly when the body's value is an array after coercion |
| CustomerController.ToRaw | backend/controllers/customer.controller.js:103-107 | the document candidate takes the body's name, email and cast tags |
| CustomerController.Merge | backend/controllers/customer.controller.js:103-107 | each field the body sets replaces the stored one (the name trimmed), each one it leaves out stays; `createdAt` is kept and `updatedAt` set |
| CustomerController.PutKeepsUnique | backend/models/Customer.model.js:12 | storing a customer whose email no other holds keeps the emails unique |
| CustomerController.CustomerStore.Create | backend/controllers/customer.controller.js:56-91 | 400 for invalid input, 500 for a refused document, 400 with the duplicate message for an email in use, else 201 and the validated customer stored; emails stay unique |
| CustomerController.CustomerStore.Update | backend/controllers/customer.controller.js:96-127 | 500 for a field a validator refuses, 404 for a missing customer, 500 for an email another customer holds, else 200 and the merged customer stored |
| CustomerController.CustomerStore.Delete | backend/controllers/customer.controller.js:132-153 | 200 and removal when the customer exists, 404 otherwise |
| OrderDetail.ValidIgnoresCase | frontend/src/pages/OrderDetail.jsx:13 | an id and its lower-case form are valid together |
| OrderDetail.LowerKeepsHex | frontend/src/pages/OrderDetail.jsx:13 | a character is a hex digit exactly when its lower-case form is one |
| OrderDetail.InvalidIds | frontend/src/pages/OrderDetail.jsx:13 | an id with a character that is not a hex digit is refused |
| OrderDetail.ShouldFetch | frontend/src/pages/OrderDetail.jsx:13-19 | a fetch needs a present id of 24 characters |
| OrderDetail.FetchIffValid | frontend/src/pages/OrderDetail.jsx:13-19 | the order is fetched exactly when the id is present and a valid ObjectId |
| OrderDetail.Render | frontend/src/pages/OrderDetail.jsx:22-62 | the spinner exactly while loading, then the error box exactly for a non-empty error, then the details exactly when an order is there |
| OrderDetail.Badge | frontend/src/pages/OrderDetail.jsx:65-75 | a status outside the table gets the gray fallback |
| OrderDetail.StatusesDistinct | frontend/src/pages/OrderDetail.jsx:66-73 | the five statuses have colours different from the fallback and from each other |
| OrderDetail.FallbackIffUnknown | frontend/src/pages/OrderDetail.jsx:75 | the fallback colours go exactly to a status that is not one of the five |
| OrderDetail.UpperChar | frontend/src/pages/OrderDetail.jsx:82 | a lower-case ASCII letter becomes its capital, anything else stays |
| OrderDetail.Label | frontend/src/pages/OrderDetail.jsx:82 | the label has the status's length, its first letter capitalised and the rest unchanged |
| OrderDetail.LabelLowersBack | frontend/src/pages/OrderDetail.jsx:82 | a lower-case status is the label lower-cased again |

## Left out

- Evaluating a query in the database is not modelled. The model gives `Query` its own meaning over records instead.
- `SegmentQuery.RuleHolds`: the pattern of a `contains` or `not_contains` rule is read as a literal, case-insensitive substring, not as a regular expression.
- `countDocuments`, `findById`, `populate` and `save` stand for map lookups and map updates. Stored documents that reference each other are not populated.
- An `undefined` JavaScript value is modelled as `None` or `Null`. Invalid date strings are not modelled: dates are integers, and a missing one reads as NaN where the comparator sees it.
- The delivery rate and the open rate (backend/controllers/communicationLog.controller.js:276-286) are floating-point and are not modelled. `GetAnalytics` models `total` and `byStatus` only.
- `Text.StrCmp` orders strings by code point. `localeCompare` depends on the locale.
- Timers are not modelled: the `setTimeout` of the campaign execution, the mock delays of the campaign form, and the rule builder's debounce. The state change each timer eventually makes is modelled (`Complete`).
- Express routing and `express-validator` are not modelled. Their verdict is the `inputValid` parameter.
- Authentication, the admin middleware, the auth controller and the order controller are not modelled.
- The HTTP client helpers that dispatch the slice reducers are not modelled.
- The read-only handlers are not modelled: listing or fetching campaigns, customers and logs, and logs by campaign or by customer.
- `MessageTemplate.ReplaceAll`: a replacement value is inserted as it is. `$` patterns in it are not interpreted, and the keys are taken to hold no regular-expression metacharacters.
- `CampaignForm.Suggestions`: each message suggestion is a `Pitch` (its family and its index), not its text.
- `CampaignController.ApplyPatch`: a body's `deliveryStats` is modelled as a whole object replacing the stored one; a partial object (Mongoose casts the missing counters to their defaults) and a body's `createdAt` are not modelled.
- `CampaignForm.HandleTagInput`: the source tests for presence against `formData.tags` and appends to `prev.tags`. The model reads both from one state, as they are when no other update is pending.
- `CampaignForm.ParseInt`: the result is an unbounded integer. Loss of floating-point precision for long digit runs is not modelled.
- The generic `handleChange`, `useAiSuggestion` and the loading of the scheduled date and time in the campaign form are not modelled. They are plain field copies or date formatting.
- `createCampaign` does not call `calculateAudienceSize` or `generateAITags`. Both are modelled as they are written, and neither is connected to a handler.
- The communication-log model declares field names and statuses that conflict with its controller. The model follows the controller.
- `CampaignController.PatchAdmissible` and `CustomerController.UpdateAdmissible`: an update runs its validators only on the fields the body sets, as Mongoose update validators do.
- `CustomerController.CastTags`: a `tags` value that is falsy after the coercion is treated as absent, not cast.
- `CustomerController.TagsBody`: `Other(truthy, text)` stands for a number, a boolean or an object. It carries only the value's truthiness and its `toString` text.
- `lastOrderDate`, `lastVisitDate` and `address` are not stored in the customer model.
- `OrderDetail.Badge`: a status that names an `Object.prototype` member, such as `constructor`, is not modelled. An absent status is not modelled either.
- `OrderDetail.UpperChar`: `toUpperCase` is modelled for ASCII letters only.
- `Text.Lower`: `toLowerCase` is modelled for ASCII letters only; other letters keep their case, and no character expands. Every lower-cased comparison inherits this: `SegmentQuery.PatternHits` (the `contains` rules), `CustomerList.SearchHit`, `OrderList.FieldHit` and `OrderList.SearchOutcome`, `CampaignController.AiTags`, and `CampaignForm.MessageTags`.
- `CampaignController.FiresUnfold`: case is ignored for ASCII letters only, as in `Text.Lower`.
- `CampaignController.AiTagsKeywords`: a keyword is found in the message lower-cased for ASCII letters only, as in `Text.Lower`.
- `CampaignForm.MessageTagsIgnoreCase`: case is ignored for ASCII letters only, as in `Text.Lower`.
- `CustomerList.SearchIgnoresCase`: case is ignored for ASCII letters only, as in `Text.Lower`.
- `OrderList.SearchMeaning`: both sides are lower-cased for ASCII letters only, as in `Text.Lower`.
- `OrderList.Counts`: the source throws when it reads the status of a null entry. The model gives `None` for that case.
