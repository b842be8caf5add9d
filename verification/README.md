# HAPI FHIR core pieces, modelled and verified in Dafny

This project models a handful of small, self-contained pieces of HAPI FHIR and proves what each of them promises.

- **The alphabetical ordering of resource meta.** Covers:
  - the two identical `CodingAlphabeticalComparator` copies, which order codings by system and then by code, nulls first;
  - `PrimitiveTypeOfStringAlphabeticalComparator`;
  - `MetaTagSorterAlphabetical`, which sorts a meta's tags, security labels and profiles in place;
  - both `TagOrderInterceptor` classes, which sort the meta of every resource before it is stored and before it is shown.

  `List.sort` is modelled as a stable sort (`StableSort`). It is proved to be sorted, a permutation of its input, stable and idempotent. It is also proved to be the only stable sort, so the choice of algorithm does not matter. A meta is a `Meta` class whose list fields the sorter reassigns.
- **`WorkChunkStatusEnum`.** Covers the batch2 work-chunk state machine: the next-state table, and the prior-state table that the static initializer builds from it by nested loops.
- **`HapiMessageHeaders`.** Covers the retry count and failure timestamps carried with a message, and their conversion into a Spring header map.
- **`SubscriptionValidatingInterceptor`.** Covers the checks a submitted Subscription must pass before it is stored, each refusal with its own message code. What the server's collaborators answer is given as an `Environment` value.
- **`JdbcDriver`.** Covers the HFQL JDBC driver's URL handling and its registration with `DriverManager`.
- **`LocalSearchHfqlExecutionResult`.** The HFQL result cursor.
  - It reads a search in windows of `BATCH_SIZE`, drops resources the WHERE predicate rejects, and counts accepted resources against the limit.
  - It projects each accepted resource into a row of SELECT values.
  - It turns any exception into an error row that ends the cursor.
  - `HfqlModel` states the cursor as functions over its fields. `HfqlProperties` proves the guarantees about those functions. `HfqlCursor` is the class, with the Java fields, whose methods are proved to move exactly as those functions do.

Behaviours of the code worth knowing:

- **The limit counts accepted resources, not delivered rows.** The count grows when a resource is accepted, inside `fetchNextResource`, and the cursor is exhausted once the count reaches the limit. A limit of 0 (or any limit of 1 or less) therefore still yields one data row (`HfqlProperties.SmallLimitYieldsFirst`). A limit L yields at most max(L, 1) rows (`HfqlProperties.LimitBoundsRows`).
- **A projection error row is delivered twice.** When a SELECT clause throws, `getNextRow` returns the error row and also stores it, so the next `getNextRow` returns the same row again. Only the call after that fails (`HfqlProperties.ProjectionErrorReportedTwice`).
- **`hasNext` hides a stored error row.** While an error row from the fetch (the provider or the predicate threw) is stored, `hasNext` is false; only a direct `getNextRow` hands it out (`HfqlProperties.FetchErrorReportedOnce`).
- **Only an empty window ends the search.** A short window does not; the next window is still requested.
- **`getNextRow` can fail.** With nothing pending, it fails with "No more results" (Java's `IllegalArgumentException`).

## Model

| member | source | states |
|---|---|---|
| JavaStrings.NullSafeCompare | hapi-fhir-storage/src/main/java/ca/uhn/fhir/util/CodingAlphabeticalComparator.java:15 | StringUtils.compare: zero exactly when both are equal (both null counts as equal), null below every string, otherwise the sign of String.compareTo on the two strings' UTF-16 code units |
| JavaStrings.CompareUnits | hapi-fhir-base/src/main/java/ca/uhn/fhir/util/CodingAlphabeticalComparator.java:12 | String.compareTo on the UTF-16 code units (CompareTo applies it to Utf16 of both strings): the difference of the first differing units, or the difference of the lengths when one is a prefix of the other |
| JavaStrings.Utf16Injective | hapi-fhir-base/src/main/java/ca/uhn/fhir/util/PrimitiveTypeOfStringAlphabeticalComparator.java:12 | two strings with the same UTF-16 code units are equal, so comparing code units loses nothing |
| JavaStrings.SupplementaryBeforeHalfwidth | hapi-fhir-base/src/main/java/ca/uhn/fhir/util/PrimitiveTypeOfStringAlphabeticalComparator.java:12 | a character above U+FFFF (whose high surrogate is in D800-DBFF) sorts before U+FF5E, the reverse of code point order |
| JavaStrings.BlankUnicodeSpaces | hapi-fhir-jpaserver-subscription/src/main/java/ca/uhn/fhir/jpa/subscription/submit/interceptor/SubscriptionValidatingInterceptor.java:293 | StringUtils.isBlank uses Character.isWhitespace: an em space is blank, a no-break space is not |
| JavaStrings.CompareToAntisymmetric | hapi-fhir-storage/src/main/java/ca/uhn/fhir/util/CodingAlphabeticalComparator.java:19 | String.compareTo(a, b) is the negation of compareTo(b, a) |
| JavaStrings.CompareToZeroIffEqual | hapi-fhir-base/src/main/java/ca/uhn/fhir/util/CodingAlphabeticalComparator.java:16 | String.compareTo is zero exactly for equal strings |
| JavaStrings.CompareToTransitive | hapi-fhir-base/src/main/java/ca/uhn/fhir/util/CodingAlphabeticalComparator.java:12 | String.compareTo is transitive on "greater than" |
| JavaStrings.NullSafeCompareAntisymmetric | hapi-fhir-base/src/main/java/ca/uhn/fhir/util/PrimitiveTypeOfStringAlphabeticalComparator.java:12 | swapping the arguments of the null-safe compare flips the sign of the result |
| JavaStrings.NullSafeCompareTransitive | hapi-fhir-storage/src/main/java/ca/uhn/fhir/util/CodingAlphabeticalComparator.java:15-17 | the null-safe compare is transitive on "greater than" |
| CodingOrder.CompareCodings | hapi-fhir-base/src/main/java/ca/uhn/fhir/util/CodingAlphabeticalComparator.java:11-17 | a different system decides; only an equal system lets the code decide; zero exactly when both system and code agree; a null system, and then a null code, come first; strings compare by UTF-16 code unit |
| CodingOrder.CompareCodingsIsComparator | hapi-fhir-storage/src/main/java/ca/uhn/fhir/util/CodingAlphabeticalComparator.java:14-20 | the coding order (the storage copy has the same code) meets the Comparator contract: antisymmetric sign, transitive, and consistent for equal keys |
| CodingOrder.ComparePrimitiveStrings | hapi-fhir-base/src/main/java/ca/uhn/fhir/util/PrimitiveTypeOfStringAlphabeticalComparator.java:11-13 | zero exactly for equal values, a null value first, otherwise the sign of String.compareTo on UTF-16 code units |
| CodingOrder.ComparePrimitiveStringsIsComparator | hapi-fhir-base/src/main/java/ca/uhn/fhir/util/PrimitiveTypeOfStringAlphabeticalComparator.java:9-14 | the string-value order meets the Comparator contract |
| CodingOrder.AlphabeticalCodingsSpec | hapi-fhir-storage/src/main/java/ca/uhn/fhir/util/MetaTagSorterAlphabetical.java:22-24 | sorting codings yields a sorted permutation of the list that keeps the input order of equal codings; sorting again changes nothing |
| CodingOrder.AlphabeticalProfilesSpec | hapi-fhir-storage/src/main/java/ca/uhn/fhir/util/MetaTagSorterAlphabetical.java:26-28 | the same for profiles: sorted, a permutation, stable, idempotent |
| CodingOrder.ReorderedCodingsSortAlike | hapi-fhir-storage/src/main/java/ca/uhn/fhir/util/MetaTagSorterAlphabetical.java:23 | two orderings of the same distinct codings sort to the same list |
| CodingOrder.ReorderedProfilesSortAlike | hapi-fhir-storage/src/main/java/ca/uhn/fhir/util/MetaTagSorterAlphabetical.java:27 | two orderings of the same distinct profiles sort to the same list |
| CodingOrder.CreatedTagsExample | hapi-fhir-storage-test-utilities/src/main/java/ca/uhn/fhir/storage/test/TagTestCasesUtil.java:100-116 | the codings sys2/sys1 crossed with c,b,a sort to sys1 a,b,c then sys2 a,b,c |
| CodingOrder.ReorderedTagsExample | hapi-fhir-storage-test-utilities/src/main/java/ca/uhn/fhir/storage/test/TagTestCasesUtil.java:73-97 | the update's b,c,a ordering of the same codings sorts to the same list as the create's c,b,a ordering, so the stored tags do not change |
| StableSort.SortSorted | hapi-fhir-storage/src/main/java/ca/uhn/fhir/util/MetaTagSorterAlphabetical.java:22-23 | List.sort leaves the list ordered by the comparator |
| StableSort.SortPermutation | hapi-fhir-storage/src/main/java/ca/uhn/fhir/util/MetaTagSorterAlphabetical.java:26-27 | List.sort keeps exactly the same elements |
| StableSort.SortStable | hapi-fhir-storage/src/main/java/ca/uhn/fhir/util/MetaTagSorterAlphabetical.java:23 | List.sort keeps the input order of elements the comparator ties |
| StableSort.SortIdempotent | hapi-fhir-storage/src/main/java/ca/uhn/fhir/util/MetaTagSorterAlphabetical.java:27 | sorting a sorted list changes nothing |
| StableSort.StableSortIsSort | hapi-fhir-storage/src/main/java/ca/uhn/fhir/util/MetaTagSorterAlphabetical.java:22-28 | any sorted, stable rearrangement of a list is the list that Sort yields, so Java's merge sort and the insertion sort here agree |
| StableSort.SortedPermutationUnique | hapi-fhir-storage/src/main/java/ca/uhn/fhir/util/MetaTagSorterAlphabetical.java:30-34 | two sorted permutations of a list whose elements the comparator never ties are equal |
| StableSort.ReorderedInputSortsAlike | hapi-fhir-storage/src/main/java/ca/uhn/fhir/util/MetaTagSorterAlphabetical.java:31 | permuted inputs with distinct keys sort alike |
| MetaTagSorter.SortedValue | hapi-fhir-storage/src/main/java/ca/uhn/fhir/util/MetaTagSorterAlphabetical.java:30-34 | sorting a meta changes only its tag, security and profile lists |
| MetaTagSorter.SortedValueSpec | hapi-fhir-storage/src/main/java/ca/uhn/fhir/util/MetaTagSorterAlphabetical.java:31-33 | after sort, each of the three lists is sorted, a permutation of the old one and stable; sorting again changes nothing |
| MetaTagSorter.SortedValueIdempotent | hapi-fhir-storage/src/main/java/ca/uhn/fhir/util/MetaTagSorterAlphabetical.java:30 | sorting a sorted meta changes nothing |
| MetaTagSorter.ReorderedMetaSortsAlike | hapi-fhir-storage-test-utilities/src/main/java/ca/uhn/fhir/storage/test/TagTestCasesUtil.java:84-93 | metas that differ only in the order of distinct tags, security labels and profiles sort to the same meta |
| MetaTagSorter.MetaTagSorterAlphabetical.constructor | hapi-fhir-storage/src/main/java/ca/uhn/fhir/util/MetaTagSorterAlphabetical.java:17-20 | a new sorter has sorted no meta yet |
| MetaTagSorter.MetaTagSorterAlphabetical.SortCodings | hapi-fhir-storage/src/main/java/ca/uhn/fhir/util/MetaTagSorterAlphabetical.java:22-24 | the result is the codings sorted, a permutation, stable |
| MetaTagSorter.MetaTagSorterAlphabetical.SortPrimitiveStrings | hapi-fhir-storage/src/main/java/ca/uhn/fhir/util/MetaTagSorterAlphabetical.java:26-28 | the result is the strings sorted, a permutation, stable |
| MetaTagSorter.MetaTagSorterAlphabetical.Sort | hapi-fhir-storage/src/main/java/ca/uhn/fhir/util/MetaTagSorterAlphabetical.java:30-34 | the meta's three lists are replaced by their sorted versions, nothing else in it changes, and the meta is recorded as sorted once |
| TagOrderHooks.TagOrderInterceptor.constructor | hapi-fhir-storage/src/main/java/ca/uhn/fhir/storage/interceptor/TagOrderInterceptor.java:17-19 | the interceptor keeps the sorter it is given |
| TagOrderHooks.TagOrderInterceptor.SortResourceTags | hapi-fhir-storage/src/main/java/ca/uhn/fhir/storage/interceptor/TagOrderInterceptor.java:21-24 | the resource's meta is sorted by the sorter, which records exactly that meta |
| TagOrderHooks.TagOrderInterceptor.ResourcePreCreate | hapi-fhir-storage/src/main/java/ca/uhn/fhir/storage/interceptor/TagOrderInterceptor.java:26-29 | the created resource's meta is sorted, once |
| TagOrderHooks.TagOrderInterceptor.ResourcePreUpdate | hapi-fhir-storage/src/main/java/ca/uhn/fhir/storage/interceptor/TagOrderInterceptor.java:30-33 | the new resource's meta is sorted, once; the old resource, which may be null, keeps its meta |
| TagOrderHooks.TagOrderInterceptor.ResourcePreShow | hapi-fhir-storage/src/main/java/ca/uhn/fhir/storage/interceptor/TagOrderInterceptor.java:35-40 | every shown resource's meta is sorted, and the sorter is called once per resource, in order |
| TagOrderHooks.TagOrderInterceptor.SortShown | hapi-fhir-storage/src/main/java/ca/uhn/fhir/storage/interceptor/TagOrderInterceptor.java:37-39 | one iteration: the metas of the resources so far hold their sorted starting value and the others their starting value, and the sorter's log grows by exactly the shown resource's meta |
| StorageTagOrder.TagOrderInterceptor.SortResourceTags | hapi-fhir-storage/src/main/java/ca/uhn/fhir/storage/TagOrderInterceptor.java:23-28 | tag and security sorted by the coding order and profile by the string order; nothing else changes |
| StorageTagOrder.TagOrderInterceptor.ResourcePreCreate | hapi-fhir-storage/src/main/java/ca/uhn/fhir/storage/TagOrderInterceptor.java:30-33 | the created resource's meta is sorted |
| StorageTagOrder.TagOrderInterceptor.ResourcePreUpdate | hapi-fhir-storage/src/main/java/ca/uhn/fhir/storage/TagOrderInterceptor.java:34-37 | the new resource's meta is sorted; the old one, which may be null, keeps its meta |
| StorageTagOrder.TagOrderInterceptor.ResourcePreShow | hapi-fhir-storage/src/main/java/ca/uhn/fhir/storage/TagOrderInterceptor.java:39-44 | every shown resource's meta is sorted |
| StorageTagOrder.TagOrderInterceptor.SortShown | hapi-fhir-storage/src/main/java/ca/uhn/fhir/storage/TagOrderInterceptor.java:41-43 | one iteration: the metas of the resources so far hold their sorted starting value and the others their starting value |
| WorkChunkStatus.ValuesListsEveryState | hapi-fhir-storage-batch2/src/main/java/ca/uhn/fhir/batch2/model/WorkChunkStatusEnum.java:13 | values() lists every state exactly once |
| WorkChunkStatus.PriorStatesInvertNextStates | hapi-fhir-storage-batch2/src/main/java/ca/uhn/fhir/batch2/model/WorkChunkStatusEnum.java:49-51 | p is a prior state of s exactly when s is a next state of p |
| WorkChunkStatus.BuildPriorStates | hapi-fhir-storage-batch2/src/main/java/ca/uhn/fhir/batch2/model/WorkChunkStatusEnum.java:16-26 | the static initializer's table has an entry for every state, holding exactly the states whose next states include it |
| WorkChunkStatus.AddPriorState | hapi-fhir-storage-batch2/src/main/java/ca/uhn/fhir/batch2/model/WorkChunkStatusEnum.java:22-24 | the state is added to the set of exactly its next states, every other set unchanged |
| WorkChunkStatus.StaticState.constructor | hapi-fhir-storage-batch2/src/main/java/ca/uhn/fhir/batch2/model/WorkChunkStatusEnum.java:15-26 | the class's prior-state table is the one the initializer builds |
| WorkChunkStatus.StaticState.GetPriorStates | hapi-fhir-storage-batch2/src/main/java/ca/uhn/fhir/batch2/model/WorkChunkStatusEnum.java:50 | getPriorStates(s) holds exactly the states p with s in p.getNextStates() |
| WorkChunkStatus.PriorStatesInvertNextStatesAll | hapi-fhir-storage-batch2/src/main/java/ca/uhn/fhir/batch2/model/WorkChunkStatusEnum.java:21-25 | the inversion holds for all prior states of a state at once |
| WorkChunkStatus.PriorStatesTable | hapi-fhir-storage-batch2/src/main/java/ca/uhn/fhir/batch2/model/WorkChunkStatusEnum.java:33-47 | the prior states: none for QUEUED; QUEUED, IN_PROGRESS and ERRORED for IN_PROGRESS; IN_PROGRESS for ERRORED; IN_PROGRESS and ERRORED for FAILED and for COMPLETED |
| WorkChunkStatus.TerminalStates | hapi-fhir-storage-batch2/src/main/java/ca/uhn/fhir/batch2/model/WorkChunkStatusEnum.java:41-46 | exactly FAILED and COMPLETED have no next state; QUEUED moves only to IN_PROGRESS; ERRORED never returns to ERRORED or QUEUED |
| WorkChunkStatus.IncompleteVersusTerminal | hapi-fhir-storage-batch2/src/main/java/ca/uhn/fhir/batch2/model/WorkChunkStatusEnum.java:29-31 | isIncomplete is false only for COMPLETED, so FAILED counts as incomplete although it is terminal |
| WorkChunkStatus.RunShape | hapi-fhir-storage-batch2/src/main/java/ca/uhn/fhir/batch2/model/WorkChunkStatusEnum.java:33-40 | in any run of allowed transitions, QUEUED appears only first and a terminal state only last |
| MessageHeaders.BoxInteger | hapi-fhir-server/src/main/java/ca/uhn/fhir/rest/server/messaging/json/HapiMessageHeaders.java:101 | a null retry count goes into the map as null, any other as its Integer value |
| MessageHeaders.BoxLong | hapi-fhir-server/src/main/java/ca/uhn/fhir/rest/server/messaging/json/HapiMessageHeaders.java:102-103 | a null timestamp goes into the map as null, any other as its Long value |
| MessageHeaders.HapiMessageHeaders.WithHeaders | hapi-fhir-server/src/main/java/ca/uhn/fhir/rest/server/messaging/json/HapiMessageHeaders.java:57-59 | the given custom-header map (possibly null) is kept; the retry count starts at 0 and the timestamps at null |
| MessageHeaders.HapiMessageHeaders.constructor | hapi-fhir-server/src/main/java/ca/uhn/fhir/rest/server/messaging/json/HapiMessageHeaders.java:61-63 | a fresh empty custom-header map; the retry count starts at 0 and the timestamps at null |
| MessageHeaders.HapiMessageHeaders.GetRetryCount | hapi-fhir-server/src/main/java/ca/uhn/fhir/rest/server/messaging/json/HapiMessageHeaders.java:65-70 | a null retry count reads as 0, any other as itself |
| MessageHeaders.HapiMessageHeaders.SetRetryCount | hapi-fhir-server/src/main/java/ca/uhn/fhir/rest/server/messaging/json/HapiMessageHeaders.java:80-82 | the retry count is replaced; the timestamps stay |
| MessageHeaders.HapiMessageHeaders.SetLastFailureTimestamp | hapi-fhir-server/src/main/java/ca/uhn/fhir/rest/server/messaging/json/HapiMessageHeaders.java:84-86 | the last-failure timestamp is replaced; the other fields stay |
| MessageHeaders.HapiMessageHeaders.SetFirstFailureTimestamp | hapi-fhir-server/src/main/java/ca/uhn/fhir/rest/server/messaging/json/HapiMessageHeaders.java:88-90 | the first-failure timestamp is replaced; the other fields stay |
| MessageHeaders.HapiMessageHeaders.GetCustomHeaders | hapi-fhir-server/src/main/java/ca/uhn/fhir/rest/server/messaging/json/HapiMessageHeaders.java:92-97 | the stored map itself, or a fresh empty map when it is null |
| MessageHeaders.HapiMessageHeaders.ToMessageHeaders | hapi-fhir-server/src/main/java/ca/uhn/fhir/rest/server/messaging/json/HapiMessageHeaders.java:99-105 | fails (NullPointerException) exactly when the custom map is null. Otherwise the keys are the custom keys plus the three reserved ones. Custom entries are kept except where a reserved key overrides them, and the reserved keys carry the raw fields. |
| Jdbc.ServerUrl | hapi-fhir-jpaserver-hfql/src/main/java/ca/uhn/fhir/jpa/fql/jdbc/JdbcDriver.java:38 | connect keeps the URL's UTF-16 code units after the first fourteen (the prefix length), failing with StringIndexOutOfBoundsException exactly when the URL has fewer than fourteen code units |
| Jdbc.AcceptedUrlSplits | hapi-fhir-jpaserver-hfql/src/main/java/ca/uhn/fhir/jpa/fql/jdbc/JdbcDriver.java:37-49 | on an accepted URL connect keeps the code units of exactly the characters after the prefix, and the prefix's units followed by them are the URL's units |
| Jdbc.PrefixedUrlRoundTrip | hapi-fhir-jpaserver-hfql/src/main/java/ca/uhn/fhir/jpa/fql/jdbc/JdbcDriver.java:29 | prefixing a server URL gives an accepted URL from which connect recovers exactly that server URL's code units |
| Jdbc.AcceptsExactlyPrefixed | hapi-fhir-jpaserver-hfql/src/main/java/ca/uhn/fhir/jpa/fql/jdbc/JdbcDriver.java:47-49 | acceptsURL holds exactly for URLs that start with jdbc:hapifhir: |
| Jdbc.ConnectIgnoresPrefix | hapi-fhir-jpaserver-hfql/src/main/java/ca/uhn/fhir/jpa/fql/jdbc/JdbcDriver.java:36-44 | connect does not check the prefix: any URL starting "jdbc:postgresq" is refused by acceptsURL, yet connect keeps everything after those fourteen characters |
| Jdbc.SupplementaryUrlCut | hapi-fhir-jpaserver-hfql/src/main/java/ca/uhn/fhir/jpa/fql/jdbc/JdbcDriver.java:38 | the cut counts code units: seven characters from U+10000 up are cut off whole, so connect keeps exactly what follows them, though acceptsURL refuses the URL |
| Jdbc.SplitSurrogateUrl | hapi-fhir-jpaserver-hfql/src/main/java/ca/uhn/fhir/jpa/fql/jdbc/JdbcDriver.java:38 | thirteen BMP characters followed by a character from U+10000 up: the cut splits its surrogate pair and the server URL starts with the lone low surrogate |
| Jdbc.DriverStatics.constructor | hapi-fhir-jpaserver-hfql/src/main/java/ca/uhn/fhir/jpa/fql/jdbc/JdbcDriver.java:28-34 | class initialisation creates the instance and registers it once |
| Jdbc.DriverStatics.Load | hapi-fhir-jpaserver-hfql/src/main/java/ca/uhn/fhir/jpa/fql/jdbc/JdbcDriver.java:76-87 | load returns the single instance and registers it only if not registered; a registry failure leaves the flag set |
| Jdbc.DriverStatics.Unload | hapi-fhir-jpaserver-hfql/src/main/java/ca/uhn/fhir/jpa/fql/jdbc/JdbcDriver.java:94-103 | unload deregisters only a registered driver and always clears the flag |
| Jdbc.AlternationCounts | hapi-fhir-jpaserver-hfql/src/main/java/ca/uhn/fhir/jpa/fql/jdbc/JdbcDriver.java:78-98 | registrations and deregistrations alternate, so registrations outnumber deregistrations by at most one |
| SubscriptionValidation.ValidateMessageSubscriptionEndpoint | hapi-fhir-jpaserver-subscription/src/main/java/ca/uhn/fhir/jpa/subscription/submit/interceptor/SubscriptionValidatingInterceptor.java:258-279 | code 16 for no endpoint, 19 for one that does not parse, 17 for a scheme other than channel, 18 for a channel name that is blank (empty or all Java whitespace); passes exactly otherwise |
| SubscriptionValidation.ValidateChannelPayload | hapi-fhir-jpaserver-subscription/src/main/java/ca/uhn/fhir/jpa/subscription/submit/interceptor/SubscriptionValidatingInterceptor.java:300-306 | passes exactly when the payload is blank (empty or all Java whitespace) or a known content type; else code 1985 |
| SubscriptionValidation.ValidateChannelEndpoint | hapi-fhir-jpaserver-subscription/src/main/java/ca/uhn/fhir/jpa/subscription/submit/interceptor/SubscriptionValidatingInterceptor.java:292-297 | passes exactly when the endpoint is not blank (empty or all Java whitespace); else code 21 |
| SubscriptionValidation.ValidateChannelType | hapi-fhir-jpaserver-subscription/src/main/java/ca/uhn/fhir/jpa/subscription/submit/interceptor/SubscriptionValidatingInterceptor.java:282-289 | code 20 without a type; a rest-hook gets the payload check and then the endpoint check; other types pass |
| SubscriptionValidation.ValidatePermissions | hapi-fhir-jpaserver-subscription/src/main/java/ca/uhn/fhir/jpa/subscription/submit/interceptor/SubscriptionValidatingInterceptor.java:200-230 | only cross-partition, non-system requests are checked: code 2009 when the feature is off; an update with no partition passes; otherwise the partition (given, or determined) must be the default one (code 2010), a null determined partition failing with a NullPointerException |
| SubscriptionValidation.ValidateCriteriaOrTopic | hapi-fhir-jpaserver-subscription/src/main/java/ca/uhn/fhir/jpa/subscription/submit/interceptor/SubscriptionValidatingInterceptor.java:153-173 | a topic subscription outside R4 needs its topic (code 2322); otherwise the criteria are validated, then the payload search criteria when present |
| SubscriptionValidation.DecideStrategy | hapi-fhir-jpaserver-subscription/src/main/java/ca/uhn/fhir/jpa/subscription/submit/interceptor/SubscriptionValidatingInterceptor.java:177-189 | the evaluator's strategy, refused when it is not in-memory on an in-memory-only server; every refusal becomes code 9, and an evaluator failure gives exactly code 9 with the criteria text, a space and the evaluator's message |
| SubscriptionValidation.ValidateSubmittedSubscription | hapi-fhir-jpaserver-subscription/src/main/java/ca/uhn/fhir/jpa/subscription/submit/interceptor/SubscriptionValidatingInterceptor.java:108-198 | The checks run in the source's order: pointcut (2267), other resource types pass, canonicalisation (955), status (8), permissions, then for live statuses criteria/topic, channel type (a missing one refused with code 20), strategy and message endpoint, the first failing check giving the refusal. The strategy tag is cleared after the permission check, so a refusal before the strategy is decided leaves it empty; once decided it holds the strategy, even if the endpoint check then refuses. |
| SubscriptionValidation.ValidateLiveSubscription | hapi-fhir-jpaserver-subscription/src/main/java/ca/uhn/fhir/jpa/subscription/submit/interceptor/SubscriptionValidatingInterceptor.java:151-197 | for a REQUESTED or ACTIVE subscription, the first failing check among criteria or topic, channel type, strategy and message endpoint decides the refusal; a missing channel type is refused with code 20, so the later code-10 refusal is never reached; the tag changes only once the strategy is decided, and then holds it |
| HfqlModel.Initial | hapi-fhir-jpaserver-hfql/src/main/java/ca/uhn/fhir/jpa/fql/executor/LocalSearchHfqlExecutionResult.java:61-81 | a new cursor starts at the initial offset with nothing fetched, pending, counted or stored |
| HfqlModel.Loop | hapi-fhir-jpaserver-hfql/src/main/java/ca/uhn/fhir/jpa/fql/executor/LocalSearchHfqlExecutionResult.java:101-131 | the fetch loop ends only with a resource pending, the search exhausted or an exception; the next window offset never decreases |
| HfqlModel.StoreError | hapi-fhir-jpaserver-hfql/src/main/java/ca/uhn/fhir/jpa/fql/executor/LocalSearchHfqlExecutionResult.java:200-205 | the cursor ends and drops its pending resource; with a message, the error row at ROW_OFFSET_ERROR holds it as its one value; with a null message List.of throws before the row is stored, so the error row is unchanged; nothing else changes |
| HfqlModel.Count | hapi-fhir-jpaserver-hfql/src/main/java/ca/uhn/fhir/jpa/fql/executor/LocalSearchHfqlExecutionResult.java:133-138 | an accepted resource adds one to the count, and reaching the limit exhausts the search |
| HfqlModel.FetchNext | hapi-fhir-jpaserver-hfql/src/main/java/ca/uhn/fhir/jpa/fql/executor/LocalSearchHfqlExecutionResult.java:99-143 | after a fetch, either a resource is pending or the cursor is exhausted; the data rows returned are untouched |
| HfqlModel.Stringify | hapi-fhir-jpaserver-hfql/src/main/java/ca/uhn/fhir/jpa/fql/executor/LocalSearchHfqlExecutionResult.java:169-177 | the first value only: an id gives its id part, another value its encoding, an empty result or a null value gives null |
| HfqlModel.Project | hapi-fhir-jpaserver-hfql/src/main/java/ca/uhn/fhir/jpa/fql/executor/LocalSearchHfqlExecutionResult.java:163-191 | a projection that succeeds has one value per SELECT clause |
| HfqlModel.Aliases | hapi-fhir-jpaserver-hfql/src/main/java/ca/uhn/fhir/jpa/fql/executor/LocalSearchHfqlExecutionResult.java:78-80 | the column names are the SELECT aliases in order |
| HfqlProperties.AcceptedSpec | hapi-fhir-jpaserver-hfql/src/main/java/ca/uhn/fhir/jpa/fql/executor/LocalSearchHfqlExecutionResult.java:128-130 | the offsets kept are exactly those whose resource the predicate accepts, in strictly increasing order |
| HfqlProperties.WindowsClosedForm | hapi-fhir-jpaserver-hfql/src/main/java/ca/uhn/fhir/jpa/fql/executor/LocalSearchHfqlExecutionResult.java:103-113 | window i is requested at initialOffset + i × BATCH_SIZE |
| HfqlProperties.StepKeeps | hapi-fhir-jpaserver-hfql/src/main/java/ca/uhn/fhir/jpa/fql/executor/LocalSearchHfqlExecutionResult.java:102-130 | one pass keeps the cursor invariant and accepts only the resource it leaves pending |
| HfqlProperties.LoopKeeps | hapi-fhir-jpaserver-hfql/src/main/java/ca/uhn/fhir/jpa/fql/executor/LocalSearchHfqlExecutionResult.java:101-131 | the whole loop keeps the invariant and accepts at most one resource |
| HfqlProperties.LoopScansToEnd | hapi-fhir-jpaserver-hfql/src/main/java/ca/uhn/fhir/jpa/fql/executor/LocalSearchHfqlExecutionResult.java:115-116 | a loop that ends without a resource and without an exception has examined the whole search, so every accepting resource from the initial offset on has been accepted |
| HfqlProperties.LoopIgnoresLimit | hapi-fhir-jpaserver-hfql/src/main/java/ca/uhn/fhir/jpa/fql/executor/LocalSearchHfqlExecutionResult.java:100-131 | the fetch loop does not depend on the limit |
| HfqlProperties.InitialValid | hapi-fhir-jpaserver-hfql/src/main/java/ca/uhn/fhir/jpa/fql/executor/LocalSearchHfqlExecutionResult.java:71-80 | the constructor establishes the cursor invariant |
| HfqlProperties.FetchNextValid | hapi-fhir-jpaserver-hfql/src/main/java/ca/uhn/fhir/jpa/fql/executor/LocalSearchHfqlExecutionResult.java:99-142 | fetchNextResource keeps the invariant: windows consecutive, accepted offsets exactly the accepting ones scanned, count within the limit, error row terminal |
| HfqlProperties.FetchNextIdempotent | hapi-fhir-jpaserver-hfql/src/main/java/ca/uhn/fhir/jpa/fql/executor/LocalSearchHfqlExecutionResult.java:94-97 | calling fetchNextResource or hasNext again changes nothing |
| HfqlProperties.ExhaustedStaysExhausted | hapi-fhir-jpaserver-hfql/src/main/java/ca/uhn/fhir/jpa/fql/executor/LocalSearchHfqlExecutionResult.java:105 | an exhausted cursor with nothing pending fetches nothing more and hasNext is false |
| HfqlProperties.ProjectSuccess | hapi-fhir-jpaserver-hfql/src/main/java/ca/uhn/fhir/jpa/fql/executor/LocalSearchHfqlExecutionResult.java:161-191 | every clause evaluated, and each value is the stringified first element of its clause |
| HfqlProperties.ProjectFailure | hapi-fhir-jpaserver-hfql/src/main/java/ca/uhn/fhir/jpa/fql/executor/LocalSearchHfqlExecutionResult.java:162-168 | a projection fails at the first clause that throws, every earlier clause having evaluated |
| HfqlProperties.NextRowValid | hapi-fhir-jpaserver-hfql/src/main/java/ca/uhn/fhir/jpa/fql/executor/LocalSearchHfqlExecutionResult.java:146-198 | getNextRow keeps the invariant |
| HfqlProperties.DataRow | hapi-fhir-jpaserver-hfql/src/main/java/ca/uhn/fhir/jpa/fql/executor/LocalSearchHfqlExecutionResult.java:174-197 | a data row is the next accepted resource at its search offset, with one value per clause as stringified |
| HfqlProperties.RowsInSearchOrder | hapi-fhir-jpaserver-hfql/src/main/java/ca/uhn/fhir/jpa/fql/executor/LocalSearchHfqlExecutionResult.java:117-121 | data rows come from accepted resources at strictly increasing offsets |
| HfqlProperties.ConsecutiveDataRows | hapi-fhir-jpaserver-hfql/src/main/java/ca/uhn/fhir/jpa/fql/executor/LocalSearchHfqlExecutionResult.java:196-197 | two data rows in a row: the second has the larger offset |
| HfqlProperties.LimitBoundsRows | hapi-fhir-jpaserver-hfql/src/main/java/ca/uhn/fhir/jpa/fql/executor/LocalSearchHfqlExecutionResult.java:133-138 | with a limit L, at most max(L, 1) data rows come out |
| HfqlProperties.SmallLimitYieldsFirst | hapi-fhir-jpaserver-hfql/src/main/java/ca/uhn/fhir/jpa/fql/executor/LocalSearchHfqlExecutionResult.java:134-136 | a limit of 1 or less still lets the first accepted resource (the one an unlimited query would fetch) through, then ends the search |
| HfqlProperties.CompleteWithoutLimit | hapi-fhir-jpaserver-hfql/src/main/java/ca/uhn/fhir/jpa/fql/executor/LocalSearchHfqlExecutionResult.java:115-121 | without a limit or an exception, a cursor that runs out has accepted every accepting resource from the initial offset on |
| HfqlProperties.FetchErrorReportedOnce | hapi-fhir-jpaserver-hfql/src/main/java/ca/uhn/fhir/jpa/fql/executor/LocalSearchHfqlExecutionResult.java:139-152 | after an exception with a message in the fetch, hasNext is false, getNextRow returns the error row once, then fails with "No more results" |
| HfqlProperties.NullMessageFetchError | hapi-fhir-jpaserver-hfql/src/main/java/ca/uhn/fhir/jpa/fql/executor/LocalSearchHfqlExecutionResult.java:140-142 | after an exception with a null message in the fetch, the cursor is exhausted with nothing pending and no error row, so hasNext is false and getNextRow fails with "No more results" |
| HfqlProperties.ProjectionErrorReportedTwice | hapi-fhir-jpaserver-hfql/src/main/java/ca/uhn/fhir/jpa/fql/executor/LocalSearchHfqlExecutionResult.java:166-173 | a clause that throws yields the error row naming the clause and message; it is returned by this call and by the next, and the one after fails |
| HfqlCursor.LocalSearchHfqlExecutionResult.constructor | hapi-fhir-jpaserver-hfql/src/main/java/ca/uhn/fhir/jpa/fql/executor/LocalSearchHfqlExecutionResult.java:61-81 | the fields start as the initial cursor, and the invariant holds |
| HfqlCursor.LocalSearchHfqlExecutionResult.GetColumnNames | hapi-fhir-jpaserver-hfql/src/main/java/ca/uhn/fhir/jpa/fql/executor/LocalSearchHfqlExecutionResult.java:84-86 | the column names are the SELECT aliases in order |
| HfqlCursor.LocalSearchHfqlExecutionResult.HasNext | hapi-fhir-jpaserver-hfql/src/main/java/ca/uhn/fhir/jpa/fql/executor/LocalSearchHfqlExecutionResult.java:94-97 | moves as the functional hasNext does, keeping the invariant |
| HfqlCursor.LocalSearchHfqlExecutionResult.FetchNextResource | hapi-fhir-jpaserver-hfql/src/main/java/ca/uhn/fhir/jpa/fql/executor/LocalSearchHfqlExecutionResult.java:99-143 | the new fields are exactly FetchNext of the old ones |
| HfqlCursor.LocalSearchHfqlExecutionResult.FetchPass | hapi-fhir-jpaserver-hfql/src/main/java/ca/uhn/fhir/jpa/fql/executor/LocalSearchHfqlExecutionResult.java:102-130 | one pass of the while loop, or the error row when it throws, exactly as Step describes |
| HfqlCursor.LocalSearchHfqlExecutionResult.FetchWindow | hapi-fhir-jpaserver-hfql/src/main/java/ca/uhn/fhir/jpa/fql/executor/LocalSearchHfqlExecutionResult.java:105-118 | with no batch, the window of BATCH_SIZE offsets from the next search row is fetched and recorded, exactly as FetchBatch says; a provider exception is returned and changes no field |
| HfqlCursor.LocalSearchHfqlExecutionResult.PickEntry | hapi-fhir-jpaserver-hfql/src/main/java/ca/uhn/fhir/jpa/fql/executor/LocalSearchHfqlExecutionResult.java:119-127 | the fields become Pick of the old ones: an empty batch ends the search, a batch with entries left makes its next entry pending at window start plus batch row, a used-up batch is dropped |
| HfqlCursor.LocalSearchHfqlExecutionResult.TestEntry | hapi-fhir-jpaserver-hfql/src/main/java/ca/uhn/fhir/jpa/fql/executor/LocalSearchHfqlExecutionResult.java:129-131 | the fields and the exception are Test of the old fields: a rejected resource is let go, an accepted one is recorded, a throwing predicate changes nothing |
| HfqlCursor.LocalSearchHfqlExecutionResult.GetNextRow | hapi-fhir-jpaserver-hfql/src/main/java/ca/uhn/fhir/jpa/fql/executor/LocalSearchHfqlExecutionResult.java:146-198 | the new fields and the row are exactly NextRow of the old fields, keeping the invariant |
| HfqlCursor.LocalSearchHfqlExecutionResult.DeliverRow | hapi-fhir-jpaserver-hfql/src/main/java/ca/uhn/fhir/jpa/fql/executor/LocalSearchHfqlExecutionResult.java:148-197 | the fields and the row are Deliver of the old fields: a stored error row is handed out and cleared, nothing pending fails with "No more results", else the projected row or the error row of the clause that threw |
| HfqlCursor.LocalSearchHfqlExecutionResult.ProjectColumns | hapi-fhir-jpaserver-hfql/src/main/java/ca/uhn/fhir/jpa/fql/executor/LocalSearchHfqlExecutionResult.java:156-194 | the values are Project of the SELECT clauses on the resource: each clause's first value by kind, in order, or the first clause that throws with its exception |
| HfqlCursor.LocalSearchHfqlExecutionResult.CreateAndStoreErrorRow | hapi-fhir-jpaserver-hfql/src/main/java/ca/uhn/fhir/jpa/fql/executor/LocalSearchHfqlExecutionResult.java:200-205 | the fields become StoreError of the old ones; with a message the returned row is the stored one, with a null message no row is returned |
| HfqlCursor.LocalSearchHfqlExecutionResult.Close | hapi-fhir-jpaserver-hfql/src/main/java/ca/uhn/fhir/jpa/fql/executor/LocalSearchHfqlExecutionResult.java:213-215 | close does nothing, and the cursor never reports itself closed |
| HfqlCursor.LocalSearchHfqlExecutionResult.GetSearchId | hapi-fhir-jpaserver-hfql/src/main/java/ca/uhn/fhir/jpa/fql/executor/LocalSearchHfqlExecutionResult.java:218-220 | the provider's id |
| HfqlCursor.LocalSearchHfqlExecutionResult.GetLimit | hapi-fhir-jpaserver-hfql/src/main/java/ca/uhn/fhir/jpa/fql/executor/LocalSearchHfqlExecutionResult.java:223-225 | the limit, or -1 when there is none |

## Left out

- FetchNext (`HfqlModel.FetchNext`): the NullPointerException that `List.of(null)` raises in `createAndStoreErrorRow` when the caught exception has no message is not raised. The call returns as if the search had ended; the fields afterwards (exhausted, nothing pending, error row unchanged) are those Java leaves.
- FetchPass (`HfqlCursor.LocalSearchHfqlExecutionResult.FetchPass`): likewise, a pass whose exception has a null message returns normally instead of propagating the NullPointerException.
- FetchNextResource (`HfqlCursor.LocalSearchHfqlExecutionResult.FetchNextResource`): likewise, the NullPointerException of a null message does not propagate out of `hasNext`; only the state it leaves is modelled.
- GetNextRow (`HfqlCursor.LocalSearchHfqlExecutionResult.GetNextRow`): after a fetch exception with a null message, Java's `getNextRow` propagates the NullPointerException from `List.of(null)`; the model answers "No more results" instead, from the same state.
- HasNext (`HfqlCursor.LocalSearchHfqlExecutionResult.HasNext`): Java's `hasNext` propagates the NullPointerException that `fetchNextResource` raises after a fetch exception with a null message (LocalSearchHfqlExecutionResult.java:94-97, 141); the model returns false from the state Java leaves.
- Stringify (`HfqlModel.Stringify`): a value's encoding is carried with it and always exists. In Java `encodeToString` (LocalSearchHfqlExecutionResult.java:175) runs outside the try around the evaluation, so a DataFormatException it throws escapes `getNextRow` with no error row and the resource still pending; that failure is not modelled.
- ProjectColumns (`HfqlCursor.LocalSearchHfqlExecutionResult.ProjectColumns`): likewise, only evaluation failures (the try at LocalSearchHfqlExecutionResult.java:162-168) become error rows; an encoding failure escaping the loop is not modelled.
- GetResources (`HfqlModel.GetResources`): the provider always returns the full slice of its window (or throws). A provider that returns a short or empty page before the end of its resources is not modelled.
- LoopScansToEnd (`HfqlProperties.LoopScansToEnd`): it relies on GetResources returning full windows. With a provider that returns an empty page early, the search would end before its last resource.
- CompleteWithoutLimit (`HfqlProperties.CompleteWithoutLimit`): it relies on full windows as well. A page that comes back empty early would end the search, which the model does not capture.
- GetPriorStates (`WorkChunkStatus.StaticState.GetPriorStates`): it returns a set value. Java hands out the live `EnumSet` from the static map, so a caller could change the table; that aliasing is not modelled.
- The `IMetaTagSorter` interface. The model has no interfaces, so `TagOrderHooks.TagOrderInterceptor` holds a `MetaTagSorterAlphabetical`. That sorter keeps a log of the metas it sorted, which is what the interceptor's unit test verifies with a mock.
- `IPreResourceShowDetails` is a sequence of resources. Replacing or erasing resources in the details is not modelled.
- Java's `List.sort` is a merge sort; the model's `Sort` is an insertion sort. `StableSort.StableSortIsSort` shows both give the same list.
- The Meta fields other than the three sorted lists (versionId, lastUpdated, source) are carried along untouched. Other resource content is not modelled.
- `Msg.code` is not part of this model. Its output is taken to be "HAPI-", four digits and ": "; this matters only inside the code-9 message.
- `HapiExtensions.EXT_SUBSCRIPTION_PAYLOAD_SEARCH_CRITERIA` is an unspecified constant, because HapiExtensions is not part of this model.
- The interceptor's collaborators are given as answers in an `Environment`. These are the canonicalizer, FhirContext, SubscriptionTopic lookup, query validator, strategy evaluator, storage settings, partition helper, URI parsing and content-type lookup.
- `determinePartition`'s switch on the REST operation is not modelled; only its answer is.
- The JSON (Jackson) serialisation of `HapiMessageHeaders` is left out.
- Spring's `MessageHeaders` adds its own id and timestamp headers; the model returns the map handed to it.
- `DriverManager`, the `synchronized` locking and the printing of stack traces are left out. `DriverManager` is represented by its calls and by whether it holds the driver.
- `connect`'s `JdbcConnection` and its user and password properties are not modelled. `getPropertyInfo` and `getParentLogger` are not modelled either.
- `getMajorVersion`, `getMinorVersion` and `jdbcCompliant` return the constants 1, 0 and false; they are modelled as the constant functions `Jdbc.GetMajorVersion`, `Jdbc.GetMinorVersion` and `Jdbc.JdbcCompliant`, with no contract beyond their values.
- FHIRPath evaluation and JSON encoding are inputs: the evaluator returns path values, and a value's encoding is carried with it. The search provider is a list of resources plus the window starts at which it throws.
- `HfqlModel.BATCH_SIZE` is an unspecified positive constant, because HfqlExecutor is not part of this model.
- `HfqlModel.ROW_OFFSET_ERROR` is taken to be -1, because IHfqlExecutionResult is not part of this model.
- The cursor's logging is left out.
- The column types and the statement are returned unchanged, so `getColumnTypes` and `getStatement` are not modelled.
- HfqlCursor.LocalSearchHfqlExecutionResult.constructor: the initial offset is a natural number. The window that a negative offset would ask of the provider is not modelled.
- HfqlCursor.LocalSearchHfqlExecutionResult.FetchNextResource: the row counter and window offset are unbounded integers, so Java's 32-bit int overflow after 2^31 rows is not modelled.
- `windows`, `accepted` and `emitted` in the cursor are bookkeeping of the model (the windows requested, the offsets accepted, and the data rows returned), not fields of the Java class.
- Values used as `Integer`/`Long` in `HapiMessageHeaders` are 32- and 64-bit newtypes; no arithmetic is done on them.
