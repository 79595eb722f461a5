# Securics core, modelled in Dafny

This project models the core of the Securics security platform: the Python framework's result and error types, a set of framework operations, and a handful of C and C++ routines from the manager. Each module follows one source file and says in Dafny what that code does and what it promises.

- **Results and errors.** The `AffectedItemsResult` class (`results.dfy`) holds affected items and failed items grouped by error. It is a class whose methods add, merge, sort and remove failures. The exceptions (`exceptions.dfy`) are values that render their catalogued message. `ordering.dfy` models nested item lookup (`nested_itemgetter`), the comparison `_goes_before_than` and the k-way `merge`.
- **Framework call sites.** Each call site fills a result from the outcome of one call per agent or node. These are `rootcheck.dfy`, `active_response_api.dfy`, `event.dfy`, `task.dfy`, `cluster.dfy` and `syscollector.dfy`. The outcomes of the calls (socket replies, database answers) are function parameters.
- **Messages.** `ar_messages.dfy` builds the active-response messages: the legacy framing (the JSON builder is a parameter), shell escaping, and command validation. `queue.dfy` frames messages for the agents' queue and for analysisd, with their size limits.
- **Integrations and wodles.** `maltiverse.dfy` models the Maltiverse alert and event builders. `wodles_utils.dfy` models the wodle helpers: path handling, reading installation information, and the last component of a path.
- **Analysisd and shared C/C++ code.**
  - `cdb_lists.dfy` models the CDB lists and list rules, with the lookups analysisd makes against a list.
  - `sonicwall.dfy` models the SonicWall decoder.
  - `db_query_builder.dfy` models the SecuricsDB query builder and shows that it cannot inject a quote.
  - `args_parser.dfy` models the keystore's command-line parser.
  - `startswith.dfy` models `OS_StrStartsWith`.
  - `uint32_pack.dfy` models `uint32_pack`.
- **Python semantics.** `text.dfy`, `values.dfy` and `sorting.dfy` give the semantics the Python code relies on: `str` order, `split`/`join`, `replace`, `int`/`str`/`zfill`, UTF-8 length, the mixed-type `<`, and stable `sorted`.

Two behaviours the tests fix:

- Merging with no sort criteria still compares whole items, as the merge tests show. It is not a plain concatenation.
- `|` between a result and an exception without agent ids returns that exception rather than raising it, as the tests of `__or__` show.

## Model

| member | source | states |
|---|---|---|
| Results.AddFailed | framework/securics/core/tests/test_results.py:108-117 | filing an id adds its error to the keys and keeps every entry non-empty |
| Results.AddFailedPairs | framework/securics/core/tests/test_results.py:108-117 | `add_failed_item` records exactly one more (error, id) pair and loses none |
| Results.SameErrorGroups | framework/securics/core/tests/test_results.py:108-117 | ids that fail with the same error end up in one entry holding exactly those ids |
| Results.AddAllPairs | framework/securics/core/tests/test_results.py:108-117 | filing a list of ids under one error adds exactly the pairs of those ids; grouping is kept |
| Results.AddFailedCounts | framework/securics/core/tests/test_results.py:203-208 | a new (error, id) pair raises `total_failed_items` by one, a repeated one leaves it; a single add gives 1 |
| Results.AddIds | framework/securics/core/tests/test_results.py:160-161 | filing a set of ids: no change for the empty set, otherwise the error becomes a key |
| Results.AddIdsPairs | framework/securics/core/tests/test_results.py:160-161 | filing a set of ids adds exactly their pairs under that error |
| Results.MergeFailed | framework/securics/core/tests/test_results.py:120-125 | `add_failed_items_from` keeps this map's errors and adds the other's non-empty ones |
| Results.MergeFailedPairs | framework/securics/core/tests/test_results.py:120-125 | the merged failures record the pairs of both maps and nothing else |
| Results.MergeIntoEmpty | framework/securics/core/tests/test_results.py:120-125 | merging into an empty result copies the other result's `failed_items` exactly |
| Results.MergeAssociates | framework/securics/core/tests/test_results.py:142-157 | OR-ing an empty result with one then another result carries their failures over unchanged |
| Results.PairsDetermine | framework/securics/core/tests/test_results.py:236-244 | two grouped failed maps recording the same pairs are equal, so the pairs are the whole content |
| Results.RemoveFailed | framework/securics/core/tests/test_results.py:135-139 | `remove_failed_items(code)` keeps exactly the entries whose code is not removed, unchanged |
| Results.RemoveAllCodes | framework/securics/core/tests/test_results.py:135-139 | removing the only code present leaves no failed items |
| Results.MergeStr | framework/securics/core/tests/test_results.py:225-233 | `_merge_str` gives the first value for 'older_than' and 'a\|b' otherwise |
| Results.AffectedItemsResult.constructor | framework/securics/core/tests/test_results.py:94-105 | a new result holds its messages and sort settings, with no items and no failures |
| Results.AffectedItemsResult.AddFailedItem | framework/securics/core/tests/test_results.py:108-117 | `add_failed_item` changes only `failed_items`, as `AddFailed` says |
| Results.AffectedItemsResult.AddFailedItemsFrom | framework/securics/core/tests/test_results.py:120-132 | with a result operand only the failures change, as `MergeFailed` says; any other operand raises 1000 and changes nothing |
| Results.AffectedItemsResult.RemoveFailedItems | framework/securics/core/tests/test_results.py:135-139 | only `failed_items` changes, as `RemoveFailed` says |
| Results.AffectedItemsResult.Or | framework/securics/core/tests/test_results.py:142-175 | two results give a fresh result with the de-duplicated union of the affected items and the merged failures; an Error with ids is folded in as failures; a bare exception is handed back; anything else raises 1000 |
| Results.AffectedItemsResult.EncodeJson | framework/securics/core/tests/test_results.py:236-244 | the payload holds the whole state and failed entries that rebuild the failed map |
| Results.EncodeDecode | framework/securics/core/tests/test_results.py:236-244 | `decode_json(encode_json(r))` is a fresh result equal to `r` |
| Results.AffectedItemsResult.AppendAffected | framework/securics/rootcheck.py:55 | `affected_items.append` adds the item at the end and changes nothing else |
| Results.AffectedItemsResult.SortByIntAndCount | framework/securics/rootcheck.py:59-60 | the items are replaced by their `sort(key=int)` order and the total by their number |
| Results.AffectedItemsResult.AddFailedIds | framework/securics/rootcheck.py:40 | filing a set of ids under one error, as `AddIds` says |
| Results.AffectedItemsResult.AddFailedList | framework/securics/rootcheck.py:46-48 | filing a list of ids under one error, in list order, as `AddAll` says |
| Results.FileEach | framework/securics/rootcheck.py:40 | the loop that files a set of ids one by one gives `AddIds` |
| Results.SetToSeq | framework/securics/core/tests/test_results.py:236-244 | listing a set gives each of its ids exactly once |
| Results.SortByIntSorted | framework/securics/rootcheck.py:59 | `sort(key=int)` yields the items in non-decreasing integer order, as a permutation of the input |
| Results.SuccessesMembers | framework/securics/rootcheck.py:52-57 | an id is affected exactly when its call succeeded |
| Results.NoSuccesses | framework/securics/rootcheck.py:52-57 | when every call fails nothing is affected |
| Results.FailedAfterPairs | framework/securics/rootcheck.py:52-57 | exactly the failing ids are filed, each under the error its call raised |
| Results.NoFailuresIff | framework/securics/rootcheck.py:52-57 | nothing is filed if and only if every call succeeds |
| Results.AffectedItemsResult.Message | framework/securics/core/tests/test_results.py:211-222 | one of the three texts: 'none' without affected items; with some, 'all' when no item failed and 'some' otherwise |
| Results.AffectedItemsResult.TotalFailedItems | framework/securics/core/tests/test_results.py:203-208 | `total_failed_items` is 0 exactly when `failed_items` is empty |
| Results.NoPairsIff | framework/securics/core/tests/test_results.py:203-208 | a grouped failed map records no (error, id) pair exactly when it is empty |
| Results.AllDoneMessage | framework/securics/active_response.py:38-56 | when every agent succeeds the message is the "all" message |
| Rootcheck.Run | framework/securics/rootcheck.py:30-62 | `run` messages eligible agents in order and stops at the first send failing outside the `SecuricsError` family, raising that error; it raises exactly when some eligible agent's send fails that way; without a raise each eligible agent is messaged once and the affected items are the successful sends, sorted by number, with their count as total; failures as `RunFailed` |
| Rootcheck.RunPairs | framework/securics/rootcheck.py:36-57 | the failures of `run` are exactly: each unknown agent under 1701, each non-active agent under 1707, each failed send under its error |
| Rootcheck.Clear | framework/securics/rootcheck.py:79-101 | `clear` deletes for the known requested agents in order and raises the first deletion failure outside the `SecuricsError` family, exactly when there is one; otherwise it deletes once for each, and the affected items are the successful deletions, sorted by number, with their count as total |
| Rootcheck.ClearPairs | framework/securics/rootcheck.py:85-96 | the failures of `clear` are exactly: each unknown agent under 1701 and each failed deletion under its error |
| Rootcheck.GetLastScan | framework/securics/rootcheck.py:118-124 | `get_last_scan` returns the first agent's last scan as its only item, with total 1 and no failures |
| Rootcheck.CallEach | framework/securics/rootcheck.py:50-57 | the per-agent loop calls the agents in order, appends successes and files the failures `except SecuricsError` catches; it stops at the first failure it does not catch and raises it, and only then |
| Results.FirstUncaught | framework/securics/rootcheck.py:50-57 | the position of the first call whose failure `except SecuricsError` does not catch, or the length when there is none; every earlier call succeeded or was caught |
| Results.FirstUncaughtIff | framework/securics/rootcheck.py:50-57 | the loop runs to the end exactly when every call succeeds or fails with a `SecuricsError` |
| ActiveResponseApi.SentTo | framework/securics/active_response.py:45-51 | the command is sent exactly to the listed agents that exist and are not '000' |
| ActiveResponseApi.RunCommand | framework/securics/active_response.py:38-58 | affected agents are those whose checks and send succeed, sorted by number, the total is their count, every other agent is filed under 1701, 1703 or its send error; the sends happen exactly for `SentTo` |
| ActiveResponseApi.Dispatch | framework/securics/active_response.py:45-55 | the per-agent loop: 1701 before 1703 before the send, each failure isolated |
| ActiveResponseApi.RunCommandAllSent | framework/securics/tests/test_active_response.py:81-82 | every agent sent the command gives 'AR command was sent to all agents' |
| ActiveResponseApi.RunCommandNoneSent | framework/securics/tests/test_active_response.py:78-80 | the only agent failing gives 'AR command was not sent to any agent' |
| Event.Written | framework/securics/event.py:34-37 | one datagram `'1:API-Webhook:' + event` for exactly the events within the size limit |
| Event.SendEach | framework/securics/event.py:35-40 | the per-event loop: successes in event order, each failure filed under its event, datagrams as `Written` |
| Event.SendEventToAnalysisd | framework/securics/event.py:28-43 | affected items are the forwarded events in order, the total is their number, each failing event is filed under the error it raised |
| Event.OversizeEventFails | framework/securics/event.py:37-40 | an event over the limit is never written and is filed under 1012 |
| Event.EventFailuresCaught | framework/securics/event.py:35-40 | the two errors a send raises (1012, 1014) are `SecuricsError`s, so the loop catches and files every failure |
| Event.EventMessageAll | framework/securics/tests/test_event.py:27-29 | every event forwarded gives the "all" message |
| Event.EventMessageSome | framework/securics/tests/test_event.py:30 | some forwarded and some not gives the "some" message |
| Event.EventMessageNone | framework/securics/tests/test_event.py:31 | no event forwarded gives the "none" message |
| Exceptions.FormatDefined | framework/securics/core/tests/test_exception.py:23-24 | formatting a catalog template succeeds exactly when every named field has a value |
| Exceptions.FormatWithoutFields | framework/securics/core/tests/test_exception.py:15-19 | a template without fields formats to its own text |
| Exceptions.RenderMessage | framework/securics/core/tests/test_exception.py:9-29 | the message: the extra message alone with `cmd_error` or an unknown code; the catalog text, followed by ': extra' for a string, or formatted with a dictionary (failing exactly when a field has no value) |
| Exceptions.New | framework/securics/core/tests/test_exception.py:26-29 | a new exception exists exactly when its message renders; it keeps kind and code, has no dapi errors, and ids only in the Error family |
| Exceptions.Simple | framework/securics/core/tests/test_exception.py:15-19 | an exception from a code alone carries the catalog text as written |
| Exceptions.WithText | framework/securics/core/tests/test_exception.py:21 | a string extra message follows the catalog text after ': ' |
| Exceptions.Or | framework/securics/core/tests/test_exception.py:32-54 | `\|` keeps the first operand's code, message, kind and remediation, joins the dapi-error maps (the other's values win) and unites the ids when both are Errors |
| Exceptions.RenderExtraOnlyExamples | framework/securics/core/tests/test_exception.py:11-13 | code 9999 outside the catalog and code 999 with `cmd_error` render the extra message verbatim |
| Exceptions.RenderCatalogExamples | framework/securics/core/tests/test_exception.py:15-19 | codes 999, 4018 and 4019 render their catalog text, string or dictionary entry, without the remediation |
| Exceptions.RenderTextExample | framework/securics/core/tests/test_exception.py:21 | 4018 with 'extra message' renders 'Level cannot be a negative number: extra message' |
| Exceptions.RenderFieldsExample | framework/securics/core/tests/test_exception.py:23-24 | a dictionary extra message fills the two named fields of a template |
| Exceptions.RenderNodeExample | framework/securics/core/tests/test_exception.py:23-24 | 1017 with node_name and not_ready_daemons renders the expected sentence |
| Exceptions.ToString | framework/securics/core/tests/test_exception.py:11-15 | `str` is 'Error ', the code in decimal (it parses back to the code), ' - ' and the message |
| Exceptions.ToStringUnknownExample | framework/securics/core/tests/test_exception.py:11 | `str` of code 9999 with 'External exception' is 'Error 9999 - External exception' |
| Exceptions.ToStringPlain | framework/securics/core/tests/test_exception.py:15 | `str` of a plain catalog entry is 'Error {code} - {text}' |
| Exceptions.ToStringPlainExample | framework/securics/core/tests/test_exception.py:15 | `str` of code 999 is 'Error 999 - Incompatible version of Python' |
| Ordering.FirstSeparator | framework/securics/core/tests/test_results.py:263-266 | the first dot not preceded by a backslash, or the end; every earlier dot is escaped |
| Ordering.SplitPath | framework/securics/core/tests/test_results.py:263-266 | a field expression splits into at least one key |
| Ordering.SplitPathExpression | framework/securics/core/tests/test_results.py:263-266 | splitting the dotted expression of a path (dots in keys escaped) gives the path back |
| Ordering.UnescapeEscape | framework/securics/core/tests/test_results.py:263-266 | unescaping an escaped key gives the key back |
| Ordering.EscapeNoSeparator | framework/securics/core/tests/test_results.py:263-266 | an escaped key contains no unescaped dot |
| Ordering.NestedItemGetter | framework/securics/core/tests/test_results.py:263-280 | the item unchanged as soon as some path cannot be indexed; otherwise each expression's value (None for a missing key), a tuple for several expressions |
| Ordering.GoesBeforeIrreflexive | framework/securics/core/tests/test_results.py:288-291 | equal keys never go before each other |
| Ordering.NoneGoesFirst | framework/securics/core/tests/test_results.py:288-290 | ascending, None goes before any other value, no value goes before None, and None does not go before None |
| Ordering.GoesBeforeAsymmetric | framework/securics/core/tests/test_results.py:283-311 | if a goes before b then b does not go before a |
| Ordering.GoesBefore | framework/securics/core/tests/test_results.py:283-311 | equal keys never go before each other; an empty key goes before nothing and nothing goes before it |
| Ordering.ItemOrderIrreflexive | framework/securics/core/tests/test_results.py:288-291 | comparing the sort keys of two equal items never puts one before the other |
| Ordering.NextPartition | framework/securics/core/tests/test_results.py:314-317 | the partition chosen next is non-empty |
| Ordering.FirstNonEmpty | framework/securics/core/tests/test_results.py:314-317 | the first non-empty partition, every earlier one being empty |
| Ordering.Merge | framework/securics/core/tests/test_results.py:314-335 | a merge that does not raise outputs exactly the partitions' items, as a multiset; with only empty partitions it outputs nothing |
| Ordering.MergeSorted | framework/securics/core/tests/test_results.py:314-335 | when the item comparison is a strict weak order on the items and every partition is sorted by it, the merged list is sorted by it |
| Ordering.NextPartitionLeast | framework/securics/core/tests/test_results.py:314-335 | no non-empty partition's head goes strictly before the head of the partition chosen next |
| Ordering.ChosenLeast | framework/securics/core/tests/test_results.py:314-335 | the partition merge picks is non-empty and no non-empty partition's head goes strictly before its head |
| Ordering.TakeHeadSorted | framework/securics/core/tests/test_results.py:314-335 | the picked head in front of a sorted merge of the remaining items is sorted |
| Ordering.HeadLeast | framework/securics/core/tests/test_results.py:314-335 | no item left in any sorted partition goes strictly before the head merge takes |
| Ordering.SortedCons | framework/securics/core/tests/test_results.py:314-335 | a head that no later item goes strictly before, put in front of a sorted list, keeps it sorted |
| Ordering.TakeKeepsSorted | framework/securics/core/tests/test_results.py:314-335 | taking the head of a sorted partition leaves the partitions sorted and their items within the ordered set |
| Ordering.FlattenMember | framework/securics/core/tests/test_results.py:314-335 | an item of the merge input lies in one of the partitions |
| Ordering.MergePermutation | framework/securics/core/tests/test_results.py:314-335 | a merge that does not raise outputs exactly the items of its partitions, as a multiset |
| Ordering.MergeStep | framework/securics/core/tests/test_results.py:314-335 | one step of merge takes the head of the partition that comes next |
| Ordering.MergeTake | framework/securics/core/tests/test_results.py:314-335 | one step of merge, with the rest of the merge known |
| Ordering.MergeAlone | framework/securics/core/tests/test_results.py:314-335 | with one non-empty partition left, merge returns it unchanged |
| Ordering.NextPartitionAlone | framework/securics/core/tests/test_results.py:314-335 | with no later non-empty partition, the current best is chosen |
| Ordering.AllEmptyFlatten | framework/securics/core/tests/test_results.py:314-335 | empty partitions hold no items |
| OrderingExamples.GoesBeforeExamples | framework/securics/core/tests/test_results.py:283-311 | the eight rows of the `_goes_before_than` table |
| OrderingExamples.NestedPairExample | framework/securics/core/tests/test_results.py:264 | 'a.b' and 'c\\.1' on the sample dict give (3, 5) |
| OrderingExamples.NestedMissingExample | framework/securics/core/tests/test_results.py:265 | 'a.b' and the missing 'f' give (3, None) |
| OrderingExamples.NestedListExample | framework/securics/core/tests/test_results.py:266 | a list item is returned unchanged |
| OrderingExamples.SampleWalks | framework/securics/core/tests/test_results.py:264-265 | 'a','b' reaches 3, 'c.1' reaches 5 and 'f' is missing in the sample dict |
| OrderingExamples.SplitPathExamples | framework/securics/core/tests/test_results.py:264-265 | 'a.b' splits into 'a','b'; 'c\\.1' is the single key 'c.1'; 'f' is 'f' |
| OrderingExamples.SplitDotted | framework/securics/core/tests/test_results.py:264 | 'a.b' splits into 'a','b' |
| OrderingExamples.SplitEscaped | framework/securics/core/tests/test_results.py:264 | 'c\\.1' is the single key 'c.1' |
| OrderingExamples.MergeAscendingExample | framework/securics/core/tests/test_results.py:315-317 | merging ['001','002'] and ['003','004'] ascending as int, with no criteria or with ['1'], gives ['001','002','003','004'] |
| OrderingExamples.MergeAscendingInts | framework/securics/core/tests/test_results.py:315-317 | the same for any strings parsing as 1, 2, 3, 4 |
| OrderingExamples.AscendingTail | framework/securics/core/tests/test_results.py:315-317 | the ascending merge after the first head has been taken |
| OrderingExamples.AscendingHead | framework/securics/core/tests/test_results.py:315-317 | ascending, a head parsed below 3 stays ahead of the head parsed as 3 |
| OrderingExamples.MergeDescendingExample | framework/securics/core/tests/test_results.py:316 | descending, the same partitions give ['003','004','001','002'] |
| OrderingExamples.MergeDescendingInts | framework/securics/core/tests/test_results.py:316 | the same for any strings parsing as 1, 2, 3, 4 |
| OrderingExamples.DescendingTail | framework/securics/core/tests/test_results.py:316 | the descending merge after the first head has been taken |
| OrderingExamples.DescendingHead | framework/securics/core/tests/test_results.py:316 | descending, a head parsed above 1 goes before the head parsed as 1 |
| OrderingExamples.IntStringBefore | framework/securics/core/tests/test_results.py:315-317 | two strings parsing as integers, compared ascending as int, go before each other exactly as their values do |
| OrderingExamples.IntStringsOrdered | framework/securics/core/tests/test_results.py:315-317 | strings parsing as integers, compared ascending as int, form a strict weak order, so the merge of sorted partitions of them is sorted |
| OrderingExamples.IntKeyOrder | framework/securics/core/tests/test_results.py:315-316 | digit strings compared as int, ascending or descending |
| OrderingExamples.SortKeyOfString | framework/securics/core/tests/test_results.py:317 | a path criterion cannot index a string item, so its sort key is the item itself |
| OrderingExamples.CastersExample | framework/securics/core/tests/test_results.py:315 | the type name 'int' selects the int caster |
| OrderingExamples.ParseExamples | framework/securics/core/tests/test_results.py:315 | '001' to '004' parse as 1 to 4 |
| Task.PadRow | framework/securics/task.py:51-55 | only the agent id changes, to a string of at least 3 characters; a row without it is left as it is |
| Task.PadRowKeepsNumber | framework/securics/task.py:53 | a numeric agent id, once padded, still reads as the same number |
| Task.PadRowKeepsLongIds | framework/securics/task.py:53 | an id of 3 or more characters is unchanged |
| Task.PadRowIdempotent | framework/securics/task.py:53 | padding a padded row changes nothing |
| Task.PadRowExample | framework/securics/task.py:53 | agent id 1 becomes '001' and the other fields stay |
| Task.Items | framework/securics/task.py:57 | the rows become the result items one for one, in order |
| Task.GetTaskStatus | framework/securics/task.py:42-60 | the affected items are the padded rows in query order, the total is the query's totalItems, no failures |
| WodlesUtils.TailStart | wodles/utils.py:24 | the index just past the last '/' |
| WodlesUtils.RStripSlashes | wodles/utils.py:24 | the head of a split loses exactly its trailing slashes |
| WodlesUtils.PathSplit | wodles/utils.py:24 | `os.path.split`: the tail is what follows the last '/', and the head is the path itself or shorter |
| WodlesUtils.PathParts | wodles/utils.py:22-33 | the walk collects at least one component |
| WodlesUtils.PathPartsStep | wodles/utils.py:24-33 | one turn of the walk: stop when the head or the tail is the whole path, else split off the tail |
| WodlesUtils.WalkStep | wodles/utils.py:31-33 | the walk's invariant survives a turn that splits off a tail |
| WodlesUtils.SplitAll | wodles/utils.py:21-33 | the `while` walk yields exactly `PathParts` of the module directory |
| WodlesUtils.FirstIndex | wodles/utils.py:37 | `list.index`: the first position holding the value |
| WodlesUtils.JoinBeforeWodles | wodles/utils.py:35-40 | the `for` loop joins exactly the components before the first 'wodles', or gives '' without one |
| WodlesUtils.FindSecuricsPath | wodles/utils.py:12-42 | `find_securics_path` is `InstallPath` of the walk of the module directory |
| WodlesUtils.SplitRoot | wodles/utils.py:25-27 | the root is its own head, so the walk stops there |
| WodlesUtils.SplitUnderRoot | wodles/utils.py:24 | a directory directly under the root splits into '/' and its name |
| WodlesUtils.SplitBelow | wodles/utils.py:24 | a deeper directory splits into its parent and its name |
| WodlesUtils.PartsStep | wodles/utils.py:31-33 | the walk of a deeper directory adds its name after the walk of its parent |
| WodlesUtils.PartsOfAbsolute | wodles/utils.py:22-33 | the walk of a normalised absolute path yields '/' and then its directory names |
| WodlesUtils.JoinAllAbsolute | wodles/utils.py:37-38 | joining '/' and the names one by one rebuilds the absolute path |
| WodlesUtils.InstallPathOfAbsolute | wodles/utils.py:12-42 | for a module under a 'wodles' directory the result is the path before the first 'wodles'; '' when there is none |
| WodlesUtils.InstallPathUnderRoot | wodles/utils.py:35-40 | the join of the components before the first 'wodles', or '' |
| WodlesUtils.RemoveFirst | wodles/utils.py:92 | `list.remove('')` drops the first empty line |
| WodlesUtils.SecuricsInfo | wodles/utils.py:69-98 | 'ERROR' for empty output, the raw output for an empty field, ValueError when there is no empty line |
| WodlesUtils.EnvOfFailureStays | wodles/utils.py:94-96 | a malformed line makes the whole parse fail |
| WodlesUtils.GetSecuricsInfo | wodles/utils.py:84-98 | the loop over the lines computes `SecuricsInfo` |
| WodlesUtils.InfoLines | wodles/utils.py:91-96 | one KEY="VALUE" line per variable |
| WodlesUtils.UnquoteQuoted | wodles/utils.py:96 | stripping the double quotes of a quoted plain value gives the value |
| WodlesUtils.ReadInfoLine | wodles/utils.py:95 | a KEY="VALUE" line splits on '=' into the key and the quoted value |
| WodlesUtils.EnvOfInfoLines | wodles/utils.py:93-96 | reading the printed lines gives the variables' dict |
| WodlesUtils.VarMapLookup | wodles/utils.py:96 | the last value printed for a key is the one kept |
| WodlesUtils.VarMapKeys | wodles/utils.py:96 | the dict's keys are exactly the printed keys |
| WodlesUtils.InfoLinesNotEmpty | wodles/utils.py:92 | no printed line is empty |
| WodlesUtils.InfoLinesOneLine | wodles/utils.py:91 | no printed line holds a newline |
| WodlesUtils.InfoOutputLines | wodles/utils.py:91-92 | the printed output splits back into its lines plus a last empty one, which `remove` drops |
| WodlesUtils.ReadInfoOutput | wodles/utils.py:91-98 | reading a field of the printed output looks it up in the variables' dict, KeyError otherwise |
| WodlesUtils.InfoRoundTrip | wodles/utils.py:91-98 | a printed field reads back as its last printed value; a field never printed raises KeyError |
| ActiveResponse.CommandNames | framework/securics/core/active_response.py:25-31 | one command name per configuration line, in file order |
| ActiveResponse.GetCommands | framework/securics/core/active_response.py:17-31 | the loop appends each line's text before its first ' - ', in file order |
| ActiveResponse.ShellEscapesDistinct | framework/securics/core/active_response.py:48-49 | the 20 listed characters are distinct and none is a backslash |
| ActiveResponse.ReplaceStep | framework/securics/core/active_response.py:50-51 | one more `replace` escapes one more character and disturbs none escaped before |
| ActiveResponse.ShellEscape | framework/securics/core/active_response.py:34-53 | the sequential replaces give exactly the per-character escaping `Escaped` |
| ActiveResponse.EscapeNothing | framework/securics/core/active_response.py:48-53 | escaping no character leaves the text as it is |
| ActiveResponse.EscapedLength | framework/securics/core/active_response.py:48-53 | the escaped length is the length plus the number of listed characters |
| ActiveResponse.EscapedIsSafe | framework/securics/core/active_response.py:48-53 | every listed character of the result has a backslash right before it |
| ActiveResponse.EscapedStart | framework/securics/core/active_response.py:48-53 | the result never starts with a listed character |
| ActiveResponse.UnescapeEscaped | framework/securics/core/active_response.py:48-53 | dropping the backslash before each listed character gives the original back |
| ActiveResponse.EscapedSpaces | framework/securics/core/active_response.py:48-53 | a space is never escaped: the result holds one exactly when the input does |
| ActiveResponse.ValidateCommand | framework/securics/core/active_response.py:119-141 | no error exactly for a non-empty command that is a '!' script or configured; 1650 for empty, 1652 for an unknown one |
| ActiveResponse.EscapedArgs | framework/securics/core/active_response.py:189 | each argument's `str`, shell-escaped, in order |
| ActiveResponse.CreateStrMessage | framework/securics/core/active_response.py:161-191 | the validation errors, or the command followed by ' - -' without arguments or by a space and the escaped arguments joined by spaces |
| ActiveResponse.ArgumentsRoundTrip | framework/securics/core/active_response.py:186-191 | without spaces in the arguments, splitting the part after the command and unescaping gives the arguments back |
| ActiveResponse.ChooseBuilder | framework/securics/core/active_response.py:113-117 | the first builder whose `can_handle` accepts the version: some builder exactly when one of the tests holds, the string builder exactly when its test holds, 1000 when neither does |
| ActiveResponse.ChooseBuilderTotal | framework/securics/core/active_response.py:113-209 | when the two `can_handle` tests are complementary (`<` and `>=` against the same version), a builder is always chosen, the string builder exactly when its test holds |
| ActiveResponse.SendArMessage | framework/securics/core/active_response.py:250-294 | 1707 for a non-active agent, then 1750 for a disabled one, then the validation errors, all before anything is sent; otherwise the builder's message is handed to the queue as an AR message |
| ActiveResponse.LegacyMessageFraming | framework/securics/core/active_response.py:291-294 | a legacy message to an agent other than 000 is framed 'NNS' with the agent's id and answers 'Command sent.' |
| Queue.SocketMsgRoundTrip | framework/securics/core/securics_queue.py:34-35 | the receiving side reads back flag, agent id and message (with the restart suffix when a restart) |
| Queue.SplitAtSpaceJoin | framework/securics/core/securics_queue.py:34 | a space-free field followed by a space splits off again |
| Queue.FlagFor | framework/securics/core/securics_queue.py:144-154 | 'N..S' with the id for one agent, 'A..N' with '(null)' for all; '!' in the middle exactly for syscheck restart and force reconnect |
| Queue.ReplyText | framework/securics/core/securics_queue.py:170-175 | the reply names all agents exactly when no agent id is given |
| Queue.SendMsgToAgent | framework/securics/core/securics_queue.py:105-183 | refused with 1012 exactly for a non-AR message outside the four known commands; an AR message to 000 goes raw, others are framed; a send failure is 1014; the reply text otherwise |
| Queue.ArToAgentFraming | framework/securics/core/securics_queue.py:157-160 | an AR message to one agent other than 000 arrives with flag 'NNS', its id and the message untouched |
| Queue.RestartAllFraming | framework/securics/core/securics_queue.py:153-175 | restarting all agents uses 'ANN', '(null)' and the restart suffix, and replies 'Restarting all agents' |
| Queue.AnalysisdSend | framework/securics/core/securics_queue.py:200-229 | refused with 1012 exactly when the UTF-8 encoding is over 65535 bytes; otherwise header and message go out as one datagram, a send failure being 1014 |
| Queue.AnalysisdAsciiLimit | framework/securics/core/securics_queue.py:217-219 | for ASCII text 65535 characters pass and 65536 do not |
| Cluster.SingleCall | framework/securics/cluster.py:32-35 | a success is the one affected item with no failures; a failure leaves no item and files the node id under the error |
| Cluster.SingleCallMessage | framework/securics/cluster.py:29-36 | exactly one of item and failure exists, so the message is the "all" or the "none" text, never "some" |
| Cluster.NodeWrapper | framework/securics/cluster.py:21-59 | `read_config_wrapper`/`get_node_wrapper`: a failure outside the `SecuricsError` family is raised, exactly then, with nothing recorded; otherwise items and failures as `SingleCall`, total = number of items |
| Cluster.NameBeforeStrict | framework/securics/cluster.py:100 | ordering by `info.name` is a strict order |
| Cluster.SortedHealth | framework/securics/cluster.py:100 | the health entries sorted by name keep every entry and come out in name order |
| Cluster.GetHealthNodes | framework/securics/cluster.py:91-103 | the items are the health entries sorted by name, the total is their number, no failures |
| Cluster.NodesPartition | framework/securics/cluster.py:128-129 | every requested node is either queried (and in the cluster) or missing (and not), never both |
| Cluster.GetNodesInfo | framework/securics/cluster.py:123-138 | `get_nodes` is asked exactly the requested cluster nodes; its items are the affected items and its totalItems the total; each missing node is filed under 1730 |
| Cluster.SyncItem | framework/securics/cluster.py:168-169 | the item is {name: node id, synced: master md5 == node integrity} |
| Cluster.GetRulesetSyncStatus | framework/securics/cluster.py:156-172 | a failure outside the `SecuricsError` family is raised, exactly then, with nothing recorded; otherwise on success the one sync item and no failures, on error no item and the node filed under it; total = number of items; sort casting ['str'] |
| Syscollector.InitialSort | framework/securics/syscollector.py:55-57 | without sort: fields ['agent_id'], casting ['str'], ascending ['True']; otherwise the given fields, each ascending exactly when the order is 'asc' |
| Syscollector.DefaultSortAscends | framework/securics/syscollector.py:57 | the default ascending flag 'True' is a non-empty string, so it reads as true |
| Syscollector.Tagged | framework/securics/syscollector.py:72-74 | each row of an agent is kept in order with `agent_id` set to that agent |
| Syscollector.CollectedTagged | framework/securics/syscollector.py:61-75 | every collected row is tagged with a requested agent the system knows and whose query answered |
| Syscollector.FailedAgents | framework/securics/syscollector.py:61-77 | the failures filed are exactly each requested agent the system does not know, under 1701, and each known agent whose `get_valid_fields` or query raised, under that error |
| Syscollector.FirstEscape | framework/securics/syscollector.py:62-77 | the first agent whose exception the `except SecuricsResourceNotFound` clause does not catch, or the end; every earlier turn answered or raised ResourceNotFound |
| Syscollector.EscapeIsQueryError | framework/securics/syscollector.py:62-77 | an exception propagates only from a known agent whose `get_valid_fields` or query raised something other than ResourceNotFound |
| Syscollector.FiledQueryErrors | framework/securics/syscollector.py:76-77 | when no exception propagates, every query error filed is a ResourceNotFound |
| Syscollector.CollectedSnoc | framework/securics/syscollector.py:61-75 | one more agent adds its tagged rows and its total exactly when it is known and its query answered |
| Syscollector.InferCasting | framework/securics/syscollector.py:80-89 | without items, or without exactly one sort field, the casting stays; otherwise, following the field's dotted path in the first item: a value gives its type name (text types as 'str'), a missing key (KeyError) keeps the casting, and a value that cannot be indexed (TypeError) raises |
| Syscollector.IntSortFieldCastAsInt | framework/securics/syscollector.py:79-87 | an integer value at the single sort field makes the casting ['int'], not ['str'] |
| Syscollector.Singletons | framework/securics/syscollector.py:91 | each item becomes a partition of its own |
| Syscollector.FlattenSingletons | framework/securics/syscollector.py:91 | the singleton partitions hold exactly the items, in order |
| Syscollector.FinishPermutation | framework/securics/syscollector.py:91-94 | the final merge only reorders: it holds exactly the collected rows |
| Syscollector.TagEach | framework/securics/syscollector.py:72-74 | the inner loop tags each row, as `Tagged` |
| Syscollector.CollectEach | framework/securics/syscollector.py:61-77 | the agent loop stops at the first agent whose exception propagates, raising it exactly then; up to there it collects the tagged rows, sums the totals and files each failure under its agent, as `Collected`, `Total` and `FailedAfter` |
| Syscollector.ItemAgentValues | framework/securics/syscollector.py:61-94 | the loop and the final merge on values give `ItemAgentView` |
| Syscollector.FinishItems | framework/securics/syscollector.py:80-94 | the type check then the merge of singletons, as `Finish` |
| Syscollector.GetItemAgent | framework/securics/syscollector.py:51-96 | raises exactly when an agent's `get_valid_fields` or query raises something other than ResourceNotFound, or the type check or the merge raises; otherwise the result is the merged tagged rows, the summed totals, the failed agents under their errors and the inferred casting |
| Maltiverse.Blacklist | integrations/maltiverse.py:432 | every blacklist entry of a well-formed IOC is a dict with text description and source and a list of references |
| Maltiverse.IocConfidence | integrations/maltiverse.py:340-349 | 'Not Specified' for a missing or empty classification; no rating (None) exactly for a present classification outside malicious, suspicious, neutral and whitelist |
| Maltiverse.ConfidenceOrder | integrations/maltiverse.py:343-349 | more sightings never lower the rating of a known classification; for equal sightings malicious rates above suspicious, which rates above neutral |
| Maltiverse.AllReferences | integrations/maltiverse.py:366-367 | every reference gathered from the blacklist entries has a usable external id |
| Maltiverse.LastSoftwareIsLast | integrations/maltiverse.py:369-378 | a software entry is found exactly when some MITRE reference has an 'S' id, and then it is the one built from the last such reference |
| Maltiverse.GetMitreInformation | integrations/maltiverse.py:352-379 | the nested loops return the software entry of the last MITRE software reference over all entries, or nothing |
| Maltiverse.ScanReferences | integrations/maltiverse.py:367-378 | scanning the references of one entry after those already scanned gives the last software entry of both together |
| Maltiverse.MatchEcsType | integrations/maltiverse.py:382-401 | an ECS type exists exactly for ip, hostname, sample and url |
| Maltiverse.EcsTypeRoundTrip | integrations/maltiverse.py:395-400 | the mapping is one-to-one: each ECS name leads back to the Maltiverse type it came from |
| Maltiverse.Texts | integrations/maltiverse.py:447-450 | one text per blacklist entry, in order, each the entry's description (or source) |
| Maltiverse.LexLessStrict | integrations/maltiverse.py:447 | the string order `sorted` uses is a strict order |
| Maltiverse.SortedSetIncreasing | integrations/maltiverse.py:447-450 | `sorted(set(xs))` holds exactly the values of xs, each once, in strictly increasing order |
| Maltiverse.MakeIndicator | integrations/maltiverse.py:432-463 | the indicator's fields: the name; an ip field exactly for IP indicators, holding the name; the ECS type; sightings as the number of blacklist entries; description and provider as the comma-joined sorted distinct texts; the reference built from the ref or, failing it, the name; the confidence; first seen from creation time, modified and last seen from modification time |
| Maltiverse.MaltiverseAlert | integrations/maltiverse.py:404-469 | integration 'maltiverse' and the alert id; the full API response exactly when asked for; the indicator; a software entry exactly when some blacklist reference is MITRE software, and then the last one |
| Maltiverse.ReferenceFallback | integrations/maltiverse.py:434-457 | the reference URL is 'https://maltiverse.com/<type>/<ref>', falls back from an empty ref to the name, and is empty without a type |
| Maltiverse.ReplacesEscape | integrations/maltiverse.py:686 | the two chained `replace` calls equal escaping the location character by character |
| Maltiverse.LocationRoundTrip | integrations/maltiverse.py:686 | escaping a location loses nothing: unescaping gives it back |
| Maltiverse.EscapedLocationColons | integrations/maltiverse.py:686 | every ':' of an escaped location follows a '\|', so none of them ends the location field |
| Maltiverse.EventLine | integrations/maltiverse.py:678-687 | '1:maltiverse:<payload>' without an agent or for agent 000; otherwise '1:<escaped location>->maltiverse:<payload>' |
| CdbLists.FindIn | src/analysisd/lists_list.c:59-73 | the first list from the head whose text or CDB file name is the name; none exactly when no list has it |
| CdbLists.FindAfterAdd | src/analysisd/lists_list.c:42-73 | linking a list at the tail never changes which list an existing name finds; a name not found before finds the new list exactly when it names it |
| CdbLists.Subnet | src/analysisd/lists_list.c:203-211 | the longest prefix of the key ending in '.' that the CDB holds; none exactly when no such prefix is held |
| CdbLists.KeySearch | src/analysisd/lists_list.c:171-187 | 1 exactly for a list whose CDB is or becomes open and holds the key; -1 exactly when the CDB cannot be opened |
| CdbLists.AddressSearch | src/analysisd/lists_list.c:189-218 | 1 exactly when the open CDB holds the key or a prefix of it ending in '.'; -1 exactly when the CDB cannot be opened |
| CdbLists.ValueSearch | src/analysisd/lists_list.c:135-169 | 1 exactly when the open CDB holds the key and its value matches the rule's pattern; otherwise 0 |
| CdbLists.AddressValueSearch | src/analysisd/lists_list.c:220-273 | 0 or 1; when the key itself is missing, the match of the value of its longest subnet in the CDB |
| CdbLists.Dispatch | src/analysisd/lists_list.c:285-316 | every lookup type answers 0 or 1 |
| CdbLists.NegatedLookups | src/analysisd/lists_list.c:286-307 | STRING_NOT_MATCH is the opposite of STRING_MATCH always; ADDRESS_NOT_MATCH is the opposite of ADDRESS_MATCH unless the CDB cannot be opened, when both give 0 |
| CdbLists.FailureOutcomes | src/analysisd/lists_list.c:285-316 | without a list, STRING_MATCH, STRING_MATCH_VALUE and ADDRESS_MATCH give 0 while STRING_NOT_MATCH, ADDRESS_NOT_MATCH and ADDRESS_MATCH_VALUE give 1; with a CDB that cannot be opened, the same except that ADDRESS_NOT_MATCH gives 0 |
| CdbLists.ValueLookupsOnHit | src/analysisd/lists_list.c:296-312 | on a key the CDB holds, STRING_MATCH_VALUE passes exactly when the value matches, ADDRESS_MATCH_VALUE exactly when it does not |
| CdbLists.AfterOpen | src/analysisd/lists_list.c:121-133 | opening changes only the searched list, and marks it loaded exactly when the open succeeds |
| CdbLists.Resolved | src/analysisd/lists_list.c:279-282 | a rule is loaded afterwards; a loaded rule is left as it was, any other gets the list its file name finds |
| CdbLists.ProbeSubnets | src/analysisd/lists_list.c:201-212 | the loop cutting the key one character at a time finds the longest held prefix ending in '.' |
| CdbLists.Lists.constructor | src/analysisd/lists_list.c:23-26 | no lists and no rules |
| CdbLists.Lists.AddList | src/analysisd/lists_list.c:42-57 | the node is linked after the tail; the rules are unchanged |
| CdbLists.Lists.FindList | src/analysisd/lists_list.c:59-73 | the first list from the head called by the name |
| CdbLists.Lists.AddListRule | src/analysisd/lists_list.c:75-119 | no rule added and NULL returned when no list has the name; otherwise the rule, resolved to that list and loaded, is linked at the tail, and the pointer returned is the new rule when it is the only one and the former tail otherwise |
| CdbLists.Lists.ListLoadRules | src/analysisd/lists_list.c:28-39 | every rule is resolved and loaded, loaded rules stay as they were, the lists do not change |
| CdbLists.Lists.OpenCdb | src/analysisd/lists_list.c:121-133 | succeeds exactly when the CDB was open or opens now, and then marks it loaded |
| CdbLists.Lists.SearchKey | src/analysisd/lists_list.c:171-187 | the key search on the rule's list, which is opened on the way |
| CdbLists.Lists.SearchKeyAddress | src/analysisd/lists_list.c:189-218 | the address search, subnet walk included, on the rule's list |
| CdbLists.Lists.SearchKeyValue | src/analysisd/lists_list.c:135-169 | the value search on the rule's list |
| CdbLists.Lists.SearchKeyAddressValue | src/analysisd/lists_list.c:220-273 | the address value search on the rule's list |
| CdbLists.Lists.DBSearch | src/analysisd/lists_list.c:275-317 | resolves the rule when not yet loaded, then answers 0 or 1 by its lookup type; only that rule and the searched list change |
| CdbLists.Lists.Lookup | src/analysisd/lists_list.c:285-316 | the switch on the lookup type; unknown types touch no list |
| CdbLists.Lists.RemoveCdbList | src/analysisd/lists_list.c:319-333 | no lists are left; the rules are unchanged |
| CdbLists.Lists.RemoveCdbRules | src/analysisd/lists_list.c:335-351 | no rules are left; the lists are unchanged |
| SonicWall.FirstNone | src/analysisd/decoders/plugins/sonicwall_decoder.c:120-125 | the index of the first NULL capture, every capture before it being set |
| SonicWall.Cleared | src/analysisd/decoders/plugins/sonicwall_decoder.c:120-125 | the clearing loop frees every capture before the first NULL and leaves the rest as they were |
| SonicWall.ClearFirst | src/analysisd/decoders/plugins/sonicwall_decoder.c:113-148 | the first n capture slots are NULL and the rest unchanged |
| SonicWall.Category | src/analysisd/decoders/plugins/sonicwall_decoder.c:91-111 | at most the first seven characters of the category capture |
| SonicWall.CategoryIs32 | src/analysisd/decoders/plugins/sonicwall_decoder.c:189-192 | the truncated category is "32" exactly when the capture is "32" |
| SonicWall.ClassesDisjoint | src/analysisd/decoders/plugins/sonicwall_decoder.c:195-219 | the pass, drop, close and proxy ids are pairwise distinct, so only category 32 overrides an id |
| SonicWall.Classify | src/analysisd/decoders/plugins/sonicwall_decoder.c:187-232 | IDS exactly for category 32; otherwise firewall with 'pass', 'drop' or 'close' exactly for an id in the matching list, squid exactly for id 97, syslog exactly for an id in no list |
| SonicWall.ProtocolOf | src/analysisd/decoders/plugins/sonicwall_decoder.c:157-170 | at most six characters, a prefix of the text after "proto=", all valid and none '/', stopping early only at an invalid character or '/' |
| SonicWall.ProtocolStage | src/analysisd/decoders/plugins/sonicwall_decoder.c:150-175 | the event is unchanged or only its protocol is set |
| SonicWall.MissingIdsLeaveEvent | src/analysisd/decoders/plugins/sonicwall_decoder.c:96-128 | without priority, category and id the event keeps every field but its type, reset to syslog, and every capture before the first NULL is freed |
| SonicWall.FullMatchEvent | src/analysisd/decoders/plugins/sonicwall_decoder.c:88-270 | when both expressions match: status is the priority, the addresses and ports come from the second expression, the type is IDS exactly for category 32, then firewall with pass, drop or close by id, squid for id 97, syslog otherwise; the id and URL stay unless it is a proxy message |
| SonicWall.ProtocolBounded | src/analysisd/decoders/plugins/sonicwall_decoder.c:150-175 | a protocol, when set, has at most six valid characters, none '/', and follows "proto=" at the start of the word after the first space |
| SonicWall.ProxyUrl | src/analysisd/decoders/plugins/sonicwall_decoder.c:232-261 | for a proxy message with all three captures the id becomes the HTTP result and the URL the destination name followed by the argument; type and status stay |
| SonicWall.Eventinfo.constructor | src/analysisd/decoders/plugins/sonicwall_decoder.c:88 | an event holding the given log and fields |
| SonicWall.RegexMatching.constructor | src/analysisd/decoders/plugins/sonicwall_decoder.c:99 | capture slots as given |
| SonicWall.RegexMatching.ClearAll | src/analysisd/decoders/plugins/sonicwall_decoder.c:120-125 | the captures become the cleared ones |
| SonicWall.CopyProtocol | src/analysisd/decoders/plugins/sonicwall_decoder.c:157-170 | the copy loop yields the protocol of the text after "proto=" |
| SonicWall.CopyStep | src/analysisd/decoders/plugins/sonicwall_decoder.c:162-165 | copying one valid character moves it from the text still to read to the copied protocol |
| SonicWall.SonicWallDecoder.constructor | src/analysisd/decoders/plugins/sonicwall_decoder.c:32 | not initialized and nothing compiled |
| SonicWall.SonicWallDecoder.Init | src/analysisd/decoders/plugins/sonicwall_decoder.c:35-79 | a second call changes nothing; a first call compiles once and leaves the decoder initialized exactly when the expressions compile with sub-strings |
| SonicWall.SonicWallDecoder.Exec | src/analysisd/decoders/plugins/sonicwall_decoder.c:88-270 | the event fields and captures after the call are those the decoding function gives |
| SonicWall.SonicWallDecoder.DecodeAddresses | src/analysisd/decoders/plugins/sonicwall_decoder.c:130-267 | the address stage: the second expression, the protocol and the classification |
| SonicWall.SonicWallDecoder.ReadProtocol | src/analysisd/decoders/plugins/sonicwall_decoder.c:150-175 | the protocol stage: the event and where the text continues |
| SonicWall.SonicWallDecoder.ClassifyEvent | src/analysisd/decoders/plugins/sonicwall_decoder.c:187-267 | the classification stage by category and id, with the proxy expression for id 97 |
| DbQueryBuilder.Build | src/shared_modules/utils/securicsDBQueryBuilder.hpp:27-175 | a chain that builds passed every call's check; a chain that throws throws the message of one of its calls' failed checks |
| DbQueryBuilder.BuildSucceedsIff | src/shared_modules/utils/securicsDBQueryBuilder.hpp:27-175 | a chain of calls builds a query exactly when every call's argument passes its check (a number for agent ids, letters, digits and '-', '_', ' ' for names and values) |
| DbQueryBuilder.ChecksSnoc | src/shared_modules/utils/securicsDBQueryBuilder.hpp:27-170 | every call of a chain passes exactly when those before the last do and the last does |
| DbQueryBuilder.BuildFirstFailure | src/shared_modules/utils/securicsDBQueryBuilder.hpp:35-117 | a chain that throws throws the message of its first failing call ("Invalid agent id", "Invalid table name", "Invalid column name", "Invalid value" or "Invalid command") |
| DbQueryBuilder.QueryBuilder.constructor | src/shared_modules/utils/securicsDBQueryBuilder.hpp:24 | a fresh builder holds the empty query |
| DbQueryBuilder.QueryBuilder.Apply | src/shared_modules/utils/securicsDBQueryBuilder.hpp:27-170 | a call whose check passes appends its fragment to the query; one that fails throws its message and leaves the query as it was |
| DbQueryBuilder.QueryBuilder.BuildQuery | src/shared_modules/utils/securicsDBQueryBuilder.hpp:172-175 | the query built so far |
| DbQueryBuilder.ThenShift | src/shared_modules/utils/securicsDBQueryBuilder.hpp:27-170 | a call appends the same fragment whatever query precedes it |
| DbQueryBuilder.BuildAppend | src/shared_modules/utils/securicsDBQueryBuilder.hpp:27-175 | successful chains compose: the query of two chains in sequence is the first's followed by the second's |
| DbQueryBuilder.CountAppend | src/shared_modules/utils/securicsDBQueryBuilder.hpp:88 | counting a character in a concatenation adds the counts |
| DbQueryBuilder.CountAbsent | src/shared_modules/utils/securicsDBQueryBuilder.hpp:84-88 | a character absent from a text occurs zero times in it |
| DbQueryBuilder.FixedTextQuotes | src/shared_modules/utils/securicsDBQueryBuilder.hpp:29-168 | no fixed text the builder appends holds an apostrophe, except around the value of equalsTo |
| DbQueryBuilder.FragmentQuotes | src/shared_modules/utils/securicsDBQueryBuilder.hpp:82-90 | a call that passes its check appends two apostrophes for equalsTo and none otherwise |
| DbQueryBuilder.BuildQuotes | src/shared_modules/utils/securicsDBQueryBuilder.hpp:19-90 | no quote injection: a built query holds exactly two apostrophes per equalsTo call, those around its value |
| DbQueryBuilder.GlobalGetCommandTest | src/shared_modules/utils/tests/securicsDBQueryBuilder_test.cpp:128-132 | the chain gives "global get-agent-info 1 " |
| DbQueryBuilder.AgentGetPackagesCommandTest | src/shared_modules/utils/tests/securicsDBQueryBuilder_test.cpp:158-162 | the chain gives "agent 1 package get " |
| DbQueryBuilder.InvalidValueTest | src/shared_modules/utils/tests/securicsDBQueryBuilder_test.cpp:92-102 | a value with a quote throws "Invalid value" |
| DbQueryBuilder.InvalidColumnTest | src/shared_modules/utils/tests/securicsDBQueryBuilder_test.cpp:104-114 | a bad column name throws "Invalid column name" |
| DbQueryBuilder.InvalidTableTest | src/shared_modules/utils/tests/securicsDBQueryBuilder_test.cpp:116-126 | a bad table name throws "Invalid table name" |
| ArgsParser.ParamValueOf | src/shared_modules/keystore/src/argsParser.hpp:98-131 | the scan from argv[1] ends as the reference lookup from position 1 says |
| ArgsParser.FirstStop | src/shared_modules/keystore/src/argsParser.hpp:103-123 | the first position from i on that is '-h' or the switch with a value after it, and no position before it stops the scan |
| ArgsParser.LookupAtFirstStop | src/shared_modules/keystore/src/argsParser.hpp:103-131 | the lookup is decided by the first stop: help for '-h', "is empty." for an empty value, the value otherwise; without a stop, "not found." when required, else the default |
| ArgsParser.FoundIff | src/shared_modules/keystore/src/argsParser.hpp:103-128 | a required lookup gives v exactly when the switch occurs from argv[1] on followed by the non-empty v, with no '-h' and no earlier occurrence of the switch with a value before it |
| ArgsParser.Parse | src/shared_modules/keystore/src/argsParser.hpp:47-52 | the constructor's outcome: '-f', '-k' and '-v' looked up in that order; when it succeeds all three values are non-empty |
| ArgsParser.HelpFirst | src/shared_modules/keystore/src/argsParser.hpp:107-111 | a '-h' as the first argument always shows the help |
| ArgsParser.UsageExample | src/shared_modules/keystore/src/argsParser.hpp:93 | the usage example parses into column family 'indexer', key 'username' and value 'admin' |
| ArgsParser.TrailingSwitchExample | src/shared_modules/keystore/src/argsParser.hpp:113-128 | a switch given last has no value after it and counts as not found |
| ArgsParser.EmptyValueExample | src/shared_modules/keystore/src/argsParser.hpp:116-120 | an empty value is refused with "Switch value: -f is empty." |
| StartsWith.Text | src/os_regex/os_regex_startswith.c:17 | the characters of a C string before its first NUL: a prefix with no NUL, followed by the NUL |
| StartsWith.StrStartsWith | src/os_regex/os_regex_startswith.c:15-24 | TRUE exactly when the pattern's text is a prefix of the string's text |
| Uint32Pack.Pack | src/analysisd/cdb/uint32_pack.c:8-17 | four bytes |
| Uint32Pack.UnpackPack | src/analysisd/cdb/uint32_pack.c:8-17 | unpacking the packed bytes gives the value back |
| Uint32Pack.PackUnpack | src/analysisd/cdb/uint32_pack.c:8-17 | packing the unpacked value gives the four bytes back |
| Uint32Pack.Uint32Pack | src/analysisd/cdb/uint32_pack.c:8-17 | out[0..4] hold the little-endian bytes of the value and nothing past out[3] changes |
| Uint32Pack.Shifts | src/analysisd/cdb/uint32_pack.c:11-15 | the repeated eight-bit shifts amount to shifts by sixteen and twenty-four |
| Text.LexLessIrreflexive | integrations/maltiverse.py:447 | no string sorts before itself |
| Text.LexLessTotal | integrations/maltiverse.py:447 | of two different strings one sorts before the other |
| Text.LexLessAsymmetric | integrations/maltiverse.py:447 | two strings never sort before each other |
| Text.LexLessTransitive | integrations/maltiverse.py:447 | sorting before is transitive |
| Text.Split | wodles/utils.py:95 | split gives at least one part and no part holds the separator |
| Text.JoinSplit | wodles/utils.py:91-95 | joining the parts of a split on the same separator gives the text back |
| Text.SplitJoin | wodles/utils.py:91-95 | splitting a join of separator-free parts gives the parts back |
| Text.IndexOf | framework/securics/core/securics_queue.py:34 | the position of the first occurrence of the character |
| Text.ReplaceChar | framework/securics/core/active_response.py:51 | replacing a character by text free of it removes it; a text without it is unchanged |
| Text.ReplaceCharAppend | framework/securics/core/active_response.py:51 | replacing works piecewise over a concatenation |
| Text.Digits | framework/securics/task.py:53 | the decimal digits of a number: at least one, all digits |
| Text.DigitsRoundTrip | framework/securics/task.py:53 | the digits of a number read back as that number |
| Text.ParseInt | framework/securics/rootcheck.py:59 | int() of a text accepts only non-empty text |
| Text.DecimalRoundTrip | framework/securics/task.py:53 | int(str(n)) == n for every integer |
| Text.ZFillProperties | framework/securics/task.py:53 | zfill reaches the width and never shortens, and a numeric text keeps its value |
| Text.Lower | framework/securics/core/active_response.py:279 | lower() maps each character and keeps the length |
| Text.TextBefore | framework/securics/core/active_response.py:28 | split(sep)[0]: the prefix before the first occurrence of the separator, or the whole text without one |
| Text.Utf8Length | framework/securics/core/securics_queue.py:217-219 | the encoded length lies between one and four bytes per character, and equals the length for ASCII |
| Text.Utf8LengthAppend | framework/securics/core/securics_queue.py:217-219 | the encoded length of a concatenation is the sum of the lengths |
| Values.PyLessIrreflexive | framework/securics/core/tests/test_results.py:283-291 | no value compares less than itself |
| Values.PyLessAsymmetric | framework/securics/core/tests/test_results.py:283-291 | when a < b holds, b < a compares and is false |
| Sorting.Insert | framework/securics/rootcheck.py:59 | inserting adds the element and keeps the others |
| Sorting.SortBy | framework/securics/rootcheck.py:59 | the sort is a permutation of its input |
| Sorting.InsertSorted | framework/securics/rootcheck.py:59 | inserting into a sorted list keeps it sorted |
| Sorting.SortBySorted | framework/securics/rootcheck.py:59 | the sort returns its input reordered by key: sorted and a permutation |
| Sorting.SortByStable | framework/securics/rootcheck.py:59 | under a strict weak order, the items with a given key leave the sort in their input order, as Python's stable `sort` keeps them |
| Sorting.InsertSameKey | framework/securics/rootcheck.py:59 | inserting into a sorted list puts the new item after the items with its key already there |
| Sorting.SameKeyAppend | framework/securics/rootcheck.py:59 | the items with a given key in a concatenation are those of each part, in order |
| Sorting.Dedup | framework/securics/core/tests/test_results.py:150-152 | the same set of items, each once |
| Sorting.InsertDistinct | framework/securics/core/tests/test_results.py:150-152 | inserting a new element into a list without repeats keeps it without repeats |
| Sorting.SortByDistinct | framework/securics/core/tests/test_results.py:150-152 | sorting a list without repeats gives a list without repeats |

## Left out

- Sockets, files, the network and processes are left out. Replies of the queue, the analysisd socket, SecuricsDB and the cluster's local client are parameters of the operations that read them.
- `json.dumps` is a parameter wherever it builds a payload, as is the JSON active-response builder. The version comparison behind the two `can_handle` tests is a pair of parameters to ActiveResponse.ChooseBuilder.
- The regular-expression engine is a function parameter. This covers `OSRegex_Execute_ex` and `OSMatch_Execute`, as well as `isValidChar`, `cdb_find` and `cdb_read` (a CDB is a map from keys to values).
- Mutexes, memory allocation and its failures, and `free` are left out. Pointer identity is also left out: linked lists are sequences and a rule's list pointer is an index.
- CdbLists.Lists.ListLoadRules: the source advances the caller's head pointer while walking; the model resolves the same rules without moving any head.
- SonicWall.CopyProtocol: the end of the C string is not a separate stop, because a NUL is never a valid character.
- SonicWall.SonicWallDecoder.Init: logging, and which of the three expressions failed to compile, are not modelled; only whether all three compiled.
- Exceptions are values: `__deepcopy__` identity and tracebacks are not modelled.
- Values.PyStr: `str()` is modelled for scalars only; the repr of a container is not.
- Text.Lower: `lower()` is modelled for ASCII letters only.
- Dates and times (`datetime`, `older_than` values) are opaque text.
- Combining results with `|` is not proved associative, because the order of the combined items is not fixed.
- Ordering.GoesBeforeIrreflexive: the mixed-type order with `None` is proved irreflexive and asymmetric but not transitive. Python's own `<` is not a total order across types, so Ordering.MergeSorted proves the merged list sorted only for items on which the comparison is a strict weak order (as for the integer-parsed strings of the merge tests).
- Uint32Pack.Unpack: `uint32_unpack` lives in another file and is not part of this model; it is defined here as the partner of `Pack`.
- Maltiverse.MaltiverseAlert: an API response is assumed to have the shape the integration reads, with a list of dict entries holding text fields. A malformed response, which makes the Python raise, is not modelled.
- The Maltiverse event-size warning (`MAX_EVENT_SIZE`) only logs and is left out.
- `call_securics_control` is a parameter, and `os.path.abspath` is taken as given in the wodle helpers.
- Syscollector.GetItemAgent: the result is specified only when the call does not raise.
- RBAC decorators, the cluster's asynchronous calls and the database query classes are inputs, not models. For syscollector, `query(a)` stands for `get_valid_fields` and the database query of agent `a` together: their rows, or the exception either raised.
- CdbLists.Lists.AddList: the node list is a sequence, so the tail is its last index; the pointer walk to it is not modelled. The same holds for CdbLists.Lists.AddListRule.
