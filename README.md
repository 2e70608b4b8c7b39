# Firmware Beacon Manager — a Dafny model of its client logic

Firmware Beacon Manager is a web front end for a firmware repository. It has a
catalogue of firmware versions with burn counts, upload forms, statistics, a
burn-request queue for two Raspberry Pi roles (a controller that requests burns and
a burner that claims and finishes them), a download edge function, and settings pages.

This project models the logic of those pieces and proves what the code promises.
Where the code makes one step after another, or keeps state in a component, the
model is imperative: classes with `modifies` clauses and methods that state the
whole new state. Everything else is expressed with functions and lemmas.

- **Catalogue** (`catalog.dfy`, `firmware_list.dfy`):
  - how a `firmware` row becomes a `Firmware` record;
  - the status filter and the case-insensitive search;
  - the three-key sort and the `toggleSort` direction machine.
- **Aggregations** (`grouping.dfy`, `statistics.dfy`, `dashboard.dfy`):
  - the `reduce`/`forEach` group-by accumulators, as one loop proved against a fold;
  - the per-version list sorted by burns, and the name, status and month groups with the month series;
  - the "latest three" list, the latest-version card, the description preview and the stable/beta tabs.
- **Burn requests** (`burn_requests.dfy`, `burner_workflow.dfy`):
  - row mapping, and the unwrapping of store answers into a record, `null` or `[]`;
  - the list query, and the burner's `currentTask` state machine;
  - which cached queries each event marks stale.
- **Download** (`download.dfy`):
  - the order in which the edge function answers;
  - the parsing of a public URL into a bucket, an object path and an attachment name.
- **Uploads** (`upload_rules.dfy`, `file_selection.dfy`, `tags.dfy`, `upload_form.dfy`,
  `upload_hook.dfy`, `firmware_upload_hook.dfy`, `upload_page.dfy`), for the four upload paths:
  - the file-extension check and the tag editor;
  - the ordered checks and the storage file name;
  - the record inserted, and the sequence of storage and database calls.
- **Settings and navigation** (`admin_settings.dfy`, `user_settings.dfy`, `app_sidebar.dfy`):
  - the role map and the user table;
  - the role toggle and user deletion;
  - the password-change checks;
  - the sidebar's active-entry rule.
- **Shared** (`common.dfy`, `text.dfy`, `sorting.dfy`, `notices.dfy`):
  - `Option`, order-preserving `Filter` and `Sum`;
  - the string operations the code relies on (`toLowerCase`, `trim`, `split`/`join`,
    `split(...).pop()`, `indexOf`, `replace`, number formatting and `Number`);
  - a stable insertion sort, and toasts.

Services are never called. The database, storage, authentication, clock and file
reading are parameters. Each operation takes the answer the service gives and
returns, or records, the calls it makes and what it shows.

The statistics page repeats the statistics hook's preparation over a fixed list of
firmware. The same definitions (`Statistics.ChartDataOf`) model both. They group by
name with the corrected grouping of "## Findings"; the grouping as written is
`Statistics.NameGroupsAsWritten`.

## Model

| member | source | states |
|---|---|---|
| Catalog.StatusNameInjective | src/integrations/supabase/types.ts:149 | the three firmware statuses have three distinct names |
| Catalog.GetTimeOrder | src/hooks/useFirmwareList.ts:33-36 | the timestamp order of two dates is their calendar order, and equal timestamps mean equal dates |
| Catalog.Normalize | src/hooks/useFirmware.ts:18-23 | a falsy `burn_count` becomes 0 and a null tag list becomes []; a missing upload date becomes the current time; every other column is copied unchanged |
| Catalog.NormalizeRowOf | src/hooks/useFirmware.ts:18-23 | normalising a record's own row gives back the record |
| Catalog.LoadFirmware | src/hooks/useFirmware.ts:9-24 | a store error is thrown with its message; otherwise there is one record per row, in row order, each the normalised row |
| Catalog.LoadKeepsOrder | src/hooks/useFirmware.ts:18-23 | the i-th record comes from the i-th row and keeps its id and columns |
| Catalog.FirmwareQuery | src/hooks/useFirmware.ts:9-12 | the query reads the `firmware` table ordered by `date_uploaded`, descending |
| Catalog.LoadedNewestFirst | src/hooks/useFirmware.ts:9-20 | an answer in the query's order (undated rows first), with no date after the current time, loads as records newest first by upload date |
| FirmwareList.CompareNamesOrder | src/hooks/useFirmwareList.ts:39-40 | the name comparison is total and transitive |
| FirmwareList.SortOrderIsOrder | src/hooks/useFirmwareList.ts:32-47 | for every sort field and direction, the comparator is total and transitive |
| FirmwareList.FilteredFirmware | src/hooks/useFirmwareList.ts:14-48 | no data gives []; otherwise each kept firmware keeps its multiplicity and the others are dropped; the result is sorted by the chosen order |
| FirmwareList.FilterExactStatus | src/hooks/useFirmwareList.ts:16-18 | with a status filter other than "all", every result has exactly that status |
| FirmwareList.FilterKeepsAll | src/hooks/useFirmwareList.ts:14-31 | with filter "all" and an empty search the result is a permutation of the data |
| FirmwareList.SearchMatches | src/hooks/useFirmwareList.ts:20-28 | a non-empty search keeps a firmware exactly when the lower-cased term occurs in its lower-cased name, version, description ("" when null) or one of its tags |
| FirmwareList.SortedByBurnCount | src/hooks/useFirmwareList.ts:41-44 | burn-count sorting is non-increasing for "desc" and non-decreasing otherwise |
| FirmwareList.SortedByDate | src/hooks/useFirmwareList.ts:33-36 | date sorting is newest first for "desc" and oldest first otherwise |
| FirmwareList.SortedByName | src/hooks/useFirmwareList.ts:37-40 | name sorting is descending for "desc" and ascending otherwise |
| FirmwareList.Toggled | src/hooks/useFirmwareList.ts:50-57 | the same field keeps its field and flips "asc"/"desc"; another field is selected with "desc" |
| FirmwareList.ToggleTwice | src/hooks/useFirmwareList.ts:50-53 | toggling the current field twice restores the sort state |
| FirmwareList.ToggleDirection | src/hooks/useFirmwareList.ts:50-57 | after a toggle the direction is always "asc" or "desc" |
| FirmwareList.FirmwareListView.constructor | src/hooks/useFirmwareList.ts:7-10 | the view starts with search "", filter "all", field "date" and direction "desc" |
| FirmwareList.FirmwareListView.SetSearchTerm | src/hooks/useFirmwareList.ts:7 | only the search term changes |
| FirmwareList.FirmwareListView.SetStatusFilter | src/hooks/useFirmwareList.ts:8 | only the status filter changes |
| FirmwareList.FirmwareListView.ToggleSort | src/hooks/useFirmwareList.ts:50-57 | the sort state becomes `Toggled` of the old one; search and filter are kept |
| Grouping.Accumulate | src/hooks/useStatisticsData.ts:24-32 | the fold keeps its groups well formed: each key is listed once, and exactly the listed keys have a group |
| Grouping.GroupBurns | src/hooks/useStatisticsData.ts:24-34 | the loop over the data, creating a group on a key's first appearance and adding burns and one version, produces the fold's values |
| Grouping.AddRecord | src/hooks/useStatisticsData.ts:26-30 | one step of the accumulator: a missing key is created with 0 burns and 0 versions, then burns and the version count grow |
| Grouping.ObjectValues | src/hooks/useStatisticsData.ts:34 | the values are read in key insertion order |
| Grouping.AccumulateEntry | src/hooks/useStatisticsData.ts:24-32 | a key has a group exactly when some record has it, and the group holds the sum of that key's burns and its record count |
| Grouping.GroupedEntries | src/hooks/useStatisticsData.ts:24-34 | each group carries the burns and the record count of its key |
| Grouping.GroupedKeys | src/hooks/useStatisticsData.ts:24-34 | the group keys are distinct; each is some record's key, and every record's key has a group |
| Grouping.GroupedKeyOccurs | src/hooks/useStatisticsData.ts:24-34 | no group is invented: every group's key belongs to a record |
| Grouping.ValuesAddEntry | src/hooks/useStatisticsData.ts:26-30 | adding to an existing key updates its value in place; a new key appends a group with 1 version |
| Grouping.GroupedTotals | src/hooks/useStatisticsData.ts:24-34 | the groups' burns add up to the total burns, and their version counts to the number of records |
| Statistics.RoundKiB | src/hooks/useStatisticsData.ts:16 | the size in KiB rounded to the nearest integer, halves rounding up |
| Statistics.SortedByBurns | src/hooks/useStatisticsData.ts:21 | a permutation of the per-version entries with non-increasing burns |
| Statistics.MonthKeyRoundTrip | src/hooks/useStatisticsData.ts:51-63 | parsing a month key back gives the one-based month and the year it was built from |
| Statistics.MonthKeyMonthInRange | src/hooks/useStatisticsData.ts:51 | the month part of a key is between 1 and 12 |
| Statistics.MonthKeySameMonth | src/hooks/useStatisticsData.ts:49-56 | two dates share a key exactly when they share year and month |
| Statistics.TimeSeries | src/hooks/useStatisticsData.ts:58-66 | the series is a permutation of the month entries, sorted by the year-then-month comparator |
| Statistics.PrepareChartData | src/hooks/useStatisticsData.ts:9-75 | no data gives null; otherwise the chart data of the records |
| Statistics.ChartSortedByBurns | src/hooks/useStatisticsData.ts:13-21 | `sortedByBurns` has one entry per record, is a permutation of the version entries, and has non-increasing burns |
| Statistics.ChartNameGroups | src/hooks/useStatisticsData.ts:24-34 | the name groups' burns sum to `totalBurns` and their versions to the record count; there is one group per distinct name, and each holds its name's burns |
| Statistics.AtMostThreeStatuses | src/hooks/useStatisticsData.ts:37-46 | groups with distinct statuses number at most three |
| Statistics.ChartStatusGroups | src/hooks/useStatisticsData.ts:37-46 | the status groups' values sum to `totalBurns`; the statuses are distinct, and there are at most three |
| Statistics.SeriesKeysAreMonthKeys | src/hooks/useStatisticsData.ts:49-58 | every series key is the month key of some record |
| Statistics.SeriesTotal | src/hooks/useStatisticsData.ts:49-66 | the month series' burns sum to `totalBurns` |
| Statistics.SeriesDistinct | src/hooks/useStatisticsData.ts:49-66 | each month appears once in the series |
| Statistics.SeriesMonthRange | src/hooks/useStatisticsData.ts:51 | every series month is between 1 and 12 |
| Statistics.ChartTimeSeriesOrdered | src/hooks/useStatisticsData.ts:58-66 | the series is strictly increasing by year, then month |
| Statistics.MonthKeysStrictlyBefore | src/hooks/useStatisticsData.ts:61-65 | for distinct month keys of the data, a non-positive comparator result means an earlier month |
| Statistics.PageTotalsAgree | src/pages/Statistics.tsx:21-63 | on the statistics page the status values, the name groups and the month series each add up to the "Total Burns" figure |
| Statistics.AsWrittenWithoutInheritedNames | src/hooks/useStatisticsData.ts:24-32 | while no name is inherited from `Object.prototype`, the name groups as written equal the corrected grouping |
| Statistics.AsWrittenLosesInheritedName | src/hooks/useStatisticsData.ts:26-28 | a firmware named "toString" with 5 burns gives name groups summing to 0 as written, against a total of 5 |
| Dashboard.BurnChartData | src/pages/Index.tsx:11-20 | the per-day chart points are the grouping of the records by upload day |
| Dashboard.ChartMatchesTotal | src/pages/Index.tsx:11-20 | the days' burns add up to the "Total Device Burns" figure, and each day appears once |
| Dashboard.ByNewest | src/pages/Index.tsx:22-23 | a permutation of the data, newest first |
| Dashboard.LatestVersions | src/pages/Index.tsx:22-24 | at most three entries taken from the data, newest first |
| Dashboard.LatestVersionsNewest | src/pages/Index.tsx:22-24 | no left-out entry is newer than a listed one |
| Dashboard.LatestEntry | src/pages/Index.tsx:65-66 | none exactly for no data; otherwise an entry with the greatest upload date |
| Dashboard.LatestVersion | src/pages/Index.tsx:64-67 | the card shows the version of an entry with the greatest upload date |
| Dashboard.DescriptionPreview | src/pages/Index.tsx:111 | a description of at most 40 characters unchanged; a longer one cut to its first 40 characters plus "..." |
| Dashboard.StableTab | src/pages/Index.tsx:202-204 | exactly the stable entries, each as often as in the list, in list order |
| Dashboard.BetaTab | src/pages/Index.tsx:235-237 | exactly the beta entries, each as often as in the list, in list order |
| BurnRequests.MapBurnRequest | src/utils/burnRequestUtils.ts:18-28 | each column goes into its camel-case field unchanged |
| BurnRequests.MapBurnRequestRoundTrip | src/utils/burnRequestUtils.ts:18-28 | the mapping loses nothing: it and its inverse undo each other |
| BurnRequests.FirstRow | src/utils/burnRequestUtils.ts:72-79 | a record exactly when the data is a non-empty list, and then the mapped first row |
| BurnRequests.ClaimBurnTask | src/utils/burnRequestUtils.ts:58-84 | the mapped first row; null for an empty list or a store error |
| BurnRequests.UpdateArgsFor | src/utils/burnRequestUtils.ts:96-104 | the request, status and burner are passed on; a missing or empty message is sent as null |
| BurnRequests.UpdateBurnStatus | src/utils/burnRequestUtils.ts:87-123 | the mapped first updated row; null when no row comes back or the store reports an error |
| BurnRequests.CreateBurnRequest | src/utils/burnRequestUtils.ts:31-55 | the new id; null on a store error |
| BurnRequests.GetBurnRequestById | src/utils/burnRequestUtils.ts:126-140 | the mapped row; null on an error or no row |
| BurnRequests.ListQueryFor | src/utils/burnRequestUtils.ts:143-152 | ordered by `created_at` descending, limited to `limit` (10 by default), filtered by status only when one is given |
| BurnRequests.GetBurnRequests | src/utils/burnRequestUtils.ts:154-161 | the rows mapped one to one, in order; [] on an error or no data |
| BurnRequests.ListQueryAnswer | src/utils/burnRequestUtils.ts:148-152 | a store answering the query returns `min(limit, matching)` rows of the table, all matching, newest first, and no matching row left out is newer than a returned one |
| BurnRequests.GetBurnRequestsFromStore | src/utils/burnRequestUtils.ts:143-161 | `getBurnRequests(status, limit)` returns `min(limit, matching)` requests with the status asked for, newest first, and no such request left out was created after a returned one |
| BurnerWorkflow.ListKeyFor | src/hooks/useBurnRequests.ts:15-30 | the list's cache key carries the status and the limit (10 by default) |
| BurnerWorkflow.ChangeInvalidations | src/hooks/useBurnRequests.ts:39-50 | a change event invalidates every list, plus the changed row's detail query when the payload's new row has an id |
| BurnerWorkflow.ChangeEventStale | src/hooks/useBurnRequests.ts:42-49 | after a change event every list query is stale, and a detail query is stale exactly when it is the changed row's |
| BurnerWorkflow.DetailsEnabled | src/hooks/useBurnRequests.ts:91-94 | the detail query runs exactly when the request id is present and not empty (`!!requestId`) |
| BurnerWorkflow.DetailChangeStale | src/hooks/useBurnRequests.ts:110-113 | the detail channel invalidates its own request's query and nothing else |
| BurnerWorkflow.AfterClaim | src/hooks/useBurnRequests.ts:138-143 | a claimed task becomes current and the lists go stale; no task changes nothing |
| BurnerWorkflow.AfterUpdate | src/hooks/useBurnRequests.ts:153-161 | the task is dropped exactly when the returned request is completed or failed; the lists always go stale, and so does the held task's detail query when its id is not empty |
| BurnerWorkflow.Burner.constructor | src/hooks/useBurnRequests.ts:131-133 | no task is held at first |
| BurnerWorkflow.Burner.ClaimTask | src/hooks/useBurnRequests.ts:136-144 | one claim call with the burner's id; the new task and invalidations are those of `AfterClaim` |
| BurnerWorkflow.Burner.UpdateTask | src/hooks/useBurnRequests.ts:147-162 | one update call with the burner's id; the new task and invalidations are those of `AfterUpdate` |
| BurnerWorkflow.Burner.CompleteTask | src/hooks/useBurnRequests.ts:169-170 | an update to "completed" with no message |
| BurnerWorkflow.Burner.FailTask | src/hooks/useBurnRequests.ts:171-172 | an update to "failed" with the message, null when empty |
| BurnerWorkflow.ClaimHoldsTask | src/hooks/useBurnRequests.ts:139-140 | a claim that returns a row makes exactly that request current |
| BurnerWorkflow.NothingToClaim | src/hooks/useBurnRequests.ts:138-143 | an empty queue or a failed claim keeps the held task and invalidates nothing |
| BurnerWorkflow.CompleteReleasesTask | src/hooks/useBurnRequests.ts:154-160 | completing a held task with a non-empty id drops it and makes both the lists and its detail query stale |
| BurnerWorkflow.FailedUpdateKeepsTask | src/hooks/useBurnRequests.ts:153-161 | an update the store rejects keeps the held task but still invalidates the lists |
| BurnerWorkflow.EmptyIdSkipsDetail | src/hooks/useBurnRequests.ts:158-160 | a held task with an empty id invalidates no detail query |
| BurnerWorkflow.OtherRequestReleasesTask | src/hooks/useBurnRequests.ts:154-156 | finishing another request also drops the held task, and the finished request's detail query is not invalidated |
| Download.StoragePath | supabase/functions/download-firmware/index.ts:75-78 | with no "public" segment the whole URL is the storage path |
| Download.BucketOf | supabase/functions/download-firmware/index.ts:79 | the bucket is a prefix of the storage path and holds no '/' |
| Download.BucketAndPath | supabase/functions/download-firmware/index.ts:79-80 | with a '/', bucket + "/" + object path is the storage path; without one, the bucket is the whole path and the object path is empty |
| Download.FileName | supabase/functions/download-firmware/index.ts:99 | the object path's last segment when non-empty; otherwise `name-version.bin`; never empty |
| Download.PublicUrl | supabase/functions/download-firmware/index.ts:73-80 | for `…/public/<bucket>/<rest>` with no earlier "public", the bucket and object path are `<bucket>` and `<rest>` |
| Download.Handle | supabase/functions/download-firmware/index.ts:13-117 | OPTIONS is answered before anything else; then a bad URL gives 500, a missing id 400, no record 404 "not found", no file 404 "not available"; with a file, the fetch, increment and download calls are made in that order, a failed download gives 500 "Failed to download firmware file", and a downloaded file is served as an attachment named from its object path |
| Download.ServedFile | supabase/functions/download-firmware/index.ts:58-108 | a served file means the record and file were found, the calls were fetch, increment and download of the parsed bucket and path, and the body and name are the downloaded data and `FileName` |
| Download.NoServiceCallWithoutId | supabase/functions/download-firmware/index.ts:15-32 | no service is called for a preflight, a bad URL or a missing id, and one is called otherwise |
| FileSelection.DecideFileChange | src/components/firmware/upload/FileSelector.tsx:16-33 | no file changes nothing; a file whose lower-cased name ends with an accepted extension is taken; any other is refused |
| FileSelection.ExtensionIgnoresCase | src/components/firmware/upload/FileSelector.tsx:20 | acceptance is the same for a name and its lower-cased form |
| FileSelection.UpperCaseHexAccepted | src/components/firmware/upload/FileSelector.tsx:20 | "FW.HEX" is accepted by the selector and by the upload page |
| FileSelection.BinOnlyInSelector | src/pages/Upload.tsx:33-34 | ".bin" is accepted by the selector and refused by the upload page |
| FileSelection.UploadPageNarrower | src/pages/Upload.tsx:33-34 | whatever the upload page accepts the selector accepts too |
| Tags.TagsAfterAdd | src/components/firmware/FirmwareTags.tsx:16-21 | the trimmed tag is appended exactly when it is non-empty and not yet listed |
| Tags.TagsAfterRemove | src/components/firmware/FirmwareTags.tsx:23-25 | every occurrence goes; other tags keep their counts and their order |
| Tags.AddTagKeepsDistinct | src/components/firmware/FirmwareTags.tsx:17-18 | adding keeps a duplicate-free list duplicate-free |
| Tags.AddedTagIsTrimmed | src/components/firmware/FirmwareTags.tsx:17-18 | an added tag is non-empty and already trimmed |
| Tags.RemoveAbsentTag | src/components/firmware/FirmwareTags.tsx:23-25 | removing an absent tag changes nothing |
| Tags.AddThenRemove | src/components/firmware/FirmwareTags.tsx:16-25 | adding a fresh trimmed tag and removing it restores the list |
| Tags.TagEditor.constructor | src/components/firmware/FirmwareTags.tsx:13-14 | the editor starts with the given tags and an empty input |
| Tags.TagEditor.SetCurrentTag | src/components/firmware/FirmwareTags.tsx:35 | only the input changes |
| Tags.TagEditor.AddTag | src/components/firmware/FirmwareTags.tsx:16-21 | on a valid tag the longer list is emitted and the input cleared; otherwise nothing changes |
| Tags.TagEditor.RemoveTag | src/components/firmware/FirmwareTags.tsx:23-25 | the list without the tag is emitted; the input is kept |
| UploadRules.Check | src/components/firmware/upload/UploadForm.tsx:59-84 | no file first, then a missing name or version, then an invalid password where one is asked; the first failing check decides |
| UploadRules.Extension | src/components/firmware/upload/UploadForm.tsx:91 | the text after the last '.', holding no '.', or the whole name when it has none |
| UploadRules.StorageFileName | src/components/firmware/upload/UploadForm.tsx:91-92 | the object name is exactly `<name with white space as '-'>-<version with '.' as '-'>-<timestamp>.` followed by the extension: that prefix, that suffix, and their lengths plus one |
| UploadRules.StorageFileNameParts | src/components/firmware/upload/UploadForm.tsx:92 | the name part has no white space and is empty only for an empty name; the version part is the version with each '.' as '-'; the timestamp part has no '.' and reads back as the timestamp |
| UploadRules.StorageFileNameExtension | src/components/firmware/upload/UploadForm.tsx:91-92 | the object name's extension is the original file's extension |
| UploadRules.ExtensionWithoutDot | src/components/firmware/upload/UploadForm.tsx:91 | "firmware" gives "firmware" and "fw.v2.hex" gives "hex" |
| UploadRules.DescriptionOrNull | src/components/firmware/upload/UploadForm.tsx:125 | an empty description becomes null; any other is kept |
| UploadRules.FormColumns | src/components/firmware/upload/UploadForm.tsx:122-128 | name, version, status and tags from the form, the description or null, and the file size |
| UploadRules.StoredFileRecord | src/components/firmware/upload/UploadForm.tsx:122-132 | the form columns plus the upload time, 0 burns and the object's public URL, with no content |
| UploadRules.TextContentRecord | src/pages/Upload.tsx:96-104 | the form columns plus the file's text, with no date, burn count or URL |
| UploadRules.EncodedContentRecord | src/hooks/useFirmwareUpload.ts:78-88 | the form columns plus the base64 content, the upload time and 0 burns, with no URL |
| UploadRules.StorageRun | src/components/firmware/upload/UploadForm.tsx:97-158 | a failed upload stops after the upload; an insert error is followed by removing the object; success exactly when the insert returns at least one row |
| UploadRules.StorageRunCreatesBucket | src/hooks/useUploadFirmware.tsx:67-73 | the bucket is created exactly on the hook's path when the listing does not show it |
| UploadRules.StorageRunRemoval | src/components/firmware/upload/UploadForm.tsx:142-152 | an object is removed only after a failed insert, it is the object just uploaded, and it is the last call |
| UploadRules.StorageUploadCalls | src/components/firmware/upload/UploadForm.tsx:91-140 | the upload stores the object under its storage name, and once stored inserts a record carrying its public URL |
| UploadForm.UploadFormView.constructor | src/components/firmware/upload/UploadForm.tsx:21-32 | no upload, no file, empty password, the empty form and no tag input; the password flag is kept consistent |
| UploadForm.UploadFormView.SubmitDisabled | src/components/firmware/upload/UploadForm.tsx:249 | disabled exactly while uploading or while the password is not "AmazingFOTA" |
| UploadForm.UploadFormView.HandleFileChange | src/components/firmware/upload/FileSelector.tsx:16-33 | an accepted file is selected; a refused one raises the toast and clears the input, keeping the old file; no file changes nothing |
| UploadForm.UploadFormView.ValidatePassword | src/components/firmware/upload/UploadForm.tsx:34-37 | the input is kept, and it is valid exactly when it is "AmazingFOTA" |
| UploadForm.UploadFormView.EditDetails | src/components/firmware/upload/UploadForm.tsx:189-243 | name, version, description and status are replaced; everything else stays |
| UploadForm.UploadFormView.SetCurrentTag | src/components/firmware/upload/TagInput.tsx:31 | only the tag input changes |
| UploadForm.UploadFormView.AddTag | src/components/firmware/upload/UploadForm.tsx:39-47 | the tags become `TagsAfterAdd` and the input is cleared, or nothing changes |
| UploadForm.UploadFormView.RemoveTag | src/components/firmware/upload/UploadForm.tsx:49-54 | the tags become `TagsAfterRemove`; nothing else changes |
| UploadForm.UploadFormView.HandleSubmit | src/components/firmware/upload/UploadForm.tsx:56-179 | a rejection only raises its toast; a started upload makes the storage run's calls and raises its outcome toast, goes to "/versions" on success, and ends with `uploading` false |
| UploadForm.UploadFormView.Upload | src/components/firmware/upload/UploadForm.tsx:86-178 | once started, the run's calls are logged, its toast raised, "/versions" visited on success, and `uploading` is false at the end |
| UploadForm.OnlyPasswordLeft | src/components/firmware/upload/UploadForm.tsx:59-84 | with a file, name and version the form refuses only over a wrong password |
| UploadHook.UploadFirmwareHook.constructor | src/hooks/useUploadFirmware.tsx:25 | nothing is uploading at first |
| UploadHook.UploadFirmwareHook.UploadFirmware | src/hooks/useUploadFirmware.tsx:27-166 | each failed check returns with its toast before `uploading` is set; a started upload makes the hook path's calls, raises the outcome toast, goes to "/versions" on success and ends with `uploading` false |
| UploadHook.HookCreatesMissingBucket | src/hooks/useUploadFirmware.tsx:67-73 | the hook creates `firmwares` exactly when the listing does not show it |
| UploadHook.HookSignsInWithoutSession | src/hooks/useUploadFirmware.tsx:100-106 | without a session, an anonymous sign-in comes before the insert |
| UploadHook.SignInBeforeInsert | src/hooks/useUploadFirmware.tsx:100-127 | in the hook's run, the sign-in call precedes the insert call |
| FirmwareUploadHook.FirmwareUpload.constructor | src/hooks/useFirmwareUpload.ts:21-22 | no upload and no file at first |
| FirmwareUploadHook.FirmwareUpload.HandleFileChange | src/hooks/useFirmwareUpload.ts:24-43 | the four extensions are accepted; a refused file raises the toast, clears the input and keeps the old selection |
| FirmwareUploadHook.FirmwareUpload.UploadFirmware | src/hooks/useFirmwareUpload.ts:45-120 | file and name/version checks with no password; a started upload inserts the encoded record when the file is read, succeeds only when the insert does, and ends with `uploading` false |
| UploadPage.UploadPageView.constructor | src/pages/Upload.tsx:19-28 | no upload, no file, the empty form and no tag input |
| UploadPage.UploadPageView.HandleFileChange | src/pages/Upload.tsx:30-47 | the page's three extensions are accepted; a refused file raises the toast, clears the input and keeps the old selection |
| UploadPage.UploadPageView.EditDetails | src/pages/Upload.tsx:173-250 | name, version, description and status are replaced; everything else stays |
| UploadPage.UploadPageView.SetCurrentTag | src/pages/Upload.tsx:214 | only the tag input changes |
| UploadPage.UploadPageView.AddTag | src/pages/Upload.tsx:49-57 | the tags become `TagsAfterAdd` and the input is cleared, or nothing changes |
| UploadPage.UploadPageView.RemoveTag | src/pages/Upload.tsx:59-64 | the tags become `TagsAfterRemove`; nothing else changes |
| UploadPage.UploadPageView.HandleSubmit | src/pages/Upload.tsx:66-133 | file and name/version checks with no password; a started submission inserts the text record when the file is read, and always ends with no file, the empty form and `uploading` false |
| UploadPage.NoPasswordCheck | src/pages/Upload.tsx:69-85 | the page never refuses over a password |
| AdminSettings.RoleMapDomain | src/components/settings/AdminSettings.tsx:90-93 | a user is in the role map exactly when some role row names them |
| AdminSettings.RoleMapLastWins | src/components/settings/AdminSettings.tsx:90-93 | the last row naming a user decides that user's role |
| AdminSettings.BuildRoleMap | src/components/settings/AdminSettings.tsx:90-93 | the loop over the rows builds the role map of the rows |
| AdminSettings.EmailShown | src/components/settings/AdminSettings.tsx:98 | the address, or "No email" when it is missing or empty |
| AdminSettings.RoleOf | src/components/settings/AdminSettings.tsx:99 | the mapped role, or "user" for an unmapped user |
| AdminSettings.FormatUser | src/components/settings/AdminSettings.tsx:96-101 | a line keeps the id and creation time, and shows the email and the role |
| AdminSettings.FormatUsers | src/components/settings/AdminSettings.tsx:96-101 | one line per account, in listing order |
| AdminSettings.UnassignedIsUser | src/components/settings/AdminSettings.tsx:99 | an account without a role row is shown as a user |
| AdminSettings.LastRoleRowDecides | src/components/settings/AdminSettings.tsx:90-99 | an account's shown role is that of the last row naming it |
| AdminSettings.FallbackUser | src/components/settings/AdminSettings.tsx:108-123 | when the listing fails, the signed-in user is shown with their own role or "user", and their creation time or now |
| AdminSettings.Flip | src/components/settings/AdminSettings.tsx:136 | the new role is the other role |
| AdminSettings.RoleWriteFor | src/components/settings/AdminSettings.tsx:146-161 | an update when a role row exists, an insert otherwise |
| AdminSettings.SetRole | src/components/settings/AdminSettings.tsx:164-166 | only the target user's role changes; length, order and other fields are kept |
| AdminSettings.RemoveUser | src/components/settings/AdminSettings.tsx:192 | the target's lines go; every other line stays, in order |
| AdminSettings.ToggleBack | src/components/settings/AdminSettings.tsx:136-166 | flipping a user's role and flipping it back restores the table |
| AdminSettings.RemoveAbsentUser | src/components/settings/AdminSettings.tsx:192 | deleting an absent user leaves the table unchanged |
| AdminSettings.AdminPanel.constructor | src/components/settings/AdminSettings.tsx:21-24 | no users, loading, nobody being processed |
| AdminSettings.AdminPanel.FetchUsers | src/components/settings/AdminSettings.tsx:74-127 | on success the formatted accounts; on failure a toast and the signed-in user's fallback line; loading ends either way |
| AdminSettings.AdminPanel.ToggleUserRole | src/components/settings/AdminSettings.tsx:129-175 | one's own role is refused with no change; otherwise the write for the flipped role is made, the table updated only on success, and processing ends |
| AdminSettings.AdminPanel.DeleteUser | src/components/settings/AdminSettings.tsx:177-201 | one's own account is refused with no change; otherwise the deletion is requested, the table updated only on success, and processing ends |
| UserSettings.PasswordCheck | src/components/settings/UserSettings.tsx:20-28 | a mismatch first, then fewer than six characters; accepted otherwise |
| UserSettings.MismatchFirst | src/components/settings/UserSettings.tsx:20-28 | "abc"/"abd" is a mismatch and "abcdef" twice is accepted |
| UserSettings.UserSettingsForm.constructor | src/components/settings/UserSettings.tsx:13-15 | empty entries, not submitting |
| UserSettings.UserSettingsForm.SetNewPassword | src/components/settings/UserSettings.tsx:75 | only the new password changes |
| UserSettings.UserSettingsForm.SetConfirmPassword | src/components/settings/UserSettings.tsx:85 | only the confirmation changes |
| UserSettings.UserSettingsForm.HandlePasswordChange | src/components/settings/UserSettings.tsx:17-43 | a refusal raises its toast and changes nothing else; an accepted change raises the success toast, clears both entries and ends not submitting |
| AppSidebar.IsActive | src/components/layout/AppSidebar.tsx:61-62 | the dashboard entry is active only on "/"; any other entry when the path starts with its url |
| AppSidebar.MenuUrls | src/components/layout/AppSidebar.tsx:17-38 | the four urls, in their order |
| AppSidebar.RawPrefix | src/components/layout/AppSidebar.tsx:61-62 | "/uploadx" and "/upload/new" highlight the upload entry; "/upload" does not highlight the dashboard |
| AppSidebar.DashboardAlone | src/components/layout/AppSidebar.tsx:61-62 | on "/" only the dashboard entry is active |
| Common.Filter | src/hooks/useFirmwareList.ts:14-31 | `Array.filter`: the kept elements with their multiplicities, the others dropped |
| Common.FilterIsSubsequence | src/pages/Index.tsx:202-204 | filtering keeps the list order |
| Sorting.SortBy | src/hooks/useFirmwareList.ts:32-47 | `Array.sort` as a permutation of the input |
| Sorting.SortBySorted | src/hooks/useFirmwareList.ts:32-47 | with a total, transitive comparator the result is sorted |
| Text.ToLower | src/hooks/useFirmwareList.ts:21-26 | `toLowerCase` changes each capital letter A-Z into its small letter and nothing else |
| Text.ToLowerIdempotent | src/components/firmware/upload/FileSelector.tsx:20 | lower-casing twice is lower-casing once |
| Text.TrimStart | src/components/firmware/FirmwareTags.tsx:17 | a suffix of the text that does not start with white space |
| Text.TrimEnd | src/components/firmware/FirmwareTags.tsx:17 | a prefix of the text that does not end with white space |
| Text.TrimStartDropsWhitespace | src/components/firmware/FirmwareTags.tsx:17 | only white space is dropped at the start |
| Text.TrimEndDropsWhitespace | src/components/firmware/FirmwareTags.tsx:17 | only white space is dropped at the end |
| Text.TrimShape | src/components/firmware/FirmwareTags.tsx:17 | `trim()` leaves a piece of the text with no white space at either end |
| Text.TrimIdempotent | src/components/firmware/FirmwareTags.tsx:17 | trimming twice is trimming once |
| Text.Split | supabase/functions/download-firmware/index.ts:75 | `split` gives at least one part, none holding the separator |
| Text.JoinSplit | supabase/functions/download-firmware/index.ts:75-80 | joining the parts of a split gives back the text |
| Text.SplitJoin | supabase/functions/download-firmware/index.ts:78-80 | splitting a join of separator-free parts gives back the parts |
| Text.SplitConcat | supabase/functions/download-firmware/index.ts:78-80 | splitting around a separator splits both sides |
| Text.SplitWithoutSeparator | supabase/functions/download-firmware/index.ts:79 | a text without the separator splits into itself |
| Text.SplitContaining | supabase/functions/download-firmware/index.ts:79-80 | a text with the separator splits into at least two parts |
| Text.SplitLast | supabase/functions/download-firmware/index.ts:99 | `split(sep).pop()` is the suffix after the last separator, or the whole text |
| Text.IndexOf | supabase/functions/download-firmware/index.ts:78 | `indexOf`: -1 exactly when absent, otherwise the first position of the element |
| Text.ReplaceChar | src/components/firmware/upload/UploadForm.tsx:92 | `replace(/\./g, '-')` replaces every occurrence of one character and keeps the rest |
| Text.DashWhitespace | src/components/firmware/upload/UploadForm.tsx:92 | `replace(/\s+/g, '-')` leaves no white space, is no longer than its input, is empty only for empty input, and leaves a text without white space unchanged |
| Text.DashWhitespaceKeeps | src/components/firmware/upload/UploadForm.tsx:92 | a character that is not white space is kept, followed by the replacement of the rest |
| Text.DashWhitespaceRun | src/components/firmware/upload/UploadForm.tsx:92 | a maximal run of white space becomes one '-', followed by the replacement of the rest; with the empty case these two fix the result |
| Text.NatToString | src/hooks/useStatisticsData.ts:51 | a non-empty string of decimal digits |
| Text.IntToString | src/hooks/useStatisticsData.ts:51 | a non-empty string of digits and a sign |
| Text.ParseNatToString | src/hooks/useStatisticsData.ts:62 | reading the digits back gives the number |
| Text.ParseIntToString | src/hooks/useStatisticsData.ts:62 | `Number` of the formatted integer gives the integer |
| Text.LexLeTotal | src/hooks/useFirmwareList.ts:39-40 | the string order is total |
| Text.LexLeTransitive | src/hooks/useFirmwareList.ts:39-40 | the string order is transitive |

## Left out

- Calls into the database, storage, authentication, realtime channels and the toast
  library are not executed. Each operation takes the service's answer as a parameter and
  records the calls it would make. Subscribing to and removing channels is not modelled.
- The database functions `request_firmware_burn`, `claim_burn_task`,
  `update_burn_status` and `increment_firmware_burn_count` are known only by signature.
  Their answers are parameters, so nothing is claimed about which request a claim picks.
- The answer of the burn-count increment is ignored in the edge function, so it is not a parameter.
- `createInitialAdmin` in the admin settings is not modelled. It signs up a fixed
  account with fixed credentials, which is set-up code with no logic to state.
- The `createRequest` mutation of `useBurnRequestList` is covered only through
  `BurnRequests.CreateBurnRequest`. Its `onSuccess` invalidation of all list queries is not modelled separately.
- Exceptions thrown by a service client are modelled only where the code catches them as
  answers, such as an error object or a failed read. A thrown network failure is not.
- Dates are calendar fields with the month counted from 0, without time zones.
  `Catalog.GetTime` is an order-preserving stand-in for `getTime()`, not milliseconds since 1970.
  `toISOString().split('T')[0]` becomes the calendar day.
- `btoa` over the file bytes, `File.text()` and `File.arrayBuffer()` are parameters.
  The model takes the encoded or read text, or `None` when reading fails.
- `Grouping.ObjectValues` keeps plain insertion order. `Object.values` and `Object.entries`
  list integer-like keys before the others, so the two match for names that are not integer-like.
- The role map is modelled as a map. User ids are taken not to be names inherited from
  `Object.prototype`, which holds for the UUIDs the store issues.
- Sorting is modelled by one stable insertion sort. The code's `Array.prototype.sort` is
  also stable, but its order of comparisons is not modelled.
- `Text.ToLower` lower-cases the ASCII letters A-Z only, where `toLowerCase` also maps other
  capital letters. `localeCompare` is modelled as code-point order. `trim` and `\s` use
  JavaScript's full white-space set (`Text.IsWhitespace`).
- `UserSettings.PasswordCheck` counts characters as code points. JavaScript's `length`
  counts UTF-16 units, which differs only for characters outside the Basic Multilingual Plane.
- `Dashboard.DescriptionPreview` counts and cuts characters as code points, where
  `length` and `slice(0, 40)` count UTF-16 units; they differ only outside the Basic Multilingual Plane.
- `Statistics.PrepareChartData` and `Statistics.ChartDataOf` group by name with the corrected
  grouping, not with the code as written, which drops names inherited from `Object.prototype`
  (see "## Findings"). The two agree whenever no firmware has such a name
  (`Statistics.AsWrittenWithoutInheritedNames`).
- `Catalog.LoadFirmware` takes the store's rows in the order given. That the store follows
  the query's order is an assumption, stated as the requirement of `Catalog.LoadedNewestFirst`.
- Toasts keep their title, text and variant. Their rendering, timing and the difference
  between the two toast libraries are not modelled.
- `uploading`, `isSubmitting`, `processingUser` and `loading` are modelled at the end of
  each operation. The intermediate states while a service call is pending are visible only
  in the method bodies. Concurrent submissions and stale React closures are not modelled.
- `UploadForm.UploadFormView.Upload` takes the storage run as a parameter.
  `HandleSubmit` supplies the run from `UploadRules.StorageUpload`.
- `Dashboard.LatestVersions`: copying the list before sorting is implicit, because sequences are values.
- The JSX rendering, CSS classes, icons and theme are left out. The size badge of the
  file selector, the migration utilities and the burn simulator are outside this model.

## Findings

| source | as written | input that shows it | evidently intended | confidence | as-written member | corrected member |
|---|---|---|---|---|---|---|
| src/hooks/useStatisticsData.ts:26-28 | the group-by-name accumulator tests `!acc[baseName]` on a plain `{}`, so a name inherited from `Object.prototype` finds the inherited function, no own entry is created, and its burns never reach `Object.values` (the statistics page repeats this at src/pages/Statistics.tsx:23) | one firmware named "toString" with 5 burns: the name groups sum to 0 while the total is 5 | one group per distinct name, with the name groups summing to the total | not executed | Statistics.AsWrittenLosesInheritedName | Statistics.ChartNameGroups |
