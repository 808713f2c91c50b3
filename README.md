# EIPsInsight status chart and profile page, in Dafny

This project models two pieces of the EIPsInsight dashboard and proves
properties about them.

**The status column chart** (`src/components/StatusColumnChart.tsx`) takes
the final-status-by-year dataset: a list of year groups, each holding the
status changes recorded in that year. From it the chart derives:

- the lenient status and category buckets (`getStatus`, `getCat`);
- the year options of the two range selectors (`availableYears`);
- the dataset cut to one category (`filteredData`);
- the stacked-column series, one point per kept change (`transformedData`).

Its download button builds a CSV export. The export applies an inclusive,
optionally unbounded year range plus the category filter. It writes a fixed
header, one unescaped line per row with a link column, and a file name made
from the two bounds. All of this is written as pure functions in
`status_chart.dfy`. The string primitives it relies on are in
`strings.dfy`: `join`, a one-character `split` used to read the CSV back,
and integer `toString`.

**The profile page** (`src/pages/profile/index.tsx`) is a view-state
controller. Its state is:

- the user record;
- the one-slot browser cache under the key `user`;
- the busy flags `isLoading`, `isUpdating` and `isCancelling`;
- the form fields, plus the open and closed parts of the page.

It has six asynchronous handlers: load, refresh, name update, password
update, subscription cancellation and logout. There are also simple
controls that only change local state.

- `profile_page.dfy` models the page as a class `Page` whose fields are that
  state. Each handler is a method proved equal to a pure step function on a
  `View` snapshot, and the properties are proved as lemmas about the step
  functions.
- The field-precedence rules the handlers apply when they merge records are
  in `user_records.dfy`. They follow JavaScript's semantics:
  - `||` treats an absent field and an empty string alike;
  - object spread is map union, with the right operand winning;
  - spreading `null` or `""` gives `{}`.

Network replies are parameters of the handlers. A reply is either
`Replied(ok, body)` or `Failed`, where `Failed` means the request was
rejected or the body was not JSON. `signOut` succeeding or failing is a
boolean. The requests the page sends, and the notifications and redirects
it produces, are appended to two ghost logs (`sent` and `log`).

Three behaviours of the code are easy to misread; the model follows the code:

- Refresh never looks at `response.ok`. Any reply whose body parses, even an
  error status, takes the success path and rewrites the tier (lines
  153-166).
- Cancellation starts from the cached record, not from the page's record. An
  empty cache yields just `{tier: "Free"}`. A cache that does not parse makes
  the whole handler fail, even when the server cancelled (lines 340-353).
- A year selector set to the blank option holds `parseInt("")`, which is
  `NaN`. Every comparison with `NaN` is false, so the bound filters like an
  unset one. But `??` does not replace `NaN`, so the file name reads `NaN`
  rather than `start`/`end` (lines 186-188, 221).

## Model

| member | source | states |
|---|---|---|
| StatusChart.GetStatus | src/components/StatusColumnChart.tsx:29-53 | Total. The bucket is the status table's entry for a listed status and "Final" for any other string; it is always one of the seven buckets, and every bucket maps to itself |
| StatusChart.GetStatusIdempotent | src/components/StatusColumnChart.tsx:29-53 | Bucketing a bucket changes nothing |
| StatusChart.GetCat | src/components/StatusColumnChart.tsx:80-103 | Total. The bucket is the category table's entry for a listed category and "Core" for any other string; it is always one of the six buckets, every bucket maps to itself, and only "ERC" lands in "ERC" |
| StatusChart.GetCatIdempotent | src/components/StatusColumnChart.tsx:80-103 | Bucketing a category bucket changes nothing |
| StatusChart.Years | src/components/StatusColumnChart.tsx:129 | One year per group, in dataset order |
| StatusChart.Dedupe | src/components/StatusColumnChart.tsx:128-129 | `Array.from(new Set(...))` keeps exactly the values of the input, each once |
| StatusChart.Insert | src/components/StatusColumnChart.tsx:130 | Inserting adds exactly one occurrence of the value: same multiset plus the value, same members plus the value |
| StatusChart.SortAscending | src/components/StatusColumnChart.tsx:130 | The numeric sort is a permutation of its input |
| StatusChart.InsertStrict | src/components/StatusColumnChart.tsx:130 | Inserting a new value into a strictly ascending list keeps it strictly ascending |
| StatusChart.SortDistinctIsStrict | src/components/StatusColumnChart.tsx:128-130 | Sorting a duplicate-free list gives a strictly ascending list |
| StatusChart.AvailableYears | src/components/StatusColumnChart.tsx:128-130 | The year options are strictly ascending (so have no duplicates), and a year is an option exactly when some group has that year |
| StatusChart.StrictlyAscendingUnique | src/components/StatusColumnChart.tsx:128-130 | Two strictly ascending lists with the same members are equal |
| StatusChart.AvailableYearsUnique | src/components/StatusColumnChart.tsx:128-130 | Any strictly ascending list of exactly the dataset's years is the option list, so that property characterises it |
| StatusChart.KeepCategory | src/components/StatusColumnChart.tsx:138-140 | The kept changes are an order-preserving subsequence of the input, hold exactly the input's changes whose category bucket is the selected one, and each kept change occurs as often as in the input |
| StatusChart.KeepCategoryIdempotent | src/components/StatusColumnChart.tsx:138-140 | Filtering a second time changes nothing |
| StatusChart.FilteredData | src/components/StatusColumnChart.tsx:136-141 | Same number of groups and same year sequence as the dataset; each group's changes are exactly the category filter of the original group's changes, so an order-preserving subsequence holding every in-category change as often as the original |
| StatusChart.EntriesOf | src/components/StatusColumnChart.tsx:143-149 | One entry per change of a group, in order, tagged with the group's year |
| StatusChart.Flatten | src/components/StatusColumnChart.tsx:143-149 | The flattened dataset has one entry per change of every group |
| StatusChart.FlattenAt | src/components/StatusColumnChart.tsx:143-149 | Change j of group i sits at position Offset(i) + j of the flattened dataset, with its group's year |
| StatusChart.FlattenMembers | src/components/StatusColumnChart.tsx:143-149 | An entry is in the flattened dataset exactly when some group of that year holds that change |
| StatusChart.MapPoints | src/components/StatusColumnChart.tsx:144-148 | One point per entry, at the same position |
| StatusChart.Map | src/components/StatusColumnChart.tsx:144-148 | `s.map(f)` has one image per element, at the same position |
| StatusChart.MapAppend | src/components/StatusColumnChart.tsx:143-149 | Mapping a concatenation maps each part |
| StatusChart.PointsOfEntries | src/components/StatusColumnChart.tsx:144-148 | The points of one group are the points of its entries |
| StatusChart.PointsOf | src/components/StatusColumnChart.tsx:144-148 | One point per change of a group, each with value 1, a status bucket and the group's year |
| StatusChart.TransformedData | src/components/StatusColumnChart.tsx:143-149 | The series has one point per kept change (its length is the total of the group sizes), and every point has value 1, a status that is one of the seven buckets, and the year of some group |
| StatusChart.TransformedDataFlattens | src/components/StatusColumnChart.tsx:143-149 | The series is the point of every flattened change, in order |
| StatusChart.TransformedDataAt | src/components/StatusColumnChart.tsx:143-149 | The series has one point per kept change: its length is the total number of kept changes, and change j of group i is the point at Offset(i) + j, with the bucketed status, the group's year and value 1 |
| StatusChart.OutOfRange | src/components/StatusColumnChart.tsx:186-188 | A year passes the export's guard exactly when it is at least a numeric from-bound and at most a numeric to-bound; an unset or NaN bound admits every year |
| StatusChart.FilterAppend | src/components/StatusColumnChart.tsx:185-202 | Filtering a concatenation filters each part |
| StatusChart.SelectEntriesMembers | src/components/StatusColumnChart.tsx:185-202 | The selection is an order-preserving subsequence holding exactly the entries in the category and in range |
| StatusChart.SelectEntriesCount | src/components/StatusColumnChart.tsx:185-202 | Each selected entry occurs as often as in the input, every other entry not at all |
| StatusChart.SelectAppend | src/components/StatusColumnChart.tsx:185-202 | Selecting from a concatenation selects from each part |
| StatusChart.SelectGroup | src/components/StatusColumnChart.tsx:186-194 | Selecting one group's entries gives nothing when its year is out of range, and otherwise the entries of its category-filtered changes |
| StatusChart.ChartMatchesSelection | src/components/StatusColumnChart.tsx:136-149 | The chart series is the points of exactly the dataset's changes in the category, in dataset order |
| StatusChart.FlattenFiltered | src/components/StatusColumnChart.tsx:136-149 | Flattening the filtered dataset equals selecting the category from the flattened dataset |
| StatusChart.MapRows | src/components/StatusColumnChart.tsx:195-201 | One row per entry, at the same position, with the year rendered as decimal text |
| StatusChart.RowsOfEntries | src/components/StatusColumnChart.tsx:193-201 | The rows of one group are the rows of its entries |
| StatusChart.RowsOf | src/components/StatusColumnChart.tsx:193-201 | One row per kept change of a group, each carrying the group's year as decimal text |
| StatusChart.ExportRows | src/components/StatusColumnChart.tsx:185-202 | Every exported row carries the year of a group that passes the range guard |
| StatusChart.ExportMatchesSelection | src/components/StatusColumnChart.tsx:185-202 | The export rows are the rows of exactly the changes in the category and within the year range, in dataset order; so their count is the count of such changes |
| StatusChart.NaNBoundIsUnbounded | src/components/StatusColumnChart.tsx:186-188 | A NaN bound exports exactly what an unset bound exports, on either side |
| StatusChart.ExportAgreesWithChart | src/components/StatusColumnChart.tsx:143-149 | With no range selected, the export has as many rows as the chart has points, and row k's status bucket is point k's status |
| StatusChart.Link | src/components/StatusColumnChart.tsx:210-215 | The link is always a page of the site (it starts with `https://eipsinsight.com/`) and ends with the row's number |
| StatusChart.LinkFollowsCategory | src/components/StatusColumnChart.tsx:210-215 | Every exported row links to the ERC page exactly when the selected category is "ERC", otherwise to the EIP or RIP page by the chart type, followed by the row's number |
| StatusChart.Lines | src/components/StatusColumnChart.tsx:208-215 | One CSV line per row, in order |
| StatusChart.RowLine | src/components/StatusColumnChart.tsx:209-215 | A row line is the row's six fields (number, status, title, category, year, link) joined by commas |
| StatusChart.LinkPlain | src/components/StatusColumnChart.tsx:210-215 | The link holds no comma and no newline when the row's number holds none |
| StatusChart.RowLineSplits | src/components/StatusColumnChart.tsx:210-215 | When no field holds a comma or newline, a row line holds no newline and splits back into its six fields |
| StatusChart.CsvHeaderSplit | src/components/StatusColumnChart.tsx:204 | The fixed header is the first line of the CSV text, whatever follows it |
| StatusChart.CsvRoundTrip | src/components/StatusColumnChart.tsx:204-216 | When no field holds a comma or newline, reading the CSV text back gives the header line and then one line per row (one empty line when there are no rows), and each line splits into its row's six fields |
| StatusChart.CsvBody | src/components/StatusColumnChart.tsx:204-216 | The CSV text always starts with the fixed header |
| StatusChart.CsvContent | src/components/StatusColumnChart.tsx:205-216 | The link target starts with the CSV data prefix, and when no field holds a comma or newline, the text after it reads back as the header line and then one line per row (one empty line when there are no rows) |
| StatusChart.DownloadContent | src/components/StatusColumnChart.tsx:182-216 | The download is the CSV of exactly the dataset's changes in the selected category and year range, in dataset order |
| StatusChart.BoundText | src/components/StatusColumnChart.tsx:221 | A bound's text in the file name is never empty, and a non-negative year's text is all digits and reads back as that year |
| StatusChart.FileName | src/components/StatusColumnChart.tsx:221 | The file name always starts with `StatusChart_` and ends with `.csv` |
| StatusChart.BoundTextShape | src/components/StatusColumnChart.tsx:221 | For a bound that is not a negative year, the bound's text in the file name is never empty, holds no dash, and starts with a digit exactly when the bound is a year |
| StatusChart.BoundTextInjective | src/components/StatusColumnChart.tsx:221 | Different bounds give different texts, negative years included |
| StatusChart.DashJoinInjective | src/components/StatusColumnChart.tsx:221 | Two texts joined by a dash come apart again when the first holds no dash |
| StatusChart.FileNameInjective | src/components/StatusColumnChart.tsx:221 | For non-negative years, the file name determines both bounds: it tells unset, NaN and each year apart |
| Strings.Join | src/components/StatusColumnChart.tsx:216 | Joining no lines gives "", one line gives itself, and every character of the result other than the separator comes from one of the lines |
| Strings.Split | src/components/StatusColumnChart.tsx:204-216 | Splitting gives at least one piece, and no piece holds the separator |
| Strings.SplitJoin | src/components/StatusColumnChart.tsx:216 | Splitting undoes joining when no piece holds the separator |
| Strings.NatToDecimal | src/components/StatusColumnChart.tsx:200 | A non-negative integer's numeral is non-empty, all digits, with no leading zero |
| Strings.IntToDecimal | src/components/StatusColumnChart.tsx:200 | The numeral starts with a minus sign exactly when the number is negative; the rest is all digits with no leading zero, and reading it back gives the number's magnitude |
| Strings.DecimalRoundTrip | src/components/StatusColumnChart.tsx:200 | Reading a numeral back gives the number |
| Strings.IntToDecimalInjective | src/components/StatusColumnChart.tsx:200 | Two integers with the same numeral are equal |
| UserRecords.Get | src/pages/profile/index.tsx:136-137 | `r.k \|\| ''` is non-empty exactly when the field is present and truthy, and is then the field's value |
| UserRecords.Or | src/pages/profile/index.tsx:132 | `a \|\| b` is `a` when it is non-empty and `b` otherwise; it is empty only when both are |
| UserRecords.MergeOnLoad | src/pages/profile/index.tsx:129-133 | The merged record always has a truthy tier |
| UserRecords.MergeOnLoadFields | src/pages/profile/index.tsx:129-133 | The merged record has the keys of both records plus the tier. Every server field except the tier wins, and cached fields the server lacks are kept. The tier is the server's if non-empty, else the cached one if non-empty, else "Free", so it is always present |
| UserRecords.RefreshTier | src/pages/profile/index.tsx:160-163 | The refreshed record always has a non-empty tier |
| UserRecords.RefreshTierFields | src/pages/profile/index.tsx:160-163 | A refresh keeps every field except the tier, which is the fetched one if non-empty, else the old one if non-empty, else "Free" |
| UserRecords.NameUpdated | src/pages/profile/index.tsx:208-212 | The updated record has a name and an email |
| UserRecords.NameUpdatedFields | src/pages/profile/index.tsx:208-212 | The name is the returned name if non-empty, else the typed name. The email is the returned email if non-empty, else the old email, else "". Every other field is kept |
| UserRecords.Cancelled | src/pages/profile/index.tsx:347-350 | The cancelled record's tier is "Free" |
| UserRecords.CancelledFields | src/pages/profile/index.tsx:347-350 | Cancelling keeps every field of the base record except the tier |
| UserRecords.RefreshIsLoadMerge | src/pages/profile/index.tsx:129-133 | A refresh is the load merge applied to the reply's tier alone: both follow one tier precedence |
| UserRecords.MergeOnLoadIdempotent | src/pages/profile/index.tsx:129-133 | Merging the same server reply twice changes nothing |
| UserRecords.RefreshTierIdempotent | src/pages/profile/index.tsx:160-163 | Refreshing with the same reply twice changes nothing |
| UserRecords.CancelledForgetsTier | src/pages/profile/index.tsx:347-350 | A cancelled record's tier does not depend on the tier it had before |
| ProfilePage.Initial | src/pages/profile/index.tsx:48-65 | The page starts loading, with no record, with the cache as the browser holds it, nothing sent, no other action busy, and the edit mode, the password form and the dialog closed |
| ProfilePage.AfterLoad | src/pages/profile/index.tsx:100-151 | Load always ends with `isLoading` cleared and the other flags untouched, and with page and cache holding the same record whenever the cache holds one |
| ProfilePage.AfterRefresh | src/pages/profile/index.tsx:153-185 | Refresh always ends with `isLoading` cleared, and never touches the form |
| ProfilePage.AfterNameUpdate | src/pages/profile/index.tsx:187-237 | Name update always ends with `isUpdating` cleared, and changes at most the edit mode of the form |
| ProfilePage.AfterPasswordUpdate | src/pages/profile/index.tsx:239-293 | Password update clears `isUpdating` when it sends a request and leaves the flags alone when validation refuses; it never touches the record or the cache |
| ProfilePage.AfterCancel | src/pages/profile/index.tsx:332-376 | Cancellation always ends with `isCancelling` cleared, and never touches the form |
| ProfilePage.AfterLogout | src/pages/profile/index.tsx:295-328 | Logout always leaves the cache empty, the busy flags and the shown record as they were |
| ProfilePage.LoadOutcome | src/pages/profile/index.tsx:100-151 | Load always clears `isLoading`, and sends a verify request with the cached email exactly when a record is cached. On an ok reply, page and cache hold the merged record and the form shows its name and email. Otherwise the record is untouched, the cache is cleared, and the page goes to sign-in |
| ProfilePage.LoadKeepsInvariants | src/pages/profile/index.tsx:129-139 | After a load, page and cache hold the same record, and a shown record has a tier |
| ProfilePage.RefreshOutcome | src/pages/profile/index.tsx:153-185 | Refresh sends one status request, clears `isLoading` and leaves the form alone. A parsed reply changes the record only through the tier rule and writes it to the cache. A failure changes no data and ends in an error |
| ProfilePage.RefreshKeepsInvariants | src/pages/profile/index.tsx:160-166 | Refresh keeps page and cache in agreement and keeps the tier present |
| ProfilePage.NameUpdateOutcome | src/pages/profile/index.tsx:187-237 | Name update sends the record's id and the typed name and clears `isUpdating`. An ok reply stores the updated record in page and cache and leaves edit mode. Anything else changes no data and ends in an error |
| ProfilePage.NameUpdateKeepsInvariants | src/pages/profile/index.tsx:208-216 | Name update keeps page and cache in agreement, and keeps the tier present on a page that shows a record |
| ProfilePage.PasswordRefusedLocally | src/pages/profile/index.tsx:240-258 | An empty or unconfirmed password sends no request, leaves the busy flags, record, cache and form as they were, and ends in an error |
| ProfilePage.PasswordSent | src/pages/profile/index.tsx:260-292 | A valid password is sent in exactly one request and `isUpdating` ends false. Only an ok reply closes and clears the form; otherwise the form stays open with its contents. The record and cache never change |
| ProfilePage.PasswordUpdateKeepsInvariants | src/pages/profile/index.tsx:239-293 | Password update keeps page and cache in agreement and keeps the tier present |
| ProfilePage.CancelOutcome | src/pages/profile/index.tsx:332-376 | Cancellation sends one request, clears `isCancelling` and leaves the form alone. An ok reply with a readable cache stores the cached record with tier "Free" in page and cache. Anything else changes no data and ends in an error |
| ProfilePage.CancelKeepsInvariants | src/pages/profile/index.tsx:345-353 | Cancellation keeps page and cache in agreement and keeps the tier present |
| ProfilePage.CancelKeepsSyncedRecord | src/pages/profile/index.tsx:340-352 | When page and cache agree, a successful cancellation changes only the tier of the page's own record |
| ProfilePage.CancelAlwaysFree | src/pages/profile/index.tsx:345-353 | After a successful cancellation the cache holds a record with tier "Free", and the page shows that same record, whatever the tier was |
| ProfilePage.LogoutOutcome | src/pages/profile/index.tsx:295-328 | Logout clears the cache whether or not sign-out succeeds, and sends one sign-out. The dialog closes, and the sign-in page is scheduled, exactly when sign-out succeeds |
| ProfilePage.LogoutKeepsInvariants | src/pages/profile/index.tsx:295-328 | After logout, page and cache trivially agree, and the tier stays present |
| ProfilePage.PremiumThenCancelled | src/pages/profile/index.tsx:129-353 | A cached Free record that the server reports as Premium loads as Premium; cancelling afterwards leaves the original record, with tier Free, in page and cache, after exactly a verify and a cancel request |
| ProfilePage.Page.constructor | src/pages/profile/index.tsx:48-65 | The page starts loading, with no record, an empty form, the dialog closed and nothing sent |
| ProfilePage.Page.LoadUserData | src/pages/profile/index.tsx:100-151 | The new page state is the load step of the old one |
| ProfilePage.Page.HandleRefresh | src/pages/profile/index.tsx:153-185 | The new page state is the refresh step of the old one |
| ProfilePage.Page.HandleNameUpdate | src/pages/profile/index.tsx:187-237 | The new page state is the name-update step of the old one |
| ProfilePage.Page.HandlePasswordUpdate | src/pages/profile/index.tsx:239-293 | The new page state is the password-update step of the old one |
| ProfilePage.Page.HandleCancel | src/pages/profile/index.tsx:332-376 | The new page state is the cancellation step of the old one |
| ProfilePage.Page.HandleLogout | src/pages/profile/index.tsx:295-328 | The new page state is the logout step of the old one |
| ProfilePage.Page.GoHome | src/pages/profile/index.tsx:400 | The back button navigates home and changes nothing else |
| ProfilePage.Page.TypeName | src/pages/profile/index.tsx:455 | Typing sets the name field only |
| ProfilePage.Page.StartEditingName | src/pages/profile/index.tsx:499 | The edit button enters edit mode only |
| ProfilePage.Page.CancelNameEdit | src/pages/profile/index.tsx:474-477 | Cancelling the edit leaves edit mode and restores the shown record's name |
| ProfilePage.Page.TogglePasswordForm | src/pages/profile/index.tsx:549 | Flips whether the password form is shown, nothing else |
| ProfilePage.Page.TogglePasswordVisibility | src/pages/profile/index.tsx:572 | Flips whether the password is shown in clear, nothing else |
| ProfilePage.Page.TypeNewPassword | src/pages/profile/index.tsx:561 | Typing sets the new-password field only |
| ProfilePage.Page.TypeConfirmPassword | src/pages/profile/index.tsx:580 | Typing sets the confirmation field only |
| ProfilePage.Page.ClosePasswordForm | src/pages/profile/index.tsx:599-603 | Cancelling the password form closes it and clears both password fields |
| ProfilePage.Page.OpenLogoutDialog | src/pages/profile/index.tsx:411 | The logout button opens the confirmation dialog only |
| ProfilePage.Page.CloseLogoutDialog | src/pages/profile/index.tsx:641-650 | Dismissing the dialog closes it only |

## Left out

- The DOM part of the download is not modelled: `encodeURI`, and creating and clicking the anchor. The model stops at the CSV text (`DownloadContent`) and the file name.
- The fire-and-forget download-counter post is not modelled. It is I/O with no effect on the export.
- Fetching the dataset, and choosing `eip` from the response, are not modelled. The dataset is an input.
- The chart configuration and its rendering are not modelled: colours, labels, the `dynamic` import, the window size and the chart height's floating-point arithmetic. This is presentation only.
- `src/pages/api/new/graphsv3/index.tsx` and `src/components/InsitghtAllstats.tsx` are not part of this model. They hold database plumbing and layout.
- Every year group is modelled with a `statusChanges` list. A group without that field is not modelled. In the chart it would become one `undefined` element of the series, because `filteredData` and `transformedData` go through `?.filter` and `?.map` (lines 138, 144). In the export, `statusChanges.filter` (line 193) would throw, the button's `catch` (lines 275-277) would swallow the error, and no file would be downloaded.
- StatusChart.CsvRoundTrip: the export writes fields without quoting or escaping. So reading it back is proved only for fields that hold no comma and no newline, and a title with a comma shifts the columns of its line.
- StatusChart.FileNameInjective: stated only for non-negative years. The file name is unambiguous for negative years too, but the proof splits the name at its first dash, and a negative from-year's minus sign would be that dash.
- JSON parsing and serialisation are not modelled. A record is a map from field names to strings, and `Replied(ok, body)` always carries a record. Cached values and reply bodies that parse to something other than an object (a number, `null`, an array) are not modelled, nor are non-string field values.
- ProfilePage.CancelOutcome: one such case changes the outcome. An ok cancellation reply whose body is `null` first stores the cached record with tier "Free" in page and cache (lines 347-353), then throws at `result.endDate` (line 358) and ends in "Cancellation failed" with the data already changed. The model cannot express that body, so it promises only the ok path with an object body.
- `Failed` covers both a rejected request and a body that is not JSON. The model does not tell them apart, because every handler treats them alike.
- ProfilePage.Page.CancelNameEdit: `setName(userData.name)` can store `undefined` when the record has no name. The model reads an absent name as "".
- Notifications are modelled by their success flag and title only. Descriptions, durations and the locale-dependent date of the cancellation message are left out.
- Logout's half-second delay before going to sign-in is modelled as a deferred navigation effect; the timer is not modelled.
- Console logging is not modelled.
- Strings.NatToDecimal and Strings.IntToDecimal model `toString` on integers of the size of a year. JavaScript numbers switch to exponent notation from 1e21 and lose integer precision beyond 2^53; neither is modelled.
- Asynchronous interleaving is not modelled. Each handler runs as one atomic transition, so two handlers in flight at once, or a handler racing a re-render, are outside the model. The busy flags are therefore seen set and cleared within one step.
- Rendering is not modelled. The page shows only a spinner while loading or while no record is shown (line 378), so the form controls cannot fire then. NameUpdateKeepsInvariants assumes a shown record for that reason.
