# Job tracker frontend — a Dafny model

This project models the client-side record pipeline of a job-application tracker. The tracker is a Next.js/React frontend over a Rails JSON API. The model covers four pieces:

- **The query engine of `ApplicationsContainer`** (`container.dfy`). It takes the record list and:
  - sorts it newest first, stably, by `applied_on`;
  - narrows it by the starred, status and date filters;
  - cuts it into pages;
  - describes the shown page with an "x-y of n" label.

  This file also models the component's own state (page, page size, status and date filters) as a class, together with `goToPage`, the page-reset effect, `handleResetFilters` and the sorted list of distinct statuses.
- **The session state of the `Home` page** (`home.dfy`). This is the cached list, the form and the delete dialog, as a class whose handlers take each API call's outcome as a parameter.
- **The form** (`form.dfy`): what the zod schema accepts, the default values, and the submit pass-through.
- **The table's display rules** (`table.dfy`): the status badge class, the empty-state message, and the star button's request.

Other files:

- `records.dfy` holds the record and form-data types.
- `sorting.dfy` holds a generic stable insertion sort and a filter, `Keep`:
  - both are specified on sequences;
  - the sort has an in-place array version proved equal to the specification;
  - lemmas cover sortedness, permutation, stability, and commuting a filter with the sort.
- `strings.dfy` holds:
  - the default string order of `Array.prototype.sort`;
  - ASCII `toLowerCase`;
  - `split("T")[0]`.

The comparator `new Date(b.applied_on).getTime() - new Date(a.applied_on).getTime()` is modelled over an abstract parameter `time: string -> int`, which stands for the date parse. The clock reading in the new-form defaults is the parameter `nowIso`.

Three behaviours of the code that the model keeps as written:

- **Star toggle.** It updates the local list only after the write succeeds. There is no optimistic update with rollback.
- **`goToPage` with no pages.** It yields page 0, not 1.
- **Required fields.** They are required to have at least one character. They are not trimmed, so a blank-looking name is accepted.

## Model

| member | source | states |
|---|---|---|
| Records.EditableOmitsStoreFields | frontend/src/types/index.ts:1-15 | Form data is the record without `id`, `created_at` and `updated_at`: two records have the same form data exactly when they differ at most in those three fields |
| Sorting.Keep | frontend/src/components/JobApplications/ApplicationsContainer.tsx:93 | `Array.prototype.filter` never lengthens a list |
| Sorting.KeepMembers | frontend/src/components/JobApplications/ApplicationsContainer.tsx:93 | The filtered list holds exactly the elements of the input that satisfy the predicate |
| Sorting.KeepCounts | frontend/src/components/JobApplications/ApplicationsContainer.tsx:93 | Each satisfying element occurs as often as in the input; every other element occurs zero times |
| Sorting.KeepKeep | frontend/src/components/JobApplications/ApplicationsContainer.tsx:91-109 | Two successive filters equal one filter by the conjunction of their predicates |
| Sorting.KeepAll | frontend/src/components/JobApplications/ApplicationsContainer.tsx:91-109 | A filter that every element passes returns the list unchanged |
| Sorting.KeepSorted | frontend/src/components/JobApplications/ApplicationsContainer.tsx:91-109 | Filtering a sorted list leaves it sorted |
| Sorting.Insert | frontend/src/components/JobApplications/ApplicationsContainer.tsx:85-89 | One insertion step of the sort adds exactly one element |
| Sorting.InsertPermutes | frontend/src/components/JobApplications/ApplicationsContainer.tsx:85-89 | An insertion step adds the new element to the multiset and changes nothing else |
| Sorting.InsertAt | frontend/src/components/JobApplications/ApplicationsContainer.tsx:85-89 | When `x` may follow `t[j-1]` and may precede none of `t[j..]`, the insertion step puts it at position `j` and shifts the rest right by one |
| Sorting.InsertKeepsSorted | frontend/src/components/JobApplications/ApplicationsContainer.tsx:85-89 | Inserting into a sorted list under a total preorder keeps it sorted |
| Sorting.StableSort | frontend/src/components/JobApplications/ApplicationsContainer.tsx:85-89 | The sort keeps the length |
| Sorting.StableSortPermutes | frontend/src/components/JobApplications/ApplicationsContainer.tsx:85-89 | The sorted list is a permutation of the input |
| Sorting.StableSortIsSorted | frontend/src/components/JobApplications/ApplicationsContainer.tsx:85-89 | Under a total preorder, the sorted list is sorted |
| Sorting.KeepInsert | frontend/src/components/JobApplications/ApplicationsContainer.tsx:85-109 | On a sorted list, filtering after an insertion step is the same as inserting into the filtered list, or not inserting when the element fails the filter |
| Sorting.KeepStableSort | frontend/src/components/JobApplications/ApplicationsContainer.tsx:85-109 | Filtering the sorted list gives the same list as sorting the filtered list |
| Sorting.StableSortOfTies | frontend/src/components/JobApplications/ApplicationsContainer.tsx:85-89 | A list whose elements are all tied is left in its order |
| Sorting.StableSortKeepsTies | frontend/src/components/JobApplications/ApplicationsContainer.tsx:85-89 | Stability: the elements tied with any given value appear in the sorted list in their input order |
| Sorting.DistinctOccursOnce | frontend/src/components/JobApplications/ApplicationsContainer.tsx:66-70 | In a list without duplicates every element occurs at most once |
| Sorting.DistinctPermutation | frontend/src/components/JobApplications/ApplicationsContainer.tsx:70 | A permutation of a list without duplicates has no duplicates |
| Sorting.InsertInPlace | frontend/src/components/JobApplications/ApplicationsContainer.tsx:85-89 | Shifting `a[i]` left into the sorted prefix yields the insertion step on that prefix and leaves the suffix alone |
| Sorting.SortInPlace | frontend/src/components/JobApplications/ApplicationsContainer.tsx:85-89 | The in-place `result.sort` leaves the array equal to the stable sort of its old contents |
| Strings.LexLe | frontend/src/components/JobApplications/ApplicationsContainer.tsx:70 | The order a bare `.sort()` uses on strings: character by character, the first difference decides, and a prefix comes first |
| Strings.LexLeTotal | frontend/src/components/JobApplications/ApplicationsContainer.tsx:70 | Any two strings are comparable in the default sort order |
| Strings.LexLeTransitive | frontend/src/components/JobApplications/ApplicationsContainer.tsx:70 | The default sort order is transitive |
| Strings.LexLeIsTotalPreorder | frontend/src/components/JobApplications/ApplicationsContainer.tsx:70 | The default sort order is a valid comparator for a stable sort |
| Strings.ToLower | frontend/src/components/JobApplications/JobApplicationsTable.tsx:33 | `toLowerCase` keeps the length and lower-cases each character on its own |
| Strings.ToLowerIdempotent | frontend/src/components/JobApplications/JobApplicationsTable.tsx:33 | Lower-casing twice is lower-casing once |
| Strings.ToLowerIgnoresCase | frontend/src/components/JobApplications/JobApplicationsTable.tsx:33 | Strings equal up to case have the same lower-case form |
| Strings.DatePart | frontend/src/components/JobApplications/ApplicationsContainer.tsx:106 | `split("T")[0]` is the prefix before the first `T`: it contains no `T` and is followed by one, or is the whole string |
| Strings.DatePartOfTimestamp | frontend/src/components/JobApplications/ApplicationsContainer.tsx:106 | The date part of `date + "T" + time` is `date`, and a string without `T` is its own date part |
| Container.NewestFirst | frontend/src/components/JobApplications/ApplicationsContainer.tsx:85-89 | The comparator: `a` may stay before `b` when its `applied_on` time is not older. It is a total preorder, so a valid comparator for a stable sort |
| Container.Matches | frontend/src/components/JobApplications/ApplicationsContainer.tsx:91-109 | A record passes the conjunction of the active filters: starred when on, equal status when the status filter is truthy and not "all", equal date part when the date filter is truthy. With no filter active every record passes |
| Container.Derived | frontend/src/components/JobApplications/ApplicationsContainer.tsx:81-112 | `filteredApplications`: the matching records of the stable newest-first sort; never longer than the input |
| Container.FilteredApplications | frontend/src/components/JobApplications/ApplicationsContainer.tsx:81-112 | Copying, sorting in place and then applying the active filters one after another gives the derived list: the matching records, stably sorted newest first |
| Container.DerivedIsSortedSelection | frontend/src/components/JobApplications/ApplicationsContainer.tsx:81-112 | The derived list is the stable sort of the matching records |
| Container.DerivedIsNewestFirst | frontend/src/components/JobApplications/ApplicationsContainer.tsx:84-89 | `applied_on` times never increase along the derived list |
| Container.DerivedContents | frontend/src/components/JobApplications/ApplicationsContainer.tsx:91-109 | The derived list holds exactly the input records that pass every active filter, each as often as in the input. Starred applies only when on; status only when truthy and not "all"; date only when truthy |
| Container.DerivedKeepsOrderOfTies | frontend/src/components/JobApplications/ApplicationsContainer.tsx:84-89 | Matching records with the same `applied_on` time keep their input order |
| Container.UnfilteredIsPermutation | frontend/src/components/JobApplications/ApplicationsContainer.tsx:82-111 | With no filter active the derived list is a permutation of the input |
| Container.DateFilterIgnoresTime | frontend/src/components/JobApplications/ApplicationsContainer.tsx:102-108 | A record dated `date` plus a time of day passes a date filter set to `date` |
| Container.TotalPages | frontend/src/components/JobApplications/ApplicationsContainer.tsx:115 | `Math.ceil(n / size)`: the least page count whose pages hold `n` records, and 0 exactly when `n` is 0 |
| Container.SliceIndex | frontend/src/components/JobApplications/ApplicationsContainer.tsx:118 | `slice` counts a negative argument from the end and clamps every argument into `[0, n]` |
| Container.Slice | frontend/src/components/JobApplications/ApplicationsContainer.tsx:118 | `slice(start, end)`: never longer than the list; with `0 <= start <= end` it is the elements from `min(start, n)` up to `min(end, n)`; with `0 <= end <= start` it is empty |
| Container.PageOf | frontend/src/components/JobApplications/ApplicationsContainer.tsx:116-119 | `paginatedApplications`: at most `size` records; for page `p >= 1` the records from `min((p-1)*size, n)` up to `min(p*size, n)` |
| Container.PageIsSlice | frontend/src/components/JobApplications/ApplicationsContainer.tsx:116-119 | Page `p` in range is the slice `[(p-1)*size, min(p*size, n))`, non-empty and at most `size` long |
| Container.PageOutsideRangeIsEmpty | frontend/src/components/JobApplications/ApplicationsContainer.tsx:116-119 | Page 0 and pages past the last are empty |
| Container.PagesUpToIsPrefix | frontend/src/components/JobApplications/ApplicationsContainer.tsx:115-119 | Pages 1 to `k`, concatenated, are the first `min(k*size, n)` records |
| Container.PagesCoverList | frontend/src/components/JobApplications/ApplicationsContainer.tsx:115-119 | Pages 1 to `totalPages`, concatenated, give back the derived list |
| Container.ThirdOfThreePages | frontend/src/components/JobApplications/ApplicationsContainer.tsx:115-119 | 23 records at 10 a page make three pages, the last holding records 21 to 23 |
| Container.RangeLabelOf | frontend/src/components/JobApplications/ApplicationsContainer.tsx:286-291 | The footer label: "0 of 0" exactly when the list is empty; otherwise first = `(p-1)*size+1`, last = `min(p*size, n)` and total = `n` |
| Container.RangeLabelDescribesPage | frontend/src/components/JobApplications/ApplicationsContainer.tsx:286-291 | For a page in range, the label has `1 <= first <= last <= n` and names exactly the positions that page shows |
| Container.ClampPage | frontend/src/components/JobApplications/ApplicationsContainer.tsx:122-126 | With at least one page the result is in `[1, totalPages]`. A page in range is unchanged. Below 1 gives 1 and past the end gives the last page. With no pages the result is 0 |
| Container.AvailableStatuses | frontend/src/components/JobApplications/ApplicationsContainer.tsx:65-71 | The status list is strictly increasing, so sorted without duplicates. It holds exactly the non-empty statuses that occur in the input |
| Container.ContainerState.constructor | frontend/src/components/JobApplications/ApplicationsContainer.tsx:57-62 | Page 1, 10 rows per page, no status or date filter |
| Container.ContainerState.SelectStatus | frontend/src/components/JobApplications/ApplicationsContainer.tsx:190-193 | "all" clears the status filter and any other value sets it. The page goes back to 1 exactly when the filter changed. Everything else stays |
| Container.ContainerState.InputDate | frontend/src/components/JobApplications/ApplicationsContainer.tsx:218 | An empty input clears the date filter and any other value sets it. The page goes back to 1 exactly when the filter changed |
| Container.ContainerState.SelectPageSize | frontend/src/components/JobApplications/ApplicationsContainer.tsx:267-269 | The page size becomes the chosen option. The page goes back to 1 exactly when the size changed |
| Container.ContainerState.ReceiveShowOnlyStarred | frontend/src/components/JobApplications/ApplicationsContainer.tsx:129-131 | A new starred prop goes back to page 1 and leaves the filters alone |
| Container.ContainerState.ResetFilters | frontend/src/components/JobApplications/ApplicationsContainer.tsx:74-78 | Clears the status and date filters and requests starred = false. The page goes back to 1 when a filter was set |
| Container.ContainerState.GoToPage | frontend/src/components/JobApplications/ApplicationsContainer.tsx:122-126 | The new page is the clamp against the derived list's page count: in range it is kept, below 1 it becomes 1, past the end it becomes the last page, and with no pages it is 0. Filters and page size are unchanged |
| Container.ContainerState.PaginatedApplications | frontend/src/components/JobApplications/ApplicationsContainer.tsx:116-119 | The rows handed to the table are the current page of the derived list |
| Table.StatusColor | frontend/src/components/JobApplications/JobApplicationsTable.tsx:32-51 | `getStatusColor`: each of applied, phone screening, interview, technical assessment, offer and rejected gets its own class exactly when the lower-cased status is that name. Gray is returned exactly for every other status, "withdrawn" included |
| Table.StatusColorIgnoresCase | frontend/src/components/JobApplications/JobApplicationsTable.tsx:32-33 | Any casing of a status gets the same badge class |
| Table.UnknownStatusIsGray | frontend/src/components/JobApplications/JobApplicationsTable.tsx:48-49 | A status the `switch` does not name, in any casing, gets the gray fallback |
| Table.WithdrawnIsGray | frontend/src/components/JobApplications/JobApplicationsTable.tsx:46-47 | "withdrawn", in any casing, also gets the gray class |
| Table.Body | frontend/src/components/JobApplications/JobApplicationsTable.tsx:83-125 | Rows are shown exactly when the page is non-empty, and they are the page's records in order |
| Table.EmptyStateMessage | frontend/src/components/JobApplications/JobApplicationsTable.tsx:61-119 | An empty page shows exactly one of three messages: "No starred…" when there are records and the starred filter is on, "No matching…" when there are records and it is off, "No job applications yet" when there are none |
| Table.StarToggleRequest | frontend/src/components/JobApplications/JobApplicationsTable.tsx:157-158 | The star button sends the row's id and the negation of its flag |
| Form.Validate | frontend/src/components/JobApplications/JobApplicationForm.tsx:43-49 | Accepted exactly when company name and position title each have at least one character, with the data unchanged. A rejection carries "Company name is required" exactly when the name is empty, and "Position title is required" exactly when the title is empty, and nothing else |
| Form.Submit | frontend/src/components/JobApplications/JobApplicationForm.tsx:70-72 | `onSubmit` receives the values unchanged exactly when they validate |
| Form.ValidityIgnoresOtherFields | frontend/src/components/JobApplications/JobApplicationForm.tsx:46-48 | Status, date and starred flag never decide validity |
| Form.WhitespaceIsAccepted | frontend/src/components/JobApplications/JobApplicationForm.tsx:44-45 | There is no trimming: a single space passes as a name and as a title |
| Form.StatusIsNotRestricted | frontend/src/components/JobApplications/JobApplicationForm.tsx:32-46 | A status outside the select's options is accepted |
| Form.DefaultValues | frontend/src/components/JobApplications/JobApplicationForm.tsx:59-67 | `defaultValues`: an edit form takes the record's editable fields. A new form has empty company and position, status "Applied", not starred, and as date the part of the timestamp before its first `T` |
| Form.NewFormDefaults | frontend/src/components/JobApplications/JobApplicationForm.tsx:61-67 | A new form is blank, "Applied", not starred and dated with today's date part. It is rejected with both messages |
| Form.EditFormDefaults | frontend/src/components/JobApplications/JobApplicationForm.tsx:59-60 | An edit form starts from the record's editable fields and submits them unchanged when they validate |
| Home.SetStarred | frontend/src/app/page.tsx:118-120 | The length is kept; every record with the id gets the requested flag; all other records are unchanged |
| Home.StarButtonFlipsOneRow | frontend/src/app/page.tsx:115-125 | With unique ids, a row's star button flips that row alone, and pressing it again restores the list |
| Home.HomePage.constructor | frontend/src/app/page.tsx:22-36 | Empty list, nothing loading, no filter, form and dialog closed, nothing selected |
| Home.HomePage.FetchApplications | frontend/src/app/page.tsx:44-55 | Success replaces the list wholesale and failure keeps it. Loading is off afterwards. Nothing else changes |
| Home.HomePage.HandleCreateApplication | frontend/src/app/page.tsx:58-74 | The submitted data is the request body. Success puts the returned record in front of the old list and closes the form. Failure changes nothing but the loading flag, which is off afterwards |
| Home.HomePage.HandleUpdateApplication | frontend/src/app/page.tsx:77-93 | A no-op without a current record. Otherwise it sends that record's id with the submitted data. On success it takes the refetched list, closes the form and clears the current record |
| Home.HomePage.HandleDeleteApplication | frontend/src/app/page.tsx:96-112 | A no-op without a pending id (id 0 counts as pending). Otherwise it deletes that id. On success it takes the refetched list, closes the dialog and clears the id |
| Home.HomePage.HandleToggleStar | frontend/src/app/page.tsx:115-125 | The list changes, by `SetStarred`, only when the write succeeded; nothing else changes |
| Home.HomePage.HandleAddNew | frontend/src/app/page.tsx:128-131 | Clears the current record and opens the form |
| Home.HomePage.HandleEdit | frontend/src/app/page.tsx:134-137 | Selects the record and opens the form |
| Home.HomePage.HandleOpenDeleteDialog | frontend/src/app/page.tsx:140-143 | Records the id and opens the dialog, changing nothing else |
| Home.HomePage.HandleFormSubmit | frontend/src/app/page.tsx:146-152 | Dispatches to update exactly when a record is being edited, otherwise to create, sending the submitted data, with that handler's effect |
| Home.HomePage.HandleFilterChange | frontend/src/app/page.tsx:155-157 | Sets the starred filter and nothing else |
| Home.HomePage.CancelForm | frontend/src/app/page.tsx:178-181 | Closes the form and clears the current record |
| Home.HomePage.CloseDeleteDialog | frontend/src/app/page.tsx:187 | Closes the dialog; the pending id stays |

## Left out

- Date parsing:
  - `new Date(...).getTime()` depends on the timezone and can yield NaN. It is the abstract integer key `time`, which is total, so the NaN comparator case is not modelled.
  - `toLocaleDateString` in the table is not modelled.
- Case mapping: `toLowerCase` is modelled for ASCII letters only. Non-ASCII case mapping is not modelled.
- String order: the default sort compares UTF-16 code units, while the model compares Dafny characters. The two differ only for characters outside the Basic Multilingual Plane.
- Clock: the clock in the new-form defaults is the parameter `nowIso`.
- API and backend: the HTTP client (`frontend/src/lib/api.ts`) and the Rails backend are not part of this model. Every call is an `Outcome` parameter, and what the server stores or returns is unconstrained.
- Async interleaving:
  - `fetchApplications()` is not awaited after an update or delete, so its loading flag can interleave with the caller's `finally`. The model runs the refetch to completion, atomically, inside the handler.
  - Handlers reading a stale `applications` closure are not modelled.
- Null fields: the database columns are nullable, but the model follows the TypeScript record type, whose fields are never null. The exceptions a null `applied_on` (in `split`) or a null `status` (in `toLowerCase`) would raise are not modelled.
- Toasts and `console.error` calls are not modelled.
- React machinery: hooks, memoisation and the render cycle are not modelled. The reset-to-page-1 effect is folded into each state method that changes one of its dependencies.
- Widgets not modelled:
  - the filter badge count;
  - the "matching filters" caption;
  - the previous/next buttons' `disabled` conditions.
- Presentation components: the navbar, footer, form modal and delete dialog are presentation only.
- Container.ContainerState.SelectPageSize: takes the page size as one of the four options, as the select offers no other; other numbers are not modelled.
- Form.Validate: models only the meaning of the zod schema on the five form fields. Unknown keys are stripped, which is `Records.Editable`, and zod's issue objects beyond field and message are not modelled.
