/** The query engine of `ApplicationsContainer`: the record list is sorted
    newest first, narrowed by the starred, status and date filters, split
    into pages, and described by a range label; the component's own state
    (current page, page size, status and date filters) is a class. */
module Container {
  import opened Records
  import opened Sorting
  import opened Strings

  /** `PAGE_SIZE_OPTIONS`: the sizes the "Rows per page" select offers. */
  const PageSizeOptions: seq<int> := [5, 10, 15, 20]

  predicate IsPageSize(size: int) {
    size in PageSizeOptions
  }

  /** The filter settings the derived list depends on. */
  datatype Filters = Filters(showOnlyStarred: bool, statusFilter: Option<string>, dateFilter: Option<string>)

  /** JavaScript truthiness of a `string | null`: null and "" are falsy. */
  predicate Truthy(v: Option<string>) {
    v.Some? && v.value != ""
  }

  /** The status filter narrows the list only when set and not `"all"`. */
  predicate StatusFilterActive(v: Option<string>) {
    Truthy(v) && v.value != "all"
  }

  /** A record passes every active filter. */
  predicate Matches(f: Filters, a: JobApplication)
    ensures !f.showOnlyStarred && !StatusFilterActive(f.statusFilter) && !Truthy(f.dateFilter) ==> Matches(f, a)
  {
    && (f.showOnlyStarred ==> a.starred)
    && (StatusFilterActive(f.statusFilter) ==> a.status == f.statusFilter.value)
    && (Truthy(f.dateFilter) ==> DatePart(a.appliedOn) == f.dateFilter.value)
  }

  function Matcher(f: Filters): JobApplication -> bool {
    a => Matches(f, a)
  }

  /** The comparator `new Date(b.applied_on) - new Date(a.applied_on)`, with
      `time` standing for the date parse: `a` may stay in front of `b` when
      it is not older. */
  function NewestFirst(time: string -> int): (le: (JobApplication, JobApplication) -> bool)
    ensures TotalPreorder(le)
  {
    (a: JobApplication, b: JobApplication) => time(a.appliedOn) >= time(b.appliedOn)
  }

  /** `filteredApplications` as a value: the stable sort newest first, then
      the conjunction of the active filters. */
  function Derived(applications: seq<JobApplication>, f: Filters, time: string -> int): (d: seq<JobApplication>)
    ensures |d| <= |applications|
  {
    Keep(StableSort(applications, NewestFirst(time)), Matcher(f))
  }

  lemma KeepSame<T(!new)>(s: seq<T>, p: T -> bool, q: T -> bool)
    requires forall x :: p(x) == q(x)
    ensures Keep(s, p) == Keep(s, q)
  {
    KeepKeep(s, p, (x: T) => true, q);
    KeepAll(Keep(s, p), (x: T) => true);
  }

  /** `filteredApplications`: copy the list, sort the copy in place, then
      reassign it through each active filter in turn. */
  method FilteredApplications(applications: seq<JobApplication>, f: Filters, time: string -> int)
    returns (result: seq<JobApplication>)
    ensures result == Derived(applications, f, time)
  {
    var copy := new JobApplication[|applications|](i requires 0 <= i < |applications| => applications[i]);
    assert copy[..] == applications;
    SortInPlace(copy, NewestFirst(time));
    result := copy[..];
    ghost var sorted := result;

    ghost var upToStarred: JobApplication -> bool := (a: JobApplication) => f.showOnlyStarred ==> a.starred;
    if f.showOnlyStarred {
      var starred: JobApplication -> bool := (a: JobApplication) => a.starred;
      result := Keep(result, starred);
      KeepSame(sorted, starred, upToStarred);
    } else {
      KeepAll(sorted, upToStarred);
    }
    assert result == Keep(sorted, upToStarred);

    ghost var upToStatus: JobApplication -> bool :=
      (a: JobApplication) => upToStarred(a) && (StatusFilterActive(f.statusFilter) ==> a.status == f.statusFilter.value);
    if StatusFilterActive(f.statusFilter) {
      var wanted := f.statusFilter.value;
      var hasStatus: JobApplication -> bool := (a: JobApplication) => a.status == wanted;
      result := Keep(result, hasStatus);
      KeepKeep(sorted, upToStarred, hasStatus, upToStatus);
    } else {
      KeepSame(sorted, upToStarred, upToStatus);
    }
    assert result == Keep(sorted, upToStatus);

    if Truthy(f.dateFilter) {
      var filterDate := f.dateFilter.value;
      var onDate: JobApplication -> bool := (a: JobApplication) => DatePart(a.appliedOn) == filterDate;
      result := Keep(result, onDate);
      KeepKeep(sorted, upToStatus, onDate, Matcher(f));
    } else {
      KeepSame(sorted, upToStatus, Matcher(f));
    }
  }

  // ---------------------------------------------------------------------
  // What the derived list is

  /** The derived list is the matching records, stably sorted: filtering
      before sorting would give the same list. */
  lemma DerivedIsSortedSelection(applications: seq<JobApplication>, f: Filters, time: string -> int)
    ensures Derived(applications, f, time)
            == StableSort(Keep(applications, Matcher(f)), NewestFirst(time))
  {
    KeepStableSort(applications, NewestFirst(time), Matcher(f));
  }

  /** Newest first: `applied_on` never increases along the derived list. */
  lemma DerivedIsNewestFirst(applications: seq<JobApplication>, f: Filters, time: string -> int)
    ensures var d := Derived(applications, f, time);
            forall i, j :: 0 <= i < j < |d| ==> time(d[i].appliedOn) >= time(d[j].appliedOn)
  {
    StableSortIsSorted(applications, NewestFirst(time));
    KeepSorted(StableSort(applications, NewestFirst(time)), NewestFirst(time), Matcher(f));
    var d := Derived(applications, f, time);
    assert forall i, j :: 0 <= i < j < |d| ==> NewestFirst(time)(d[i], d[j]);
  }

  /** Exactly the matching records, each as often as it occurs in the input. */
  lemma DerivedContents(applications: seq<JobApplication>, f: Filters, time: string -> int)
    ensures var d := Derived(applications, f, time);
            && (forall a :: multiset(d)[a] == if Matches(f, a) then multiset(applications)[a] else 0)
            && (forall a :: a in d <==> a in applications && Matches(f, a))
  {
    var sorted := StableSort(applications, NewestFirst(time));
    StableSortPermutes(applications, NewestFirst(time));
    KeepCounts(sorted, Matcher(f));
    KeepMembers(sorted, Matcher(f));
    assert forall a :: a in sorted <==> a in applications by {
      forall a ensures a in sorted <==> a in applications {
        assert a in sorted <==> a in multiset(sorted);
        assert a in applications <==> a in multiset(applications);
      }
    }
  }

  /** Records with the same `applied_on` time keep their input order. */
  lemma DerivedKeepsOrderOfTies(applications: seq<JobApplication>, f: Filters, time: string -> int, v: JobApplication)
    ensures Keep(Derived(applications, f, time), TiedWith(v, NewestFirst(time)))
            == Keep(Keep(applications, Matcher(f)), TiedWith(v, NewestFirst(time)))
  {
    DerivedIsSortedSelection(applications, f, time);
    StableSortKeepsTies(Keep(applications, Matcher(f)), NewestFirst(time), v);
  }

  predicate NoFilterActive(f: Filters) {
    !f.showOnlyStarred && !StatusFilterActive(f.statusFilter) && !Truthy(f.dateFilter)
  }

  /** With no filter active the derived list is a reordering of the input. */
  lemma UnfilteredIsPermutation(applications: seq<JobApplication>, f: Filters, time: string -> int)
    requires NoFilterActive(f)
    ensures multiset(Derived(applications, f, time)) == multiset(applications)
    ensures |Derived(applications, f, time)| == |applications|
  {
    var sorted := StableSort(applications, NewestFirst(time));
    KeepAll(sorted, Matcher(f));
    StableSortPermutes(applications, NewestFirst(time));
  }

  /** A record dated `date` plus a time of day passes a date filter set to
      `date`: `"2024-03-01T10:00"` matches `"2024-03-01"`. */
  lemma DateFilterIgnoresTime(a: JobApplication, date: string, rest: string)
    requires 'T' !in date
    requires a.appliedOn == date + "T" + rest
    ensures Matches(Filters(false, None, Some(date)), a)
  {
    DatePartOfTimestamp(date, rest);
  }

  // ---------------------------------------------------------------------
  // Pagination

  function Min(a: int, b: int): int {
    if a <= b then a else b
  }

  /** `Math.ceil(n / pageSize)`. */
  function TotalPages(n: nat, size: int): (r: nat)
    requires IsPageSize(size)
    ensures r * size >= n
    ensures r == 0 || (r - 1) * size < n
    ensures r == 0 <==> n == 0
  {
    (n + size - 1) / size
  }

  /** The index `Array.prototype.slice` makes of an argument `k` on a list
      of length `n`: a negative `k` counts from the end, and the result is
      clamped into `[0, n]`. */
  function SliceIndex(k: int, n: nat): (r: nat)
    ensures r <= n
    ensures 0 <= k <= n ==> r == k
    ensures k > n ==> r == n
    ensures k < 0 ==> r == if n + k < 0 then 0 else n + k
  {
    if k < 0 then (if n + k < 0 then 0 else n + k) else if k > n then n else k
  }

  /** `s.slice(start, end)`. */
  function Slice<T>(s: seq<T>, start: int, end: int): (r: seq<T>)
    ensures |r| <= |s|
    ensures 0 <= start <= end ==> r == s[Min(start, |s|)..Min(end, |s|)]
    ensures 0 <= end <= start ==> r == []
  {
    var i, j := SliceIndex(start, |s|), SliceIndex(end, |s|);
    if i < j then s[i..j] else []
  }

  /** `paginatedApplications`: the slice from `(page - 1) * size`, of length `size`. */
  function PageOf<T>(s: seq<T>, page: int, size: int): (r: seq<T>)
    requires IsPageSize(size)
    ensures |r| <= size
    ensures page >= 1 ==> r == s[Min((page - 1) * size, |s|)..Min(page * size, |s|)]
  {
    var startIndex := (page - 1) * size;
    assert startIndex + size == page * size;
    assert page >= 1 ==> startIndex >= 0;
    Slice(s, startIndex, startIndex + size)
  }

  /** Page `p` of the list holds positions `(p-1)*size` up to `min(p*size, n)`, and is never empty. */
  lemma PageIsSlice<T>(s: seq<T>, page: int, size: int)
    requires IsPageSize(size)
    requires 1 <= page <= TotalPages(|s|, size)
    ensures (page - 1) * size < Min(page * size, |s|)
    ensures PageOf(s, page, size) == s[(page - 1) * size .. Min(page * size, |s|)]
    ensures 0 < |PageOf(s, page, size)| <= size
  {
    var n := |s|;
    var total := TotalPages(n, size);
    assert (page - 1) * size <= (total - 1) * size;
    assert page * size == (page - 1) * size + size;
  }

  /** Page 0 (what `goToPage` gives with no pages) and pages past the last are empty. */
  lemma PageOutsideRangeIsEmpty<T>(s: seq<T>, page: int, size: int)
    requires IsPageSize(size)
    requires page == 0 || page > TotalPages(|s|, size)
    ensures PageOf(s, page, size) == []
  {
    if page > 0 {
      var total := TotalPages(|s|, size);
      assert (page - 1) * size >= total * size;
    }
  }

  /** Pages 1 to k, one after the other. */
  function PagesUpTo<T>(s: seq<T>, size: int, k: nat): seq<T>
    requires IsPageSize(size)
  {
    if k == 0 then [] else PagesUpTo(s, size, k - 1) + PageOf(s, k, size)
  }

  lemma {:induction false} PagesUpToIsPrefix<T>(s: seq<T>, size: int, k: nat)
    requires IsPageSize(size)
    requires k <= TotalPages(|s|, size)
    ensures PagesUpTo(s, size, k) == s[..Min(k * size, |s|)]
  {
    if k > 0 {
      PagesUpToIsPrefix(s, size, k - 1);
      PageIsSlice(s, k, size);
      assert (k - 1) * size < |s|;
      assert Min((k - 1) * size, |s|) == (k - 1) * size;
      assert s[..(k - 1) * size] + s[(k - 1) * size .. Min(k * size, |s|)] == s[..Min(k * size, |s|)];
    }
  }

  /** The pages cover the list: pages 1 to `totalPages` concatenated give it back. */
  lemma PagesCoverList<T>(s: seq<T>, size: int)
    requires IsPageSize(size)
    ensures PagesUpTo(s, size, TotalPages(|s|, size)) == s
  {
    var total := TotalPages(|s|, size);
    PagesUpToIsPrefix(s, size, total);
    assert s[..|s|] == s;
  }

  /** 23 records at 10 a page: three pages, the third holding records 21 to 23. */
  lemma ThirdOfThreePages<T>(s: seq<T>)
    requires |s| == 23
    ensures TotalPages(|s|, 10) == 3
    ensures PageOf(s, 3, 10) == s[20..23]
  {
  }

  // ---------------------------------------------------------------------
  // The range label "first-last of n"

  datatype RangeLabel = Range(first: int, last: int, total: nat) | NoRange

  /** The footer label: `(p-1)*size+1`-`min(p*size, n)` of `n`, or "0 of 0". */
  function RangeLabelOf(page: int, size: int, n: nat): (l: RangeLabel)
    ensures l.Range? <==> n > 0
    ensures l.Range? ==> l.first == (page - 1) * size + 1 && l.last == Min(page * size, n) && l.total == n
  {
    if n > 0 then Range((page - 1) * size + 1, Min(page * size, n), n) else NoRange
  }

  /** On a page in range the label names exactly the positions shown. */
  lemma RangeLabelDescribesPage<T>(s: seq<T>, page: int, size: int)
    requires IsPageSize(size)
    requires 1 <= page <= TotalPages(|s|, size)
    ensures var l := RangeLabelOf(page, size, |s|);
            && l.Range? && l.total == |s|
            && 1 <= l.first <= l.last <= |s|
            && PageOf(s, page, size) == s[l.first - 1 .. l.last]
  {
    PageIsSlice(s, page, size);
  }

  // ---------------------------------------------------------------------
  // goToPage and the list of statuses

  /** The clamping in `goToPage`: raise to 1, then lower to `totalPages`. */
  method ClampPage(page: int, totalPages: nat) returns (r: int)
    ensures totalPages >= 1 ==> 1 <= r <= totalPages
    ensures 1 <= page <= totalPages ==> r == page
    ensures page < 1 && totalPages >= 1 ==> r == 1
    ensures page > totalPages ==> r == totalPages
    ensures totalPages == 0 ==> r == 0
  {
    r := page;
    if r < 1 {
      r := 1;
    }
    if r > totalPages {
      r := totalPages;
    }
  }

  /** `availableStatuses`: the distinct non-empty statuses, collected in a
      `Set` (kept here as its insertion-ordered sequence) and then sorted. */
  method AvailableStatuses(applications: seq<JobApplication>) returns (statuses: seq<string>)
    ensures forall i, j :: 0 <= i < j < |statuses| ==> LexLess(statuses[i], statuses[j])
    ensures forall s :: s in statuses <==>
              s != "" && exists k :: 0 <= k < |applications| && applications[k].status == s
  {
    var seen: seq<string> := [];
    var i := 0;
    while i < |applications|
      invariant 0 <= i <= |applications|
      invariant Distinct(seen)
      invariant forall s :: s in seen <==> s != "" && exists k :: 0 <= k < i && applications[k].status == s
    {
      var status := applications[i].status;
      if status != "" && status !in seen {
        seen := seen + [status];
      }
      i := i + 1;
    }
    var sorted := new string[|seen|](k requires 0 <= k < |seen| => seen[k]);
    assert sorted[..] == seen;
    SortInPlace(sorted, LexLe);
    statuses := sorted[..];
    LexLeIsTotalPreorder();
    StableSortIsSorted(seen, LexLe);
    StableSortPermutes(seen, LexLe);
    DistinctPermutation(seen, statuses);
    forall s ensures s in statuses <==> s in seen {
      assert s in statuses <==> s in multiset(statuses);
      assert s in seen <==> s in multiset(seen);
    }
    forall i, j | 0 <= i < j < |statuses| ensures LexLess(statuses[i], statuses[j]) {
      assert LexLe(statuses[i], statuses[j]);
    }
  }

  // ---------------------------------------------------------------------
  // The component's state

  class ContainerState {
    var currentPage: int
    var pageSize: int
    var statusFilter: Option<string>
    var dateFilter: Option<string>
    /** The `showOnlyStarred` prop as of the last render. */
    var showOnlyStarred: bool

    ghost predicate Valid()
      reads this
    {
      IsPageSize(pageSize) && currentPage >= 0
    }

    function CurrentFilters(): Filters
      reads this
    {
      Filters(showOnlyStarred, statusFilter, dateFilter)
    }

    /** The initial state: page 1, 10 rows per page, no status or date filter. */
    constructor (showOnlyStarred: bool)
      ensures Valid()
      ensures currentPage == 1 && pageSize == 10
      ensures statusFilter == None && dateFilter == None
      ensures this.showOnlyStarred == showOnlyStarred
    {
      currentPage := 1;
      pageSize := 10;
      statusFilter := None;
      dateFilter := None;
      this.showOnlyStarred := showOnlyStarred;
    }

    /** The status select: `"all"` clears the filter; a new value sends the
        page back to 1. */
    method SelectStatus(value: string)
      requires Valid()
      modifies this
      ensures Valid()
      ensures statusFilter == if value == "all" then None else Some(value)
      ensures currentPage == if statusFilter != old(statusFilter) then 1 else old(currentPage)
      ensures pageSize == old(pageSize) && dateFilter == old(dateFilter)
      ensures showOnlyStarred == old(showOnlyStarred)
    {
      var next := if value == "all" then None else Some(value);
      if next != statusFilter {
        statusFilter := next;
        currentPage := 1;
      }
    }

    /** The date input: an empty value clears the filter; a new value sends
        the page back to 1. */
    method InputDate(value: string)
      requires Valid()
      modifies this
      ensures Valid()
      ensures dateFilter == if value == "" then None else Some(value)
      ensures currentPage == if dateFilter != old(dateFilter) then 1 else old(currentPage)
      ensures pageSize == old(pageSize) && statusFilter == old(statusFilter)
      ensures showOnlyStarred == old(showOnlyStarred)
    {
      var next := if value == "" then None else Some(value);
      if next != dateFilter {
        dateFilter := next;
        currentPage := 1;
      }
    }

    /** The "Rows per page" select. */
    method SelectPageSize(size: int)
      requires Valid()
      requires IsPageSize(size)
      modifies this
      ensures Valid()
      ensures pageSize == size
      ensures currentPage == if size != old(pageSize) then 1 else old(currentPage)
      ensures statusFilter == old(statusFilter) && dateFilter == old(dateFilter)
      ensures showOnlyStarred == old(showOnlyStarred)
    {
      if size != pageSize {
        pageSize := size;
        currentPage := 1;
      }
    }

    /** A render with a new `showOnlyStarred` prop. */
    method ReceiveShowOnlyStarred(value: bool)
      requires Valid()
      modifies this
      ensures Valid()
      ensures showOnlyStarred == value
      ensures currentPage == if value != old(showOnlyStarred) then 1 else old(currentPage)
      ensures pageSize == old(pageSize)
      ensures statusFilter == old(statusFilter) && dateFilter == old(dateFilter)
    {
      if value != showOnlyStarred {
        showOnlyStarred := value;
        currentPage := 1;
      }
    }

    /** `handleResetFilters`: clears the status and date filters and asks the
        parent (through the returned value) to turn the starred filter off. */
    method ResetFilters() returns (requestedStarred: bool)
      requires Valid()
      modifies this
      ensures Valid()
      ensures statusFilter == None && dateFilter == None && !requestedStarred
      ensures currentPage == if old(statusFilter) != None || old(dateFilter) != None then 1 else old(currentPage)
      ensures pageSize == old(pageSize) && showOnlyStarred == old(showOnlyStarred)
    {
      if statusFilter != None || dateFilter != None {
        statusFilter := None;
        dateFilter := None;
        currentPage := 1;
      }
      requestedStarred := false;
    }

    /** `goToPage` against the current derived list. */
    method GoToPage(page: int, applications: seq<JobApplication>, time: string -> int)
      requires Valid()
      modifies this
      ensures Valid()
      ensures var total := TotalPages(|Derived(applications, CurrentFilters(), time)|, pageSize);
              && (total >= 1 ==> 1 <= currentPage <= total)
              && (1 <= page <= total ==> currentPage == page)
              && (page < 1 && total >= 1 ==> currentPage == 1)
              && (page > total ==> currentPage == total)
              && (total == 0 ==> currentPage == 0)
      ensures pageSize == old(pageSize) && showOnlyStarred == old(showOnlyStarred)
      ensures statusFilter == old(statusFilter) && dateFilter == old(dateFilter)
    {
      var filtered := FilteredApplications(applications, CurrentFilters(), time);
      currentPage := ClampPage(page, TotalPages(|filtered|, pageSize));
    }

    /** The rows handed to the table. */
    method PaginatedApplications(applications: seq<JobApplication>, time: string -> int)
      returns (rows: seq<JobApplication>)
      requires Valid()
      ensures rows == PageOf(Derived(applications, CurrentFilters(), time), currentPage, pageSize)
    {
      var filtered := FilteredApplications(applications, CurrentFilters(), time);
      var startIndex := (currentPage - 1) * pageSize;
      rows := Slice(filtered, startIndex, startIndex + pageSize);
    }
  }
}
