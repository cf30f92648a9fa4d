/** The `Home` page: the session's cached record list, the form and the
    delete dialog, and the handlers that move between these states. Each
    awaited API call is replaced by its outcome, given as a parameter; a
    re-fetch after a write is one atomic replacement of the list. */
module Home {
  import opened Records
  import Table

  /** What an awaited API call produced: a value, or a thrown error. */
  datatype Outcome<T> = Success(value: T) | Failure

  /** Which handler `handleFormSubmit` hands the data to. */
  datatype Route = ToCreate | ToUpdate

  /** `applications.map(app => app.id === id ? { ...app, starred } : app)`. */
  function SetStarred(s: seq<JobApplication>, id: int, starred: bool): (r: seq<JobApplication>)
    ensures |r| == |s|
    ensures forall i :: 0 <= i < |s| && s[i].id == id ==> r[i] == s[i].(starred := starred)
    ensures forall i :: 0 <= i < |s| && s[i].id != id ==> r[i] == s[i]
    decreases |s|
  {
    if |s| == 0 then []
    else [if s[0].id == id then s[0].(starred := starred) else s[0]] + SetStarred(s[1..], id, starred)
  }

  ghost predicate UniqueIds(s: seq<JobApplication>) {
    forall i, j :: 0 <= i < |s| && 0 <= j < |s| && s[i].id == s[j].id ==> i == j
  }

  /** With unique ids, the star button of row `k` flips that row's flag and
      nothing else, and pressing the new row's button restores the list. */
  lemma StarButtonFlipsOneRow(s: seq<JobApplication>, k: nat)
    requires UniqueIds(s)
    requires k < |s|
    ensures var (id, starred) := Table.StarToggleRequest(s[k]);
            var t := SetStarred(s, id, starred);
            && t[k] == s[k].(starred := !s[k].starred)
            && (forall i :: 0 <= i < |s| && i != k ==> t[i] == s[i])
            && SetStarred(t, Table.StarToggleRequest(t[k]).0, Table.StarToggleRequest(t[k]).1) == s
  {
    var (id, starred) := Table.StarToggleRequest(s[k]);
    var t := SetStarred(s, id, starred);
    var u := SetStarred(t, t[k].id, !t[k].starred);
    assert u == s by {
      forall i | 0 <= i < |s| ensures u[i] == s[i] {
        if i == k {
        } else {
          assert s[i].id != s[k].id;
        }
      }
    }
  }

  /** The page's state as one value. */
  datatype PageState = PageState(
    applications: seq<JobApplication>,
    isLoading: bool,
    showOnlyStarred: bool,
    isFormOpen: bool,
    currentApplication: Option<JobApplication>,
    isDeleteDialogOpen: bool,
    applicationToDelete: Option<int>)

  class HomePage {
    var applications: seq<JobApplication>
    var isLoading: bool
    var showOnlyStarred: bool
    var isFormOpen: bool
    var currentApplication: Option<JobApplication>
    var isDeleteDialogOpen: bool
    var applicationToDelete: Option<int>

    function State(): PageState
      reads this
    {
      PageState(applications, isLoading, showOnlyStarred, isFormOpen,
                currentApplication, isDeleteDialogOpen, applicationToDelete)
    }

    /** Every `useState` initial value. */
    constructor ()
      ensures State() == PageState([], false, false, false, None, false, None)
    {
      applications := [];
      isLoading := false;
      showOnlyStarred := false;
      isFormOpen := false;
      currentApplication := None;
      isDeleteDialogOpen := false;
      applicationToDelete := None;
    }

    /** `fetchApplications`: a successful fetch replaces the list wholesale;
        a failed one keeps it. Loading is off afterwards either way. */
    method FetchApplications(response: Outcome<seq<JobApplication>>)
      modifies this
      ensures State() == old(State()).(
                applications := if response.Success? then response.value else old(applications),
                isLoading := false)
    {
      isLoading := true;
      if response.Success? {
        applications := response.value;
      }
      isLoading := false;
    }

    /** `handleCreateApplication`: the submitted data is the request body;
        on success the returned record goes in front of the list and the
        form closes; on failure only the loading flag moves. */
    method HandleCreateApplication(data: FormData, response: Outcome<JobApplication>)
      returns (sent: FormData)
      modifies this
      ensures sent == data
      ensures response.Success? ==> State() == old(State()).(
                applications := [response.value] + old(applications),
                isFormOpen := false,
                isLoading := false)
      ensures response.Failure? ==> State() == old(State()).(isLoading := false)
    {
      isLoading := true;
      sent := data;
      if response.Success? {
        applications := [response.value] + applications;
        isFormOpen := false;
      }
      isLoading := false;
    }

    /** `handleUpdateApplication`: nothing happens without a current
        application; otherwise the request carries its id and the submitted
        data, and on success the list is re-fetched and the form closes. */
    method HandleUpdateApplication(data: FormData, response: Outcome<()>, refetch: Outcome<seq<JobApplication>>)
      returns (request: Option<(int, FormData)>)
      modifies this
      ensures old(currentApplication).None? ==> request == None && State() == old(State())
      ensures old(currentApplication).Some? ==> request == Some((old(currentApplication).value.id, data))
      ensures old(currentApplication).Some? && response.Success? ==> State() == old(State()).(
                applications := if refetch.Success? then refetch.value else old(applications),
                isFormOpen := false,
                currentApplication := None,
                isLoading := false)
      ensures old(currentApplication).Some? && response.Failure? ==> State() == old(State()).(isLoading := false)
    {
      if currentApplication.None? {
        return None;
      }
      isLoading := true;
      request := Some((currentApplication.value.id, data));
      if response.Success? {
        FetchApplications(refetch);
        isFormOpen := false;
        currentApplication := None;
      }
      isLoading := false;
    }

    /** `handleDeleteApplication`: nothing happens without a pending id
        (`=== null`, so id 0 is deleted like any other); otherwise the record
        is deleted and, on success, the list is re-fetched and the dialog closes. */
    method HandleDeleteApplication(response: Outcome<()>, refetch: Outcome<seq<JobApplication>>)
      returns (deletedId: Option<int>)
      modifies this
      ensures deletedId == old(applicationToDelete)
      ensures old(applicationToDelete).None? ==> State() == old(State())
      ensures old(applicationToDelete).Some? && response.Success? ==> State() == old(State()).(
                applications := if refetch.Success? then refetch.value else old(applications),
                isDeleteDialogOpen := false,
                applicationToDelete := None,
                isLoading := false)
      ensures old(applicationToDelete).Some? && response.Failure? ==> State() == old(State()).(isLoading := false)
    {
      if applicationToDelete.None? {
        return None;
      }
      isLoading := true;
      deletedId := applicationToDelete;
      if response.Success? {
        FetchApplications(refetch);
        isDeleteDialogOpen := false;
        applicationToDelete := None;
      }
      isLoading := false;
    }

    /** `handleToggleStar`: the local list changes only after the write
        succeeded; the loading flag is not touched. */
    method HandleToggleStar(id: int, starred: bool, response: Outcome<()>)
      modifies this
      ensures State() == old(State()).(
                applications := if response.Success? then SetStarred(old(applications), id, starred)
                                else old(applications))
    {
      if response.Success? {
        applications := SetStarred(applications, id, starred);
      }
    }

    /** `handleAddNew`: an empty form. */
    method HandleAddNew()
      modifies this
      ensures State() == old(State()).(currentApplication := None, isFormOpen := true)
    {
      currentApplication := None;
      isFormOpen := true;
    }

    /** `handleEdit`: the form opens on the given record. */
    method HandleEdit(application: JobApplication)
      modifies this
      ensures State() == old(State()).(currentApplication := Some(application), isFormOpen := true)
    {
      currentApplication := Some(application);
      isFormOpen := true;
    }

    /** `handleOpenDeleteDialog`: remembers the id and opens the dialog. */
    method HandleOpenDeleteDialog(id: int)
      modifies this
      ensures State() == old(State()).(applicationToDelete := Some(id), isDeleteDialogOpen := true)
    {
      applicationToDelete := Some(id);
      isDeleteDialogOpen := true;
    }

    /** `handleFormSubmit`: update when a record is being edited, create otherwise. */
    method HandleFormSubmit(data: FormData, created: Outcome<JobApplication>,
                            updated: Outcome<()>, refetch: Outcome<seq<JobApplication>>)
      returns (route: Route, sent: FormData)
      modifies this
      ensures route == if old(currentApplication).Some? then ToUpdate else ToCreate
      ensures sent == data
      ensures old(currentApplication).None? && created.Success? ==> State() == old(State()).(
                applications := [created.value] + old(applications),
                isFormOpen := false,
                isLoading := false)
      ensures old(currentApplication).None? && created.Failure? ==> State() == old(State()).(isLoading := false)
      ensures old(currentApplication).Some? && updated.Success? ==> State() == old(State()).(
                applications := if refetch.Success? then refetch.value else old(applications),
                isFormOpen := false,
                currentApplication := None,
                isLoading := false)
      ensures old(currentApplication).Some? && updated.Failure? ==> State() == old(State()).(isLoading := false)
    {
      if currentApplication.Some? {
        route := ToUpdate;
        var request := HandleUpdateApplication(data, updated, refetch);
        sent := request.value.1;
      } else {
        route := ToCreate;
        sent := HandleCreateApplication(data, created);
      }
    }

    /** `handleFilterChange`. */
    method HandleFilterChange(value: bool)
      modifies this
      ensures State() == old(State()).(showOnlyStarred := value)
    {
      showOnlyStarred := value;
    }

    /** The form modal's `onCancel`. */
    method CancelForm()
      modifies this
      ensures State() == old(State()).(isFormOpen := false, currentApplication := None)
    {
      isFormOpen := false;
      currentApplication := None;
    }

    /** The delete dialog's `onClose`: the pending id stays. */
    method CloseDeleteDialog()
      modifies this
      ensures State() == old(State()).(isDeleteDialogOpen := false)
    {
      isDeleteDialogOpen := false;
    }
  }
}
