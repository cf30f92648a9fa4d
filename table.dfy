/** Display rules of `JobApplicationsTable`: the status badge class, the
    choice between rows and one of three empty-state messages, and the
    argument the star button passes up. CSS classes are opaque strings. */
module Table {
  import opened Records
  import opened Strings

  const Blue := "bg-blue-100 text-blue-800"
  const Purple := "bg-purple-100 text-purple-800"
  const Indigo := "bg-indigo-100 text-indigo-800"
  const Sky := "bg-sky-100 text-sky-800"
  const Green := "bg-green-100 text-green-800"
  const Red := "bg-red-100 text-red-800"
  const Gray := "bg-gray-100 text-gray-800"

  /** The lower-case statuses the `switch` names. */
  const KnownStatuses: seq<string> :=
    ["applied", "phone screening", "interview", "technical assessment", "offer", "rejected", "withdrawn"]

  /** `getStatusColor`: a `switch` over the lower-cased status. Each of the
      six statuses before "withdrawn" has a class of its own, returned for
      that status in any casing and for nothing else; everything else,
      "withdrawn" included, is gray. */
  function StatusColor(status: string): (c: string)
    ensures c == Blue <==> ToLower(status) == "applied"
    ensures c == Purple <==> ToLower(status) == "phone screening"
    ensures c == Indigo <==> ToLower(status) == "interview"
    ensures c == Sky <==> ToLower(status) == "technical assessment"
    ensures c == Green <==> ToLower(status) == "offer"
    ensures c == Red <==> ToLower(status) == "rejected"
    ensures c == Gray <==> && ToLower(status) != "applied" && ToLower(status) != "phone screening"
                           && ToLower(status) != "interview" && ToLower(status) != "technical assessment"
                           && ToLower(status) != "offer" && ToLower(status) != "rejected"
  {
    match ToLower(status)
    case "applied" => Blue
    case "phone screening" => Purple
    case "interview" => Indigo
    case "technical assessment" => Sky
    case "offer" => Green
    case "rejected" => Red
    case "withdrawn" => Gray
    case _ => Gray
  }

  /** Any casing of a status gets the same class. */
  lemma StatusColorIgnoresCase(a: string, b: string)
    requires EqualIgnoringCase(a, b)
    ensures StatusColor(a) == StatusColor(b)
  {
    ToLowerIgnoresCase(a, b);
  }

  /** A status the `switch` does not name, in any casing, falls back to gray. */
  lemma UnknownStatusIsGray(status: string)
    requires ToLower(status) !in KnownStatuses
    ensures StatusColor(status) == Gray
  {
  }

  /** "Withdrawn" shares the fallback class. */
  lemma WithdrawnIsGray(status: string)
    requires ToLower(status) == "withdrawn"
    ensures StatusColor(status) == Gray
  {
  }

  /** What the table body shows. */
  datatype TableBody = Rows(rows: seq<JobApplication>) | EmptyState(message: string)

  const NoStarred := "No starred job applications"
  const NoMatching := "No matching job applications"
  const NoneYet := "No job applications yet"

  /** The body for the rows of the current page; `totalApplications` is the
      length of the unfiltered list. */
  function Body(applications: seq<JobApplication>, isStarredFilter: bool, totalApplications: int): (b: TableBody)
    ensures b.Rows? <==> |applications| > 0
    ensures b.Rows? ==> b.rows == applications
  {
    if |applications| == 0 then
      var hasApplications := totalApplications > 0;
      var showFilterNoResultsMessage := |applications| == 0 && hasApplications;
      if showFilterNoResultsMessage then
        if isStarredFilter then EmptyState(NoStarred) else EmptyState(NoMatching)
      else EmptyState(NoneYet)
    else Rows(applications)
  }

  /** An empty page shows exactly one of the three messages, each under its
      own condition. */
  lemma EmptyStateMessage(applications: seq<JobApplication>, isStarredFilter: bool, totalApplications: int)
    requires |applications| == 0
    ensures var b := Body(applications, isStarredFilter, totalApplications);
            && b.EmptyState?
            && (b.message == NoStarred <==> totalApplications > 0 && isStarredFilter)
            && (b.message == NoMatching <==> totalApplications > 0 && !isStarredFilter)
            && (b.message == NoneYet <==> totalApplications <= 0)
  {
  }

  /** The star button asks for the negation of the row's current flag. */
  function StarToggleRequest(a: JobApplication): (request: (int, bool))
    ensures request.0 == a.id && request.1 != a.starred
  {
    (a.id, !a.starred)
  }
}
