/** `JobApplicationForm`: what the zod schema accepts, the default values of
    a new and of an edit form, and the submit pass-through. */
module Form {
  import opened Records
  import opened Strings

  /** `STATUS_OPTIONS`: the choices of the status select. */
  const StatusOptions: seq<string> :=
    ["Applied", "Phone Screening", "Interview", "Technical Assessment", "Offer", "Rejected", "Withdrawn"]

  datatype FieldError = FieldError(field: string, message: string)

  const CompanyRequired := FieldError("company_name", "Company name is required")
  const PositionRequired := FieldError("position_title", "Position title is required")

  datatype Validation = Accepted(data: FormData) | Rejected(errors: seq<FieldError>)

  /** `formSchema`: `company_name` and `position_title` must have at least one
      character; `status` and `applied_on` may be any string and `starred` any
      boolean. Issues are reported in the schema's field order. */
  function Validate(d: FormData): (v: Validation)
    ensures v.Accepted? <==> |d.companyName| >= 1 && |d.positionTitle| >= 1
    ensures v.Accepted? ==> v.data == d
    ensures v.Rejected? ==>
              && (CompanyRequired in v.errors <==> d.companyName == "")
              && (PositionRequired in v.errors <==> d.positionTitle == "")
              && |v.errors| == (if d.companyName == "" then 1 else 0) + (if d.positionTitle == "" then 1 else 0)
  {
    var errors := (if |d.companyName| < 1 then [CompanyRequired] else [])
                + (if |d.positionTitle| < 1 then [PositionRequired] else []);
    if errors == [] then Accepted(d) else Rejected(errors)
  }

  /** `form.handleSubmit(handleSubmit)`: `onSubmit` receives the validated
      values unchanged, and is not called when validation fails. */
  function Submit(values: FormData): (sent: Option<FormData>)
    ensures sent.Some? <==> Validate(values).Accepted?
    ensures sent.Some? ==> sent.value == values
  {
    match Validate(values)
    case Accepted(data) => Some(data)
    case Rejected(_) => None
  }

  /** Only the two text fields decide validity. */
  lemma ValidityIgnoresOtherFields(d: FormData, status: string, appliedOn: string, starred: bool)
    ensures Validate(d).Accepted?
            == Validate(d.(status := status, appliedOn := appliedOn, starred := starred)).Accepted?
  {
  }

  /** No trimming: a name and a title of one space are accepted. */
  lemma WhitespaceIsAccepted(status: string, appliedOn: string, starred: bool)
    ensures Validate(FormData(" ", " ", status, appliedOn, starred)).Accepted?
  {
  }

  /** The schema does not hold `status` to the select's options. */
  lemma StatusIsNotRestricted(appliedOn: string, starred: bool)
    ensures "Ghosted" !in StatusOptions
    ensures Validate(FormData("Acme", "Engineer", "Ghosted", appliedOn, starred)).Accepted?
  {
  }

  /** `defaultValues`: an edit form starts from the record's editable fields;
      a new form is blank, "Applied", not starred, and dated with the date part
      of `nowIso` (what `new Date().toISOString()` returns). */
  function DefaultValues(initialData: Option<JobApplication>, nowIso: string): (d: FormData)
    ensures initialData.Some? ==> d == Editable(initialData.value)
    ensures initialData.None? ==>
              && d.companyName == "" && d.positionTitle == "" && !d.starred
              && d.status == StatusOptions[0]
              && d.appliedOn <= nowIso && 'T' !in d.appliedOn
              && (|d.appliedOn| < |nowIso| ==> nowIso[|d.appliedOn|] == 'T')
  {
    match initialData
    case Some(a) => Editable(a)
    case None => FormData("", "", "Applied", DatePart(nowIso), false)
  }

  /** A blank new form fails with both messages; its status is an option and
      its date is the date of the timestamp. */
  lemma NewFormDefaults(nowIso: string, date: string, time: string)
    requires 'T' !in date
    requires nowIso == date + "T" + time
    ensures var d := DefaultValues(None, nowIso);
            && d.appliedOn == date && !d.starred
            && d.status == StatusOptions[0]
            && Validate(d) == Rejected([CompanyRequired, PositionRequired])
  {
    DatePartOfTimestamp(date, time);
  }

  /** An edit form submits the record's editable fields unchanged when they
      pass the schema, and nothing when they do not. */
  lemma EditFormDefaults(a: JobApplication, nowIso: string)
    ensures var d := DefaultValues(Some(a), nowIso);
            && d == Editable(a)
            && Submit(d) == if a.companyName != "" && a.positionTitle != "" then Some(Editable(a)) else None
  {
  }
}
