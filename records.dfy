/** The job-application record exchanged between the Rails store and the
    frontend, and the editable part of it that the form submits. */
module Records {

  datatype Option<T> = None | Some(value: T)

  /** One job application as the store returns it. The timestamps are
      optional on the client side and are never written by it. */
  datatype JobApplication = JobApplication(
    id: int,
    companyName: string,
    positionTitle: string,
    status: string,
    appliedOn: string,
    starred: bool,
    createdAt: Option<string>,
    updatedAt: Option<string>)

  /** The record without `id`, `created_at` and `updated_at`. */
  datatype FormData = FormData(
    companyName: string,
    positionTitle: string,
    status: string,
    appliedOn: string,
    starred: bool)

  /** The editable fields of a record. */
  function Editable(a: JobApplication): FormData {
    FormData(a.companyName, a.positionTitle, a.status, a.appliedOn, a.starred)
  }

  /** Two records have the same editable part exactly when they differ at
      most in the store-assigned fields. */
  lemma EditableOmitsStoreFields(a: JobApplication, b: JobApplication)
    ensures Editable(a) == Editable(b)
            <==> a.(id := b.id, createdAt := b.createdAt, updatedAt := b.updatedAt) == b
  {
  }
}
