/** Failure-carrying values shared by every resource: the option and result
    wrappers, and the taxonomy of errors a reconciliation can surface. */
module Base {

  datatype Option<+T> = None | Some(value: T)

  /** Which parent of a device credential a lookup was about. */
  datatype Parent = Device | Domain | Account

  /** Every fatal outcome the provider can report. Go reports them as
      formatted strings; here each kind keeps the data its message names. */
  datatype Error =
    | VersionNotValid(resource: string, version: string)
    | TransportFailed(reason: string)
    | UnexpectedStatus(status: int, body: string)
    | DecodeFailed(body: string)
    | AlreadyExists(key: string)
    | NotFoundAfterPost(key: string)
    | ParentMissing(parent: Parent, id: string)
    | LoginOrPasswordMissing(name: string)
    | MalformedImportId(id: string)
    | NotFoundOnImport(id: string)
    | PolicyNotFound(name: string)

  datatype Result<+T> = Ok(value: T) | Err(error: Error)
}
