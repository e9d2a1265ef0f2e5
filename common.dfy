/** Wrappers shared by every module: optional values, results and the error taxonomy. */
module Common {

  datatype Option<T> = None | Some(value: T)

  /** The account a request runs for; only its uid is ever read. */
  datatype Account = Account(uid: nat)

  /** The exceptions the resource runtime throws; a thrown exception ends the request. */
  datatype Error =
    | BadRequest                                  // RestfulBadRequestException: no route or no handler
    | EntityNotFound(entityId: string)            // RestfulUnprocessableEntityException: unknown id
    | EntityMismatch(entityId: string)            // RestfulUnprocessableEntityException: wrong bundle
    | PropertyMissing(property: Option<string>)   // Exception: a 'value' field reads no property
    | UndefinedMethod(name: string)               // PHP fatal error: the wrapper has no such method

  datatype Result<T> = Ok(value: T) | Err(error: Error)
}
