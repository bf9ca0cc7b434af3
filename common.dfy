/** Values shared by every part of the cookie pool model: optional values,
    results that carry an error, and the errors the pool raises. */
module Common {

  datatype Option<+T> = None | Some(value: T)

  datatype Result<+T, +E> = Ok(value: T) | Err(error: E)

  /** The statements the pool sends to the database. */
  datatype Stmt = UpdateStmt | InsertStmt | SelectStmt | DeleteStmt

  /** The exceptions the pool raises, by cause. */
  datatype Error =
    | InvalidArgument              // a CID with neither province nor tax
    | ConnectFailed(message: string) // __get_conn gave up; carries the driver's message
    | StatementFailed(stmt: Stmt)  // the database rejected a statement
    | DuplicateKey                 // an insert whose md5 is already a primary key
    | SaveFailed(cause: Error)     // save wraps whatever its statements raised
}
