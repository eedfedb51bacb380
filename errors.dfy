/**
 * The backend's error classes (backend/src/errors) and the failures of the
 * database, which the user utilities either translate or rethrow unchanged.
 */
module Errors {

  /** The failure codes of the database client that the utilities inspect. */
  datatype DbError =
    | UniqueViolation          // a unique column (id or username) already holds the value
    | RecordNotFound           // update or delete of an id that is not stored
    | InvalidValue(field: string)  // a value of the wrong type for a column, rejected before any write

  datatype Err =
    | Unauthorized(message: string)        // UnauthorizedError, default message 'Unauthorized'
    | InvalidAccessToken(message: string)  // InvalidAccessTokenError
    | UserNotFound                         // UserNotFoundError
    | UsernameTaken                        // UsernameAlreadyTakenError
    | BadRequest(message: string)          // BadRequestError
    | ArgumentMissing(message: string)     // ArgumentMissingError
    | Config(message: string)              // a plain Error about a missing environment variable
    | Database(cause: DbError)             // a database error rethrown as it is
    | Other(message: string)               // any other error, e.g. from a library or the store's connection

  const UNAUTHORIZED := "Unauthorized"
}
