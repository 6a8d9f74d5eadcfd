/**
 The replies a task route sends: a JSON value with status 200, or one of the
 three error replies the task controller produces.
 */
module Http {

  /**
   `Ok` is a 200 reply carrying a value; `NotFound` is 404 ("Task not found"),
   `Forbidden` is 403 ("Not authorized"), and `ServerError` is 500, the reply
   of every handler's catch block.
   */
  datatype Response<+T> = Ok(value: T) | NotFound | Forbidden | ServerError
}
