/** What an Express handler of backend/server.js sends back: a JSON body
    with status 200, a refusal with its status code and `msg`, or the
    status 500 that every `catch (err)` block produces. */
module Http {
  import JobModel

  /** Why a handler fell into its `catch` block. */
  datatype Cause =
    | StoreFault                                  // the database call threw
    | Invalid(errors: seq<JobModel.FieldError>)   // `save()` threw a ValidationError

  datatype Reply<+T> =
    | Ok(body: T)                        // res.json(body)
    | Refused(status: int, msg: string)  // res.status(status).json({ msg })
    | ServerError(cause: Cause)          // res.status(500).json({ error: err.message })
}
