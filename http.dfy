/** The replies the handlers send: an HTTP status and the JSON body `{success, message?}`. */
module Http {

  datatype Option<+T> = None | Some(value: T)

  datatype Reply = Reply(status: int, success: bool, message: Option<string>)

  /** `res.json({ success: true })`: status 200 by default. */
  const Ok: Reply := Reply(200, true, None)

  /** `res.status(500).json({ success: false })`. */
  const ServerError: Reply := Reply(500, false, None)
}
