/**
 * The `/submit-form` handler: it refuses a submission whose 10th-grade mark
 * sheet or identity card is missing, before anything is forwarded, and
 * otherwise posts the three text fields to the spreadsheet endpoint.
 *
 * `req.files` is the set of upload fields that received a file, or None when
 * the upload middleware left `req.files` undefined (a request that is not
 * multipart); the outcome of the spreadsheet call is the parameter `forwardOk`.
 */
module SubmitForm {
  import opened JsValues
  import opened Http

  /** The JSON body posted to the spreadsheet endpoint. */
  datatype SheetRow = SheetRow(name: Json, phone: Json, parentProfession: Json)

  /** The reply, and the row forwarded to the spreadsheet if the call was made. */
  datatype Submission = Submission(reply: Reply, forwarded: Option<SheetRow>)

  const RequiredFilesMissing: Reply := Reply(400, false, Some("Required files missing"))

  function HandleSubmit(files: Option<set<string>>, name: Json, phone: Json, parentProfession: Json, forwardOk: bool)
    : (out: Submission)
    ensures out.forwarded.Some? <==> files.Some? && "mark10" in files.value && "idCard" in files.value
    ensures out.forwarded.Some? ==>
      out.forwarded.value == SheetRow(name, phone, parentProfession) && out.reply.success == forwardOk
    ensures out.reply.status == 400 <==> files.Some? && ("mark10" !in files.value || "idCard" !in files.value)
    ensures out.reply.success <==> out.forwarded.Some? && forwardOk
    ensures files.None? ==> out == Submission(ServerError, None)
    ensures out.forwarded.Some? ==> out.reply == (if forwardOk then Ok else ServerError)
    ensures out.reply.status == 400 ==> out.reply == RequiredFilesMissing
  {
    match files
    case None =>
      // reading a field of an undefined `req.files` throws inside the try block
      Submission(ServerError, None)
    case Some(present) =>
      if "mark10" !in present || "idCard" !in present then
        Submission(RequiredFilesMissing, None)
      else
        Submission(if forwardOk then Ok else ServerError, Some(SheetRow(name, phone, parentProfession)))
  }

  /** Only the two required fields matter: the optional mark sheets never change the outcome. */
  lemma OptionalFilesIrrelevant(present: set<string>, optional: set<string>,
                                name: Json, phone: Json, parentProfession: Json, forwardOk: bool)
    requires optional <= {"mark11", "mark12"}
    ensures HandleSubmit(Some(present + optional), name, phone, parentProfession, forwardOk)
         == HandleSubmit(Some(present), name, phone, parentProfession, forwardOk)
  {
  }
}
