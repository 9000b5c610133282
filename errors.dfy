/**
 * The exceptions the message handler's `try` block can catch, and the private reply
 * `errorResponse` builds from one.
 */
module Errors {

  datatype JsError =
    | AuthorisationError             // `new Error("Authorisation Error")`
    | UndefinedProperty(key: string) // TypeError: a property read on `undefined`
    | NotDefined(name: string)       // ReferenceError: `eval` of an unknown name

  /** The error as `"..." + error` renders it (`Error.prototype.toString`). */
  function ErrorString(e: JsError): string {
    match e
    case AuthorisationError => "Error: Authorisation Error"
    case UndefinedProperty(key) => "TypeError: Cannot read properties of undefined (reading '" + key + "')"
    case NotDefined(name) => "ReferenceError: " + name + " is not defined"
  }

  const ReplyPrefix := "No such luck - "

  const HelpText :=
    "\n\n`@Tanuki <command>`\n\n`hello`\n`job:last <project> <scope>`\n`job:retry <project> <job_id>`"

  /** The text of the private error reply: the error, then the fixed list of commands. */
  function ErrorReplyText(e: JsError): (text: string)
    ensures ReplyPrefix <= text
    ensures |text| == |ReplyPrefix| + |ErrorString(e)| + |HelpText|
    ensures text[|ReplyPrefix|..|text| - |HelpText|] == ErrorString(e)
    ensures text[|text| - |HelpText|..] == HelpText
  {
    var t := ReplyPrefix + ErrorString(e) + HelpText;
    assert t[|ReplyPrefix|..|t| - |HelpText|] == ErrorString(e);
    t
  }
}
