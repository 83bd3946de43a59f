/** Optional values and the failures that abort one account's run. */
module Outcomes {

  datatype Option<+T> = None | Some(value: T)

  /** The exceptions the core can raise, by cause. */
  datatype Error =
    | MissingSubject    // the message has no Subject header: `None.replace` raises
    | MissingCharset    // a single-part message declares no charset: `str(bytes, None)` raises
    | MalformedHtml     // the tag stripper raises on the HTML part
    | SendFailed        // the task could not be handed to the outgoing mail server
    | ConnectionFailed  // the mailbox could not be reached or the login was refused

  datatype Result<+T> = Ok(value: T) | Err(error: Error)
}
