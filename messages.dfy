/** The records the three scripts exchange through messages and keep in storage. */
module Messages {

  datatype Option<+T> = None | Some(value: T)

  /** A JavaScript value that may be `undefined`, as text: template literals and
      `String.replace` turn `undefined` into the text "undefined". */
  function Render(v: Option<string>): (r: string)
    ensures v.Some? ==> r == v.value
  {
    match v
    case Some(s) => s
    case None => "undefined"
  }

  /** `v || fallback` for a number that may be missing: missing, NaN and 0 all fall back. */
  function OrDefault(v: Option<int>, fallback: int): (r: int)
    ensures v.Some? && v.value != 0 ==> r == v.value
    ensures v.None? || v.value == 0 ==> r == fallback
  {
    if v.None? || v.value == 0 then fallback else v.value
  }

  /** Where a queued target stands; `FailedError` is the status text "Failed (Error)". */
  datatype Status = Pending | Sent | Skipped | Failed | FailedError

  function StatusText(s: Status): string {
    match s
    case Pending => "Pending"
    case Sent => "Sent"
    case Skipped => "Skipped"
    case Failed => "Failed"
    case FailedError => "Failed (Error)"
  }

  /** A connection as the connections page lists it: display name and profile URL. */
  datatype ScrapedConnection = ScrapedConnection(name: string, url: string)

  /** The `connection` part of a target; `originUrl` is the seed profile it was found on.
      A missing name or URL is the empty text (both are falsy). */
  datatype Connection = Connection(name: string, url: string, originUrl: string)

  /** A stored target record. `origin` is the seed profile's display name, which the page
      may not provide; no code path sets `jobTitle`, so stored targets carry `None`. */
  datatype Target = Target(
    origin: Option<string>,
    connection: Connection,
    companyName: string,
    jobTitle: Option<string>,
    status: Status)

  /** The data the background script sends with a "send-message" request. */
  datatype MessageData = MessageData(
    originFullName: Option<string>,
    originLinkedInUrl: Option<string>,
    firstName: string,
    fullName: string,
    companyName: string,
    jobTitle: string,
    connectionLinkedInUrl: string,
    messageTemplate: Option<string>)

  /** The "send-messages" request the background script acts on: the template to send,
      when the request has one, and the stored templates by name. */
  datatype SendMessagesRequest = SendMessagesRequest(
    messageTemplate: Option<string>,
    messageTemplates: map<string, string>)

  /** What `chrome.tabs.sendMessage` resolves to, as the background script sees it:
      a bare text, the content script's `{ result }` or `{ error }` objects, the
      `{ error, stack }` object its listener sends when a handler throws, an object
      carrying page data, or nothing. */
  datatype Reply =
    | TextReply(text: string)
    | ResultObject(result: string)
    | ErrorObject(error: string)
    | ThrownError
    | PageData
    | NoResponse

  /** The stored settings record; each field is `None` when missing or not a number. */
  datatype Settings = Settings(
    maxLinks: Option<int>,
    retryAttempts: Option<int>,
    collectionInterval: Option<int>,
    collectionBatchSize: Option<int>,
    collectionPauseTime: Option<int>,
    messagingInterval: Option<int>,
    messagingBatchSize: Option<int>,
    messagingPauseTime: Option<int>,
    dailyCollectionLimit: Option<int>,
    dailyMessageLimit: Option<int>)
}
