/** The values the status page works with: the known game servers, their
    lifecycle status as reported by the admin API, the actions an operator
    can request, and the texts shown on the page. */
module Types {

  datatype Option<T> = None | Some(value: T)

  /** The statically known game-server instances. */
  datatype Server = Default | Rotis

  /** Lifecycle state of a server as the backend reports it. */
  datatype Status = Stopped | Starting | Running | ShuttingDown | Updating | Unknown

  /** An operator-requested transition sent to the backend. */
  datatype ServerAction = Start | Stop | Update

  /** A request issued to the admin API: the status fetch made on load, or
      an action request naming a server and an action. */
  datatype Request = FetchStatus | ServerRequest(server: Server, action: ServerAction)

  /** A server's reported status, one entry per server the backend knows. */
  type ServerStatuses = map<Server, Status>

  /** The messages the page reacts to. The error carries the diagnostic
      that is only logged. */
  datatype Msg =
    | StartServer(target: Server)
    | StopServer(target: Server)
    | UpdateServer(target: Server)
    | StatusUpdate(statuses: ServerStatuses)
    | Error(detail: string)

  /** The name shown for a server; the `Display` text of a server is the
      same. The ensures are only facts about the shape of the name (a
      capitalised word); that the name identifies the server is
      `ServerNameInjective`. */
  function ServerName(s: Server): (r: string)
    ensures |r| >= 5
    ensures 'A' <= r[0] <= 'Z'
  {
    match s
    case Default => "Default"
    case Rotis => "Rotis"
  }

  /** Distinct servers are shown under distinct names, so every message
      that names a server names exactly one. */
  lemma ServerNameInjective(a: Server, b: Server)
    ensures ServerName(a) == ServerName(b) <==> a == b
  {
  }

  /** The label shown after a server's name. The ensures are only facts
      about the shape of the label (lower-case words); that each status has
      its own label is `StatusLabelInjective`. */
  function StatusLabel(s: Status): (r: string)
    ensures r != []
    ensures forall i :: 0 <= i < |r| ==> r[i] == ' ' || 'a' <= r[i] <= 'z'
  {
    match s
    case Stopped => "not running"
    case Starting => "starting"
    case Running => "running"
    case ShuttingDown => "shutting down"
    case Updating => "updating"
    case Unknown => "unknown"
  }

  /** Every status has its own label, so the page never shows two
      different statuses the same way. */
  lemma StatusLabelInjective(a: Status, b: Status)
    ensures StatusLabel(a) == StatusLabel(b) <==> a == b
  {
  }

  // The texts of the status line ("body").

  const LoadingText := "Getting server status..."
  const AcceptingText := "Accepting commands"
  const ErrorText := "An error occurred. Refresh the page and try again or ask Zach for help"

  function AlreadyStartingText(s: Server): string {
    "server " + ServerName(s) + " is already starting"
  }

  function StoppingTryLaterText(s: Server): string {
    "server " + ServerName(s) + " is stopping. Please try again later"
  }

  function UpdatingTryLaterText(s: Server): string {
    "server " + ServerName(s) + " is updating. Please try again later"
  }

  function NotStoppedText(k: Server): string {
    "server " + ServerName(k) + " is not stopped. Please stop before trying to start another server"
  }

  function StartingText(s: Server): string {
    "starting server " + ServerName(s)
  }

  function CurrentlyStartingText(s: Server): string {
    "server " + ServerName(s) + " is currently starting. Please try again later."
  }

  function AlreadyShuttingDownText(s: Server): string {
    "server " + ServerName(s) + " is already shutting down."
  }

  function StoppingText(s: Server): string {
    "stopping server " + ServerName(s)
  }

  function UpdatingText(s: Server): string {
    "updating server " + ServerName(s)
  }

  /** The refusal of a start names the blocking server unambiguously. */
  lemma NotStoppedTextNamesServer(a: Server, b: Server)
    ensures NotStoppedText(a) == NotStoppedText(b) <==> a == b
  {
  }
}
