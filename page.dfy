/** The status page's state machine: the statuses it shows, whether a
    request to the admin API is in flight, the status line ("body"), and
    how each message changes them. `Step` is the specification of one
    message; the class `StatusPage` updates its fields in place and is
    proved against `Step`. */
module Page {
  import opened Types
  import opened View

  /** The page state as a value. `log` records every request issued to the
      admin API, in order, so that "no request was sent" reads as "the log
      did not change". */
  datatype PageState = PageState(statuses: ServerStatuses, inFlight: bool, log: seq<Request>, body: string)

  /** The state the page is created in: a placeholder guess at the
      statuses, the status fetch issued and in flight. */
  function Initial(): PageState {
    PageState(map[Default := Unknown, Rotis := Running], true, [FetchStatus], LoadingText)
  }

  /** A message naming a server can only be handled when the page has a
      status for that server; on any other the handler panics. */
  predicate Handles(statuses: ServerStatuses, msg: Msg) {
    (msg.StartServer? || msg.StopServer? || msg.UpdateServer?) ==> msg.target in statuses
  }

  /** Server `k` is another server whose status forbids starting `s`. */
  predicate Blocks(statuses: ServerStatuses, s: Server, k: Server) {
    k in statuses && k != s && statuses[k] != Stopped
  }

  /** Issue an action request: it is logged, marked in flight, and the
      status line says so. */
  function Send(st: PageState, s: Server, a: ServerAction, body: string): PageState {
    st.(inFlight := true, log := st.log + [ServerRequest(s, a)], body := body)
  }

  /** The action whose request a server message would send. */
  function ActionOf(msg: Msg): (a: ServerAction)
    requires msg.StartServer? || msg.StopServer? || msg.UpdateServer?
    ensures a == Start <==> msg.StartServer?
    ensures a == Stop <==> msg.StopServer?
  {
    match msg
    case StartServer(_) => Start
    case StopServer(_) => Stop
    case UpdateServer(_) => Update
  }

  /** Start on a server that is Stopped or Unknown: the single-active-server
      policy. If another server is not Stopped the start is refused, naming
      SOME such server, since the handler scans an unordered map; otherwise
      the Start request is sent. */
  ghost predicate StartPolicyStep(st: PageState, s: Server, st': PageState, render: bool) {
    render &&
    if exists k :: Blocks(st.statuses, s, k) then
      exists k :: Blocks(st.statuses, s, k) && st' == st.(body := NotStoppedText(k))
    else st' == Send(st, s, Start, StartingText(s))
  }

  /** The Start arm: nothing on a running server, an explanation on one
      that is starting, shutting down or updating, the policy otherwise. */
  ghost predicate StartStep(st: PageState, s: Server, st': PageState, render: bool)
    requires s in st.statuses
  {
    match st.statuses[s]
    case Running => st' == st && !render
    case Starting => st' == st.(body := AlreadyStartingText(s)) && render
    case ShuttingDown => st' == st.(body := StoppingTryLaterText(s)) && render
    case Updating => st' == st.(body := UpdatingTryLaterText(s)) && render
    case _ => StartPolicyStep(st, s, st', render)
  }

  /** The Stop arm: nothing on a stopped server, an explanation on one
      that is starting or shutting down, the Stop request otherwise. */
  ghost predicate StopStep(st: PageState, s: Server, st': PageState, render: bool)
    requires s in st.statuses
  {
    match st.statuses[s]
    case Stopped => st' == st && !render
    case Starting => st' == st.(body := CurrentlyStartingText(s)) && render
    case ShuttingDown => st' == st.(body := AlreadyShuttingDownText(s)) && render
    case _ => st' == Send(st, s, Stop, StoppingText(s)) && render
  }

  /** The Update arm: nothing on an updating server, the Update request
      otherwise. */
  ghost predicate UpdateStep(st: PageState, s: Server, st': PageState, render: bool)
    requires s in st.statuses
  {
    match st.statuses[s]
    case Updating => st' == st && !render
    case _ => st' == Send(st, s, Update, UpdatingText(s)) && render
  }

  /** One call of the page's update handler: from `st`, message `msg` may
      lead to `st'`, returning `render`. A Start refused by the policy
      names some blocking server. Only a reply changes the statuses; the
      action messages never clear the in-flight marker and set it whenever
      they send a request; a reply or an error sends nothing and clears it. */
  ghost predicate Step(st: PageState, msg: Msg, st': PageState, render: bool): (ok: bool)
    requires Handles(st.statuses, msg)
    ensures ok && !msg.StatusUpdate? ==> st'.statuses == st.statuses
    ensures ok && !msg.StatusUpdate? && !msg.Error? ==>
      (st.inFlight ==> st'.inFlight) && (st'.log != st.log ==> st'.inFlight)
    ensures ok && (msg.StatusUpdate? || msg.Error?) ==> st'.log == st.log && !st'.inFlight
  {
    match msg
    case StartServer(s) => StartStep(st, s, st', render)
    case StopServer(s) => StopStep(st, s, st', render)
    case UpdateServer(s) => UpdateStep(st, s, st', render)
    case StatusUpdate(m) =>
      st' == st.(statuses := m, inFlight := false, body := AcceptingText) && render
    case Error(_) =>
      st' == st.(inFlight := false, body := ErrorText) && render
  }

  /** The scan of the Start handler: look at the servers in some order,
      skip `server` itself, and stop at the first one that is not Stopped. */
  method FindNotStoppedOther(statuses: ServerStatuses, server: Server) returns (found: Option<Server>)
    ensures found.None? <==> forall k :: k in statuses && k != server ==> statuses[k] == Stopped
    ensures found.Some? ==> found.value in statuses && found.value != server && statuses[found.value] != Stopped
  {
    var todo := statuses.Keys;
    while todo != {}
      invariant todo <= statuses.Keys
      invariant forall k :: k in statuses && k !in todo && k != server ==> statuses[k] == Stopped
      decreases todo
    {
      var k :| k in todo;
      todo := todo - {k};
      if k == server {
        continue;
      }
      if statuses[k] != Stopped {
        return Some(k);
      }
    }
    return None;
  }

  class StatusPage {
    var statuses: ServerStatuses
    var inFlight: bool
    ghost var log: seq<Request>
    var body: string

    ghost function State(): PageState
      reads this
    {
      PageState(statuses, inFlight, log, body)
    }

    /** Creating the page seeds the placeholder statuses and issues the
        status fetch. */
    constructor ()
      ensures State() == Initial()
    {
      body := LoadingText;
      statuses := map[Default := Unknown, Rotis := Running];
      inFlight := false;
      log := [];
      new;
      Issue(FetchStatus);
    }

    /** Issuing a request to the admin API, whose reply arrives later as a
        StatusUpdate or Error message: it is logged and held as the one
        in-flight request, replacing any earlier one. */
    method Issue(req: Request)
      modifies this
      ensures inFlight && log == old(log) + [req]
      ensures statuses == old(statuses) && body == old(body)
    {
      inFlight := true;
      log := log + [req];
    }

    method HandleStart(server: Server) returns (render: bool)
      requires server in statuses
      modifies this
      ensures Step(old(State()), StartServer(server), State(), render)
    {
      match statuses[server]
      case Running =>
        render := false;
      case Starting =>
        body := AlreadyStartingText(server);
        render := true;
      case ShuttingDown =>
        body := StoppingTryLaterText(server);
        render := true;
      case Updating =>
        body := UpdatingTryLaterText(server);
        render := true;
      case _ =>
        render := StartIfOthersStopped(server);
    }

    /** The Start handler's last arm, for a server that is Stopped or
        Unknown: scan the other servers and either refuse or send. */
    method StartIfOthersStopped(server: Server) returns (render: bool)
      requires server in statuses
      modifies this
      ensures StartPolicyStep(old(State()), server, State(), render)
    {
      var blocker := FindNotStoppedOther(statuses, server);
      if blocker.Some? {
        ghost var st := State();
        body := NotStoppedText(blocker.value);
        assert Blocks(st.statuses, server, blocker.value);
        assert State() == st.(body := NotStoppedText(blocker.value));
        return true;
      }
      assert forall k :: !Blocks(statuses, server, k);
      Issue(ServerRequest(server, Start));
      body := StartingText(server);
      render := true;
    }

    method HandleStop(server: Server) returns (render: bool)
      requires server in statuses
      modifies this
      ensures Step(old(State()), StopServer(server), State(), render)
    {
      match statuses[server]
      case Stopped =>
        render := false;
      case Starting =>
        body := CurrentlyStartingText(server);
        render := true;
      case ShuttingDown =>
        body := AlreadyShuttingDownText(server);
        render := true;
      case _ =>
        body := StoppingText(server);
        Issue(ServerRequest(server, Stop));
        render := true;
    }

    method HandleUpdate(server: Server) returns (render: bool)
      requires server in statuses
      modifies this
      ensures Step(old(State()), UpdateServer(server), State(), render)
    {
      match statuses[server]
      case Updating =>
        render := false;
      case _ =>
        body := UpdatingText(server);
        Issue(ServerRequest(server, Update));
        render := true;
    }

    /** A successful reply: its map replaces the statuses wholesale. */
    method HandleStatusUpdate(m: ServerStatuses) returns (render: bool)
      modifies this
      ensures Step(old(State()), StatusUpdate(m), State(), render)
    {
      inFlight := false;
      statuses := m;
      body := AcceptingText;
      render := true;
    }

    /** A failed request; the diagnostic is only logged to the console. */
    method HandleError(detail: string) returns (render: bool)
      modifies this
      ensures Step(old(State()), Error(detail), State(), render)
    {
      inFlight := false;
      body := ErrorText;
      render := true;
    }

    /** The update handler: one arm per message. */
    method HandleMsg(msg: Msg) returns (render: bool)
      requires Handles(statuses, msg)
      modifies this
      ensures Step(old(State()), msg, State(), render)
    {
      match msg
      case StartServer(s) => render := HandleStart(s);
      case StopServer(s) => render := HandleStop(s);
      case UpdateServer(s) => render := HandleUpdate(s);
      case StatusUpdate(m) => render := HandleStatusUpdate(m);
      case Error(e) => render := HandleError(e);
    }

    /** The operator clicks an enabled button of the rendered page; its
        callback sends the button's message to the update handler. Such a
        click only happens while no request is in flight. */
    method Click(server: Server, a: ServerAction) returns (render: bool)
      requires server in statuses
      requires a in EnabledActions(Render(statuses, inFlight)[server])
      modifies this
      ensures !old(inFlight)
      ensures Step(old(State()), ClickMsg(server, a), State(), render)
    {
      EnabledIffIdleAndShown(statuses, inFlight, server, a);
      render := HandleMsg(ClickMsg(server, a));
    }
  }
}
