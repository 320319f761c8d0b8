/** What the page draws for each server: a card with a coloured indicator,
    the server's name and status label, and the action buttons its status
    allows. Only the decisions are modelled, not the markup. */
module View {
  import opened Types

  const Green := "#2ecc40"
  const Amber := "#ff851b"
  const Red := "#ff4136"

  /** The indicator colour: green for a running server, amber for one that
      is starting or updating, red for everything else. */
  function IndicatorColour(s: Status): (c: string)
    ensures c == Green <==> s == Running
    ensures c == Amber <==> s == Starting || s == Updating
    ensures c == Red <==> s in {Stopped, ShuttingDown, Unknown}
  {
    match s
    case Running => Green
    case Starting | Updating => Amber
    case _ => Red
  }

  /** A button dispatches `action` on its card's server when clicked,
      unless it is disabled. */
  datatype Button = Button(action: ServerAction, disabled: bool)

  /** The actions a row of buttons offers, enabled or not. */
  function Actions(bs: seq<Button>): set<ServerAction> {
    set i | 0 <= i < |bs| :: bs[i].action
  }

  /** The buttons of a card, in the order drawn: Start and Update for a
      stopped server, Stop for a running one, none otherwise; all share one
      `disabled` flag. */
  function Buttons(s: Status, disabled: bool): (bs: seq<Button>)
    ensures forall i :: 0 <= i < |bs| ==> bs[i].disabled == disabled
    ensures forall i, j :: 0 <= i < j < |bs| ==> bs[i].action != bs[j].action
    ensures bs == [] <==> s != Stopped && s != Running
  {
    match s
    case Stopped => [Button(Start, disabled), Button(Update, disabled)]
    case Running => [Button(Stop, disabled)]
    case _ => []
  }

  /** A stopped server offers exactly Start and Update, a running one
      exactly Stop, and a server in any other status nothing. */
  lemma ButtonsOffered(s: Status, disabled: bool)
    ensures Actions(Buttons(s, disabled)) ==
      if s == Stopped then {Start, Update} else if s == Running then {Stop} else {}
  {
    var bs := Buttons(s, disabled);
    if s == Stopped {
      assert bs[0].action == Start && bs[1].action == Update;
    } else if s == Running {
      assert bs[0].action == Stop;
    }
  }

  datatype Card = Card(name: string, statusLabel: string, colour: string, buttons: seq<Button>)

  function CardFor(server: Server, status: Status, disabled: bool): Card {
    Card(ServerName(server), StatusLabel(status), IndicatorColour(status), Buttons(status, disabled))
  }

  /** One card per server in the statuses map, drawn from that server's
      status alone; every button is disabled exactly when a request is in
      flight. */
  function Render(statuses: ServerStatuses, inFlight: bool): (view: map<Server, Card>)
    ensures view.Keys == statuses.Keys
    ensures forall s :: s in view ==> view[s].name == ServerName(s) && view[s].statusLabel == StatusLabel(statuses[s])
    ensures forall s :: s in view ==>
      view[s].colour == IndicatorColour(statuses[s]) && view[s].buttons == Buttons(statuses[s], inFlight)
  {
    map s | s in statuses :: CardFor(s, statuses[s], inFlight)
  }

  /** The actions a click on this card can dispatch. */
  function EnabledActions(c: Card): set<ServerAction> {
    set i | 0 <= i < |c.buttons| && !c.buttons[i].disabled :: c.buttons[i].action
  }

  /** The message a button's click handler sends. */
  function ClickMsg(s: Server, a: ServerAction): (m: Msg)
    ensures m.StartServer? || m.StopServer? || m.UpdateServer?
    ensures (a == Start <==> m.StartServer?) && (a == Stop <==> m.StopServer?)
    ensures m.target == s
  {
    match a
    case Start => StartServer(s)
    case Stop => StopServer(s)
    case Update => UpdateServer(s)
  }

  /** The actions a server's card lets the operator click: none while a
      request is in flight, otherwise exactly the actions its status offers. */
  lemma EnabledActionsOfRender(statuses: ServerStatuses, inFlight: bool, s: Server)
    requires s in statuses
    ensures EnabledActions(Render(statuses, inFlight)[s]) ==
      if inFlight then {} else Actions(Buttons(statuses[s], false))
  {
  }

  /** A button for `a` on server `s` can be clicked exactly when no request
      is in flight and the server is Running (for Stop) or Stopped (for Start
      and Update). */
  lemma EnabledIffIdleAndShown(statuses: ServerStatuses, inFlight: bool, s: Server, a: ServerAction)
    requires s in statuses
    ensures a in EnabledActions(Render(statuses, inFlight)[s]) <==>
      !inFlight && (if a == Stop then statuses[s] == Running else statuses[s] == Stopped)
  {
    EnabledActionsOfRender(statuses, inFlight, s);
    ButtonsOffered(statuses[s], false);
  }

  /** While a request is in flight no card has a clickable button. */
  lemma InFlightDisablesEveryButton(statuses: ServerStatuses, inFlight: bool)
    requires inFlight
    ensures forall s :: s in statuses ==> EnabledActions(Render(statuses, inFlight)[s]) == {}
  {
  }

  /** The colour and the buttons agree: a green card is exactly one that
      offers Stop, an amber card offers nothing, and a red card offers
      Start and Update exactly when its server is stopped. */
  lemma ColourAgreesWithButtons(s: Status, disabled: bool)
    ensures IndicatorColour(s) == Green <==> Stop in Actions(Buttons(s, disabled))
    ensures IndicatorColour(s) == Amber ==> Actions(Buttons(s, disabled)) == {}
    ensures IndicatorColour(s) == Red ==> (Start in Actions(Buttons(s, disabled)) <==> s == Stopped)
  {
    ButtonsOffered(s, disabled);
  }
}
