# Valheim server control page: the StatusPage state machine

The page shows the run state of the known game servers (Default and Rotis),
lets an operator Start, Stop or Update one of them through the admin API, and
refuses to start a server while another one is not stopped. This project
models the page component's state and its update handler:

- `types.dfy` (module `Types`): servers, statuses, actions, requests,
  the messages the handler receives, the server names, the status labels and
  the texts of the status line.
- `view.dfy` (module `View`): what a server's card shows. This covers its
  indicator colour, its buttons, and whether those buttons are disabled.
  The HTML itself is not modelled.
- `page.dfy` (module `Page`): the page state as a value (`PageState`), the
  specification of one handler call (`Step`), and the class `StatusPage`.
  The class updates its fields in place with one method per message. Each
  method is proved to satisfy `Step`.
- `properties.dfy` (module `Properties`): lemmas about `Step` and `Render`.
  They cover the behaviour of each message, the single-active-server policy,
  the one-request-at-a-time rule and a worked scenario.

The in-flight fetch handle is modelled as a boolean `inFlight` plus a ghost
request `log`. Issuing a request appends it to the log and sets `inFlight`.
"No request was sent" therefore reads as "the log did not change".

Start scans the statuses map in an unspecified order. The model draws the
next server with `:|`, so a refused start names *some* blocking server
(`StartPolicyStep`). Only two servers are known, so at most one server can
block a start. Hence the status line always names the one blocking server
(`StartRefusedWhileAnotherActive`) and the handler is deterministic
(`StepDeterministic`).

The handler does not itself refuse actions while a request is in flight. A
Stop or Update message issues a new request even then, replacing the
previous one. One request at a time holds only because every button is
disabled while a request is in flight; `ClickedRequestsNeverOverlap` states
it for rendering and dispatch together. Clickability is read from `Render` of
the current state. The page is redrawn only when the handler returns true, and
a call that returns false leaves the state unchanged (`NoRenderMeansNoChange`).
So the buttons on screen always reflect the current state.

The single-active-server policy guards Start only. Update on a stopped server
sends its request while another server runs (`UpdateNotGuardedByPolicy`).

After a reply reporting Default Stopped and Rotis Running, Start on Default
is refused because Rotis is running (`StartRefusedAfterLoad`).

## Model

| member | source | states |
|---|---|---|
| `Types.ServerName` | src/main.rs:170-175 | the name shown for a server is a capitalised word of at least five letters (shape only; identity in `ServerNameInjective`) |
| `Types.ServerNameInjective` | src/main.rs:170-175 | distinct servers have distinct display names (the `Display` text at lines 72-79 is the same) |
| `Types.StatusLabel` | src/main.rs:58-70 | a status label is a non-empty string of lower-case words (shape only; identity in `StatusLabelInjective`) |
| `Types.StatusLabelInjective` | src/main.rs:58-70 | each status has its own label |
| `Types.NotStoppedTextNamesServer` | src/main.rs:220 | the refusal message determines which server it names |
| `View.IndicatorColour` | src/main.rs:96-100 | green iff Running, amber iff Starting or Updating, red iff Stopped, ShuttingDown or Unknown |
| `View.Buttons` | src/main.rs:109-124 | every button carries the shared disabled flag; no action appears twice; no buttons exactly when the status is neither Stopped nor Running |
| `View.ButtonsOffered` | src/main.rs:109-124 | Stopped offers exactly {Start, Update}, Running exactly {Stop}, every other status nothing |
| `View.Render` | src/main.rs:92-132 | one card per server in the map, showing its name, its status label, the indicator colour of its status and the buttons of its status, disabled iff a request is in flight |
| `View.ClickMsg` | src/main.rs:110-122 | a button's callback sends the message for its own server: Start sends StartServer, Stop sends StopServer, Update sends UpdateServer |
| `View.EnabledActionsOfRender` | src/main.rs:93-124 | a card's clickable actions are none while a request is in flight, else exactly the actions its status offers |
| `View.EnabledIffIdleAndShown` | src/main.rs:93-124 | action `a` on server `s` is clickable iff nothing is in flight and `s` is Running (Stop) or Stopped (Start, Update) |
| `View.InFlightDisablesEveryButton` | src/main.rs:93 | while a request is in flight no card has a clickable button |
| `View.ColourAgreesWithButtons` | src/main.rs:96-124 | green cards offer Stop and only they; amber cards offer nothing; a red card offers Start iff it is stopped |
| `Page.FindNotStoppedOther` | src/main.rs:215-223 | the scan returns no server iff every other server is Stopped; a returned server is another one and not Stopped |
| `Page.Step` | src/main.rs:197-275 | one handler call; only a reply changes the statuses; action messages never clear the in-flight marker and set it when they send; a reply or an error sends nothing and clears it |
| `Page.ActionOf` | src/main.rs:224-255 | Start, Stop and Update messages request the Start, Stop and Update actions |
| `Page.StatusPage.constructor` | src/main.rs:183-195 | the initial state: Default Unknown, Rotis Running, status fetch logged and in flight, loading text |
| `Page.StatusPage.Issue` | src/main.rs:152-168 | sending a request logs it and marks it in flight, nothing else changes |
| `Page.StatusPage.HandleStart` | src/main.rs:199-228 | the Start arm satisfies `Step` |
| `Page.StatusPage.StartIfOthersStopped` | src/main.rs:214-227 | the policy arm of Start refuses naming a blocking server, or sends the Start request |
| `Page.StatusPage.HandleStop` | src/main.rs:229-248 | the Stop arm satisfies `Step` |
| `Page.StatusPage.HandleUpdate` | src/main.rs:250-258 | the Update arm satisfies `Step` |
| `Page.StatusPage.HandleStatusUpdate` | src/main.rs:260-264 | the reply arm satisfies `Step` |
| `Page.StatusPage.HandleError` | src/main.rs:266-272 | the error arm satisfies `Step` |
| `Page.StatusPage.HandleMsg` | src/main.rs:197-275 | the whole update handler satisfies `Step` for every message it can handle without panicking |
| `Page.StatusPage.Click` | src/main.rs:110-122 | a click on an enabled button happens with nothing in flight and performs the handler step of its message |
| `Properties.AtMostOneBlocker` | src/main.rs:13-16 | with two known servers, at most one server blocks a start |
| `Properties.StartOnRunningIsNoop` | src/main.rs:201 | Start on a running server changes nothing and returns false |
| `Properties.StartOnBusyOnlyExplains` | src/main.rs:202-213 | Start on Starting, ShuttingDown or Updating only sets the matching message, sends nothing, returns true |
| `Properties.StartUsesPolicy` | src/main.rs:214-227 | Start on a Stopped or Unknown server goes through the single-active-server scan |
| `Properties.PolicyRefusalNamesBlocker` | src/main.rs:215-222 | when server `y` blocks the start, the scan refuses it, changes only the status line, and names `y` |
| `Properties.StartRefusedWhileAnotherActive` | src/main.rs:214-222 | another non-Stopped server `y` refuses the start: no request, statuses and in-flight kept, message names `y` |
| `Properties.StartSentWhenOthersStopped` | src/main.rs:214-226 | all others Stopped: exactly one (S, Start) request logged, in flight, "starting server S" |
| `Properties.StopBehaviour` | src/main.rs:229-248 | Stop: no-op on Stopped, message only on Starting/ShuttingDown, otherwise exactly one (S, Stop) request |
| `Properties.UpdateBehaviour` | src/main.rs:250-258 | Update: no-op on Updating, otherwise, Running included, exactly one (S, Update) request |
| `Properties.StatusUpdateReplaces` | src/main.rs:260-264 | a reply replaces the statuses by exactly the reported map, clears in-flight, "Accepting commands" |
| `Properties.ErrorRecovers` | src/main.rs:266-272 | an error clears in-flight, shows the fixed error text, keeps the statuses |
| `Properties.RequestsFollowPolicy` | src/main.rs:197-275 | a step sends at most one request, for its message's server and action; a Start request only when all others are Stopped |
| `Properties.NoRenderMeansNoChange` | src/main.rs:197-275 | a handler call that returns false (src/main.rs:201, 231, 252) leaves the whole state unchanged |
| `Properties.PolicyDeterministic` | src/main.rs:215-226 | the policy decision is unique: the refusal names the one possible blocker |
| `Properties.StartStepDeterministic` | src/main.rs:199-227 | the Start arm's outcome is determined by the state and the server |
| `Properties.StepDeterministic` | src/main.rs:197-275 | the handler's outcome is determined by the state and the message |
| `Properties.ClickedRequestsNeverOverlap` | src/main.rs:93-124 | requests sent through enabled buttons start only with nothing in flight; Stop and Update clicks always send; Start sends iff all others are Stopped |
| `Properties.InitialHasNoEnabledButton` | src/main.rs:183-194 | in the initial state the fetch is in flight and no button is clickable |
| `Properties.StartRefusedAfterLoad` | src/main.rs:199-222 | after a load reporting Default Stopped and Rotis Running, the enabled Start on Default is refused, naming Rotis |
| `Properties.UpdateNotGuardedByPolicy` | src/main.rs:250-258 | with Rotis running, Update on a stopped Default is clickable and sends its request |

## Left out

- HTTP and JSON (src/main.rs:135-168): building the requests, the fetch service and decoding the replies are left out. `Issue` stands for them, and a reply arrives as a `StatusUpdate` or `Error` message. The `.expect` panics on request construction are not modelled.
- Request cancellation: replacing the in-flight handle drops the earlier request. The model keeps every issued request in the log and does not model the abort.
- Missing server: `.unwrap()` on a server without a status (src/main.rs:199, 230, 251) panics. This is a `requires` (`Handles`, `server in statuses`) rather than a modelled panic.
- Markup and lifecycle: the HTML markup, `view`, `change` and `main` are UI framework plumbing. Only the colour and button decisions and the card's name and label are modelled.
- Logging: the console log of an error (src/main.rs:271) is a side effect. The diagnostic is carried in the `Error` message and ignored.
- src/main.go: the backend's HTTP server, its shell scripts and its status queries are I/O plumbing and are not part of this model.
