/** What the status page promises, stated about `Step` (one call of the
    update handler) and `Render` (the buttons drawn for a state). */
module Properties {
  import opened Types
  import opened View
  import opened Page

  /** The known servers are Default and Rotis, so a server other than `s`
      that blocks a start of `s` is the one other server. */
  lemma AtMostOneBlocker(statuses: ServerStatuses, s: Server, a: Server, b: Server)
    requires Blocks(statuses, s, a) && Blocks(statuses, s, b)
    ensures a == b
  {
  }

  /** Start on a running server does nothing and asks for no re-render. */
  lemma StartOnRunningIsNoop(st: PageState, s: Server, st': PageState, render: bool)
    requires s in st.statuses && st.statuses[s] == Running
    requires Step(st, StartServer(s), st', render)
    ensures st' == st && !render
  {
  }

  /** Start on a server that is starting, shutting down or updating only
      explains why on the status line: no request, statuses and in-flight
      marker untouched. */
  lemma StartOnBusyOnlyExplains(st: PageState, s: Server, st': PageState, render: bool)
    requires s in st.statuses && st.statuses[s] in {Starting, ShuttingDown, Updating}
    requires Step(st, StartServer(s), st', render)
    ensures render
    ensures st'.statuses == st.statuses && st'.inFlight == st.inFlight && st'.log == st.log
    ensures st'.body == match st.statuses[s]
      case Starting => AlreadyStartingText(s)
      case ShuttingDown => StoppingTryLaterText(s)
      case _ => UpdatingTryLaterText(s)
  {
  }

  /** Start on a Stopped or Unknown server is decided by the policy. */
  lemma StartUsesPolicy(st: PageState, s: Server, st': PageState, render: bool)
    requires s in st.statuses && st.statuses[s] in {Stopped, Unknown}
    requires Step(st, StartServer(s), st', render)
    ensures StartPolicyStep(st, s, st', render)
  {
    assert StartStep(st, s, st', render);
  }

  /** When `y` blocks a start, the policy refuses it and names `y`. */
  lemma {:induction false} PolicyRefusalNamesBlocker(st: PageState, s: Server, y: Server, st': PageState, render: bool)
    requires Blocks(st.statuses, s, y)
    requires StartPolicyStep(st, s, st', render)
    ensures render && st' == st.(body := NotStoppedText(y))
  {
    var k :| Blocks(st.statuses, s, k) && st' == st.(body := NotStoppedText(k));
    AtMostOneBlocker(st.statuses, s, k, y);
  }

  /** Single-active-server policy, refusal side: when another server `y`
      is not Stopped, Start on a Stopped or Unknown server `s` sends no
      request, keeps the statuses and the in-flight marker, and the status
      line names `y`. */
  lemma {:induction false} StartRefusedWhileAnotherActive(st: PageState, s: Server, y: Server, st': PageState, render: bool)
    requires s in st.statuses && st.statuses[s] in {Stopped, Unknown}
    requires y in st.statuses && y != s && st.statuses[y] != Stopped
    requires Step(st, StartServer(s), st', render)
    ensures render
    ensures st'.statuses == st.statuses && st'.inFlight == st.inFlight && st'.log == st.log
    ensures st'.body == NotStoppedText(y)
  {
    StartUsesPolicy(st, s, st', render);
    PolicyRefusalNamesBlocker(st, s, y, st', render);
  }

  /** Single-active-server policy, acceptance side: when every other server
      is Stopped, Start on a Stopped or Unknown server sends exactly one
      Start request for it and marks it in flight. */
  lemma StartSentWhenOthersStopped(st: PageState, s: Server, st': PageState, render: bool)
    requires s in st.statuses && st.statuses[s] in {Stopped, Unknown}
    requires forall k :: k in st.statuses && k != s ==> st.statuses[k] == Stopped
    requires Step(st, StartServer(s), st', render)
    ensures render
    ensures st'.log == st.log + [ServerRequest(s, Start)] && st'.inFlight
    ensures st'.statuses == st.statuses && st'.body == StartingText(s)
  {
  }

  /** Stop: a no-op on a stopped server, an explanation only on a server
      that is starting or shutting down, and otherwise (Running, Updating,
      Unknown) exactly one Stop request, whether or not one was in flight. */
  lemma StopBehaviour(st: PageState, s: Server, st': PageState, render: bool)
    requires s in st.statuses
    requires Step(st, StopServer(s), st', render)
    ensures st.statuses[s] == Stopped ==> st' == st && !render
    ensures st.statuses[s] == Starting ==>
      st' == st.(body := CurrentlyStartingText(s)) && render
    ensures st.statuses[s] == ShuttingDown ==>
      st' == st.(body := AlreadyShuttingDownText(s)) && render
    ensures st.statuses[s] in {Running, Updating, Unknown} ==>
      st'.log == st.log + [ServerRequest(s, Stop)] && st'.inFlight && render &&
      st'.statuses == st.statuses && st'.body == StoppingText(s)
  {
  }

  /** Update: a no-op on an updating server; in every other status,
      Running included, exactly one Update request. */
  lemma UpdateBehaviour(st: PageState, s: Server, st': PageState, render: bool)
    requires s in st.statuses
    requires Step(st, UpdateServer(s), st', render)
    ensures st.statuses[s] == Updating ==> st' == st && !render
    ensures st.statuses[s] != Updating ==>
      st'.log == st.log + [ServerRequest(s, Update)] && st'.inFlight && render &&
      st'.statuses == st.statuses && st'.body == UpdatingText(s)
  {
  }

  /** A successful reply replaces the statuses with exactly the reported
      map, whatever was shown before, and clears the in-flight marker. */
  lemma StatusUpdateReplaces(st: PageState, m: ServerStatuses, st': PageState, render: bool)
    requires Step(st, StatusUpdate(m), st', render)
    ensures st'.statuses == m && !st'.inFlight && st'.body == AcceptingText && render
    ensures st'.log == st.log
  {
  }

  /** A failed request clears the in-flight marker and shows the generic
      error text; the statuses stay as they were. */
  lemma ErrorRecovers(st: PageState, detail: string, st': PageState, render: bool)
    requires Step(st, Error(detail), st', render)
    ensures !st'.inFlight && st'.body == ErrorText && render
    ensures st'.statuses == st.statuses && st'.log == st.log
  {
  }

  /** Every request the handler sends is sent by an action message, for
      that message's server and action, one at a time, and is marked in
      flight; a Start request is only sent when every other server is
      Stopped. */
  lemma {:induction false} RequestsFollowPolicy(st: PageState, msg: Msg, st': PageState, render: bool)
    requires Handles(st.statuses, msg)
    requires Step(st, msg, st', render)
    ensures st'.log == st.log || (
      (msg.StartServer? || msg.StopServer? || msg.UpdateServer?) &&
      st'.log == st.log + [ServerRequest(msg.target, ActionOf(msg))] &&
      st'.inFlight && st'.statuses == st.statuses)
    ensures msg.StartServer? && st'.log != st.log ==>
      forall k :: k in st.statuses && k != msg.target ==> st.statuses[k] == Stopped
  {
    match msg
    case StartServer(s) =>
      if st.statuses[s] == Stopped || st.statuses[s] == Unknown {
        assert StartPolicyStep(st, s, st', render);
        if exists k :: Blocks(st.statuses, s, k) {
          var k :| Blocks(st.statuses, s, k) && st' == st.(body := NotStoppedText(k));
        } else {
          forall k | k in st.statuses && k != s
            ensures st.statuses[k] == Stopped
          {
            assert !Blocks(st.statuses, s, k);
          }
        }
      }
    case StopServer(s) =>
    case UpdateServer(s) =>
    case StatusUpdate(m) =>
    case Error(e) =>
  }

  /** A call of the handler that asks for no re-render leaves the state as
      it was, so the buttons drawn before it still show the current state. */
  lemma NoRenderMeansNoChange(st: PageState, msg: Msg, st': PageState)
    requires Handles(st.statuses, msg)
    requires Step(st, msg, st', false)
    ensures st' == st
  {
  }

  /** The policy decides a start one way only: a refusal can only name
      the one other server. */
  lemma {:induction false} PolicyDeterministic(st: PageState, s: Server, a: PageState, ra: bool, b: PageState, rb: bool)
    requires StartPolicyStep(st, s, a, ra) && StartPolicyStep(st, s, b, rb)
    ensures a == b && ra == rb
  {
    if exists k :: Blocks(st.statuses, s, k) {
      var y :| Blocks(st.statuses, s, y);
      PolicyRefusalNamesBlocker(st, s, y, a, ra);
      PolicyRefusalNamesBlocker(st, s, y, b, rb);
    }
  }

  /** The Start arm is deterministic. */
  lemma {:induction false} StartStepDeterministic(st: PageState, s: Server, a: PageState, ra: bool, b: PageState, rb: bool)
    requires s in st.statuses
    requires StartStep(st, s, a, ra) && StartStep(st, s, b, rb)
    ensures a == b && ra == rb
  {
    match st.statuses[s]
    case Stopped => PolicyDeterministic(st, s, a, ra, b, rb);
    case Unknown => PolicyDeterministic(st, s, a, ra, b, rb);
    case _ =>
  }

  /** With two known servers the handler is deterministic: the blocking
      server a refused start names is the only one there can be. */
  lemma {:induction false} StepDeterministic(st: PageState, msg: Msg, a: PageState, ra: bool, b: PageState, rb: bool)
    requires Handles(st.statuses, msg)
    requires Step(st, msg, a, ra) && Step(st, msg, b, rb)
    ensures a == b && ra == rb
  {
    if msg.StartServer? {
      StartStepDeterministic(st, msg.target, a, ra, b, rb);
    }
  }

  /** One request at a time, as the page enforces it: a click on an
      enabled button happens only while no request is in flight, Stop and
      Update clicks always send their request, and a Start click sends it
      exactly when every other server is Stopped. */
  lemma {:induction false} ClickedRequestsNeverOverlap(st: PageState, s: Server, a: ServerAction, st': PageState, render: bool)
    requires s in st.statuses
    requires a in EnabledActions(Render(st.statuses, st.inFlight)[s])
    requires Step(st, ClickMsg(s, a), st', render)
    ensures !st.inFlight
    ensures a != Start ==> st'.log == st.log + [ServerRequest(s, a)] && st'.inFlight
    ensures a == Start ==>
      (st'.log == st.log + [ServerRequest(s, Start)] <==>
       forall k :: k in st.statuses && k != s ==> st.statuses[k] == Stopped)
    ensures a == Start ==> st'.log == st.log || st'.log == st.log + [ServerRequest(s, Start)]
  {
    EnabledIffIdleAndShown(st.statuses, st.inFlight, s, a);
    if a == Start {
      assert st.statuses[s] == Stopped;
      if forall k :: k in st.statuses && k != s ==> st.statuses[k] == Stopped {
        StartSentWhenOthersStopped(st, s, st', render);
      } else {
        var y :| y in st.statuses && y != s && st.statuses[y] != Stopped;
        StartRefusedWhileAnotherActive(st, s, y, st', render);
      }
    } else if a == Stop {
      StopBehaviour(st, s, st', render);
    } else {
      UpdateBehaviour(st, s, st', render);
    }
  }

  /** While the initial status fetch is in flight no button can be
      clicked, whatever the placeholder statuses say. */
  lemma InitialHasNoEnabledButton()
    ensures Initial().inFlight && Initial().log == [FetchStatus]
    ensures forall s :: s in Initial().statuses ==>
      EnabledActions(Render(Initial().statuses, Initial().inFlight)[s]) == {}
  {
  }

  /** A page load whose fetch reports Default Stopped and Rotis Running:
      Start on Default is then refused, naming Rotis, and no request is
      sent, because Rotis is running. */
  lemma {:induction false} StartRefusedAfterLoad(st1: PageState, r1: bool, st2: PageState, r2: bool)
    requires Step(Initial(), StatusUpdate(map[Default := Stopped, Rotis := Running]), st1, r1)
    requires Step(st1, StartServer(Default), st2, r2)
    ensures st2.body == NotStoppedText(Rotis)
    ensures st2.log == [FetchStatus] && !st2.inFlight
    ensures Start in EnabledActions(Render(st1.statuses, st1.inFlight)[Default])
  {
    StartRefusedWhileAnotherActive(st1, Default, Rotis, st2, r2);
    EnabledIffIdleAndShown(st1.statuses, st1.inFlight, Default, Start);
  }

  /** The single-active-server policy guards Start only: with Rotis running,
      the enabled Update button of a stopped Default still sends its
      request. */
  lemma {:induction false} UpdateNotGuardedByPolicy(st: PageState, st': PageState, render: bool)
    requires st.statuses == map[Default := Stopped, Rotis := Running] && !st.inFlight
    requires Step(st, UpdateServer(Default), st', render)
    ensures Update in EnabledActions(Render(st.statuses, st.inFlight)[Default])
    ensures st'.log == st.log + [ServerRequest(Default, Update)]
  {
    EnabledIffIdleAndShown(st.statuses, st.inFlight, Default, Update);
    UpdateBehaviour(st, Default, st', render);
  }
}
