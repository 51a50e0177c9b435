/** The instance's fields, changed in place by the calls that hold the lifecycle lock and by the workers. */
module SessionInstance {
  import opened Options
  import opened Session

  /** Shared by the instance and a platform callback. */
  class CloseTicket {
    var done: bool
    var success: bool

    function View(): Ticket
      reads this
    {
      Ticket(done, success)
    }

    constructor ()
      ensures View() == PENDING
    {
      done, success := false, false;
    }

    method Complete(ok: bool)
      modifies this
      ensures View() == Completed(old(View()), ok)
    {
      if done {
        return;
      }
      done, success := true, ok;
    }

    method HasSucceeded() returns (ok: bool)
      ensures ok == Succeeded(View())
    {
      ok := done && success;
    }

    /** What a wait returns when it is over, be it that the ticket was completed or that time ran out. */
    method Wait() returns (ok: bool)
      ensures ok == Succeeded(View())
    {
      ok := done && success;
    }
  }

  class Instance {
    var phase: Phase
    var generation: nat
    var cancelled: bool
    var running: bool
    var stopNeedsLiStop: bool
    var stopComplete: bool
    var connectionThread: bool
    var inputThread: bool
    var stopThread: bool
    var source: bool
    var openTicket: CloseTicket?
    var closeTicket: CloseTicket?

    function TicketView(t: CloseTicket?): Option<Ticket>
      reads t
    {
      if t == null then None else Some(t.View())
    }

    function View(): Core
      reads this, openTicket, closeTicket
    {
      Core(phase, generation, cancelled, running, stopNeedsLiStop, stopComplete, connectionThread, inputThread,
           stopThread, source, TicketView(openTicket), TicketView(closeTicket))
    }

    constructor ()
      ensures View() == INITIAL
    {
      phase, generation, cancelled, running, stopNeedsLiStop, stopComplete := Idle, 0, false, false, false, true;
      connectionThread, inputThread, stopThread, source := false, false, false, false;
      openTicket, closeTicket := null, null;
    }

    method ReleaseMedia()
      modifies this
      ensures View() == Released(old(View()))
    {
      source, openTicket, closeTicket := false, null, null;
    }

    /** Leaving Blocked takes a close that went through. */
    method Unblock() returns (ok: bool)
      modifies this
      ensures ok == (old(View()).phase.Blocked? ==> old(View()).close.Some? && Succeeded(old(View()).close.value))
      ensures View() == if ok && old(View()).phase.Blocked? then Released(old(View())) else old(View())
    {
      if phase != Blocked {
        return true;
      }
      if closeTicket == null {
        return false;
      }
      ok := closeTicket.HasSucceeded();
      if ok {
        ReleaseMedia();
      }
    }

    method JoinStop()
      modifies this
      ensures View() == old(View()).(stopThread := false)
    {
      if stopThread {
        stopThread := false;
      }
    }

    lemma Fields()
      ensures View().phase == phase && View().stopComplete == stopComplete
    {
    }

    lemma Source()
      ensures View().source == source && (View().close.None? <==> closeTicket == null)
    {
    }

    method BeginSession() returns (ok: bool)
      modifies this
      ensures ok == MayBegin(old(View())) && View() == Begun(old(View()))
    {
      hide View, TicketView, Released, NewSession;
      Fields();
      if phase == Starting || phase == Running {
        return false;
      }
      if !stopComplete {
        return false;
      }
      JoinStop();
      ok := Unblock();
      if ok {
        Renew();
      }
      SameEnd(old(View()));
    }

    lemma SameEnd(c: Core)
      ensures Released(c).(stopThread := false) == Released(c.(stopThread := false))
    {
    }

    method Renew()
      modifies this
      ensures View() == NewSession(old(View()))
    {
      generation := (generation + 1) % GENERATIONS;
      phase := Starting;
      cancelled := false;
      stopNeedsLiStop := false;
    }

    /** `created` says whether the stop worker could be started. */
    method RequestStop(stopCommon: bool, created: bool)
      modifies this
      ensures View() == StopRequested(old(View()), stopCommon, created)
    {
      if phase == Idle || phase == Stopping || phase == Blocked {
        return;
      }
      BeginStopping(stopCommon);
      stopThread := true;
      if !created {
        stopThread := false;
        phase := Blocked;
      }
    }

    method BeginStopping(stopCommon: bool)
      modifies this
      ensures var c := old(View());
        View() == c.(phase := Stopping, cancelled := true, stopNeedsLi := c.stopNeedsLi || stopCommon,
                     running := false, stopComplete := false)
    {
      phase := Stopping;
      cancelled := true;
      if stopCommon {
        stopNeedsLiStop := true;
      }
      running := false;
      stopComplete := false;
    }

    /** The lifecycle part of StartStream. */
    method StartStream(surface: bool, connCreated: bool, stopCreated: bool) returns (ok: bool)
      modifies this
      ensures ok == MayBegin(old(View()))
      ensures forall s: State :: s.core == old(View()) ==> View() == Started(s, surface, connCreated, stopCreated).core
    {
      ok := BeginSession();
      if !ok {
        return;
      }
      source := true;
      if surface {
        connectionThread := true;
        if !connCreated {
          connectionThread := false;
        }
      } else {
        RequestStop(false, stopCreated);
      }
    }

    /** The end of the connection worker, under the lock: Running before the input worker can see it. */
    method PublishConnection(mine: nat, created: bool)
      modifies this
      ensures View() == Published(old(View()), mine, created)
    {
      if mine != generation || cancelled {
        return;
      }
      running := true;
      phase := Running;
      inputThread := true;
      if !created {
        inputThread := false;
      }
    }

    // ---- StopThreadFunc, one shared access after the other ----

    method StopEnter(mine: nat) returns (current: bool)
      ensures current == (mine == View().generation)
    {
      current := mine == generation;
    }

    method JoinConnection()
      modifies this
      ensures View() == old(View()).(connThread := false)
      ensures openTicket == old(openTicket) && closeTicket == old(closeTicket)
    {
      if connectionThread {
        connectionThread := false;
      }
    }

    method TakeStopCommon() returns (stopCommon: bool)
      modifies this
      ensures stopCommon == old(View()).stopNeedsLi
      ensures View() == old(View()).(stopNeedsLi := false, running := false)
      ensures openTicket == old(openTicket) && closeTicket == old(closeTicket)
    {
      stopCommon := stopNeedsLiStop;
      stopNeedsLiStop, running := false, false;
    }

    method JoinInput()
      modifies this
      ensures View() == old(View()).(inputThread := false)
      ensures openTicket == old(openTicket) && closeTicket == old(closeTicket)
    {
      if inputThread {
        inputThread := false;
      }
    }

    /** Closing the media source; whether it is safe to give it up, and what to wait for first. */
    method CloseSource(safe: bool, ready: Ready, accepted: bool) returns (ok: bool, ticket: CloseTicket?)
      modifies this
      ensures ok == (safe && !ready.Unknown?) && (ticket != null <==> ok && ready.NeedsClose?)
      ensures View() == if ticket == null then old(View()) else old(View()).(close := Some(AskedToClose(accepted)))
      ensures openTicket == old(openTicket) && (ticket != null ==> ticket == closeTicket && fresh(ticket))
    {
      ok, ticket := safe && !ready.Unknown?, null;
      if ok && ready.NeedsClose? {
        ticket := new CloseTicket();
        if !accepted {
          ticket.Complete(false);
        }
        closeTicket := ticket;
      }
    }

    method Settle(safe: bool)
      modifies this
      ensures View() == old(View()).(phase := if safe then Idle else Blocked)
    {
      phase := if safe then Idle else Blocked;
    }

    method Finish()
      modifies this
      ensures View() == old(View()).(stopComplete := true)
    {
      stopComplete := true;
    }

    /** The platform's callback may come before a wait for its ticket is over. */
    method WaitFor(ticket: CloseTicket, callback: Option<bool>) returns (ok: bool)
      modifies ticket
      ensures ticket.View() == Called(old(ticket.View()), callback) && ok == Succeeded(ticket.View())
    {
      if callback.Some? {
        ticket.Complete(callback.value);
      }
      ok := ticket.Wait();
    }

    /** The open may still be under way. */
    method WaitForOpen(called: bool) returns (safe: bool)
      requires source && (openTicket == null || openTicket != closeTicket)
      modifies openTicket
      ensures View() == WaitedForOpen(old(View()), called) && safe == OpenOver(View())
    {
      safe := true;
      if openTicket != null {
        safe := WaitFor(openTicket, if called then Some(true) else None);
      }
    }

    method WaitForClose(called: Option<bool>) returns (safe: bool)
      requires closeTicket != null && openTicket != closeTicket
      modifies closeTicket
      ensures View() == old(View()).(close := Some(Called(old(View()).close.value, called)))
      ensures safe == Succeeded(View().close.value)
    {
      safe := WaitFor(closeTicket, called);
    }

    /** Close the media source, and wait until it is closed. */
    method CloseAndWait(safe: bool, p: Platform) returns (ok: bool)
      requires openTicket == null || openTicket != closeTicket
      modifies this
      ensures ok == (safe && (p.ready.NoClose? || (p.ready.NeedsClose? && Succeeded(ClosedTicket(p)))))
      ensures View() == if safe && p.ready.NeedsClose? then old(View()).(close := Some(ClosedTicket(p)))
        else old(View())
    {
      var ticket;
      ok, ticket := CloseSource(safe, p.ready, p.accepted);
      if ticket != null {
        ok := WaitForClose(p.closeCalled);
      }
    }

    /** Wait for the open, close, and wait for the close, as far as there is a source. */
    method CloseMedia(p: Platform) returns (safe: bool)
      requires closeTicket == null
      modifies this, openTicket
      ensures safe == ClosesWell(old(View()), p) && View() == AfterClosing(old(View()), p)
    {
      hide View, OpenOver, ClosedTicket, Succeeded;
      safe := true;
      Source();
      if source {
        safe := WaitForOpen(p.openCalled);
        safe := CloseAndWait(safe, p);
      }
    }

    /**
     * The whole stop worker. What is left behind is what the abstract steps leave, and the session is idle, with
     * everything given up, exactly when the close went well.
     */
    method StopThread(mine: nat, p: Platform, ghost s: State) returns (ghost es: seq<Event>)
      requires s.core == View() && Inv(s) && StopIs(s, Entering) && mine == s.stop.generation && WorkersEnded(s)
      modifies this, openTicket
      ensures Teardown(s, es) && Run(s, es).core == View() && Run(s, es).stop.StopGone?
      ensures View().stopComplete && View().phase == if ClosesWell(s.core, p) then Idle else Blocked
      ensures View().phase.Idle? ==> !View().source && View().open.None? && View().close.None?
    {
      hide View, ClosesWell, AfterClosing, Inv, CanRun, Only, Run, Joined;
      AtEntering(s);
      es := StopSteps(s, p);
      Source();
      WellJoined(s.core, p);
      var current := StopEnter(mine);
      if current {
        JoinConnection();
        var stopCommon := TakeStopCommon();
        JoinInput();
        JoinedIs(s.core);
        Source();
        var safe := CloseMedia(p);
        if safe {
          ReleaseMedia();
        }
        Settle(safe);
        Finish();
      }
    }
  }

  // ---- What the stop worker leaves, step after step ----

  /** What the platform calls back before the waits are over, and what it answers. */
  datatype Platform = Platform(openCalled: bool, ready: Ready, accepted: bool, closeCalled: Option<bool>)

  predicate WorkersEnded(s: State) { (s.conn.NoConn? || s.conn.ConnGone?) && !s.input.Polling? }

  function AskedToClose(accepted: bool): Ticket { if accepted then PENDING else Completed(PENDING, false) }

  function Called(t: Ticket, callback: Option<bool>): Ticket {
    match callback
    case None => t
    case Some(success) => Completed(t, success)
  }

  function ClosedTicket(p: Platform): Ticket { Called(AskedToClose(p.accepted), p.closeCalled) }

  function Joined(c: Core): Core {
    c.(connThread := false, inputThread := false, stopNeedsLi := false, running := false)
  }

  lemma JoinedIs(c: Core)
    ensures Joined(c) == c.(connThread := false).(stopNeedsLi := false, running := false).(inputThread := false)
  {
  }

  function WaitedForOpen(c: Core, called: bool): Core {
    if c.open.Some? && called then c.(open := Some(Completed(c.open.value, true))) else c
  }

  /** The open is over, or nothing was opened. */
  predicate OpenOver(c: Core) { c.open.Some? ==> Succeeded(c.open.value) }

  /** The open is over, and the source needs no close or its close succeeds; or there is no source. */
  predicate ClosesWell(c: Core, p: Platform) {
    c.source ==>
      && OpenOver(WaitedForOpen(c, p.openCalled)) && !p.ready.Unknown?
      && (p.ready.NeedsClose? ==> Succeeded(ClosedTicket(p)))
  }

  function AfterClosing(c: Core, p: Platform): Core {
    if !c.source then c
    else
      var t := WaitedForOpen(c, p.openCalled);
      if OpenOver(t) && p.ready.NeedsClose? then t.(close := Some(ClosedTicket(p))) else t
  }

  lemma WellJoined(c: Core, p: Platform)
    ensures ClosesWell(Joined(c), p) == ClosesWell(c, p)
  {
  }

  function Left(c: Core, safe: bool): Core {
    (if safe then Released(c) else c).(phase := if safe then Idle else Blocked, stopComplete := true)
  }

  lemma AtEntering(s: State)
    requires Inv(s) && StopIs(s, Entering)
    ensures s.stop.generation == s.core.generation && s.stop.safe && s.core.close.None?
    ensures s.opening <==> !Settled(s.core.open)
  {
  }

  predicate OfTeardown(e: Event) { OfStop(e) || e.OpenCallback? || e.CloseCallback? }

  /** Events of the stop worker and callbacks that can happen one after the other. */
  predicate Teardown(s: State, es: seq<Event>) { CanRun(s, es) && Only(es) }

  predicate Only(es: seq<Event>) { forall e :: e in es ==> OfTeardown(e) }

  lemma Noted(s: State, es: seq<Event>, e: Event) returns (more: seq<Event>)
    requires Teardown(s, es) && Enabled(Run(s, es), e) && OfTeardown(e)
    ensures Teardown(s, more) && Run(s, more) == Step(Run(s, es), e)
  {
    RunNext(s, es, e);
    more := es + [e];
  }

  lemma TeardownNothing(s: State)
    ensures Teardown(s, []) && Run(s, []) == s
  {
  }

  lemma EnterNext(s: State)
    requires StopIs(s, Entering) && s.stop.generation == s.core.generation
    ensures Enabled(s, Event.StopEnter) && Step(s, Event.StopEnter) == Moved(s, JoiningConn)
  {
  }

  lemma JoinConnNext(s: State)
    requires StopIs(s, JoiningConn) && (s.core.connThread ==> s.conn.ConnGone?)
    ensures Enabled(s, Event.StopJoinConn)
    ensures var t := Step(s, Event.StopJoinConn);
      t == s.(core := s.core.(connThread := false), conn := t.conn, stop := s.stop.(point := Flagging))
  {
  }

  lemma FlagNext(s: State)
    requires StopIs(s, Flagging)
    ensures Enabled(s, StopFlag)
    ensures Step(s, StopFlag) == s.(core := s.core.(stopNeedsLi := false, running := false),
      stop := s.stop.(stopCommon := s.core.stopNeedsLi, point := JoiningInput))
  {
  }

  lemma JoinInputNext(s: State)
    requires StopIs(s, JoiningInput) && (s.core.inputThread ==> s.input.InputGone?)
    ensures Enabled(s, Event.StopJoinInput)
    ensures var t := Step(s, Event.StopJoinInput);
      t == s.(core := s.core.(inputThread := false), input := t.input, stop := s.stop.(point := StoppingCommon))
  {
  }

  lemma CommonNext(s: State)
    requires StopIs(s, StoppingCommon)
    ensures Enabled(s, StopCommonDone)
    ensures Step(s, StopCommonDone) == Moved(s, if s.core.source then WaitingOpen else Releasing)
  {
  }

  lemma Joinable(s: State)
    requires Inv(s) && WorkersEnded(s)
    ensures (s.core.connThread ==> s.conn.ConnGone?) && (s.core.inputThread ==> s.input.InputGone?)
  {
  }

  lemma JoinSteps(s: State) returns (es: seq<Event>)
    requires Inv(s) && StopIs(s, Entering) && WorkersEnded(s)
    ensures Teardown(s, es)
    ensures var t := Run(s, es);
      && t.core == Joined(s.core) && t.opening == s.opening && t.closing == s.closing
      && t.stop == s.stop.(stopCommon := s.core.stopNeedsLi, point := if s.core.source then WaitingOpen else Releasing)
  {
    hide Run, CanRun, Only, Step, Enabled, Inv, WorkersEnded;
    TeardownNothing(s);
    AtEntering(s);
    Joinable(s);
    EnterNext(s);
    es := Noted(s, [], Event.StopEnter);
    JoinConnNext(Run(s, es));
    es := Noted(s, es, Event.StopJoinConn);
    FlagNext(Run(s, es));
    es := Noted(s, es, StopFlag);
    JoinInputNext(Run(s, es));
    es := Noted(s, es, Event.StopJoinInput);
    CommonNext(Run(s, es));
    es := Noted(s, es, StopCommonDone);
  }

  lemma OpenNext(s: State)
    requires s.opening
    ensures Enabled(s, OpenCallback)
    ensures Step(s, OpenCallback) == s.(core := s.core.(open := CompletedIn(s.core.open, true)), opening := false)
  {
  }

  lemma OpenWaitNext(s: State)
    requires StopIs(s, WaitingOpen)
    ensures Enabled(s, StopOpenWait)
    ensures Step(s, StopOpenWait) == s.(stop := s.stop.(point := Closing, safe := s.stop.safe && OpenOver(s.core)))
  {
  }

  lemma CloseNext(s: State, ready: Ready, accepted: bool)
    requires StopIs(s, Closing)
    ensures Enabled(s, StopClose(ready, accepted))
    ensures var t := Step(s, StopClose(ready, accepted));
      if s.stop.safe && ready.NeedsClose? then
        t == s.(core := s.core.(close := Some(AskedToClose(accepted))), closing := accepted,
          stop := s.stop.(point := WaitingClose))
      else t == s.(stop := s.stop.(point := Releasing, safe := s.stop.safe && !ready.Unknown?))
    ensures accepted <==> !AskedToClose(accepted).done
  {
  }

  lemma ClosedNext(s: State, success: bool)
    requires s.closing
    ensures Enabled(s, CloseCallback(success))
    ensures Step(s, CloseCallback(success)) ==
      s.(core := s.core.(close := CompletedIn(s.core.close, success)), closing := false)
  {
  }

  lemma CloseWaitNext(s: State)
    requires StopIs(s, WaitingClose) && s.core.close.Some?
    ensures Enabled(s, StopCloseWait)
    ensures Step(s, StopCloseWait) == s.(stop := s.stop.(point := Releasing, safe := Succeeded(s.core.close.value)))
  {
  }

  lemma OpenSteps(s: State, before: seq<Event>, called: bool) returns (es: seq<Event>)
    requires Teardown(s, before) && StopIs(Run(s, before), WaitingOpen)
    requires var t := Run(s, before); t.stop.safe && (t.opening <==> !Settled(t.core.open))
    ensures Teardown(s, es) && Run(s, es).core == WaitedForOpen(Run(s, before).core, called)
    ensures Run(s, es).core.source == Run(s, before).core.source
    ensures StopIs(Run(s, es), Closing) && Run(s, es).stop.safe == OpenOver(Run(s, es).core)
  {
    hide Run, CanRun, Only, Step, Enabled;
    es := before;
    if called && Run(s, es).opening {
      OpenNext(Run(s, es));
      es := Noted(s, es, OpenCallback);
    }
    OpenWaitNext(Run(s, es));
    es := Noted(s, es, StopOpenWait);
  }

  lemma AwaitSteps(s: State, before: seq<Event>, called: Option<bool>) returns (es: seq<Event>)
    requires Teardown(s, before) && StopIs(Run(s, before), WaitingClose)
    requires var t := Run(s, before); t.core.close.Some? && (t.closing <==> !t.core.close.value.done)
    ensures Teardown(s, es) && StopIs(Run(s, es), Releasing)
    ensures var c := Run(s, before).core;
      && Run(s, es).core == c.(close := Some(Called(c.close.value, called)))
      && Run(s, es).stop.safe == Succeeded(Called(c.close.value, called))
  {
    hide Run, CanRun, Only, Step, Enabled;
    es := before;
    if called.Some? && Run(s, es).closing {
      ClosedNext(Run(s, es), called.value);
      es := Noted(s, es, CloseCallback(called.value));
    }
    CloseWaitNext(Run(s, es));
    es := Noted(s, es, StopCloseWait);
  }

  lemma AskSteps(s: State, before: seq<Event>, p: Platform) returns (es: seq<Event>)
    requires Teardown(s, before) && StopIs(Run(s, before), Closing)
    ensures Teardown(s, es) && StopIs(Run(s, es), Releasing)
    ensures var t := Run(s, before);
      && Run(s, es).core ==
        (if t.stop.safe && p.ready.NeedsClose? then t.core.(close := Some(ClosedTicket(p))) else t.core)
      && Run(s, es).stop.safe ==
         (t.stop.safe && (p.ready.NoClose? || (p.ready.NeedsClose? && Succeeded(ClosedTicket(p)))))
  {
    hide Run, CanRun, Only, Step, Enabled, Called, AskedToClose, Succeeded, Settled;
    CloseNext(Run(s, before), p.ready, p.accepted);
    es := Noted(s, before, StopClose(p.ready, p.accepted));
    if StopIs(Run(s, es), WaitingClose) {
      es := AwaitSteps(s, es, p.closeCalled);
    }
  }

  lemma CloseSteps(s: State, before: seq<Event>, p: Platform) returns (es: seq<Event>)
    requires Teardown(s, before) && StopIs(Run(s, before), WaitingOpen)
    requires var t := Run(s, before); t.core.source && t.stop.safe && (t.opening <==> !Settled(t.core.open))
    ensures Teardown(s, es) && StopIs(Run(s, es), Releasing)
    ensures Run(s, es).core == AfterClosing(Run(s, before).core, p)
    ensures Run(s, es).stop.safe == ClosesWell(Run(s, before).core, p)
  {
    hide Run, CanRun, Only, Step, Enabled, OpenOver, WaitedForOpen, ClosedTicket, Succeeded;
    es := OpenSteps(s, before, p.openCalled);
    es := AskSteps(s, es, p);
  }

  lemma ReleaseNext(s: State)
    requires StopIs(s, Releasing)
    ensures Enabled(s, StopRelease)
    ensures Step(s, StopRelease) == Moved(if s.stop.safe then s.(core := Released(s.core)) else s, Settling)
  {
  }

  lemma SettleNext(s: State)
    requires StopIs(s, Settling)
    ensures Enabled(s, StopSettle)
    ensures Step(s, StopSettle) == Moved(s.(core := s.core.(phase := if s.stop.safe then Idle else Blocked)), Finishing)
  {
  }

  lemma FinishNext(s: State)
    requires StopIs(s, Finishing)
    ensures Enabled(s, StopFinish)
    ensures Step(s, StopFinish) == s.(core := s.core.(stopComplete := true), stop := StopGone)
  {
  }

  lemma EndSteps(s: State, before: seq<Event>) returns (es: seq<Event>)
    requires Teardown(s, before) && StopIs(Run(s, before), Releasing)
    ensures Teardown(s, es) && Run(s, es).stop.StopGone?
    ensures Run(s, es).core == Left(Run(s, before).core, Run(s, before).stop.safe)
  {
    hide Run, CanRun, Only, Step, Enabled;
    ReleaseNext(Run(s, before));
    es := Noted(s, before, StopRelease);
    SettleNext(Run(s, es));
    es := Noted(s, es, StopSettle);
    FinishNext(Run(s, es));
    es := Noted(s, es, StopFinish);
  }

  lemma StopSteps(s: State, p: Platform) returns (es: seq<Event>)
    requires Inv(s) && StopIs(s, Entering) && WorkersEnded(s)
    ensures Teardown(s, es) && Run(s, es).stop.StopGone?
    ensures Run(s, es).core == Left(AfterClosing(Joined(s.core), p), ClosesWell(Joined(s.core), p))
  {
    hide Run, CanRun, Only, Left, Inv, Step, Enabled;
    AtEntering(s);
    es := JoinSteps(s);
    if s.core.source {
      es := CloseSteps(s, es, p);
    }
    es := EndSteps(s, es);
  }

  // ---- Sessions one after the other ----

  /** A platform that opens and closes what it is asked to. */
  const OBLIGING := Platform(true, NeedsClose, true, Some(true))

  /** The steps up to a running session. */
  lemma StartUp(s: State) returns (es: seq<Event>)
    requires Inv(s) && s.core.phase == Idle && s.core.stopComplete
    ensures CanRun(s, es) && Inv(Run(s, es)) && Run(s, es).sessions == s.sessions + 1
    ensures Run(s, es).core.phase == Running && Run(s, es).input == Polling
    ensures Run(s, es).core.open == Some(Ticket(true, true))
  {
    hide Inv, Step, Enabled;
    Begins(s);
    RunNothing(s);
    RunNext(s, [], Event.StartStream(true, true, true));
    var begun := [] + [Event.StartStream(true, true, true)];
    SessionRuns(Run(s, begun));
    RunAppend(s, begun, ConnectingSteps());
    es := begun + ConnectingSteps();
    RunKeeps(s, es);
  }

  lemma Begins(s: State)
    requires Inv(s) && s.core.phase == Idle && s.core.stopComplete
    ensures Enabled(s, Event.StartStream(true, true, true))
    ensures var t := Step(s, Event.StartStream(true, true, true));
      Inv(t) && t.conn == Launched(t.core.generation) && !t.core.cancelled && t.sessions == s.sessions + 1
  {
    hide Step, Enabled;
    StartEnabled(s);
    BeginsExactlyWhen(s, true, true);
    StepKeeps(s, Event.StartStream(true, true, true));
  }

  lemma StartEnabled(s: State)
    ensures Enabled(s, Event.StartStream(true, true, true))
  {
  }

  /** A running session is asked to stop, and its input worker notices. */
  lemma Stops(s: State)
    requires Inv(s) && s.core.phase == Running && s.input == Polling && s.core.open == Some(Ticket(true, true))
    ensures Enabled(s, Event.RequestStop(true, true)) && Enabled(Step(s, Event.RequestStop(true, true)), InputExit)
    ensures var u := Step(Step(s, Event.RequestStop(true, true)), InputExit);
      && StopIs(u, Entering) && WorkersEnded(u) && u.sessions == s.sessions
      && u.core.source && u.core.open == s.core.open && u.core.stopNeedsLi
  {
  }

  /** From idle through a whole session to idle again, with everything given up. */
  lemma WholeSession(s: State) returns (es: seq<Event>)
    requires Inv(s) && s.core.phase == Idle && s.core.stopComplete
    ensures CanRun(s, es) && Inv(Run(s, es)) && Run(s, es).sessions == s.sessions + 1
    ensures Run(s, es).core.phase == Idle && Run(s, es).core.stopComplete
  {
    hide Inv, Step, Enabled, ClosesWell, AfterClosing, Left, Only;
    es := StartUp(s);
    Stops(Run(s, es));
    RunNext(s, es, Event.RequestStop(true, true));
    es := es + [Event.RequestStop(true, true)];
    RunNext(s, es, InputExit);
    es := es + [InputExit];
    RunKeeps(s, es);
    var t := Run(s, es);
    var stops := StopSteps(t, OBLIGING);
    RunAppend(s, es, stops);
    es := es + stops;
    RunKeeps(s, es);
    SessionsKept(t, stops);
    ObligingEnds(t.core);
  }

  lemma ObligingEnds(c: Core)
    requires c.open == Some(Ticket(true, true))
    ensures var j := Joined(c); var left := Left(AfterClosing(j, OBLIGING), ClosesWell(j, OBLIGING));
      left.phase == Idle && left.stopComplete
  {
  }

  /** A teardown begins no session. */
  lemma {:induction false} SessionsKept(s: State, es: seq<Event>)
    requires Teardown(s, es)
    ensures Run(s, es).sessions == s.sessions
    decreases |es|
  {
    hide Step, Enabled;
    if es != [] {
      assert es[0] in es;
      TeardownStep(s, es[0]);
      SessionsKept(Step(s, es[0]), es[1..]);
    }
  }

  lemma TeardownStep(s: State, e: Event)
    requires Enabled(s, e) && OfTeardown(e)
    ensures Step(s, e).sessions == s.sessions
  {
  }

  /** Any number of sessions can be run from the start. */
  lemma {:induction false} ManySessions(n: nat) returns (es: seq<Event>)
    ensures CanRun(Session.START, es) && Inv(Run(Session.START, es)) && Run(Session.START, es).sessions == n
    ensures Run(Session.START, es).core.phase == Idle && Run(Session.START, es).core.stopComplete
  {
    hide Inv, Step, Enabled;
    if n == 0 {
      es := [];
      InvStart();
      RunNothing(Session.START);
    } else {
      es := ManySessions(n - 1);
      var more := WholeSession(Run(Session.START, es));
      RunAppend(Session.START, es, more);
      es := es + more;
    }
  }
}
