/**
 * The life of a streaming session: the main thread, a connection worker, an input worker, a stop worker and the
 * platform's callbacks, as steps on one state. Calls that hold the lifecycle lock throughout are one step.
 */
module Session {
  import opened Options

  const GENERATIONS := 0x1_0000_0000

  datatype Phase = Idle | Starting | Running | Stopping | Blocked

  /** What a platform callback completes; only its first completion counts. */
  datatype Ticket = Ticket(done: bool, success: bool)

  const PENDING := Ticket(false, false)

  function Completed(t: Ticket, success: bool): Ticket { if t.done then t else Ticket(true, success) }

  predicate Succeeded(t: Ticket) { t.done && t.success }

  /** The fields of the instance; a thread field says whether there is a handle to join. */
  datatype Core = Core(phase: Phase, generation: nat, cancelled: bool, running: bool, stopNeedsLi: bool,
                       stopComplete: bool, connThread: bool, inputThread: bool, stopThread: bool, source: bool,
                       open: Option<Ticket>, close: Option<Ticket>)

  const INITIAL := Core(Idle, 0, false, false, false, true, false, false, false, false, None, None)

  function Released(c: Core): Core { c.(source := false, open := None, close := None) }

  /** BeginSession says yes. */
  predicate MayBegin(c: Core) {
    !c.phase.Starting? && !c.phase.Running? && c.stopComplete
      && (c.phase.Blocked? ==> c.close.Some? && Succeeded(c.close.value))
  }

  /** The fields after BeginSession. The handle of a finished stop worker is taken even when the answer is no. */
  function Begun(c: Core): Core {
    if c.phase.Starting? || c.phase.Running? || !c.stopComplete then c
    else if !MayBegin(c) then c.(stopThread := false)
    else NewSession((if c.phase.Blocked? then Released(c) else c).(stopThread := false))
  }

  function NewSession(c: Core): Core {
    c.(generation := (c.generation + 1) % GENERATIONS, phase := Starting, cancelled := false, stopNeedsLi := false)
  }

  predicate Stoppable(c: Core) { c.phase.Starting? || c.phase.Running? }

  /** RequestStop; `created` says whether the stop worker could be started. */
  function StopRequested(c: Core, stopCommon: bool, created: bool): Core {
    if !Stoppable(c) then c
    else
      c.(phase := if created then Stopping else Blocked, cancelled := true,
         stopNeedsLi := c.stopNeedsLi || stopCommon, running := false, stopComplete := false, stopThread := created)
  }

  predicate MayPublish(c: Core, generation: nat) { generation == c.generation && !c.cancelled }

  /** The connection worker's last act under the lock: Running, and the input worker if it can be started. */
  function Published(c: Core, generation: nat, created: bool): Core {
    if !MayPublish(c, generation) then c else c.(running := true, phase := Running, inputThread := created)
  }

  // ---- Workers and the platform ----

  /** A worker whose connection failed waits until the main thread has heard of it. */
  datatype Conn =
    | NoConn
    | Launched(generation: nat)
    | Connecting(generation: nat, asked: bool)
    | Failed(generation: nat)
    | Told(generation: nat)
    | Connected(generation: nat)
    | ConnGone

  datatype Input = NoInput | Polling | InputGone

  /** Where the stop worker is. */
  datatype Point =
    | Entering | JoiningConn | Flagging | JoiningInput | StoppingCommon | WaitingOpen | Closing | WaitingClose
    | Releasing | Settling | Finishing

  datatype Stop = NoStop | At(generation: nat, point: Point, stopCommon: bool, safe: bool) | StopGone

  /**
   * `opening` and `closing` are operations the platform has not called back for; `sessions` counts the sessions
   * ever begun.
   */
  datatype State = State(core: Core, sessions: nat, conn: Conn, input: Input, stop: Stop, opening: bool, closing: bool)

  const START := State(INITIAL, 0, NoConn, NoInput, NoStop, false, false)

  /** The ready state of the media source, as far as it matters. */
  datatype Ready = Unknown | NeedsClose | NoClose

  datatype Event =
    | StartStream(surface: bool, connCreated: bool, stopCreated: bool)
    | RequestStop(stopCommon: bool, created: bool)
    | ServeFailure(created: bool)
    | Terminated
    | ConnEnter
    | ConnOpen(accepted: bool)
    | ConnReturn(ok: bool)
    | ConnEnd
    | ConnPublish(created: bool)
    | InputExit
    | StopEnter
    | StopJoinConn
    | StopFlag
    | StopJoinInput
    | StopCommonDone
    | StopOpenWait
    | StopClose(ready: Ready, accepted: bool)
    | StopCloseWait
    | StopRelease
    | StopSettle
    | StopFinish
    | OpenCallback
    | CloseCallback(success: bool)

  predicate StopIs(s: State, p: Point) { s.stop.At? && s.stop.point == p }

  function Moved(s: State, p: Point): State
    requires s.stop.At?
  {
    s.(stop := s.stop.(point := p))
  }

  /** A request on the main thread; a stop worker starts with the current generation. */
  function Requested(s: State, stopCommon: bool, created: bool): State {
    var t := s.(core := StopRequested(s.core, stopCommon, created));
    if Stoppable(s.core) && created then t.(stop := At(s.core.generation, Entering, false, true)) else t
  }

  /** StartStream on the main thread: begin, make the source, and start the connection worker or give up at once. */
  function Started(s: State, surface: bool, connCreated: bool, stopCreated: bool): State {
    var begun := s.(core := Begun(s.core), stop := if s.core.stopComplete && s.stop.StopGone? then NoStop else s.stop);
    if !MayBegin(s.core) then (if s.core.phase.Starting? || s.core.phase.Running? then s else begun)
    else
      var t := begun.(sessions := s.sessions + 1, core := begun.core.(source := true));
      if !surface then Requested(t, false, stopCreated)
      else if connCreated then t.(conn := Launched(t.core.generation), core := t.core.(connThread := true))
      else t.(core := t.core.(connThread := false))
  }

  /** Which steps can be taken. Joining waits for the other worker, a wait for its ticket may also run out of time. */
  predicate Enabled(s: State, e: Event) {
    match e
    case StartStream(_, _, _) => true
    case RequestStop(_, _) => true
    case ServeFailure(_) => s.conn.Failed?
    case Terminated => s.conn.Connecting? || s.core.running
    case ConnEnter => s.conn.Launched?
    case ConnOpen(_) => s.conn.Connecting? && !s.conn.asked
    case ConnReturn(_) => s.conn.Connecting?
    case ConnEnd => s.conn.Told?
    case ConnPublish(_) => s.conn.Connected?
    case InputExit => s.input.Polling? && !s.core.running
    case StopEnter => StopIs(s, Entering)
    case StopJoinConn => StopIs(s, JoiningConn) && (s.core.connThread ==> s.conn.ConnGone?)
    case StopFlag => StopIs(s, Flagging)
    case StopJoinInput => StopIs(s, JoiningInput) && (s.core.inputThread ==> s.input.InputGone?)
    case StopCommonDone => StopIs(s, StoppingCommon)
    case StopOpenWait => StopIs(s, WaitingOpen)
    case StopClose(_, _) => StopIs(s, Closing)
    case StopCloseWait => StopIs(s, WaitingClose) && s.core.close.Some?
    case StopRelease => StopIs(s, Releasing)
    case StopSettle => StopIs(s, Settling)
    case StopFinish => StopIs(s, Finishing)
    case OpenCallback => s.opening
    case CloseCallback(_) => s.closing
  }

  predicate OfStop(e: Event) {
    e.StopEnter? || e.StopJoinConn? || e.StopFlag? || e.StopJoinInput? || e.StopCommonDone? || e.StopOpenWait?
      || e.StopClose? || e.StopCloseWait?
    || e.StopRelease? || e.StopSettle? || e.StopFinish?
  }

  predicate OfConn(e: Event) { e.ConnEnter? || e.ConnOpen? || e.ConnReturn? || e.ConnEnd? || e.ConnPublish? }

  function CompletedIn(o: Option<Ticket>, success: bool): Option<Ticket> {
    match o
    case None => None
    case Some(t) => Some(Completed(t, success))
  }

  function ConnStep(s: State, e: Event): State
    requires Enabled(s, e) && OfConn(e)
  {
    match e
    case ConnEnter =>
      s.(conn := if MayPublish(s.core, s.conn.generation) then Connecting(s.conn.generation, false) else ConnGone)
    case ConnOpen(accepted) =>
      s.(core := s.core.(open := Some(if accepted then PENDING else Completed(PENDING, true))), opening := accepted,
         conn := s.conn.(asked := true))
    case ConnReturn(ok) =>
      if ok then s.(conn := Connected(s.conn.generation))
        else s.(core := s.core.(stopNeedsLi := false), conn := Failed(s.conn.generation))
    case ConnEnd => s.(conn := ConnGone)
    case ConnPublish(created) =>
      s.(core := Published(s.core, s.conn.generation, created), conn := ConnGone,
         input := if MayPublish(s.core, s.conn.generation) && created then Polling else s.input)
  }

  /** The stop worker, one shared access after the other. */
  function StopStep(s: State, e: Event): State
    requires Enabled(s, e) && OfStop(e)
  {
    match e
    case StopEnter => if s.stop.generation != s.core.generation then s.(stop := StopGone) else Moved(s, JoiningConn)
    case StopJoinConn =>
      Moved(if s.core.connThread then s.(core := s.core.(connThread := false), conn := NoConn) else s, Flagging)
    case StopFlag =>
      s.(core := s.core.(stopNeedsLi := false, running := false),
         stop := s.stop.(stopCommon := s.core.stopNeedsLi, point := JoiningInput))
    case StopJoinInput =>
      Moved(if s.core.inputThread then s.(core := s.core.(inputThread := false), input := NoInput) else s,
            StoppingCommon)
    case StopCommonDone => Moved(s, if s.core.source then WaitingOpen else Releasing)
    case StopOpenWait =>
      s.(stop := s.stop.(point := Closing, safe := s.stop.safe && (s.core.open.Some? ==> Succeeded(s.core.open.value))))
    case StopClose(ready, accepted) =>
      var safe := s.stop.safe && !ready.Unknown?;
      if safe && ready.NeedsClose? then
        s.(core := s.core.(close := Some(if accepted then PENDING else Completed(PENDING, false))), closing := accepted,
           stop := s.stop.(point := WaitingClose))
      else s.(stop := s.stop.(point := Releasing, safe := safe))
    case StopCloseWait => s.(stop := s.stop.(point := Releasing, safe := Succeeded(s.core.close.value)))
    case StopRelease => Moved(if s.stop.safe then s.(core := Released(s.core)) else s, Settling)
    case StopSettle => Moved(s.(core := s.core.(phase := if s.stop.safe then Idle else Blocked)), Finishing)
    case StopFinish => s.(core := s.core.(stopComplete := true), stop := StopGone)
  }

  function Step(s: State, e: Event): State
    requires Enabled(s, e)
  {
    match e
    case StartStream(surface, connCreated, stopCreated) => Started(s, surface, connCreated, stopCreated)
    case RequestStop(stopCommon, created) => Requested(s, stopCommon, created)
    case ServeFailure(created) => Requested(s, false, created).(conn := Told(s.conn.generation))
    case Terminated => s.(core := s.core.(stopNeedsLi := true))
    case InputExit => s.(input := InputGone)
    case OpenCallback => s.(core := s.core.(open := CompletedIn(s.core.open, true)), opening := false)
    case CloseCallback(success) => s.(core := s.core.(close := CompletedIn(s.core.close, success)), closing := false)
    case ConnEnter => ConnStep(s, e)
    case ConnOpen(_) => ConnStep(s, e)
    case ConnReturn(_) => ConnStep(s, e)
    case ConnEnd => ConnStep(s, e)
    case ConnPublish(_) => ConnStep(s, e)
    case _ => StopStep(s, e)
  }

  // ---- What every step keeps ----

  function Rank(p: Point): nat {
    match p
    case Entering => 0
    case JoiningConn => 1
    case Flagging => 2
    case JoiningInput => 3
    case StoppingCommon => 4
    case WaitingOpen => 5
    case Closing => 6
    case WaitingClose => 7
    case Releasing => 8
    case Settling => 9
    case Finishing => 10
  }

  predicate Settled(o: Option<Ticket>) { o.Some? ==> o.value.done }

  /** Handles stand for workers, workers belong to the current session, and tickets for the platform's operations. */
  predicate Tied(s: State) {
    && s.core.generation == s.sessions % 0x1_0000_0000
    && (s.core.connThread <==> !s.conn.NoConn?) && (s.core.inputThread <==> !s.input.NoInput?)
    && (!s.conn.NoConn? && !s.conn.ConnGone? ==> s.conn.generation == s.core.generation)
    && (s.stop.At? ==> s.stop.generation == s.core.generation)
    && (s.opening <==> !Settled(s.core.open)) && (s.closing <==> !Settled(s.core.close))
    && (s.core.running ==> s.core.phase.Running?) && (s.input.Polling? && s.core.phase.Running? ==> s.core.running)
    && (!s.input.NoInput? ==> s.conn.ConnGone? || s.conn.NoConn?)
    && (!s.core.source ==> s.core.open.None?) && (s.core.close.Some? ==> Settled(s.core.open))
    && (s.core.open.Some? && s.conn.Connecting? ==> s.conn.asked)
    && (s.conn.Launched? ==> s.core.open.None?)
    && (s.core.open.Some? && s.core.open.value.done ==> s.core.open.value.success)
  }

  /** What the phase says about everything else. */
  predicate Phased(s: State) {
    match s.core.phase
    case Idle =>
      && (s.core.cancelled <==> s.sessions > 0) && !s.core.connThread && !s.core.inputThread && !s.core.source
      && s.core.open.None? && s.core.close.None?
      && if s.core.stopComplete then !s.stop.At? else StopIs(s, Finishing)
    case Starting => !s.core.cancelled && s.stop.NoStop? && s.core.stopComplete && s.input.NoInput? && s.core.source
      && s.core.close.None?
                     && s.sessions > 0
    case Running => !s.core.cancelled && s.stop.NoStop? && s.core.stopComplete && s.conn.ConnGone? && s.core.source
      && s.core.close.None?
                    && s.sessions > 0
    case Stopping => s.core.cancelled && !s.core.stopComplete && s.stop.At? && Rank(s.stop.point) < 10 && Underway(s)
      && s.sessions > 0
    case Blocked =>
      && s.core.cancelled && s.sessions > 0
      && if s.core.stopComplete then !s.stop.At? && Stuck(s)
        else (StopIs(s, Finishing) && Stuck(s)) || (s.stop.NoStop? && s.core.source && s.core.close.None?)
  }

  /** The workers are gone, and a close that went through came after the open. */
  predicate Stuck(s: State) { !s.core.connThread && !s.core.inputThread && s.core.source }

  /** What the stop worker has achieved at each point. */
  predicate Underway(s: State)
    requires s.stop.At?
  {
    var n := Rank(s.stop.point);
    && (n >= 2 ==> !s.core.connThread) && (n >= 4 ==> !s.core.inputThread)
    && (n < 6 ==> s.stop.safe) && (n < 7 ==> s.core.close.None?)
    && (n < 9 ==> s.core.source) && (n >= 6 && s.stop.safe ==> Settled(s.core.open))
    && (n == 7 ==> s.core.close.Some? && s.stop.safe)
    && (n == 8 && s.stop.safe ==> Settled(s.core.close))
    && (n == 9 ==> if s.stop.safe then !s.core.source && s.core.open.None? && s.core.close.None? else s.core.source)
  }

  predicate Inv(s: State) { Tied(s) && Phased(s) }

  lemma InvStart()
    ensures Inv(START)
  {
  }

  /** The joins, and what follows them. */
  predicate Joining(e: Event) {
    e.StopEnter? || e.StopJoinConn? || e.StopFlag? || e.StopJoinInput? || e.StopCommonDone?
  }

  lemma JoiningTied(s: State, e: Event)
    requires Inv(s) && Enabled(s, e) && Joining(e)
    ensures Tied(StopStep(s, e))
  {
  }

  lemma JoiningPhased(s: State, e: Event)
    requires Inv(s) && Enabled(s, e) && Joining(e)
    ensures Phased(StopStep(s, e))
  {
  }

  lemma ClosingTied(s: State, e: Event)
    requires Inv(s) && Enabled(s, e) && OfStop(e) && !Joining(e)
    ensures Tied(StopStep(s, e))
  {
  }

  lemma ClosingPhased(s: State, e: Event)
    requires Inv(s) && Enabled(s, e) && OfStop(e) && !Joining(e)
    ensures Phased(StopStep(s, e))
  {
  }

  lemma ConnStepTied(s: State, e: Event)
    requires Inv(s) && Enabled(s, e) && OfConn(e)
    ensures Tied(ConnStep(s, e))
  {
  }

  lemma ConnStepPhased(s: State, e: Event)
    requires Inv(s) && Enabled(s, e) && OfConn(e)
    ensures Phased(ConnStep(s, e))
  {
  }

  lemma StartedKeeps(s: State, surface: bool, connCreated: bool, stopCreated: bool)
    requires Inv(s)
    ensures Inv(Started(s, surface, connCreated, stopCreated))
  {
  }

  lemma OtherKeeps(s: State, e: Event)
    requires Inv(s) && Enabled(s, e) && !OfStop(e) && !OfConn(e) && !e.StartStream?
    ensures Inv(Step(s, e))
  {
    hide StopStep, ConnStep, Started;
  }

  /** Every step of every thread keeps the invariant. */
  lemma StepKeeps(s: State, e: Event)
    requires Inv(s) && Enabled(s, e)
    ensures Inv(Step(s, e))
  {
    hide Tied, Phased, StopStep, ConnStep, Started, Requested;
    if OfStop(e) {
      if Joining(e) {
        JoiningTied(s, e);
        JoiningPhased(s, e);
      } else {
        ClosingTied(s, e);
        ClosingPhased(s, e);
      }
    } else if OfConn(e) {
      ConnStepTied(s, e);
      ConnStepPhased(s, e);
    } else if e.StartStream? {
      StartedKeeps(s, e.surface, e.connCreated, e.stopCreated);
    } else {
      OtherKeeps(s, e);
    }
  }

  // ---- Whole runs ----

  /** The events can happen one after the other. */
  predicate CanRun(s: State, es: seq<Event>)
    decreases |es|
  {
    es == [] || (Enabled(s, es[0]) && CanRun(Step(s, es[0]), es[1..]))
  }

  function Run(s: State, es: seq<Event>): State
    requires CanRun(s, es)
    decreases |es|
  {
    if es == [] then s else Run(Step(s, es[0]), es[1..])
  }

  lemma {:induction false} RunKeeps(s: State, es: seq<Event>)
    requires Inv(s) && CanRun(s, es)
    ensures Inv(Run(s, es))
    decreases |es|
  {
    hide Inv, Step, Enabled;
    if es != [] {
      StepKeeps(s, es[0]);
      RunKeeps(Step(s, es[0]), es[1..]);
    }
  }

  /** One event more. */
  lemma {:induction false} RunNext(s: State, es: seq<Event>, e: Event)
    requires CanRun(s, es) && Enabled(Run(s, es), e)
    ensures CanRun(s, es + [e]) && Run(s, es + [e]) == Step(Run(s, es), e)
    decreases |es|
  {
    hide Step, Enabled;
    if es == [] {
      assert [e][1..] == [];
    } else {
      RunNext(Step(s, es[0]), es[1..], e);
      assert (es + [e])[1..] == es[1..] + [e];
    }
  }

  /** The steps that give up the media source. */
  predicate Releases(s: State, e: Event) {
    (e.StopRelease? && s.stop.At? && s.stop.safe) || (e.StartStream? && MayBegin(s.core) && s.core.phase.Blocked?)
  }

  predicate Quiet(s: State) { s.conn.NoConn? && s.input.NoInput? && !s.opening && !s.closing }

  /**
   * In every reachable state: the source is given up only when the workers are gone and the platform has nothing
   * pending, and in no other way; a stop worker serves the current session; and Blocked is left only by a new session
   * after the close went through.
   */
  lemma Safety(es: seq<Event>, e: Event)
    requires CanRun(START, es) && Enabled(Run(START, es), e)
    ensures var s := Run(START, es); var t := Step(s, e);
      && (Releases(s, e) ==> Quiet(s))
      && (s.core.source && !t.core.source ==> Releases(s, e))
      && (s.stop.At? ==> s.stop.generation == s.core.generation)
      && (s.core.phase.Blocked? && !t.core.phase.Blocked? ==>
            e.StartStream? && t.sessions == s.sessions + 1 && s.core.close.Some? && Succeeded(s.core.close.value))
  {
    InvStart();
    RunKeeps(START, es);
    StepSafe(Run(START, es), e);
    hide *;
  }

  lemma StepSafe(s: State, e: Event)
    requires Inv(s) && Enabled(s, e)
    ensures var t := Step(s, e);
      && (Releases(s, e) ==> Quiet(s))
      && (s.core.source && !t.core.source ==> Releases(s, e))
      && (s.stop.At? ==> s.stop.generation == s.core.generation)
      && (s.core.phase.Blocked? && !t.core.phase.Blocked? ==>
            e.StartStream? && t.sessions == s.sessions + 1 && s.core.close.Some? && Succeeded(s.core.close.value))
  {
    if OfConn(e) {
      ConnSafe(s, e);
    } else if OfStop(e) {
      StopSafe(s, e);
    }
  }

  lemma ConnSafe(s: State, e: Event)
    requires Inv(s) && Enabled(s, e) && OfConn(e)
    ensures var t := ConnStep(s, e); t.core.source == s.core.source && (s.core.phase.Blocked? ==> t.core.phase.Blocked?)
  {
  }

  lemma StopSafe(s: State, e: Event)
    requires Inv(s) && Enabled(s, e) && OfStop(e)
    ensures var t := StopStep(s, e);
      && (Releases(s, e) ==> Quiet(s))
      && (s.core.source && !t.core.source ==> Releases(s, e))
      && (s.core.phase.Blocked? ==> t.core.phase.Blocked?)
  {
  }

  /** Starting, then Running, then Stopping, then the end. */
  function Progress(p: Phase): nat {
    match p
    case Starting => 0
    case Running => 1
    case Stopping => 2
    case Idle => 3
    case Blocked => 3
  }

  lemma StepForward(s: State, e: Event)
    requires Inv(s) && Enabled(s, e)
    ensures var t := Step(s, e); t.sessions == s.sessions || t.sessions == s.sessions + 1
    ensures var t := Step(s, e); t.sessions == s.sessions ==> Progress(t.core.phase) >= Progress(s.core.phase)
  {
    if OfConn(e) {
      ConnForward(s, e);
    } else if OfStop(e) {
      StopForward(s, e);
    }
  }

  lemma ConnForward(s: State, e: Event)
    requires Inv(s) && Enabled(s, e) && OfConn(e)
    ensures var t := ConnStep(s, e); t.sessions == s.sessions && Progress(t.core.phase) >= Progress(s.core.phase)
  {
  }

  lemma StopForward(s: State, e: Event)
    requires Inv(s) && Enabled(s, e) && OfStop(e)
    ensures var t := StopStep(s, e); t.sessions == s.sessions && Progress(t.core.phase) >= Progress(s.core.phase)
  {
  }

  /** Within one session the phases only go forward: once it is stopping it never runs again. */
  lemma {:induction false} Forward(s: State, es: seq<Event>)
    requires Inv(s) && CanRun(s, es)
    ensures Run(s, es).sessions >= s.sessions
    ensures Run(s, es).sessions == s.sessions ==> Progress(Run(s, es).core.phase) >= Progress(s.core.phase)
    decreases |es|
  {
    hide Inv, Step, Enabled;
    if es != [] {
      StepKeeps(s, es[0]);
      StepForward(s, es[0]);
      Forward(Step(s, es[0]), es[1..]);
    }
  }

  // ---- Sessions run ----

  /** A worker gives up on entering exactly when the session is not its own any more or was cancelled. */
  lemma EntersUnless(s: State)
    requires s.conn.Launched?
    ensures var t := Step(s, ConnEnter);
      && (t.conn == ConnGone <==> s.conn.generation != s.core.generation || s.core.cancelled)
      && (t.conn != ConnGone ==> t.conn == Connecting(s.conn.generation, false))
      && t == s.(conn := t.conn)
  {
  }

  /** A connected worker makes the session run exactly when it is still its own and was not cancelled. */
  lemma RunsUnless(s: State, created: bool)
    requires s.conn.Connected?
    ensures var t := Step(s, ConnPublish(created));
      && t.conn == ConnGone
      && (s.conn.generation == s.core.generation && !s.core.cancelled ==>
            t.core.phase == Running && t.core.running && (created ==> t.input == Polling))
      && (s.conn.generation != s.core.generation || s.core.cancelled ==> t == s.(conn := ConnGone))
  {
  }

  /**
   * A new session begins exactly when none is starting, running or stopping, and a blocked one was closed after
   * all.
   */
  lemma BeginsExactlyWhen(s: State, connCreated: bool, stopCreated: bool)
    requires Inv(s)
    ensures var t := Step(s, StartStream(true, connCreated, stopCreated));
      && (t.sessions == s.sessions + 1 <==>
            && s.core.stopComplete && (s.core.phase == Idle || s.core.phase == Blocked)
            && (s.core.phase == Blocked ==> s.core.close == Some(Ticket(true, true))))
      && (t.sessions != s.sessions + 1 ==> t.sessions == s.sessions && t.core.phase == s.core.phase && t.conn == s.conn)
      && (t.sessions == s.sessions + 1 ==>
            && t.core.phase == Starting && !t.core.cancelled && t.core.source
            && t.core.generation == t.sessions % 0x1_0000_0000
            && (connCreated ==> t.conn == Launched(t.core.generation)))
  {
  }

  /** Of the connection worker or the platform's callbacks. */
  predicate OfConnecting(e: Event) { OfConn(e) || e.OpenCallback? }

  function ConnectingSteps(): seq<Event> {
    [ConnEnter, ConnOpen(true), OpenCallback, ConnReturn(true), ConnPublish(true)]
  }

  lemma AllConnecting()
    ensures forall i :: 0 <= i < |ConnectingSteps()| ==> OfConnecting(ConnectingSteps()[i])
  {
  }

  /** What the connection worker and the platform make of a session that was launched, step after step. */
  lemma ConnectingOn(s: State)
    requires Inv(s) && s.conn == Launched(s.core.generation) && !s.core.cancelled
    ensures Enabled(s, ConnEnter) && Enabled(Step(s, ConnEnter), ConnOpen(true))
    ensures var s2 := Step(Step(s, ConnEnter), ConnOpen(true));
      Enabled(s2, OpenCallback) && Enabled(Step(s2, OpenCallback), ConnReturn(true))
    ensures var s4 := Step(Step(Step(Step(s, ConnEnter), ConnOpen(true)), OpenCallback), ConnReturn(true));
      Enabled(s4, ConnPublish(true)) && HasBegun(s, Step(s4, ConnPublish(true)))
  {
  }

  /** Running, with the input worker polling and the media source open. */
  predicate HasBegun(s: State, t: State) {
    && t.core.phase == Running && t.core.running && t.input == Polling && !t.core.cancelled
    && t.core.open == Some(Ticket(true, true)) && t.sessions == s.sessions
  }

  /** From any state with a worker launched for the session, it can be made to run, with its input worker polling. */
  lemma SessionRuns(s: State)
    requires Inv(s) && s.conn == Launched(s.core.generation) && !s.core.cancelled
    ensures CanRun(s, ConnectingSteps()) && HasBegun(s, Run(s, ConnectingSteps()))
    ensures forall i :: 0 <= i < |ConnectingSteps()| ==> OfConnecting(ConnectingSteps()[i])
  {
    AllConnecting();
    hide Inv, Step, Enabled, HasBegun, OfConnecting;
    ConnectingOn(s);
    RunFive(s, ConnEnter, ConnOpen(true), OpenCallback, ConnReturn(true), ConnPublish(true));
  }

  lemma RunFive(s: State, a: Event, b: Event, c: Event, d: Event, e: Event)
    requires Enabled(s, a) && Enabled(Step(s, a), b) && Enabled(Step(Step(s, a), b), c)
    requires Enabled(Step(Step(Step(s, a), b), c), d) && Enabled(Step(Step(Step(Step(s, a), b), c), d), e)
    ensures CanRun(s, [a, b, c, d, e])
    ensures Run(s, [a, b, c, d, e]) == Step(Step(Step(Step(Step(s, a), b), c), d), e)
  {
    hide Step, Enabled;
    RunNothing(s);
    RunNext(s, [], a);
    assert [] + [a] == [a];
    RunNext(s, [a], b);
    assert [a] + [b] == [a, b];
    RunNext(s, [a, b], c);
    assert [a, b] + [c] == [a, b, c];
    RunNext(s, [a, b, c], d);
    assert [a, b, c] + [d] == [a, b, c, d];
    RunNext(s, [a, b, c, d], e);
    assert [a, b, c, d] + [e] == [a, b, c, d, e];
  }

  lemma RunNothing(s: State)
    ensures CanRun(s, []) && Run(s, []) == s
  {
  }

  lemma {:induction false} RunAppend(s: State, a: seq<Event>, b: seq<Event>)
    requires CanRun(s, a) && CanRun(Run(s, a), b)
    ensures CanRun(s, a + b) && Run(s, a + b) == Run(Run(s, a), b)
    decreases |a|
  {
    hide Step, Enabled;
    if a == [] {
      assert a + b == b;
    } else {
      RunAppend(Step(s, a[0]), a[1..], b);
      assert (a + b)[1..] == a[1..] + b;
    }
  }

  /** That common-c has to be stopped is noted when whoever stops the session asks for it, and when it terminates. */
  lemma CommonAsked(s: State, e: Event)
    requires Enabled(s, e)
    ensures !s.core.stopNeedsLi ==>
      (Step(s, e).core.stopNeedsLi <==>
         e.Terminated? || (e.RequestStop? && e.stopCommon && (s.core.phase == Starting || s.core.phase == Running)))
  {
    hide ConnStep, StopStep, Started;
    if OfConn(e) {
      ConnCommon(s, e);
    } else if OfStop(e) {
      StopCommon(s, e);
    } else if e.StartStream? {
      StartForgets(s, e.surface, e.connCreated, e.stopCreated);
    } else if !s.core.stopNeedsLi {
      RequestAsks(s, e);
    }
  }

  lemma RequestAsks(s: State, e: Event)
    requires Enabled(s, e) && !OfConn(e) && !OfStop(e) && !e.StartStream? && !s.core.stopNeedsLi
    ensures Step(s, e).core.stopNeedsLi <==>
      e.Terminated? || (e.RequestStop? && e.stopCommon && (s.core.phase == Starting || s.core.phase == Running))
  {
    hide ConnStep, StopStep, Started;
    match e {
      case RequestStop(_, _) =>
      case ServeFailure(_) =>
      case _ =>
    }
  }

  lemma ConnCommon(s: State, e: Event)
    requires Enabled(s, e) && OfConn(e)
    ensures ConnStep(s, e).core.stopNeedsLi == (s.core.stopNeedsLi && e != ConnReturn(false))
    ensures ConnStep(s, e).sessions == s.sessions
  {
    match e {
      case ConnEnter =>
      case ConnOpen(_) =>
      case ConnReturn(_) =>
      case ConnEnd =>
      case ConnPublish(_) =>
    }
  }

  lemma StopCommon(s: State, e: Event)
    requires Enabled(s, e) && OfStop(e)
    ensures StopStep(s, e).core.stopNeedsLi == (s.core.stopNeedsLi && !e.StopFlag?)
    ensures e.StopFlag? ==> StopStep(s, e).stop.stopCommon == s.core.stopNeedsLi
    ensures !e.StopFlag? && StopStep(s, e).stop.At? ==> StopStep(s, e).stop.stopCommon == s.stop.stopCommon
    ensures StopStep(s, e).sessions == s.sessions
  {
    match e {
      case StopEnter =>
      case StopJoinConn =>
      case StopFlag =>
      case StopJoinInput =>
      case StopCommonDone =>
      case StopOpenWait =>
      case StopClose(_, _) =>
      case StopCloseWait =>
      case StopRelease =>
      case StopSettle =>
      case StopFinish =>
    }
  }

  /** It is forgotten when the stop worker takes note of it, the connection failed, or a new session begins. */
  lemma CommonTaken(s: State, e: Event)
    requires Enabled(s, e) && s.core.stopNeedsLi
    ensures !Step(s, e).core.stopNeedsLi <==>
      e.StopFlag? || e == ConnReturn(false) || Step(s, e).sessions == s.sessions + 1
  {
    hide ConnStep, StopStep, Begun, StopRequested;
    if OfConn(e) {
      ConnCommon(s, e);
    } else if OfStop(e) {
      StopCommon(s, e);
    } else if e.StartStream? {
      StartForgets(s, e.surface, e.connCreated, e.stopCreated);
    } else {
      RequestKeeps(s, e);
    }
  }

  lemma StartForgets(s: State, surface: bool, connCreated: bool, stopCreated: bool)
    ensures var t := Started(s, surface, connCreated, stopCreated);
      t.core.stopNeedsLi == (s.core.stopNeedsLi && t.sessions != s.sessions + 1)
  {
  }

  lemma RequestKeeps(s: State, e: Event)
    requires Enabled(s, e) && !OfConn(e) && !OfStop(e) && !e.StartStream? && s.core.stopNeedsLi
    ensures Step(s, e).core.stopNeedsLi && Step(s, e).sessions == s.sessions
  {
    hide ConnStep, StopStep, Started;
    match e {
      case RequestStop(_, _) =>
      case ServeFailure(_) =>
      case _ =>
    }
  }

  /** A failed connection stops its session, which then has to wait for the stop worker, or is blocked without one. */
  lemma FailureStops(s: State, created: bool)
    requires Enabled(s, ServeFailure(created))
    ensures var t := Step(s, ServeFailure(created));
      && t.conn == Told(s.conn.generation)
      && (s.core.phase == Starting || s.core.phase == Running ==>
            && t.core.phase == (if created then Stopping else Blocked) && t.core.cancelled && !t.core.running
            && t.core.stopNeedsLi == s.core.stopNeedsLi
            && t.core.stopThread == created && !t.core.stopComplete
            && (created ==> t.stop == At(s.core.generation, Entering, false, true)))
      && (s.core.phase != Starting && s.core.phase != Running ==> t.core == s.core && t.stop == s.stop)
  {
  }

  /** The stop worker waits for the opening, looks at the source and may ask it to close. */
  function Asked(s: State, ready: Ready, accepted: bool): State
    requires StopIs(s, WaitingOpen)
  {
    StopStep(StopStep(s, StopOpenWait), StopClose(ready, accepted))
  }

  /** Opened by now, if it was asked for at all. */
  predicate Opened(s: State) { s.core.open == None || s.core.open == Some(Ticket(true, true)) }

  lemma AskedMeans(s: State, ready: Ready, accepted: bool)
    requires StopIs(s, WaitingOpen)
    ensures var t, asks := Asked(s, ready, accepted), s.stop.safe && Opened(s) && ready == NeedsClose;
      && t.stop == s.stop.(point := if asks then WaitingClose else Releasing,
                           safe := s.stop.safe && Opened(s) && ready != Unknown)
      && t.core == (if asks then s.core.(close := Some(Ticket(!accepted, false))) else s.core)
      && t.closing == (if asks then accepted else s.closing)
  {
  }

  /** The platform answers if it took the request, and the stop worker hears of it or learns that it did not. */
  function Heard(s: State, success: bool): State
    requires StopIs(s, WaitingClose) && s.core.close.Some?
  {
    StopStep(if s.closing then Step(s, CloseCallback(success)) else s, StopCloseWait)
  }

  lemma HeardMeans(s: State, accepted: bool, success: bool)
    requires StopIs(s, WaitingClose) && s.core.close == Some(Ticket(!accepted, false)) && s.closing == accepted
    ensures var t := Heard(s, success);
      && t.stop == s.stop.(point := Releasing, safe := accepted && success)
      && t.core == s.core.(close := Some(Ticket(true, accepted && success)))
  {
  }

  function WoundUp(s: State): State
    requires StopIs(s, Releasing)
  {
    StopStep(StopStep(StopStep(s, StopRelease), StopSettle), StopFinish)
  }

  lemma WoundUpMeans(s: State)
    requires StopIs(s, Releasing)
    ensures var t := WoundUp(s);
      && t.stop == StopGone
      && t.core == if s.stop.safe
        then s.core.(phase := Idle, source := false, open := None, close := None, stopComplete := true)
        else s.core.(phase := Blocked, stopComplete := true)
  {
  }

  /** The stop worker from its wait for the opening to its end. */
  function ClosedDown(s: State, ready: Ready, accepted: bool, success: bool): State
    requires StopIs(s, WaitingOpen)
  {
    hide Asked, Heard;
    AskedMeans(s, ready, accepted);
    var asked := Asked(s, ready, accepted);
    if asked.stop.point.WaitingClose?
      then HeardMeans(asked, accepted, success); WoundUp(Heard(asked, success))
    else WoundUp(asked)
  }

  /**
   * The source is released, and a new session may begin, exactly when it was opened or never asked for and needs no
   * closing or was closed; otherwise it is kept and the session blocked.
   */
  lemma ClosesExactlyWhen(s: State, ready: Ready, accepted: bool, success: bool)
    requires StopIs(s, WaitingOpen)
    ensures var t := ClosedDown(s, ready, accepted, success);
      var usable := s.stop.safe && (s.core.open == None || s.core.open == Some(Ticket(true, true)));
      var released := usable && (ready == NoClose || (ready == NeedsClose && accepted && success));
      && t.core.stopComplete && t.stop == StopGone
      && t.core.phase == (if released then Idle else Blocked)
      && t.core.source == (s.core.source && !released)
      && (released ==> t.core.open == None && t.core.close == None)
      && (!released ==> t.core.open == s.core.open)
      && (!released && !(usable && ready == NeedsClose) ==> t.core.close == s.core.close)
      && (!released && usable && ready == NeedsClose ==> t.core.close == Some(Ticket(true, false)))
  {
    hide Asked, Heard, WoundUp;
    AskedMeans(s, ready, accepted);
    var asked := Asked(s, ready, accepted);
    if asked.stop.point.WaitingClose? {
      HeardMeans(asked, accepted, success);
      WoundUpMeans(Heard(asked, success));
    } else {
      WoundUpMeans(asked);
    }
  }

  // ---- Teardown comes to an end ----

  /** Steps the workers take by themselves. */
  predicate OfWorker(e: Event) { OfStop(e) || OfConn(e) || e.InputExit? }

  /** With them, the one step a worker has to wait for the main thread to take. */
  predicate Internal(e: Event) { OfWorker(e) || e.ServeFailure? }

  /** The main thread joins only a stop worker that has finished, so it is always there to serve calls. */
  lemma JoinsFinished(s: State)
    requires Inv(s) && s.core.stopComplete
    ensures !s.stop.At?
  {
  }

  function ConnWork(c: Conn): nat {
    match c
    case NoConn => 0
    case ConnGone => 0
    case Told(_) => 1
    case Connected(_) => 1
    case Failed(_) => 2
    case Connecting(_, asked) => if asked then 3 else 4
    case Launched(_) => 5
  }

  function StopWork(w: Stop): nat { if w.At? then 11 - Rank(w.point) else 0 }

  function Work(s: State): nat { ConnWork(s.conn) + (if s.input.Polling? then 1 else 0) + StopWork(s.stop) }

  /** Nothing makes the work grow while a teardown lasts, and every step of a worker takes some off it. */
  lemma WorkShrinks(s: State, e: Event)
    requires Inv(s) && Enabled(s, e) && s.stop.At?
    ensures Work(Step(s, e)) + (if Internal(e) then 1 else 0) <= Work(s)
  {
    hide Tied, Phased, StopStep, ConnStep, Started, Requested, Work;
    if OfConn(e) {
      ConnShrinks(s, e);
    } else if OfStop(e) {
      StopShrinks(s, e);
    } else {
      OtherShrinks(s, e);
    }
  }

  lemma OtherShrinks(s: State, e: Event)
    requires Inv(s) && Enabled(s, e) && !OfConn(e) && !OfStop(e) && s.stop.At?
    ensures Work(Step(s, e)) + (if Internal(e) then 1 else 0) <= Work(s)
  {
    hide StopStep, ConnStep;
  }

  lemma ConnShrinks(s: State, e: Event)
    requires Inv(s) && Enabled(s, e) && OfConn(e) && s.stop.At?
    ensures Work(ConnStep(s, e)) < Work(s)
  {
  }

  lemma StopShrinks(s: State, e: Event)
    requires Inv(s) && Enabled(s, e) && OfStop(e)
    ensures Work(StopStep(s, e)) < Work(s)
  {
    hide Inv;
  }

  /** What the stop worker does next, or what the worker it waits for does. */
  function NextStep(s: State): Event
    requires s.stop.At?
  {
    match s.stop.point
    case Entering => StopEnter
    case JoiningConn =>
      (match s.conn
       case Launched(_) => ConnEnter
       case Connecting(_, _) => ConnReturn(false)
       case Failed(_) => ServeFailure(true)
       case Told(_) => ConnEnd
       case Connected(_) => ConnPublish(true)
       case NoConn => StopJoinConn
       case ConnGone => StopJoinConn)
    case Flagging => StopFlag
    case JoiningInput => if s.input.Polling? then InputExit else StopJoinInput
    case StoppingCommon => StopCommonDone
    case WaitingOpen => StopOpenWait
    case Closing => StopClose(Unknown, false)
    case WaitingClose => StopCloseWait
    case Releasing => StopRelease
    case Settling => StopSettle
    case Finishing => StopFinish
  }

  /** The stop worker waits for a connection worker whose call the main thread has not served. */
  predicate AwaitsMain(s: State) { StopIs(s, JoiningConn) && s.conn.Failed? }

  lemma NextEnabled(s: State)
    requires Inv(s) && s.stop.At?
    ensures Enabled(s, NextStep(s)) && Internal(NextStep(s)) && (OfWorker(NextStep(s)) <==> !AwaitsMain(s))
  {
  }

  /** During a teardown some worker can go on by itself exactly when none waits for the main thread. */
  lemma WorkersGoOn(s: State)
    requires Inv(s) && s.stop.At?
    ensures (exists e :: OfWorker(e) && Enabled(s, e)) <==> !AwaitsMain(s)
  {
    NextEnabled(s);
    if !AwaitsMain(s) {
      assert OfWorker(NextStep(s)) && Enabled(s, NextStep(s));
    } else {
      forall e | OfWorker(e)
        ensures !Enabled(s, e)
      {
        assert !s.input.Polling?;
      }
    }
  }

  /**
   * From any state with a stop worker, the workers can finish the teardown with a main thread that serves the call of a
   * failed connection, which it has to do at most once.
   */
  lemma {:induction false} TeardownEnds(s: State) returns (es: seq<Event>)
    requires Inv(s) && s.stop.At?
    ensures (forall i :: 0 <= i < |es| ==> Internal(es[i])) && CanRun(s, es) && |es| <= Work(s)
    ensures Served(es) <= if MayFail(s.conn) then 1 else 0
    ensures Run(s, es).core.stopComplete && (Run(s, es).core.phase.Idle? || Run(s, es).core.phase.Blocked?)
    decreases Work(s)
  {
    hide Tied, Phased, Step, Enabled, Work, NextStep, OfWorker, MayFail;
    NextEnabled(s);
    StepKeeps(s, NextStep(s));
    WorkShrinks(s, NextStep(s));
    FailsOnce(s, NextStep(s));
    var t := Step(s, NextStep(s));
    Over(s, NextStep(s));
    if t.stop.At? {
      var rest := TeardownEnds(t);
      es := [NextStep(s)] + rest;
      assert es[1..] == rest;
    } else {
      es := [NextStep(s)];
      assert es[1..] == [];
    }
  }

  /** How often the main thread serves a failed connection. */
  function Served(es: seq<Event>): nat {
    if es == [] then 0 else (if es[0].ServeFailure? then 1 else 0) + Served(es[1..])
  }

  /** The connection worker may still have a failure to tell of. */
  predicate MayFail(c: Conn) { c.Launched? || c.Connecting? || c.Failed? }

  lemma FailsOnce(s: State, e: Event)
    requires Inv(s) && Enabled(s, e) && Internal(e)
    ensures MayFail(Step(s, e).conn) ==> MayFail(s.conn) && !e.ServeFailure?
    ensures e.ServeFailure? ==> MayFail(s.conn)
  {
    hide Inv;
  }

  /** The stop worker goes away only by finishing. */
  lemma Over(s: State, e: Event)
    requires Inv(s) && Enabled(s, e) && s.stop.At?
    ensures var t := Step(s, e); !t.stop.At? ==> t.core.stopComplete && (t.core.phase.Idle? || t.core.phase.Blocked?)
  {
    if OfConn(e) {
      ConnOver(s, e);
    } else if OfStop(e) {
      StopOver(s, e);
    }
  }

  lemma ConnOver(s: State, e: Event)
    requires Inv(s) && Enabled(s, e) && s.stop.At? && OfConn(e)
    ensures ConnStep(s, e).stop == s.stop
  {
  }

  lemma StopOver(s: State, e: Event)
    requires Inv(s) && Enabled(s, e) && OfStop(e)
    ensures var t := StopStep(s, e); !t.stop.At? ==>
      t.core.stopComplete && (t.core.phase.Idle? || t.core.phase.Blocked?)
  {
  }

  /** How many of the events are steps of the teardown. */
  function Own(es: seq<Event>): nat { if es == [] then 0 else (if Internal(es[0]) then 1 else 0) + Own(es[1..]) }

  /** Whatever else happens in between, a teardown takes no more than `Work` steps. */
  lemma {:induction false} TeardownBounded(s: State, es: seq<Event>)
    requires Inv(s) && s.stop.At? && CanRun(s, es)
    requires forall n :: 0 <= n < |es| ==> CanRun(s, es[..n]) && Run(s, es[..n]).stop.At?
    ensures Own(es) <= Work(s)
    decreases |es|
  {
    hide Tied, Phased, Step, Enabled, Work, Internal;
    if |es| > 0 {
      StepKeeps(s, es[0]);
      WorkShrinks(s, es[0]);
      var t := Step(s, es[0]);
      forall n | 0 <= n < |es| - 1
        ensures CanRun(t, es[1..][..n]) && Run(t, es[1..][..n]).stop.At?
      {
        assert CanRun(s, es[..n + 1]) && Run(s, es[..n + 1]).stop.At?;
        assert es[..n + 1][1..] == es[1..][..n] && es[..n + 1][0] == es[0];
      }
      if |es| > 1 {
        assert CanRun(t, es[1..][..0]) && Run(t, es[1..][..0]).stop.At?;
        TeardownBounded(t, es[1..]);
      }
    }
  }
}
