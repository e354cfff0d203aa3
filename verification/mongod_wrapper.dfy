/** MongodWrapper: holds the server's transitions, an optional progress
    listener and the state-change listener, starts the server by walking the
    transitions to the running-process state, and stops it by closing the
    reached state. The walker is a parameter (it starts a real process);
    the wrapper's state is an immutable record threaded through start and
    stop, and a small class keeps the Java object's mutable field. */
module MongodLifecycle {
  import opened Wrappers
  import opened ProcessTypes
  import opened Exceptions
  import ServerFactory

  datatype MongodWrapper = MongodWrapper(
    transitions: Transitions,
    progressListener: Option<ProgressListener>,
    stateChangeListener: ServerFactory.Listener,
    runningMongo: Option<RunningServer>)

  /** new MongodWrapper(transitions, progressListener, stateChangeListener). Optional.of
      rejects a null progress listener, so a constructed wrapper always has one. */
  function New(transitions: Transitions, progressListener: Option<ProgressListener>, listener: ServerFactory.Listener)
    : (r: Result<MongodWrapper, Exception>)
    ensures r.Ok? <==> progressListener.Some?
    ensures r.Err? ==> r.error == NullPointer(None)
    ensures r.Ok? ==> r.value.transitions == transitions && r.value.stateChangeListener == listener
    ensures r.Ok? ==> r.value.progressListener == progressListener && r.value.runningMongo.None?
  {
    match progressListener
    case None => Err(NullPointer(None))
    case Some(_) => Ok(MongodWrapper(transitions, progressListener, listener, None))
  }

  /** What the wrapper does to the outside world, in order. */
  datatype Event =
    /** ProgressListeners.setProgressListener: installs the listener for the current thread. */
    | ProgressInstalled(listener: ProgressListener)
    /** walker().initState(RunningMongodProcess, listener), with the progress listener then in force. */
    | Walked(target: StateId, stateListener: ServerFactory.Listener, progress: Option<ProgressListener>)
    /** RemoveProgressListener.close: uninstalls it again. */
    | ProgressRemoved(listener: ProgressListener)
    /** ReachedState.close on the running server. */
    | Closed(server: RunningServer)

  /** transitions.walker().initState(target, listener): the reached state or the walker's exception. */
  type Walker = (Transitions, StateId, ServerFactory.Listener) -> Result<RunningServer, Exception>

  /** The progress listener in force after replaying `events` from a thread with none. */
  function ProgressAfter(events: seq<Event>): Option<ProgressListener>
    decreases |events|
  {
    if |events| == 0 then None
    else
      match events[|events| - 1]
      case ProgressInstalled(l) => Some(l)
      case ProgressRemoved(_) => None
      case _ => ProgressAfter(events[..|events| - 1])
  }

  datatype StartResult = StartResult(wrapper: MongodWrapper, outcome: Outcome<Exception>, events: seq<Event>)

  /** start(): walks to the running-process state with the state-change listener. With a
      progress listener it is installed around the walk and removed on every exit path. */
  function Start(w: MongodWrapper, walk: Walker): (r: StartResult)
    ensures var reached := walk(w.transitions, RunningMongodProcessState, w.stateChangeListener);
      && (r.outcome.Pass? <==> reached.Ok?)
      && (reached.Err? ==> r.outcome == Fail(reached.error) && r.wrapper == w)
      && (reached.Ok? ==> r.wrapper.runningMongo == Some(reached.value))
    ensures r.wrapper.(runningMongo := w.runningMongo) == w
    ensures exists i | 0 <= i < |r.events| ::
      r.events[i] == Walked(RunningMongodProcessState, w.stateChangeListener, w.progressListener)
    ensures forall i | 0 <= i < |r.events| :: r.events[i].Walked? ==> ProgressAfter(r.events[..i]) == w.progressListener
    ensures ProgressAfter(r.events) == None
    ensures forall i | 0 <= i < |r.events| :: !r.events[i].Closed?
  {
    var reached := walk(w.transitions, RunningMongodProcessState, w.stateChangeListener);
    var after := match reached
      case Ok(server) => w.(runningMongo := Some(server))
      case Err(_) => w;
    var outcome: Outcome<Exception> := match reached
      case Ok(_) => Pass
      case Err(e) => Fail(e);
    var walked := Walked(RunningMongodProcessState, w.stateChangeListener, w.progressListener);
    match w.progressListener
    case Some(l) =>
      var events := [ProgressInstalled(l), walked, ProgressRemoved(l)];
      assert events[..1] == [ProgressInstalled(l)];
      assert events[..2] == [ProgressInstalled(l), walked];
      assert events[..0] == [];
      assert ProgressAfter(events[..1]) == Some(l);
      assert events[1] == walked;
      StartResult(after, outcome, events)
    case None =>
      assert [walked][..0] == [] && [walked][0] == walked;
      StartResult(after, outcome, [walked])
  }

  datatype StopResult = StopResult(outcome: Outcome<Exception>, events: seq<Event>)

  const StopWithoutStartMessage: string := "stop called, but runningMongo is null"

  /** stop(): closes the reached state; with none, the null check throws. The field is not reset. */
  function Stop(w: MongodWrapper): (r: StopResult)
    ensures r.outcome.Pass? <==> w.runningMongo.Some?
    ensures w.runningMongo.None? ==> r.outcome == Fail(NullPointer(Some(Text(StopWithoutStartMessage)))) && r.events == []
    ensures w.runningMongo.Some? ==> r.events == [Closed(w.runningMongo.value)]
  {
    match w.runningMongo
    case None => StopResult(Fail(NullPointer(Some(Text(StopWithoutStartMessage)))), [])
    case Some(server) => StopResult(Pass, [Closed(server)])
  }

  /** A freshly constructed wrapper cannot be stopped: nothing has been reached yet. */
  lemma StopBeforeStartFails(transitions: Transitions, progress: ProgressListener, listener: ServerFactory.Listener)
    ensures New(transitions, Some(progress), listener).Ok?
    ensures Stop(New(transitions, Some(progress), listener).value).outcome.Fail?
    ensures Stop(New(transitions, Some(progress), listener).value).events == []
  {
  }

  /** Starting and then stopping closes exactly the server the walk reached; a failed start leaves nothing to close. */
  lemma StopClosesStartedServer(transitions: Transitions, progress: ProgressListener, listener: ServerFactory.Listener, walk: Walker)
    ensures var w := New(transitions, Some(progress), listener).value;
      var reached := walk(transitions, RunningMongodProcessState, listener);
      && (reached.Ok? ==> Stop(Start(w, walk).wrapper).events == [Closed(reached.value)])
      && (reached.Err? ==> Stop(Start(w, walk).wrapper).outcome.Fail?)
  {
  }

  /** A constructed wrapper always takes the progress-listener branch of start: the
      listener is installed first, the walk runs under it, and it is removed last. */
  lemma ConstructedWrapperUsesProgressListener(transitions: Transitions, progress: ProgressListener, listener: ServerFactory.Listener, walk: Walker)
    ensures var r := Start(New(transitions, Some(progress), listener).value, walk);
      r.events == [ProgressInstalled(progress), Walked(RunningMongodProcessState, listener, Some(progress)), ProgressRemoved(progress)]
  {
  }

  /** The Java object: its one mutable field is the reached state. */
  class ManagedMongod {
    var state: MongodWrapper

    constructor (transitions: Transitions, progress: ProgressListener, listener: ServerFactory.Listener)
      ensures state == MongodWrapper(transitions, Some(progress), listener, None)
    {
      state := MongodWrapper(transitions, Some(progress), listener, None);
    }

    method StartServer(walk: Walker) returns (outcome: Outcome<Exception>, events: seq<Event>)
      modifies this
      ensures Start(old(state), walk) == StartResult(state, outcome, events)
    {
      var r := Start(state, walk);
      state := r.wrapper;
      outcome := r.outcome;
      events := r.events;
    }

    method StopServer() returns (outcome: Outcome<Exception>, events: seq<Event>)
      ensures Stop(state) == StopResult(outcome, events)
      ensures outcome.Pass? <==> state.runningMongo.Some?
      ensures state.runningMongo.Some? ==> events == [Closed(state.runningMongo.value)]
    {
      var r := Stop(state);
      outcome := r.outcome;
      events := r.events;
    }
  }
}
