/** AbstractServerFactory: assembles the server wrapper from the version's
    transitions and three listeners, one per optional setup feature
    (authentication, replica-set initiation, JSON import). The first two are
    built by the client-action library and are opaque here; the import
    listener's callback is modelled in full. */
module ServerFactory {
  import opened Wrappers
  import opened ProcessTypes
  import opened Exceptions
  import opened SpringMongo
  import EmbeddedProperties
  import AutoConfiguration

  /** UsernamePassword as handed to the client-action library. The password may be
      unset: the replica-set rule only looks at the username. */
  datatype UsernamePassword = UsernamePassword(username: string, password: Option<seq<char>>)

  /** A state listener. EmptyListener is Listener.builder().build(). */
  datatype Listener =
    | EmptyListener
    /** ClientActions.setupAuthentication(adapter, databaseName, credentials) */
    | AuthenticationListener(databaseName: Option<string>, credentials: UsernamePassword)
    /** ClientActions.initReplicaSet(adapter, version, storage, credentials) */
    | ReplicaSetListener(version: Version, storage: ReplicationStorage, replicaCredentials: Option<UsernamePassword>)
    /** The import callback, registered for the RunningMongodProcess state. */
    | ImportListener(version: Version, imports: seq<ImportArguments>)

  /** addAuthUserToDB: an authentication listener for the client database exactly
      when both username and password are configured. */
  function AddAuthUserToDB(p: MongoProperties): (l: Listener)
    ensures l.AuthenticationListener? <==> HasCredentials(p)
    ensures !l.AuthenticationListener? ==> l.EmptyListener?
    ensures l.AuthenticationListener? ==> l.databaseName == p.mongoClientDatabase
    ensures l.AuthenticationListener? ==> l.credentials.username == p.username.value && l.credentials.password == p.password
  {
    if p.username.Some? && p.password.Some? then
      AuthenticationListener(p.mongoClientDatabase, UsernamePassword(p.username.value, p.password))
    else EmptyListener
  }

  /** initReplicaSet: a replica-set listener exactly when the server arguments carry
      replication; credentials are passed whenever a username is set. */
  function InitReplicaSet(version: Version, p: MongoProperties, args: MongodArguments): (l: Listener)
    ensures l.ReplicaSetListener? <==> args.replication.Some?
    ensures !l.ReplicaSetListener? ==> l.EmptyListener?
    ensures l.ReplicaSetListener? ==> l.version == version && l.storage == args.replication.value
    ensures l.ReplicaSetListener? ==> (l.replicaCredentials.Some? <==> p.username.Some?)
    ensures l.ReplicaSetListener? && l.replicaCredentials.Some?
      ==> l.replicaCredentials.value.username == p.username.value && l.replicaCredentials.value.password == p.password
  {
    match args.replication
    case Some(storage) =>
      ReplicaSetListener(version, storage,
        if p.username.Some? then Some(UsernamePassword(p.username.value, p.password)) else None)
    case None => EmptyListener
  }

  /** importJsonWithMongoImport: the import listener for a non-empty import list, otherwise empty. */
  function ImportJsonWithMongoImport(version: Version, imports: seq<ImportArguments>): (l: Listener)
    ensures l.EmptyListener? <==> |imports| == 0
    ensures !l.EmptyListener? ==> l.ImportListener? && l.version == version && l.imports == imports
  {
    if |imports| > 0 then ImportListener(version, imports) else EmptyListener
  }

  /** What createWrapper hands to the wrapper: the transitions and the listeners. */
  datatype WrapperPlan = WrapperPlan(transitions: Transitions, listeners: seq<Listener>)

  /** createWrapper: the version's transitions plus the auth, replica and import listeners, in that order. */
  function CreateWrapper(p: MongoProperties, version: Version, mongod: Mongod, args: MongodArguments, imports: seq<ImportArguments>): (w: WrapperPlan)
    ensures w.transitions == MongodTransitions(mongod, version)
    ensures |w.listeners| == 3
    ensures w.listeners[0].AuthenticationListener? <==> HasCredentials(p)
    ensures w.listeners[1].ReplicaSetListener? <==> args.replication.Some?
    ensures w.listeners[2].ImportListener? <==> |imports| > 0
    ensures !w.listeners[0].AuthenticationListener? ==> w.listeners[0].EmptyListener?
    ensures !w.listeners[1].ReplicaSetListener? ==> w.listeners[1].EmptyListener?
    ensures !w.listeners[2].ImportListener? ==> w.listeners[2].EmptyListener?
    ensures w.listeners[0].AuthenticationListener? ==> w.listeners[0].databaseName == p.mongoClientDatabase
    ensures w.listeners[1].ReplicaSetListener? ==> w.listeners[1].version == version && Some(w.listeners[1].storage) == args.replication
    ensures w.listeners[2].ImportListener? ==> w.listeners[2].version == version && w.listeners[2].imports == imports
  {
    WrapperPlan(MongodTransitions(mongod, version),
      [AddAuthUserToDB(p), InitReplicaSet(version, p, args), ImportJsonWithMongoImport(version, imports)])
  }

  /** A server with no credentials, no replication and no imports gets no setup listeners at all, and only then. */
  lemma WrapperWithoutSetupIsBare(p: MongoProperties, version: Version, mongod: Mongod, args: MongodArguments, imports: seq<ImportArguments>)
    ensures (forall i | 0 <= i < 3 :: CreateWrapper(p, version, mongod, args, imports).listeners[i].EmptyListener?)
      <==> !HasCredentials(p) && args.replication.None? && |imports| == 0
  {
    var w := CreateWrapper(p, version, mongod, args, imports);
    assert w.listeners[0] == AddAuthUserToDB(p);
    assert w.listeners[1] == InitReplicaSet(version, p, args);
    assert w.listeners[2] == ImportJsonWithMongoImport(version, imports);
  }

  /** The listeners agree with the rewritten server arguments: the auth listener is
      present only when auth was switched on, and the replica-set listener is
      present exactly when replication came from the storage settings or was
      already there, in which case the server journals. */
  lemma ListenersMatchRewrittenArguments(storage: EmbeddedProperties.Storage, p: MongoProperties, version: Version, src: MongodArguments)
    ensures var args := AutoConfiguration.FixTransactionAndAuth(storage, p, src);
      AddAuthUserToDB(p).AuthenticationListener? ==> args.auth
    ensures var args := AutoConfiguration.FixTransactionAndAuth(storage, p, src);
      InitReplicaSet(version, p, args).ReplicaSetListener? <==> storage.replSetName.Some? || src.replication.Some?
    ensures var args := AutoConfiguration.FixTransactionAndAuth(storage, p, src);
      InitReplicaSet(version, p, args).ReplicaSetListener? ==> !args.useNoJournal
  {
  }

  /** The two rules differ: a username without a password gives the replica-set
      listener credentials (with no password) while authentication stays off. */
  lemma ReplicaCredentialsWithoutPassword(version: Version, storage: ReplicationStorage, rest: map<string, string>)
    ensures var p := MongoProperties(None, None, None, Some("test"), Some("user"), None);
      var args := MongodArguments(false, false, Some(storage), rest);
      AddAuthUserToDB(p).EmptyListener?
      && InitReplicaSet(version, p, args) == ReplicaSetListener(version, storage, Some(UsernamePassword("user", None)))
  {
  }

  /** One step of running an import: its execution was reached, or its handle's close was called. */
  datatype ImportEvent = Executed(arguments: ImportArguments, address: ServerAddress) | Released(arguments: ImportArguments)

  /** Running one import to its executed state: the return code, or the exception the walker threw.
      The import transitions are MongoImport's for the version the import listener was built
      with; one listener has one version, so the execution is fixed to it and takes none. */
  type ImportExecution = (ImportArguments, ServerAddress) -> Result<int, Exception>

  /** ReachedState.close on an executed import: completes, or throws. */
  type ImportRelease = ImportArguments -> Outcome<Exception>

  /** An import completes when it returns 0 and its handle closes without throwing. */
  predicate ImportCompletes(a: ImportArguments, address: ServerAddress, execute: ImportExecution, release: ImportRelease) {
    execute(a, address) == Ok(0) && release(a) == Pass
  }

  /** The events of completing each import in order: executed against the address, then released. */
  function ImportTrace(imports: seq<ImportArguments>, address: ServerAddress): (t: seq<ImportEvent>)
    ensures |t| == 2 * |imports|
    ensures forall i | 0 <= i < |imports| :: t[2 * i] == Executed(imports[i], address) && t[2 * i + 1] == Released(imports[i])
    decreases |imports|
  {
    if |imports| == 0 then []
    else
      ImportTrace(imports[..|imports| - 1], address)
      + [Executed(imports[|imports| - 1], address), Released(imports[|imports| - 1])]
  }

  /** Every executed import is released by the very next event. */
  predicate EveryExecutionReleased(t: seq<ImportEvent>) {
    forall i | 0 <= i < |t| && t[i].Executed? :: i + 1 < |t| && t[i + 1] == Released(t[i].arguments)
  }

  /** The position of the first import that does not complete (|imports| when all do). */
  function FirstUnsuccessful(imports: seq<ImportArguments>, address: ServerAddress, execute: ImportExecution, release: ImportRelease)
    : (k: nat)
    ensures k <= |imports|
    ensures forall i | 0 <= i < k :: ImportCompletes(imports[i], address, execute, release)
    ensures k < |imports| ==> !ImportCompletes(imports[k], address, execute, release)
    decreases |imports|
  {
    if |imports| == 0 then 0
    else if !ImportCompletes(imports[0], address, execute, release) then 0
    else 1 + FirstUnsuccessful(imports[1..], address, execute, release)
  }

  /** The exception an import that does not complete raises, by try-with-resources: the
      walker's own; IllegalStateException for a non-zero return code, whatever close
      does (a close exception is only suppressed); or close's exception after return code 0. */
  function ImportFailure(a: ImportArguments, r: Result<int, Exception>, closed: Outcome<Exception>): Exception {
    match r
    case Err(e) => e
    case Ok(code) => if code == 0 && closed.Fail? then closed.error else IllegalState(ImportFailed(a))
  }

  /** Appending one executed-and-released import keeps every execution released. */
  lemma ReleasedAfterAppend(t: seq<ImportEvent>, a: ImportArguments, address: ServerAddress)
    requires EveryExecutionReleased(t)
    ensures EveryExecutionReleased(t + [Executed(a, address), Released(a)])
  {
  }

  /** The loop of the import callback: runs the imports in list order against the
      address; the first one that does not complete ends the loop with its exception,
      and every import whose execution was reached is released. */
  method RunImports(imports: seq<ImportArguments>, address: ServerAddress, execute: ImportExecution, release: ImportRelease)
    returns (outcome: Outcome<Exception>, trace: seq<ImportEvent>)
    ensures var k := FirstUnsuccessful(imports, address, execute, release);
      && (outcome.Pass? <==> k == |imports|)
      && (k < |imports| ==> outcome == Fail(ImportFailure(imports[k], execute(imports[k], address), release(imports[k]))))
      && trace == ImportTrace(imports[..k], address)
        + (if k < |imports| && execute(imports[k], address).Ok?
           then [Executed(imports[k], address), Released(imports[k])] else [])
    ensures EveryExecutionReleased(trace)
  {
    ghost var k := FirstUnsuccessful(imports, address, execute, release);
    outcome := Pass;
    trace := [];
    var i := 0;
    while i < |imports|
      invariant 0 <= i <= k
      invariant trace == ImportTrace(imports[..i], address)
      invariant EveryExecutionReleased(trace)
    {
      var a := imports[i];
      var r := execute(a, address);
      var closed: Outcome<Exception> := Pass;
      if r.Ok? {
        closed := release(a);
        ReleasedAfterAppend(trace, a, address);
      }
      if r != Ok(0) || closed.Fail? {
        assert i == k;
        if r.Ok? {
          trace := trace + [Executed(a, address), Released(a)];
        }
        outcome := Fail(ImportFailure(a, r, closed));
        return;
      }
      assert imports[..i + 1][..i] == imports[..i];
      trace := trace + [Executed(a, address), Released(a)];
      i := i + 1;
    }
    assert imports[..|imports|] == imports;
  }

  /** The import callback: on the RunningMongodProcess state it runs the imports;
      on any other state it does nothing. */
  method ImportOnStateReached(
    imports: seq<ImportArguments>, state: StateId, address: ServerAddress, execute: ImportExecution, release: ImportRelease)
    returns (outcome: Outcome<Exception>, trace: seq<ImportEvent>)
    ensures state != RunningMongodProcessState ==> outcome == Pass && trace == []
    ensures state == RunningMongodProcessState ==>
      var k := FirstUnsuccessful(imports, address, execute, release);
      && (outcome.Pass? <==> k == |imports|)
      && (k < |imports| ==> outcome == Fail(ImportFailure(imports[k], execute(imports[k], address), release(imports[k]))))
      && trace == ImportTrace(imports[..k], address)
        + (if k < |imports| && execute(imports[k], address).Ok?
           then [Executed(imports[k], address), Released(imports[k])] else [])
    ensures EveryExecutionReleased(trace)
  {
    if state != RunningMongodProcessState {
      return Pass, [];
    }
    outcome, trace := RunImports(imports, address, execute, release);
  }
}
