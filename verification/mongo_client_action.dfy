/** MongoClientAction: an immutable description of one administrative
    command (optional credentials, the action, a result handler and an error
    handler) and the builders for the command documents the server setup
    issues. */
module ClientAction {
  import opened Wrappers
  import opened Bson
  import opened Actions
  import opened Exceptions

  /** onResult: the default check of the reply, or a handler supplied through the builder. */
  datatype ResultHandler = DefaultOnResult | CustomOnResult(handle: Document -> Outcome<Exception>)

  /** onError: the default wrap-and-rethrow, or a handler supplied through the builder. */
  datatype ErrorHandler = DefaultOnError | CustomOnError(handle: Exception -> Outcome<Exception>)

  datatype MongoClientAction = MongoClientAction(
    credentials: Option<Credentials>,
    action: Action,
    onResult: ResultHandler,
    onError: ErrorHandler)

  /** The server's success convention: a Double "ok" field of at least 1.0. */
  predicate Acknowledged(reply: Document) {
    match Get(reply, "ok")
    case Some(Double(x)) => x >= 1.0
    case _ => false
  }

  /** The default onResult: reads "ok" as a Double and throws when it is below 1.0.
      A missing field unboxes null and a non-Double field fails the cast. */
  function DefaultResult(action: Action, reply: Document): (r: Outcome<Exception>)
    ensures r.Pass? <==> Acknowledged(reply)
    ensures (Get(reply, "ok").Some? && Get(reply, "ok").value.Double? && Get(reply, "ok").value.d < 1.0)
      ==> r == Fail(IllegalArgument(ActionFailedWith(action, reply)))
    ensures Get(reply, "ok").None? ==> r == Fail(NullPointer(None))
    ensures (Get(reply, "ok").Some? && !Get(reply, "ok").value.Double?) ==> r == Fail(ClassCast("java.lang.Double"))
  {
    match Get(reply, "ok")
    case None => Fail(NullPointer(None))
    case Some(v) =>
      if !v.Double? then Fail(ClassCast("java.lang.Double"))
      else if v.d < 1.0 then Fail(IllegalArgument(ActionFailedWith(action, reply)))
      else Pass
  }

  /** The default onError never absorbs: it rethrows a RuntimeException whose cause is the error. */
  function DefaultError(action: Action, error: Exception): (r: Outcome<Exception>)
    ensures r.Fail? && r.error.Runtime?
    ensures r.error.cause == error
    ensures r.error.message == ActionFailed(action)
  {
    Fail(Runtime(ActionFailed(action), error))
  }

  /** onResult().accept(reply). */
  function HandleResult(a: MongoClientAction, reply: Document): Outcome<Exception> {
    match a.onResult
    case DefaultOnResult => DefaultResult(a.action, reply)
    case CustomOnResult(f) => f(reply)
  }

  /** onError().accept(error). */
  function HandleError(a: MongoClientAction, error: Exception): Outcome<Exception> {
    match a.onError
    case DefaultOnError => DefaultError(a.action, error)
    case CustomOnError(f) => f(error)
  }

  /** runCommand(database, command): a RunCommand action with no credentials and the default handlers. */
  function RunCommandAction(database: string, command: Document): (a: MongoClientAction)
    ensures a.action.RunCommand? && a.action.database == database && a.action.command == command
    ensures a.credentials.None?
    ensures forall reply :: HandleResult(a, reply).Pass? <==> Acknowledged(reply)
    ensures forall e :: HandleError(a, e) == Fail(Runtime(ActionFailed(a.action), e))
  {
    MongoClientAction(None, RunCommand(database, command), DefaultOnResult, DefaultOnError)
  }

  /** The copy-with operations the generated immutable class provides: each replaces one field. */
  function WithCredentials(a: MongoClientAction, c: Credentials): (r: MongoClientAction)
    ensures r.credentials == Some(c)
    ensures r.action == a.action && r.onResult == a.onResult && r.onError == a.onError
  {
    a.(credentials := Some(c))
  }

  function WithOnResult(a: MongoClientAction, h: Document -> Outcome<Exception>): (r: MongoClientAction)
    ensures forall reply :: HandleResult(r, reply) == h(reply)
    ensures r.credentials == a.credentials && r.action == a.action && r.onError == a.onError
  {
    a.(onResult := CustomOnResult(h))
  }

  function WithOnError(a: MongoClientAction, h: Exception -> Outcome<Exception>): (r: MongoClientAction)
    ensures forall e :: HandleError(r, e) == h(e)
    ensures r.credentials == a.credentials && r.action == a.action && r.onResult == a.onResult
  {
    a.(onError := CustomOnError(h))
  }

  /** credentials(database, username, password): the password is the string of its chars. */
  function MakeCredentials(database: string, username: string, password: seq<char>): (c: Credentials)
    ensures c.database == database && c.username == username && c.password == password
  {
    Credentials(database, username, password)
  }

  /** The createUser command: keys createUser, pwd, roles in that order; roles as given. */
  function CreateUserCommand(username: string, pwd: string, roles: seq<string>): (d: Document)
    ensures Keys(d) == ["createUser", "pwd", "roles"]
    ensures Get(d, "createUser") == Some(Str(username))
    ensures Get(d, "pwd") == Some(Str(pwd))
    ensures Get(d, "roles") == Some(StrArray(roles))
  {
    Put(Put(Of("createUser", Str(username)), "pwd", Str(pwd)), "roles", StrArray(roles))
  }

  /** The createUser command with role documents instead of role names. */
  function CreateUserWithRoleDocuments(username: string, pwd: string, roles: seq<Document>): (d: Document)
    ensures Keys(d) == ["createUser", "pwd", "roles"]
    ensures Get(d, "createUser") == Some(Str(username))
    ensures Get(d, "pwd") == Some(Str(pwd))
    ensures Get(d, "roles") == Some(DocArray(roles))
  {
    Put(Put(Of("createUser", Str(username)), "pwd", Str(pwd)), "roles", DocArray(roles))
  }

  /** createUser(database, username, password, roles...): runs the createUser command against `database`. */
  function CreateUser(database: string, username: string, password: seq<char>, roles: seq<string>): (a: MongoClientAction)
    ensures a.action.RunCommand? && a.action.database == database
    ensures Keys(a.action.command) == ["createUser", "pwd", "roles"]
    ensures Get(a.action.command, "createUser") == Some(Str(username))
    ensures Get(a.action.command, "pwd") == Some(Str(password))
    ensures Get(a.action.command, "roles") == Some(StrArray(roles))
    ensures a.credentials.None? && a.onResult.DefaultOnResult? && a.onError.DefaultOnError?
  {
    RunCommandAction(database, CreateUserCommand(username, password, roles))
  }

  /** role(rolename, database): {role, db}. */
  function Role(rolename: string, database: string): (d: Document)
    ensures Keys(d) == ["role", "db"]
    ensures Get(d, "role") == Some(Str(rolename)) && Get(d, "db") == Some(Str(database))
  {
    Put(Of("role", Str(rolename)), "db", Str(database))
  }

  /** The resource of a privilege: the whole database, with an empty collection name. */
  function DatabaseResource(database: string): (d: Document)
    ensures Keys(d) == ["db", "collection"]
    ensures Get(d, "db") == Some(Str(database)) && Get(d, "collection") == Some(Str(""))
  {
    Put(Of("db", Str(database)), "collection", Str(""))
  }

  /** privilege(database, actions...): {resource: {db, collection: ""}, actions}. */
  function Privilege(database: string, actions: seq<string>): (d: Document)
    ensures Keys(d) == ["resource", "actions"]
    ensures Get(d, "resource") == Some(Nested(DatabaseResource(database)))
    ensures Get(d, "actions") == Some(StrArray(actions))
  {
    Put(Of("resource", Nested(DatabaseResource(database))), "actions", StrArray(actions))
  }

  /** createRole(roleName, roles, privileges...): {createRole, privileges, roles}. */
  function CreateRole(roleName: string, roles: seq<string>, privileges: seq<Document>): (d: Document)
    ensures Keys(d) == ["createRole", "privileges", "roles"]
    ensures Get(d, "createRole") == Some(Str(roleName))
    ensures Get(d, "privileges") == Some(DocArray(privileges))
    ensures Get(d, "roles") == Some(StrArray(roles))
  {
    var withName := Of("createRole", Str(roleName));
    assert "privileges"[0] != "createRole"[0];
    var withPrivileges := Put(withName, "privileges", DocArray(privileges));
    assert Keys(withPrivileges) == ["createRole", "privileges"];
    Put(withPrivileges, "roles", StrArray(roles))
  }

  /** createRole(roleName, privileges...): a role that inherits from no other role. */
  function CreateRoleWithoutParents(roleName: string, privileges: seq<Document>): (d: Document)
    ensures Keys(d) == ["createRole", "privileges", "roles"]
    ensures Get(d, "createRole") == Some(Str(roleName))
    ensures Get(d, "roles") == Some(Array([]))
    ensures Get(d, "privileges") == Some(DocArray(privileges))
  {
    CreateRole(roleName, [], privileges)
  }

  /** The forced shutdown command: exactly {shutdown: 1, force: true}. */
  function ShutdownForced(): (d: Document)
    ensures Keys(d) == ["shutdown", "force"]
    ensures Get(d, "shutdown") == Some(Int32(1)) && Get(d, "force") == Some(Bool(true))
  {
    Put(Put(Empty(), "shutdown", Int32(1)), "force", Bool(true))
  }

  /** shutdown(database): the forced shutdown command against `database`, default handlers. */
  function Shutdown(database: string): (a: MongoClientAction)
    ensures a.action.RunCommand? && a.action.database == database
    ensures Keys(a.action.command) == ["shutdown", "force"]
    ensures Get(a.action.command, "shutdown") == Some(Int32(1))
    ensures Get(a.action.command, "force") == Some(Bool(true))
    ensures a.credentials.None? && a.onResult.DefaultOnResult? && a.onError.DefaultOnError?
  {
    RunCommandAction(database, ShutdownForced())
  }

  /** listCollections(): exactly {listCollections: 1}. */
  function ListCollections(): (d: Document)
    ensures Keys(d) == ["listCollections"]
    ensures Get(d, "listCollections") == Some(Int32(1))
  {
    Of("listCollections", Int32(1))
  }

  /** A reply whose "ok" is 1.0 passes the default check of every action;
      0.0 fails it with the action and the reply in the message. */
  lemma DefaultResultOnTypicalReplies(action: Action)
    ensures DefaultResult(action, Of("ok", Double(1.0))) == Pass
    ensures DefaultResult(action, Of("ok", Double(0.0)))
      == Fail(IllegalArgument(ActionFailedWith(action, Of("ok", Double(0.0)))))
  {
  }
}
