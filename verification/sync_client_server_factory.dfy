/** SyncClientServerFactory: the synchronous-driver flavour of the server
    factory. It opens clients on a server address and carries out the one
    action kind this package defines by running the command on the named
    database. The driver itself is a parameter: `runCommand` stands for
    client.getDatabase(database).runCommand(command). */
module SyncClient {
  import opened Wrappers
  import opened Bson
  import opened Actions
  import opened Exceptions
  import opened ProcessTypes
  import ConnectionStrings
  import ClientAction

  /** A MongoClient: the connection string it was created from and its credential, if any. */
  datatype MongoClient = MongoClient(connectionString: string, credential: Option<Credentials>)

  /** ServerAddress.toString, taken to be host:port. */
  function ServerAddressText(a: ServerAddress): string {
    ConnectionStrings.Authority(a.host, a.port)
  }

  /** client(serverAddress): a client without credentials on "mongodb://" + the address. */
  function Client(a: ServerAddress): (c: MongoClient)
    ensures c.credential.None?
    ensures c.connectionString == ConnectionStrings.ServerUri(a.host, a.port)
  {
    MongoClient(ConnectionStrings.Scheme + ServerAddressText(a), None)
  }

  /** client(serverAddress, credential): the same connection string, with the credential applied. */
  function ClientWithCredential(a: ServerAddress, credential: Credentials): (c: MongoClient)
    ensures c.credential == Some(credential)
    ensures c.connectionString == Client(a).connectionString
  {
    MongoClient(ConnectionStrings.Scheme + ServerAddressText(a), Some(credential))
  }

  /** Both clients connect to exactly the server's host and port, with no database in the string. */
  lemma ClientsTargetTheServer(a: ServerAddress, credential: Credentials)
    requires '/' !in a.host
    ensures ConnectionStrings.Parse(Client(a).connectionString) == Some(ConnectionStrings.Target(a.host, a.port, None))
    ensures ConnectionStrings.Parse(ClientWithCredential(a, credential).connectionString)
      == Some(ConnectionStrings.Target(a.host, a.port, None))
  {
    ConnectionStrings.ParseServerUri(a.host, a.port);
  }

  /** The driver call client.getDatabase(database).runCommand(command): the reply or the driver's exception. */
  type CommandRunner = (MongoClient, string, Document) -> Result<Document, Exception>

  /** resultOfAction: a RunCommand runs its command on its database; any other action kind is rejected. */
  function ResultOfAction(client: MongoClient, action: Action, runCommand: CommandRunner): (r: Result<Document, Exception>)
    ensures action.RunCommand? ==> r == runCommand(client, action.database, action.command)
    ensures !action.RunCommand? ==> r == Err(IllegalArgument(ActionNotSupported(action)))
  {
    match action
    case RunCommand(database, command) => runCommand(client, database, command)
    case OtherAction(_, _) => Err(IllegalArgument(ActionNotSupported(action)))
  }

  /** Exactly the RunCommand kind reaches the driver: any other kind is rejected without a call. */
  lemma OnlyRunCommandReachesDriver(client: MongoClient, action: Action)
    ensures (forall rc: CommandRunner :: ResultOfAction(client, action, rc).Err?) <==> !action.RunCommand?
  {
    if action.RunCommand? {
      var rc: CommandRunner := (c, d, cmd) => Ok(Document([]));
      assert ResultOfAction(client, action, rc).Ok?;
    }
  }

  /** Every action the builders make is supported: its command goes to its own database,
      and under the default handler the reply is accepted exactly when acknowledged. */
  lemma BuiltActionsRunTheirCommand(client: MongoClient, database: string, command: Document, runCommand: CommandRunner)
    ensures var a := ClientAction.RunCommandAction(database, command);
      ResultOfAction(client, a.action, runCommand) == runCommand(client, database, command)
    ensures var a := ClientAction.Shutdown(database);
      ResultOfAction(client, a.action, runCommand) == runCommand(client, database, ClientAction.ShutdownForced())
    ensures var a := ClientAction.RunCommandAction(database, command);
      forall reply | ResultOfAction(client, a.action, runCommand) == Ok(reply)
        :: ClientAction.HandleResult(a, reply).Pass? <==> ClientAction.Acknowledged(reply)
  {
  }
}
