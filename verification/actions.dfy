/** The nested value types of MongoClientAction: the credentials an action
    authenticates with and the action itself. */
module Actions {
  import Bson

  /** MongoClientAction.Credentials: the authentication database, user and password. */
  datatype Credentials = Credentials(database: string, username: string, password: string)

  /** MongoClientAction.Action. RunCommand is the one kind this package defines;
      OtherAction stands for any further subclass, which the client factory rejects. */
  datatype Action =
    | RunCommand(database: string, command: Bson.Document)
    | OtherAction(database: string, kind: string)
}
