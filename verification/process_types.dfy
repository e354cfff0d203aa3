/** Values the core receives from, or hands to, the embedded-process library
    (de.flapdoodle.embed.mongo / de.flapdoodle.reverse). Their behaviour lives
    outside the core; here they are plain values the core copies, compares
    and passes on. */
module ProcessTypes {
  import opened Wrappers

  /** An IFeatureAwareVersion, identified by the version text it was made from. */
  datatype Version = Version(text: string)

  /** de.flapdoodle.embed.mongo.config.Storage: a replica-set name and an oplog size in megabytes. */
  datatype ReplicationStorage = ReplicationStorage(replSetName: string, oplogSize: int)

  /** MongodArguments: the settings the auto-configuration rewrites, plus every
      other server setting as an opaque remainder that is copied unchanged. */
  datatype MongodArguments = MongodArguments(
    auth: bool,
    useNoJournal: bool,
    replication: Option<ReplicationStorage>,
    rest: map<string, string>)

  /** A Mongod transition description and the transitions it yields for a version. */
  datatype Mongod = Mongod(id: nat)
  datatype Transitions = MongodTransitions(mongod: Mongod, version: Version)

  /** The address a running server listens on. */
  datatype ServerAddress = ServerAddress(host: string, port: int)

  /** MongoImportArguments: one JSON import job. */
  datatype ImportArguments = ImportArguments(
    databaseName: string,
    collectionName: string,
    importFile: string,
    isJsonArray: bool,
    upsertDocuments: bool)

  /** StateID values a listener can see reached: the running server, or any other state by name. */
  datatype StateId = RunningMongodProcessState | OtherState(name: string)

  /** A ProgressListener instance. */
  datatype ProgressListener = ProgressListener(id: nat)

  /** A reached RunningMongodProcess state: the handle whose close() stops the server. */
  datatype RunningServer = RunningServer(id: nat, address: ServerAddress)
}
