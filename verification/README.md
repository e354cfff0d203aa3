# Embedded MongoDB auto-configuration for Spring, in Dafny

This project models the core of `de.flapdoodle.embed.mongo.spring`, the Spring Boot
auto-configuration that starts an embedded MongoDB server for an application context.
It covers these parts:

- **`MongoClientAction`**: an immutable description of one administrative command. It holds optional credentials, the action, a result handler and an error handler. The module also has the builders for the BSON command documents the server setup issues.
- **`EmbeddedMongoAutoConfiguration`**: the parts that make decisions.
  - choosing the host and port (`getHost`, `net`);
  - the properties published back into the environment (port, host, rewritten URI);
  - `determineVersion`;
  - the `fixTransactionAndAuth` rewrite of the server arguments.
- **`EmbeddedMongoProperties`**: the `de.flapdoodle.mongodb.embedded` settings bean and its rendering.
- **`TypedBeanPostProcessor`**: rewrites beans of one type before and after initialisation.
- **`AbstractServerFactory`**: chooses the authentication, replica-set and import listeners. It also runs the import loop on the running-server state.
- **`SyncClientServerFactory`**: builds client connection strings and dispatches actions to the driver.
- **`MongodWrapper`**: the start/stop life cycle around the transition walker.

Java values become Dafny datatypes: `null` becomes `Option`, and a thrown exception becomes a `Result` or `Outcome` error. Exceptions are the `Exceptions.Exception` datatype. Some messages are built from a value's `toString`, which Immutables or BSON generates; those keep the value itself (for example `ImportFailed(arguments)`) instead of its rendering. Fixed messages are kept as text.

Some outside services are parameters, not modelled code:

- the environment (IPv6 detection, free-port search, DNS resolution, reverse host-name lookup) is an `Environment` record;
- the driver's `runCommand` is a function parameter;
- the transition walker that starts processes is a function parameter.

A BSON `Document` is an insertion-ordered list of fields whose `Put` behaves like `LinkedHashMap.put`.

Java's `(int)` cast of a `long` is written out as `JavaText.ToInt32` (two's-complement wrap-around). `DataSize.toMegabytes` division truncates toward zero, as `JavaText.JavaDiv`. Port and address text uses Java's decimal rendering (`JavaText.IntToString`). IPv6 addresses are rendered as the eight hexadecimal groups of `InetAddress.getHostAddress`, without a scope id.

The files as written do not agree on a few signatures:

- `AbstractServerFactory.createWrapper` takes four arguments and passes four values to a three-argument `MongodWrapper` constructor.
- The configuration calls `createWrapper` with three arguments.
- `SyncClientServerFactory` calls a one-argument super constructor.

The model keeps each side as written. `ServerFactory.CreateWrapper` yields the transitions and the three listeners in order. `MongodLifecycle.New` builds the wrapper from transitions, a progress listener and one state-change listener.

## Model

| member | source | states |
|---|---|---|
| ClientAction.DefaultResult | src/main/java/de/flapdoodle/embed/mongo/spring/autoconfigure/MongoClientAction.java:34-41 | The default reply check accepts exactly the replies whose "ok" is a Double of at least 1.0. Below 1.0 it throws IllegalArgumentException naming the action and the reply. A missing "ok" throws NullPointerException (unboxing null); an "ok" of another type throws ClassCastException. |
| ClientAction.DefaultResultOnTypicalReplies | src/main/java/de/flapdoodle/embed/mongo/spring/autoconfigure/MongoClientAction.java:34-41 | A reply of {ok: 1.0} passes the default check; {ok: 0.0} fails it with the action and that reply. |
| ClientAction.DefaultError | src/main/java/de/flapdoodle/embed/mongo/spring/autoconfigure/MongoClientAction.java:43-48 | The default error handler never absorbs an error: it rethrows a RuntimeException whose cause is the original error. |
| ClientAction.RunCommandAction | src/main/java/de/flapdoodle/embed/mongo/spring/autoconfigure/MongoClientAction.java:76-96 | runCommand makes a RunCommand action on the given database and command, with no credentials. For every reply it accepts exactly the acknowledged ones; every error is wrapped and rethrown. |
| ClientAction.WithCredentials | src/main/java/de/flapdoodle/embed/mongo/spring/autoconfigure/MongoClientAction.java:29-32 | Setting credentials on the immutable action changes only the credentials. |
| ClientAction.WithOnResult | src/main/java/de/flapdoodle/embed/mongo/spring/autoconfigure/MongoClientAction.java:34-41 | A custom result handler replaces the default check for every reply and leaves the other fields alone. |
| ClientAction.WithOnError | src/main/java/de/flapdoodle/embed/mongo/spring/autoconfigure/MongoClientAction.java:43-48 | A custom error handler replaces the default rethrow for every error and leaves the other fields alone. |
| ClientAction.MakeCredentials | src/main/java/de/flapdoodle/embed/mongo/spring/autoconfigure/MongoClientAction.java:80-86 | credentials() keeps the database and user name, and stores the password as the string of its characters. |
| ClientAction.CreateUser | src/main/java/de/flapdoodle/embed/mongo/spring/autoconfigure/MongoClientAction.java:68-70 | createUser runs, against the given database, a document whose keys are createUser, pwd, roles in that order. The password is in clear text and the role names are kept in order. The action has the default handlers. |
| ClientAction.CreateUserCommand | src/main/java/de/flapdoodle/embed/mongo/spring/autoconfigure/MongoClientAction.java:98-102 | The createUser document has keys createUser, pwd, roles in that order, with the user name, password and role names as values. |
| ClientAction.CreateUserWithRoleDocuments | src/main/java/de/flapdoodle/embed/mongo/spring/autoconfigure/MongoClientAction.java:108-112 | This overload has the same key order, with role documents in place of role names. |
| ClientAction.Role | src/main/java/de/flapdoodle/embed/mongo/spring/autoconfigure/MongoClientAction.java:104-106 | A role reference is exactly {role, db}, in that order. |
| ClientAction.DatabaseResource | src/main/java/de/flapdoodle/embed/mongo/spring/autoconfigure/MongoClientAction.java:115-117 | A privilege's resource is the whole database: {db, collection: ""}. |
| ClientAction.Privilege | src/main/java/de/flapdoodle/embed/mongo/spring/autoconfigure/MongoClientAction.java:114-119 | A privilege is {resource, actions}, with the actions in order. |
| ClientAction.CreateRole | src/main/java/de/flapdoodle/embed/mongo/spring/autoconfigure/MongoClientAction.java:121-125 | createRole has keys createRole, privileges, roles in that order, carrying the given values. |
| ClientAction.CreateRoleWithoutParents | src/main/java/de/flapdoodle/embed/mongo/spring/autoconfigure/MongoClientAction.java:127-129 | The varargs createRole creates the named role with the given privileges and an empty list of parent roles, keys in the order createRole, privileges, roles. |
| ClientAction.ShutdownForced | src/main/java/de/flapdoodle/embed/mongo/spring/autoconfigure/MongoClientAction.java:131-133 | The shutdown command is exactly {shutdown: 1, force: true}. |
| ClientAction.Shutdown | src/main/java/de/flapdoodle/embed/mongo/spring/autoconfigure/MongoClientAction.java:72-74 | shutdown(database) runs the forced shutdown command against that database with the default handlers. |
| ClientAction.ListCollections | src/main/java/de/flapdoodle/embed/mongo/spring/autoconfigure/MongoClientAction.java:135-137 | listCollections is exactly {listCollections: 1}. |
| Bson.Put | src/main/java/de/flapdoodle/embed/mongo/spring/autoconfigure/MongoClientAction.java:99-101 | Document.append stores the value under its key. Other keys keep their values. A new key is appended at the end; an existing key keeps its place. Distinct keys stay distinct. |
| AutoConfiguration.GetHost | src/main/java/de/flapdoodle/embed/mongo/spring/autoconfigure/EmbeddedMongoAutoConfiguration.java:174-181 | Without a configured host, the result is the IPv6 loopback address when localhost is IPv6, otherwise the IPv4 one. When that IPv6 query itself throws, its exception is the result. With a configured host, the result is the resolved host, or UnknownHostException when the host does not resolve. |
| AutoConfiguration.NetFor | src/main/java/de/flapdoodle/embed/mongo/spring/autoconfigure/EmbeddedMongoAutoConfiguration.java:183-189 | The configured port is used exactly when it is set and positive, otherwise the free port found on the host. The bind address is the host's text form, and the IPv6 flag is the machine's. The result is a Net exactly when three things hold: the host resolves; without a usable configured port, the free-port search succeeds; and the IPv6 query succeeds. Otherwise the first failure in Java's evaluation order is thrown: the host lookup, then the port search, then the IPv6 query. |
| AutoConfiguration.NonPositivePortIsReplaced | src/main/java/de/flapdoodle/embed/mongo/spring/autoconfigure/EmbeddedMongoAutoConfiguration.java:186-188 | Whatever port is configured, the server's port is positive as long as every free port found is, and a positive configured port is kept. |
| AutoConfiguration.Ip4LoopbackText | src/main/java/de/flapdoodle/embed/mongo/spring/autoconfigure/EmbeddedMongoAutoConfiguration.java:96 | The IPv4 loopback bytes render as "127.0.0.1". |
| AutoConfiguration.Ip6LoopbackText | src/main/java/de/flapdoodle/embed/mongo/spring/autoconfigure/EmbeddedMongoAutoConfiguration.java:97 | The IPv6 loopback bytes render as "0:0:0:0:0:0:0:1". |
| AutoConfiguration.DefaultHostIsLoopback | src/main/java/de/flapdoodle/embed/mongo/spring/autoconfigure/EmbeddedMongoAutoConfiguration.java:174-189 | With no host configured, the server gets a Net exactly when the IPv6 query succeeds and either a positive port is configured or the free-port search on the matching loopback address succeeds. That Net is bound to "0:0:0:0:0:0:0:1" or "127.0.0.1" according to the machine's family. |
| AutoConfiguration.PublishedProperties | src/main/java/de/flapdoodle/embed/mongo/spring/autoconfigure/EmbeddedMongoAutoConfiguration.java:153-160 | The published source always holds the port and host properties with the server's values. It holds the URI property exactly when a URI was configured. |
| AutoConfiguration.PublishedUriTargetsServer | src/main/java/de/flapdoodle/embed/mongo/spring/autoconfigure/EmbeddedMongoAutoConfiguration.java:156-160 | The rewritten URI parses back to exactly the server's host name and port and the client database ("null" when unset). The parser accepts unbracketed IPv6 hosts, which the driver does not. |
| AutoConfiguration.NetBean | src/main/java/de/flapdoodle/embed/mongo/spring/autoconfigure/EmbeddedMongoAutoConfiguration.java:146-165 | The net bean chooses the Net from the configured port. It publishes the port and the host name of the chosen bind address. It fails exactly when choosing the Net fails, with that exception: the host does not resolve, the free-port search throws, or the IPv6 query throws. |
| AutoConfiguration.DetermineVersion | src/main/java/de/flapdoodle/embed/mongo/spring/autoconfigure/EmbeddedMongoAutoConfiguration.java:136-140 | The version is the configured one. Without one, the result is IllegalStateException with the message naming the prefix's version property. |
| AutoConfiguration.VersionBean | src/main/java/de/flapdoodle/embed/mongo/spring/autoconfigure/EmbeddedMongoAutoConfiguration.java:130-134 | The version bean uses the "de.flapdoodle" prefix: a missing version fails with that message, and a present one is used as is. |
| AutoConfiguration.VersionBeanFollowsProperty | src/main/java/de/flapdoodle/embed/mongo/spring/autoconfigure/EmbeddedMongoAutoConfiguration.java:130-134 | The version bean follows the version property: with the defaults the context fails; after setting the property the bean is exactly the set text; clearing it again fails exactly as the defaults do. |
| AutoConfiguration.OplogSizeMegabytes | src/main/java/de/flapdoodle/embed/mongo/spring/autoconfigure/EmbeddedMongoAutoConfiguration.java:253 | The oplog size handed to replication is in int range, and 0 when unset. A set size gives its whole megabytes cast with `(int)`: congruent to them modulo 2^32, and equal to them when they fit in an int. |
| AutoConfiguration.OplogSizeExamples | src/main/java/de/flapdoodle/embed/mongo/spring/autoconfigure/EmbeddedMongoAutoConfiguration.java:253 | 1024KB gives 1 megabyte. A bare number is read in megabytes and comes through unchanged when in int range. |
| AutoConfiguration.FixTransactionAndAuth | src/main/java/de/flapdoodle/embed/mongo/spring/autoconfigure/EmbeddedMongoAutoConfiguration.java:247-268 | Existing replication is kept. Replication is added, from the replica-set name and the oplog size, exactly when a name is set and the arguments have none. Journaling is on whenever replication is present, and untouched otherwise. Auth is on exactly when it already was or both credentials are set. Every other server setting is copied. |
| AutoConfiguration.FixTransactionAndAuthIdempotent | src/main/java/de/flapdoodle/embed/mongo/spring/autoconfigure/EmbeddedMongoAutoConfiguration.java:248-268 | Rewriting already rewritten arguments changes nothing. |
| AutoConfiguration.DefaultStorageAddsNoReplication | src/main/java/de/flapdoodle/embed/mongo/spring/autoconfigure/EmbeddedMongoAutoConfiguration.java:251-262 | With default storage settings, arguments without replication get none and keep their journaling flag. |
| AutoConfiguration.FixTransactionAndAuthProcessor | src/main/java/de/flapdoodle/embed/mongo/spring/autoconfigure/EmbeddedMongoAutoConfiguration.java:243-270 | The post-processor bean applies the rewrite before initialisation and the identity after. |
| AutoConfiguration.ProcessorRewritesOnlyServerArguments | src/main/java/de/flapdoodle/embed/mongo/spring/autoconfigure/EmbeddedMongoAutoConfiguration.java:247-269 | Through the processor, MongodArguments beans are rewritten and every other bean passes unchanged, before and after initialisation. |
| ConnectionStrings.ParseServerUri | src/main/java/de/flapdoodle/embed/mongo/spring/autoconfigure/SyncClientServerFactory.java:56 | "mongodb://" + host + ":" + port parses back to that host and port with no database. |
| ConnectionStrings.ParseDatabaseUri | src/main/java/de/flapdoodle/embed/mongo/spring/autoconfigure/EmbeddedMongoAutoConfiguration.java:159 | "mongodb://" + host + ":" + port + "/" + database parses back to those three parts. |
| JavaText.ParseIntOfIntToString | src/main/java/de/flapdoodle/embed/mongo/spring/autoconfigure/EmbeddedMongoAutoConfiguration.java:159 | The decimal rendering of a port reads back as the same number. |
| JavaText.ToInt32 | src/main/java/de/flapdoodle/embed/mongo/spring/autoconfigure/EmbeddedMongoAutoConfiguration.java:253 | The (int) cast gives the value in int range that is congruent modulo 2^32, and any value already in range unchanged. |
| EmbeddedProperties.Defaults | src/main/java/de/flapdoodle/embed/mongo/spring/autoconfigure/EmbeddedMongoProperties.java:34-40 | A fresh bean has no version, no database directory, timeout 0, and empty storage settings. |
| EmbeddedProperties.SetVersion | src/main/java/de/flapdoodle/embed/mongo/spring/autoconfigure/EmbeddedMongoProperties.java:50-52 | The setter stores the version and changes no other field. |
| EmbeddedProperties.SetDatabaseDir | src/main/java/de/flapdoodle/embed/mongo/spring/autoconfigure/EmbeddedMongoProperties.java:58-60 | The setter stores the database directory and changes no other field. |
| EmbeddedProperties.SetStartTimeout | src/main/java/de/flapdoodle/embed/mongo/spring/autoconfigure/EmbeddedMongoProperties.java:66-68 | The setter stores the timeout and changes no other field. |
| EmbeddedProperties.SetOplogSize | src/main/java/de/flapdoodle/embed/mongo/spring/autoconfigure/EmbeddedMongoProperties.java:98-100 | The setter stores the oplog size and keeps the replica-set name and every other field. |
| EmbeddedProperties.SetReplSetName | src/main/java/de/flapdoodle/embed/mongo/spring/autoconfigure/EmbeddedMongoProperties.java:106-108 | The setter stores the replica-set name and keeps the oplog size and every other field. |
| EmbeddedProperties.ToMegabytes | src/main/java/de/flapdoodle/embed/mongo/spring/autoconfigure/EmbeddedMongoProperties.java:86-87 | The result is the number of whole megabytes in the size, truncated toward zero. |
| EmbeddedProperties.BindBareOplogSize | src/main/java/de/flapdoodle/embed/mongo/spring/autoconfigure/EmbeddedMongoProperties.java:86-87 | A bare oplog number is taken in megabytes, so converting back gives the number. |
| EmbeddedProperties.ToString | src/main/java/de/flapdoodle/embed/mongo/spring/autoconfigure/EmbeddedMongoProperties.java:74-80 | The rendering starts with the class name and version ("null" when unset) and ends with the storage rendering and "}". |
| EmbeddedProperties.ToStringIgnoresStartTimeout | src/main/java/de/flapdoodle/embed/mongo/spring/autoconfigure/EmbeddedMongoProperties.java:74-80 | The start timeout never shows in the rendering. |
| EmbeddedProperties.BareOplogNumberIsMegabytes | src/main/java/de/flapdoodle/embed/mongo/spring/autoconfigure/EmbeddedMongoProperties.java:86-108 | Binding a replica-set name and a bare oplog number gives that number of megabytes and that name. |
| BeanPostProcessing.PostProcessBeforeInitialization | src/main/java/de/flapdoodle/embed/mongo/spring/autoconfigure/TypedBeanPostProcessor.java:40-46 | A bean of the target type is replaced by beforeInit applied to it; any other bean is returned unchanged. |
| BeanPostProcessing.PostProcessAfterInitialization | src/main/java/de/flapdoodle/embed/mongo/spring/autoconfigure/TypedBeanPostProcessor.java:48-54 | A bean of the target type is replaced by afterInit applied to it; any other bean is returned unchanged. |
| BeanPostProcessing.ApplyBeforeInitialization | src/main/java/de/flapdoodle/embed/mongo/spring/autoconfigure/TypedBeanPostProcessor.java:56-58 | The processor applies the change before initialisation and the identity after. |
| BeanPostProcessing.AfterHookIsIdentity | src/main/java/de/flapdoodle/embed/mongo/spring/autoconfigure/TypedBeanPostProcessor.java:48-58 | Such a processor leaves every bean unchanged after initialisation. |
| BeanPostProcessing.BeanNameIsIgnored | src/main/java/de/flapdoodle/embed/mongo/spring/autoconfigure/TypedBeanPostProcessor.java:40-54 | Neither hook depends on the bean name. |
| BeanPostProcessing.HooksPreserveBeanKind | src/main/java/de/flapdoodle/embed/mongo/spring/autoconfigure/TypedBeanPostProcessor.java:40-54 | Beans of the target type stay of that type, and other beans stay other beans. |
| BeanPostProcessing.BeforeHookIdempotent | src/main/java/de/flapdoodle/embed/mongo/spring/autoconfigure/TypedBeanPostProcessor.java:40-46 | When the change is idempotent, so is the before-hook. |
| ServerFactory.AddAuthUserToDB | src/main/java/de/flapdoodle/embed/mongo/spring/autoconfigure/AbstractServerFactory.java:71-84 | The authentication listener is present exactly when both username and password are set. It is for the client database and carries those credentials; otherwise the listener is empty. |
| ServerFactory.InitReplicaSet | src/main/java/de/flapdoodle/embed/mongo/spring/autoconfigure/AbstractServerFactory.java:86-97 | The replica-set listener is present exactly when the arguments carry replication, with the version and that storage. It passes credentials exactly when a username is set, whatever the password. |
| ServerFactory.ImportJsonWithMongoImport | src/main/java/de/flapdoodle/embed/mongo/spring/autoconfigure/AbstractServerFactory.java:99-126 | The listener is empty exactly when the import list is. Otherwise it is the import callback for the version and that list. |
| ServerFactory.CreateWrapper | src/main/java/de/flapdoodle/embed/mongo/spring/autoconfigure/AbstractServerFactory.java:57-69 | The wrapper gets the version's transitions and three listeners in the order auth, replica set, import. Each is present exactly under its own condition. |
| ServerFactory.WrapperWithoutSetupIsBare | src/main/java/de/flapdoodle/embed/mongo/spring/autoconfigure/AbstractServerFactory.java:57-126 | All three listeners are empty exactly when there are no credentials, no replication and no imports. |
| ServerFactory.ListenersMatchRewrittenArguments | src/main/java/de/flapdoodle/embed/mongo/spring/autoconfigure/AbstractServerFactory.java:71-97 | Checked against the rewritten server arguments: an authentication listener implies auth is on. The replica-set listener is present exactly when a replica-set name is configured or replication was already there, and then the server journals. |
| ServerFactory.ReplicaCredentialsWithoutPassword | src/main/java/de/flapdoodle/embed/mongo/spring/autoconfigure/AbstractServerFactory.java:76-93 | With a username and no password, authentication stays off while the replica-set listener still gets credentials with no password. |
| ServerFactory.ImportTrace | src/main/java/de/flapdoodle/embed/mongo/spring/autoconfigure/AbstractServerFactory.java:106-120 | Completing the imports in order means each is executed against the address and then released, two events per import. |
| ServerFactory.FirstUnsuccessful | src/main/java/de/flapdoodle/embed/mongo/spring/autoconfigure/AbstractServerFactory.java:106-120 | The first import that does not complete; every import before it returns 0 and closes its handle without throwing. |
| ServerFactory.RunImports | src/main/java/de/flapdoodle/embed/mongo/spring/autoconfigure/AbstractServerFactory.java:106-120 | The imports run in list order. The loop succeeds exactly when every import returns 0 and closes cleanly. Otherwise it stops at the first that does not. The exception follows try-with-resources: the walker's own; IllegalStateException naming the import for a non-zero return code, even if close also throws; or close's exception after return code 0. Close is called on each import that reached execution, right after it. |
| ServerFactory.ImportOnStateReached | src/main/java/de/flapdoodle/embed/mongo/spring/autoconfigure/AbstractServerFactory.java:103-121 | The callback does nothing on any state but RunningMongodProcess. On that state it runs the import loop against the running server's address, with the outcome and releases above. |
| SyncClient.Client | src/main/java/de/flapdoodle/embed/mongo/spring/autoconfigure/SyncClientServerFactory.java:55-57 | The client has no credential and connects with "mongodb://" + the server address. |
| SyncClient.ClientWithCredential | src/main/java/de/flapdoodle/embed/mongo/spring/autoconfigure/SyncClientServerFactory.java:59-64 | The client uses the same connection string as the plain client, plus the credential. |
| SyncClient.ClientsTargetTheServer | src/main/java/de/flapdoodle/embed/mongo/spring/autoconfigure/SyncClientServerFactory.java:55-64 | Both connection strings parse back to exactly the server's host and port, with no database. The parser accepts unbracketed IPv6 hosts, which the driver does not. |
| SyncClient.ResultOfAction | src/main/java/de/flapdoodle/embed/mongo/spring/autoconfigure/SyncClientServerFactory.java:66-71 | A RunCommand action runs its command on its own database through the driver. Any other action kind is rejected with IllegalArgumentException naming the action. |
| SyncClient.OnlyRunCommandReachesDriver | src/main/java/de/flapdoodle/embed/mongo/spring/autoconfigure/SyncClientServerFactory.java:66-71 | An action fails whatever the driver does exactly when it is not a RunCommand. |
| SyncClient.BuiltActionsRunTheirCommand | src/main/java/de/flapdoodle/embed/mongo/spring/autoconfigure/SyncClientServerFactory.java:66-69 | Actions built by runCommand and shutdown are dispatched to their own database with their own command. The default handler then accepts exactly the acknowledged replies. |
| MongodLifecycle.New | src/main/java/de/flapdoodle/embed/mongo/spring/autoconfigure/MongodWrapper.java:41-45 | A wrapper is built exactly when a progress listener is given (Optional.of rejects null). It keeps the transitions and the listener, and nothing has been reached yet. |
| MongodLifecycle.Start | src/main/java/de/flapdoodle/embed/mongo/spring/autoconfigure/MongodWrapper.java:47-55 | start succeeds exactly when the walk to the running-process state does, and records the reached server. On failure the wrapper is unchanged. The walk always happens, with the state-change listener and with the wrapper's progress listener in force. The progress listener is removed on every exit path. Nothing is closed. |
| MongodLifecycle.Stop | src/main/java/de/flapdoodle/embed/mongo/spring/autoconfigure/MongodWrapper.java:57-60 | stop closes exactly the reached server. Before any successful start it throws NullPointerException with "stop called, but runningMongo is null" and closes nothing. |
| MongodLifecycle.StopBeforeStartFails | src/main/java/de/flapdoodle/embed/mongo/spring/autoconfigure/MongodWrapper.java:39-60 | A freshly constructed wrapper cannot be stopped. |
| MongodLifecycle.StopClosesStartedServer | src/main/java/de/flapdoodle/embed/mongo/spring/autoconfigure/MongodWrapper.java:47-60 | Start then stop closes exactly the server the walk reached; after a failed start, stop fails. |
| MongodLifecycle.ConstructedWrapperUsesProgressListener | src/main/java/de/flapdoodle/embed/mongo/spring/autoconfigure/MongodWrapper.java:41-54 | A constructed wrapper always takes the progress-listener branch: install, walk under it, remove. |
| MongodLifecycle.ManagedMongod.StartServer | src/main/java/de/flapdoodle/embed/mongo/spring/autoconfigure/MongodWrapper.java:47-55 | The object's start performs `Start` on its current state and keeps the resulting wrapper, so `runningMongo` is set only by a successful walk. |
| MongodLifecycle.ManagedMongod.StopServer | src/main/java/de/flapdoodle/embed/mongo/spring/autoconfigure/MongodWrapper.java:57-60 | The object's stop performs `Stop` on its current state: it closes the reached server, or throws NullPointerException before any successful start. |

## Left out

- The Spring wiring is left out because its behaviour belongs to Spring. This covers bean conditions, `@Bean` registration, binding `MongoProperties` from the context, and the depends-on bean-factory post-processors.
- The `mongod`, `progressListener`, `processOutput` and `mongodArguments` bean factories are left out. They assemble process-library objects and create the database directory on disk, which is I/O.
- Starting and stopping real processes is left out: the transition walker is a parameter. So are the contents of the authentication and replica-set listeners, which are built by the `ClientActions` library. Only which listener is chosen, and with what arguments, is modelled.
- The MongoDB driver and the client-action executor that calls `resultOfAction` and the handlers are not part of this model. `runCommand` is a parameter.
- `ReactiveClientServerFactory` is outside the core.
- `MongoProperties.getMongoClientDatabase` is taken as already resolved, because it is Spring code.
- `MongodArguments` is reduced to the three settings the rewrite touches plus an opaque remainder. Its defaults belong to the process library.
- Rendering exception messages built from a value's `toString` is left out: that text is generated by Immutables or the BSON library. The message keeps the value instead.
- `ServerAddress.toString` is taken to be `host:port`, because the class is external.
- `Preconditions.checkNotNull` in `MongodWrapper.stop` comes from an external library. It is taken to throw NullPointerException carrying its message.
- Parsing `DataSize` from text with units other than a bare number is left out, because that is Spring's converter. Sizes are given in bytes, or bound from a bare number in megabytes.
- The `ok` field of a reply is a Dafny `real`, so NaN is not modelled: a NaN "ok" would fail Java's `< 1.0` test and pass the check.
- AutoConfiguration.VersionBean: its message is stated through `MissingVersionMessage("de.flapdoodle")` rather than compared against the full literal sentence, because the solver does not decide equality of such long literals.
- EmbeddedProperties.ToMegabytes: `long` overflow of the byte count is not modelled. Sizes are unbounded integers; only the later `(int)` cast wraps.
- ConnectionStrings.Parse: host and port are split at the last colon, so an unbracketed IPv6 host such as `0:0:0:0:0:0:0:1` reads back. The MongoDB driver wants IPv6 literals in brackets. On an IPv6 machine with no host configured, the client connection string `mongodb://0:0:0:0:0:0:0:1:<port>` is built as the source writes it, but the round-trip lemmas do not show that the driver accepts it.
- AutoConfiguration.GetHost: a resolved address is its raw bytes only. A scope id, which `getHostAddress` appends as `%scope` for scoped IPv6 addresses, is not modelled. Nor is the rule that `InetAddress.getByName` turns an IPv4-mapped IPv6 name into an IPv4 address: `resolve` is trusted to return the address family Java would.
- MongodLifecycle.Stop: `ReachedState.close` failing is not modelled; closing is a recorded event.
- ServerFactory.RunImports: when close throws after the body threw IllegalStateException, Java attaches the close exception to it as a suppressed exception. The model keeps only the IllegalStateException.
- ServerFactory.InitReplicaSet: `UsernamePassword.of(username, password)` is an external generated factory and is called with a null password when only a username is set. The model assumes it accepts the null and carries no password. A factory that rejects null would throw NullPointerException there instead.
- Thread-local installation of the progress listener is modelled as events on one thread.
- The storage settings are part of the properties record, not a shared mutable object. Getting the same object on every call, and mutating it in place, is expressed by `SetOplogSize` and `SetReplSetName` returning the updated record.
- The `storage != null` test in `fixTransactionAndAuth` is not modelled. The bean's storage is a final field initialised at construction, so it is never null.
