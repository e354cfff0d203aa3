/** The decisions inside EmbeddedMongoAutoConfiguration: which version to
    use, which host and port the server binds, which connection properties
    are published, and how the server arguments are rewritten for
    replication, journaling and authentication. Queries of the running
    machine (name resolution, a free port, IPv6 support) arrive through an
    Environment value. */
module AutoConfiguration {
  import opened Wrappers
  import JavaText
  import ConnectionStrings
  import opened ProcessTypes
  import opened Exceptions
  import opened SpringMongo
  import opened EmbeddedProperties
  import opened BeanPostProcessing

  type Byte = x: int | 0 <= x < 256

  /** The raw bytes of an InetAddress: four for IPv4, sixteen for IPv6. */
  type IpAddress = a: seq<Byte> | |a| == 4 || |a| == 16 witness [127, 0, 0, 1]

  const Ip4Loopback: IpAddress := [127, 0, 0, 1]
  const Ip6Loopback: IpAddress := [0, 0, 0, 0, 0, 0, 0, 0, 0, 0, 0, 0, 0, 0, 0, 1]

  /** InetAddress.getHostAddress: dotted decimal for IPv4, eight colon-separated
      hexadecimal groups without zero compression for IPv6. */
  function HostAddress(a: IpAddress): string {
    if |a| == 4 then
      JavaText.Join(seq(4, i requires 0 <= i < 4 => JavaText.IntToString(a[i])), ".")
    else
      JavaText.Join(seq(8, i requires 0 <= i < 8 => JavaText.NatToHex(a[2 * i] as int * 256 + a[2 * i + 1] as int)), ":")
  }

  /** What the running machine answers: Network.localhostIsIPv6 (which can throw
      UnknownHostException, as it looks up the machine's own name), the address a
      host name resolves to (None: UnknownHostException), the port
      Network.freeServerPort(host) hands out or the IOException it throws (it binds a
      socket on the host), and the reverse-resolved name of an address. */
  datatype Environment = Environment(
    localhostIsIPv6: Result<bool, Exception>,
    resolve: string -> Option<IpAddress>,
    freeServerPort: IpAddress -> Result<int, Exception>,
    hostNameOf: string -> string)

  /** The loopback address of the family the machine uses. */
  function Loopback(ipv6: bool): IpAddress {
    if ipv6 then Ip6Loopback else Ip4Loopback
  }

  /** A configured port is used only when it is set and positive. */
  predicate UsesConfiguredPort(configuredPort: Option<int>) {
    configuredPort.Some? && configuredPort.value > 0
  }

  /** getHost: the loopback address matching the machine when no host is configured,
      otherwise the configured host resolved. */
  function GetHost(p: MongoProperties, env: Environment): (r: Result<IpAddress, Exception>)
    ensures p.host.None? ==> (r.Ok? <==> env.localhostIsIPv6.Ok?)
    ensures p.host.None? && r.Ok? ==> r.value == Loopback(env.localhostIsIPv6.value)
    ensures p.host.None? && r.Err? ==> r.error == env.localhostIsIPv6.error
    ensures p.host.Some? ==> (r.Ok? <==> env.resolve(p.host.value).Some?)
    ensures p.host.Some? && r.Ok? ==> r.value == env.resolve(p.host.value).value
    ensures p.host.Some? && r.Err? ==> r.error == UnknownHost(p.host.value)
  {
    match p.host
    case None =>
      (match env.localhostIsIPv6
       case Ok(ipv6) => Ok(Loopback(ipv6))
       case Err(e) => Err(e))
    case Some(h) =>
      match env.resolve(h)
      case Some(a) => Ok(a)
      case None => Err(UnknownHost(h))
  }

  /** de.flapdoodle.embed.mongo.config.Net: bind address, port, IPv6 flag. */
  datatype Net = Net(bindIp: string, port: int, isIpv6: bool)

  /** net(properties, configuredPort): the configured port when it is set and
      positive, otherwise a free port; the bind address is the host's text form. */
  function NetFor(p: MongoProperties, configuredPort: Option<int>, env: Environment): (r: Result<Net, Exception>)
    ensures r.Ok? <==>
      && GetHost(p, env).Ok?
      && (UsesConfiguredPort(configuredPort) || env.freeServerPort(GetHost(p, env).value).Ok?)
      && env.localhostIsIPv6.Ok?
    ensures GetHost(p, env).Err? ==> r == Err(GetHost(p, env).error)
    ensures GetHost(p, env).Ok? && !UsesConfiguredPort(configuredPort) && env.freeServerPort(GetHost(p, env).value).Err?
      ==> r == Err(env.freeServerPort(GetHost(p, env).value).error)
    ensures GetHost(p, env).Ok? && env.localhostIsIPv6.Err?
      && (UsesConfiguredPort(configuredPort) || env.freeServerPort(GetHost(p, env).value).Ok?)
      ==> r == Err(env.localhostIsIPv6.error)
    ensures r.Ok? ==> r.value.bindIp == HostAddress(GetHost(p, env).value)
    ensures r.Ok? ==> r.value.isIpv6 == env.localhostIsIPv6.value
    ensures r.Ok? && UsesConfiguredPort(configuredPort) ==> r.value.port == configuredPort.value
    ensures r.Ok? && !UsesConfiguredPort(configuredPort) ==> r.value.port == env.freeServerPort(GetHost(p, env).value).value
  {
    match GetHost(p, env)
    case Err(e) => Err(e)
    case Ok(host) =>
      var port := if UsesConfiguredPort(configuredPort) then Ok(configuredPort.value) else env.freeServerPort(host);
      match port
      case Err(e) => Err(e)
      case Ok(port) =>
        match env.localhostIsIPv6
        case Err(e) => Err(e)
        case Ok(ipv6) => Ok(Net(HostAddress(host), port, ipv6))
  }

  /** A configured port of zero or below never survives: the server gets the free port. */
  lemma NonPositivePortIsReplaced(p: MongoProperties, configuredPort: Option<int>, env: Environment)
    requires forall a :: env.freeServerPort(a).Ok? ==> env.freeServerPort(a).value > 0
    requires NetFor(p, configuredPort, env).Ok?
    ensures NetFor(p, configuredPort, env).value.port > 0
    ensures NetFor(p, configuredPort, env).value.port == configuredPort.value
      <== configuredPort.Some? && configuredPort.value > 0
  {
  }

  /** The IPv4 loopback address in the form the server is told to bind. */
  lemma Ip4LoopbackText()
    ensures HostAddress(Ip4Loopback) == "127.0.0.1"
  {
    assert JavaText.NatToString(12) == "12";
    assert JavaText.IntToString(127) == "127";
    var v4 := seq(4, i requires 0 <= i < 4 => JavaText.IntToString(Ip4Loopback[i]));
    assert v4 == ["127", "0", "0", "1"];
    assert JavaText.Join(v4[3..], ".") == "1";
    assert JavaText.Join(v4[2..], ".") == "0" + "." + "1";
    assert JavaText.Join(v4[1..], ".") == "0" + "." + "0.1";
    assert JavaText.Join(v4, ".") == "127" + "." + "0.0.1";
  }

  /** Eight groups "0", ..., "0", "1" joined by colons. */
  lemma {:induction false} JoinLoopbackGroups()
    ensures JavaText.Join(["0", "0", "0", "0", "0", "0", "0", "1"], ":") == "0:0:0:0:0:0:0:1"
  {
    var g := ["0", "0", "0", "0", "0", "0", "0", "1"];
    assert JavaText.Join(g[7..], ":") == "1";
    assert JavaText.Join(g[6..], ":") == "0" + ":" + "1";
    assert JavaText.Join(g[5..], ":") == "0" + ":" + "0:1";
    assert JavaText.Join(g[4..], ":") == "0" + ":" + "0:0:1";
    assert JavaText.Join(g[3..], ":") == "0" + ":" + "0:0:0:1";
    assert JavaText.Join(g[2..], ":") == "0" + ":" + "0:0:0:0:1";
    assert JavaText.Join(g[1..], ":") == "0" + ":" + "0:0:0:0:0:1";
    assert JavaText.Join(g, ":") == "0" + ":" + "0:0:0:0:0:0:1";
  }

  /** The IPv6 loopback address in the form the server is told to bind. */
  lemma Ip6LoopbackText()
    ensures HostAddress(Ip6Loopback) == "0:0:0:0:0:0:0:1"
  {
    var v6 := seq(8, i requires 0 <= i < 8 => JavaText.NatToHex(Ip6Loopback[2 * i] as int * 256 + Ip6Loopback[2 * i + 1] as int));
    assert JavaText.NatToHex(0) == "0" && JavaText.NatToHex(1) == "1";
    assert forall i | 0 <= i < 7 :: Ip6Loopback[2 * i] == 0 && Ip6Loopback[2 * i + 1] == 0;
    assert forall i | 0 <= i < 7 :: v6[i] == "0";
    assert v6[7] == "1";
    assert v6 == ["0", "0", "0", "0", "0", "0", "0", "1"];
    JoinLoopbackGroups();
  }

  /** With no host configured the server binds the loopback address of the machine's family. */
  lemma DefaultHostIsLoopback(p: MongoProperties, configuredPort: Option<int>, env: Environment)
    requires p.host.None?
    ensures NetFor(p, configuredPort, env).Ok? <==>
      && env.localhostIsIPv6.Ok?
      && (UsesConfiguredPort(configuredPort) || env.freeServerPort(Loopback(env.localhostIsIPv6.value)).Ok?)
    ensures NetFor(p, configuredPort, env).Ok? ==>
      NetFor(p, configuredPort, env).value.bindIp == (if env.localhostIsIPv6.value then "0:0:0:0:0:0:0:1" else "127.0.0.1")
  {
    Ip4LoopbackText();
    Ip6LoopbackText();
  }

  datatype PropertyValue = IntValue(i: int) | TextValue(s: string)

  const PortProperty: string := "spring.data.mongodb.port"
  const HostProperty: string := "spring.data.mongodb.host"
  const UriProperty: string := "spring.data.mongodb.uri"

  /** The "embeddedMongoProperties" source put in front of the environment: port
      and host always, the URI only when one was configured, rewritten to point
      at the embedded server and the client database. */
  function PublishedProperties(p: MongoProperties, net: Net, hostName: string): (m: map<string, PropertyValue>)
    ensures m.Keys == {PortProperty, HostProperty} + (if p.uri.Some? then {UriProperty} else {})
    ensures m[PortProperty] == IntValue(net.port)
    ensures m[HostProperty] == TextValue(hostName)
    ensures p.uri.Some? ==> m[UriProperty].TextValue?
  {
    var base := map[PortProperty := IntValue(net.port), HostProperty := TextValue(hostName)];
    if p.uri.Some? then
      base[UriProperty := TextValue(ConnectionStrings.DatabaseUri(hostName, net.port, JavaText.OrNull(p.mongoClientDatabase)))]
    else base
  }

  /** The published URI designates the embedded server's host and port and the client
      database (rendered "null" when unset), and reads back as exactly those. */
  lemma PublishedUriTargetsServer(p: MongoProperties, net: Net, hostName: string)
    requires p.uri.Some?
    requires '/' !in hostName
    ensures ConnectionStrings.Parse(PublishedProperties(p, net, hostName)[UriProperty].s)
      == Some(ConnectionStrings.Target(hostName, net.port, Some(JavaText.OrNull(p.mongoClientDatabase))))
  {
    ConnectionStrings.ParseDatabaseUri(hostName, net.port, JavaText.OrNull(p.mongoClientDatabase));
  }

  /** The net bean: choose the Net for the configured port and publish the matching properties. */
  function NetBean(p: MongoProperties, env: Environment): (r: Result<(Net, map<string, PropertyValue>), Exception>)
    ensures r.Ok? <==> NetFor(p, p.port, env).Ok?
    ensures r.Err? ==> r.error == NetFor(p, p.port, env).error
    ensures r.Ok? ==> r.value.0 == NetFor(p, p.port, env).value
    ensures r.Ok? ==> r.value.1 == PublishedProperties(p, r.value.0, env.hostNameOf(r.value.0.bindIp))
    ensures r.Ok? ==> r.value.1[PortProperty] == IntValue(r.value.0.port)
    ensures r.Ok? ==> r.value.1[HostProperty] == TextValue(env.hostNameOf(r.value.0.bindIp))
  {
    match NetFor(p, p.port, env)
    case Err(e) => Err(e)
    case Ok(net) => Ok((net, PublishedProperties(p, net, env.hostNameOf(net.bindIp))))
  }

  const VersionPrefix: string := "de.flapdoodle"

  function MissingVersionMessage(prefix: string): string {
    "Set the " + prefix + ".mongodb.embedded.version property or "
      + "define your own " + "IFeatureAwareVersion" + " bean to use embedded MongoDB"
  }

  /** determineVersion: the configured version, or IllegalStateException when none is set. */
  function DetermineVersion(prefix: string, version: Option<string>): (r: Result<Version, Exception>)
    ensures r.Err? <==> version.None?
    ensures r.Err? ==> r.error == IllegalState(Text(MissingVersionMessage(prefix)))
    ensures r.Ok? ==> r.value == Version(version.value)
  {
    match version
    case None => Err(IllegalState(Text(MissingVersionMessage(prefix))))
    case Some(v) => Ok(Version(v))
  }

  /** The version bean: without a configured version the context fails with the
      message naming the "de.flapdoodle.mongodb.embedded.version" property. */
  function VersionBean(e: EmbeddedMongoProperties): (r: Result<Version, Exception>)
    ensures e.version.None? ==> r == Err(IllegalState(Text(MissingVersionMessage("de.flapdoodle"))))
    ensures e.version.Some? ==> r == Ok(Version(e.version.value))
  {
    DetermineVersion(VersionPrefix, e.version)
  }

  /** The version bean follows the version property: the defaults have none and the
      context fails; once set, the bean is exactly the set text, and clearing it fails again. */
  lemma VersionBeanFollowsProperty(e: EmbeddedMongoProperties, v: string)
    ensures VersionBean(Defaults()).Err?
    ensures VersionBean(SetVersion(e, Some(v))) == Ok(Version(v))
    ensures VersionBean(SetVersion(e, None)) == VersionBean(Defaults())
  {
  }

  /** The oplog size handed to the replication settings: whole megabytes cast to int, 0 when unset. */
  function OplogSizeMegabytes(s: EmbeddedProperties.Storage): (mb: int)
    ensures -JavaText.TwoTo31 <= mb < JavaText.TwoTo31
    ensures s.oplogSize.None? ==> mb == 0
    ensures s.oplogSize.Some? ==> (mb - ToMegabytes(s.oplogSize.value)) % JavaText.TwoTo32 == 0
    ensures s.oplogSize.Some? && -JavaText.TwoTo31 <= ToMegabytes(s.oplogSize.value) < JavaText.TwoTo31
      ==> mb == ToMegabytes(s.oplogSize.value)
  {
    match s.oplogSize
    case None => 0
    case Some(size) => JavaText.ToInt32(ToMegabytes(size))
  }

  /** The two bindings the configuration tests use: 1024KB gives 1 and a bare 10 gives 10;
      any bare number in int range comes through unchanged. */
  lemma OplogSizeExamples(n: int)
    requires -JavaText.TwoTo31 <= n < JavaText.TwoTo31
    ensures OplogSizeMegabytes(EmbeddedProperties.Storage(Some(OfKilobytes(1024)), Some("testing"))) == 1
    ensures OplogSizeMegabytes(EmbeddedProperties.Storage(Some(BindBareOplogSize(10)), Some("testing"))) == 10
    ensures OplogSizeMegabytes(EmbeddedProperties.Storage(Some(BindBareOplogSize(n)), None)) == n
  {
    assert ToMegabytes(OfKilobytes(1024)) == 1;
  }

  /** fixTransactionAndAuth: adds replication from the storage settings when the
      arguments have none, turns journaling on whenever replication is present,
      and enables auth when both credentials are configured. */
  function FixTransactionAndAuth(storage: EmbeddedProperties.Storage, mongo: MongoProperties, src: MongodArguments): (r: MongodArguments)
    ensures r.rest == src.rest
    ensures src.replication.Some? ==> r.replication == src.replication
    ensures src.replication.None? ==> (r.replication.Some? <==> storage.replSetName.Some?)
    ensures src.replication.None? && storage.replSetName.Some?
      ==> r.replication == Some(ReplicationStorage(storage.replSetName.value, OplogSizeMegabytes(storage)))
    ensures r.replication.Some? ==> !r.useNoJournal
    ensures r.replication.None? ==> r.useNoJournal == src.useNoJournal
    ensures r.auth <==> src.auth || HasCredentials(mongo)
  {
    var replicated :=
      if storage.replSetName.Some? && src.replication.None? then
        src.(replication := Some(ReplicationStorage(storage.replSetName.value, OplogSizeMegabytes(storage))),
             useNoJournal := false)
      else if src.replication.Some? then
        src.(useNoJournal := false)
      else src;
    if HasCredentials(mongo) then replicated.(auth := true) else replicated
  }

  /** Rewriting already rewritten arguments changes nothing. */
  lemma FixTransactionAndAuthIdempotent(storage: EmbeddedProperties.Storage, mongo: MongoProperties, src: MongodArguments)
    ensures FixTransactionAndAuth(storage, mongo, FixTransactionAndAuth(storage, mongo, src))
      == FixTransactionAndAuth(storage, mongo, src)
  {
  }

  /** With the default embedded properties, arguments without replication stay without it. */
  lemma DefaultStorageAddsNoReplication(mongo: MongoProperties, src: MongodArguments)
    requires src.replication.None?
    ensures FixTransactionAndAuth(Defaults().storage, mongo, src).replication.None?
    ensures FixTransactionAndAuth(Defaults().storage, mongo, src).useNoJournal == src.useNoJournal
  {
  }

  /** The post-processor bean: the rewrite before initialisation, identity after. The
      storage settings are taken when the processor is built; the Java hook reads the
      mutable Storage object when it runs, which is the same value here because the
      properties are an immutable record. */
  function FixTransactionAndAuthProcessor(e: EmbeddedMongoProperties, mongo: MongoProperties): (p: TypedBeanPostProcessor<MongodArguments>)
    ensures forall a :: p.beforeInit(a) == FixTransactionAndAuth(e.storage, mongo, a)
    ensures forall a :: p.afterInit(a) == a
  {
    TypedBeanPostProcessor(a => FixTransactionAndAuth(e.storage, mongo, a), a => a)
  }

  /** Through the post-processor: MongodArguments beans are rewritten once, other
      beans pass untouched, and the after-hook changes nothing. */
  lemma ProcessorRewritesOnlyServerArguments<O>(e: EmbeddedMongoProperties, mongo: MongoProperties, bean: Bean<MongodArguments, O>, beanName: string)
    ensures var p := FixTransactionAndAuthProcessor(e, mongo);
      PostProcessBeforeInitialization(p, bean, beanName)
        == (if bean.Instance? then Instance(FixTransactionAndAuth(e.storage, mongo, bean.value)) else bean)
    ensures PostProcessAfterInitialization(FixTransactionAndAuthProcessor(e, mongo), bean, beanName) == bean
  {
  }
}
