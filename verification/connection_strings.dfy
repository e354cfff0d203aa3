/** The two connection strings the core writes: "mongodb://" followed by a
    server address (the sync client factory), and
    "mongodb://" + host + ":" + port + "/" + database (the URI property the
    auto-configuration publishes). `Parse` reads either form back and is the
    partner the round-trip lemmas relate them to. It splits host and port at the
    last colon, so it accepts an unbracketed IPv6 host such as "0:0:0:0:0:0:0:1";
    the MongoDB driver requires IPv6 literals in brackets and would reject such a
    string. */
module ConnectionStrings {
  import opened Wrappers
  import JavaText

  const Scheme: string := "mongodb://"

  /** The text of a server address: host, a colon, the port in decimal. */
  function Authority(host: string, port: int): string {
    host + ":" + JavaText.IntToString(port)
  }

  /** "mongodb://" + serverAddress. */
  function ServerUri(host: string, port: int): string {
    Scheme + Authority(host, port)
  }

  /** "mongodb://" + host + ":" + port + "/" + database. */
  function DatabaseUri(host: string, port: int, database: string): string {
    Scheme + Authority(host, port) + "/" + database
  }

  /** What a connection string designates. */
  datatype Target = Target(host: string, port: int, database: Option<string>)

  function LastIndexOf(s: string, c: char): (r: Option<nat>)
    ensures r.Some? ==> r.value < |s| && s[r.value] == c && c !in s[r.value + 1..]
    ensures r.None? ==> c !in s
    decreases |s|
  {
    if |s| == 0 then None
    else if s[|s| - 1] == c then Some(|s| - 1)
    else
      var r := LastIndexOf(s[..|s| - 1], c);
      assert s == s[..|s| - 1] + [s[|s| - 1]];
      r
  }

  function FirstIndexOf(s: string, c: char): (r: Option<nat>)
    ensures r.Some? ==> r.value < |s| && s[r.value] == c && c !in s[..r.value]
    ensures r.None? ==> c !in s
    decreases |s|
  {
    if |s| == 0 then None
    else if s[0] == c then Some(0)
    else
      match FirstIndexOf(s[1..], c)
      case None => None
      case Some(j) =>
        assert s[..j + 1] == [s[0]] + s[1..][..j];
        Some(j + 1)
  }

  /** Splits "host:port" at its last colon, so an unbracketed IPv6 host keeps its colons. */
  function ParseAuthority(s: string): Option<(string, int)> {
    match LastIndexOf(s, ':')
    case None => None
    case Some(i) =>
      match JavaText.ParseInt(s[i + 1..])
      case None => None
      case Some(p) => Some((s[..i], p))
  }

  /** Reads "mongodb://host:port" or "mongodb://host:port/database". */
  function Parse(uri: string): Option<Target> {
    if |uri| < |Scheme| || uri[..|Scheme|] != Scheme then None
    else
      var rest := uri[|Scheme|..];
      match FirstIndexOf(rest, '/')
      case None =>
        (match ParseAuthority(rest)
         case None => None
         case Some(hp) => Some(Target(hp.0, hp.1, None)))
      case Some(j) =>
        (match ParseAuthority(rest[..j])
         case None => None
         case Some(hp) => Some(Target(hp.0, hp.1, Some(rest[j + 1..]))))
  }

  /** The last occurrence of `c` in u + [c] + t, when t has none, is the one between them. */
  lemma {:induction false} LastIndexOfSplit(u: string, c: char, t: string)
    requires c !in t
    ensures LastIndexOf(u + [c] + t, c) == Some(|u|)
    decreases |t|
  {
    if |t| > 0 {
      var s := u + [c] + t;
      assert s[|s| - 1] == t[|t| - 1];
      assert s[..|s| - 1] == u + [c] + t[..|t| - 1];
      LastIndexOfSplit(u, c, t[..|t| - 1]);
    }
  }

  /** The first occurrence of `c` in u + [c] + t, when u has none, is the one between them. */
  lemma {:induction false} FirstIndexOfSplit(u: string, c: char, t: string)
    requires c !in u
    ensures FirstIndexOf(u + [c] + t, c) == Some(|u|)
    decreases |u|
  {
    if |u| > 0 {
      var s := u + [c] + t;
      assert s[0] == u[0];
      assert s[1..] == u[1..] + [c] + t;
      FirstIndexOfSplit(u[1..], c, t);
    }
  }

  /** The address text reads back as the host and port it was made from, whatever the host. */
  lemma ParseAuthorityOfAuthority(host: string, port: int)
    ensures ParseAuthority(Authority(host, port)) == Some((host, port))
  {
    var digits := JavaText.IntToString(port);
    var s := Authority(host, port);
    assert s == host + [':'] + digits;
    LastIndexOfSplit(host, ':', digits);
    assert s[|host| + 1..] == digits;
    assert s[..|host|] == host;
    JavaText.ParseIntOfIntToString(port);
  }

  /** The client connection string designates exactly the server address, with no database. */
  lemma ParseServerUri(host: string, port: int)
    requires '/' !in host
    ensures Parse(ServerUri(host, port)) == Some(Target(host, port, None))
  {
    var uri := ServerUri(host, port);
    var rest := uri[|Scheme|..];
    assert uri[..|Scheme|] == Scheme;
    assert rest == Authority(host, port);
    SlashFreeAuthority(host, port);
    assert FirstIndexOf(rest, '/').None?;
    ParseAuthorityOfAuthority(host, port);
  }

  /** A server address text has no slash when its host has none. */
  lemma SlashFreeAuthority(host: string, port: int)
    requires '/' !in host
    ensures '/' !in Authority(host, port)
  {
  }

  /** The URI property designates exactly the host, port and database it was built from. */
  lemma ParseDatabaseUri(host: string, port: int, database: string)
    requires '/' !in host
    ensures Parse(DatabaseUri(host, port, database)) == Some(Target(host, port, Some(database)))
  {
    var uri := DatabaseUri(host, port, database);
    var authority := Authority(host, port);
    var rest := uri[|Scheme|..];
    assert uri[..|Scheme|] == Scheme;
    assert rest == authority + ['/'] + database;
    SlashFreeAuthority(host, port);
    FirstIndexOfSplit(authority, '/', database);
    assert rest[..|authority|] == authority;
    assert rest[|authority| + 1..] == database;
    ParseAuthorityOfAuthority(host, port);
    assert ParseAuthority(rest[..|authority|]) == Some((host, port));
  }
}
