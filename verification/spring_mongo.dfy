/** The part of Spring Boot's MongoProperties the core reads. Every field may
    be unset (Java null). The client database is taken as already resolved
    (getMongoClientDatabase derives it from the database or URI settings). */
module SpringMongo {
  import opened Wrappers

  datatype MongoProperties = MongoProperties(
    host: Option<string>,
    port: Option<int>,
    uri: Option<string>,
    mongoClientDatabase: Option<string>,
    username: Option<string>,
    password: Option<seq<char>>)

  /** Both credentials are configured: the condition for enabling authentication. */
  predicate HasCredentials(p: MongoProperties) {
    p.username.Some? && p.password.Some?
  }
}
