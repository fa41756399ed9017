/** User credentials and the check against the configured list. */
module Credentials {
  import opened Bytes

  datatype Credential = Credential(username: Text, password: Text)

  /** The users of a listener; with none configured nobody is asked. */
  type Users = Option<seq<Credential>>

  predicate VerifyCredentials(username: seq<byte>, password: seq<byte>, users: seq<Credential>) {
    exists u :: u in users && u.username == username && u.password == password
  }
}
