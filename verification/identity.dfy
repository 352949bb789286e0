/** What hosts, sessions and projects are known by. */
module Identity {

  type HostID = string

  /** A session's id. */
  type ID = string

  /** The (host, root) of a project, which is also the identity of its session. */
  datatype Key = Key(host: HostID, root: string)

  datatype HostStatus = Unknown | Up | Down
}
