// The packets master and backups exchange.
module Messages {
  import opened XtRecentProc

  /** xt_recent_action */
  datatype RecentAction =
    | AddUpdEntry(table: string, entry: UserEntry)
    | DeleteEntry(table: string, ip: string)
    | FlushTable(table: string)
    | DeleteTable(table: string)
    | UnknownAction(code: nat, table: string)

  /** http_session without its key, which is the index it is stored under. */
  datatype Session = Session(backendId: nat, content: string, lastAcc: nat)

  /** http::action_type */
  const CLEAR_DATA := 0
  const SYNC_REQUEST := 1
  const SESS_ADD := 2
  const SESS_DELETE := 3
  const SESS_UPDATE := 4
  const SESS_WRITE := 5

  /** http_action; code is its action_type. */
  datatype HttpAction = HttpAction(code: nat, farm: string, listener: nat, service: nat, backend: nat,
                                   key: string, content: string, lastAcc: nat)

  /** A conn_packet; kind is the packet type of a packet without a body. */
  datatype Packet =
    | Control(kind: nat)
    | Recent(action: RecentAction)
    | Http(request: HttpAction)
}
