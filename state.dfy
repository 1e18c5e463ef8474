/** The values check_server works on: the configured server type, one fetch of
    the status API, the five-part snapshot threaded from one check to the next,
    and the record kept in the data file. */
module State {

  datatype Option<T> = None | Some(value: T)

  /** SERVER_TYPE: a Bedrock server reports a gamemode and only a player count;
      a Java server reports software, plugins, mods, a message of the day and
      the names of the connected players. */
  datatype ServerType = Bedrock | Java

  /** The ways the request to the status API can fail: the requests library's
      ConnectionError, Timeout, HTTPError (with the response's status code when
      there is a response) and any other RequestException, and a body that is
      not JSON. */
  datatype FetchError =
    | ConnectionError
    | Timeout
    | HttpError(status: Option<int>)
    | RequestError
    | InvalidJson

  /** One answer of the status API, with the defaults of the dictionary
      lookups already applied: offline, 0 players of 0, version "Unknown", and
      empty gamemode, software and message of the day, no plugins, no mods and
      no player list. The gamemode is as sent, before stripping. */
  datatype Observation = Observation(
    online: bool,
    playerCount: nat,
    maxPlayers: nat,
    version: string,
    gamemode: string,
    software: string,
    motd: string,
    pluginCount: nat,
    modCount: nat,
    playerNames: set<string>)

  datatype FetchResult = Failed(error: FetchError) | Ok(obs: Observation)

  /** The five values check_server takes and returns: player count, online
      flag (None before the first successful check), gamemode, version and the
      names of the connected players. */
  datatype Snapshot = Snapshot(
    onlineCount: nat,
    status: Option<bool>,
    gamemode: string,
    version: string,
    playerNames: set<string>)

  /** The data file's record: the snapshot's fields plus the server type it
      was written under. */
  datatype StoredRecord = StoredRecord(
    onlineCount: nat,
    serverStatus: Option<bool>,
    gamemode: string,
    serverType: ServerType,
    version: string,
    playerNames: set<string>)

  /** What load_previous_data hands to the first check when the data file is
      missing or is not valid JSON. */
  function DefaultSnapshot(): (s: Snapshot)
    ensures s.status == None && s.playerNames == {}
  {
    Snapshot(0, None, "", "Unknown", {})
  }

  /** load_previous_data: the stored snapshot and server type, or the
      defaults with the configured server type when there is no usable file. */
  function LoadPrevious(stored: Option<StoredRecord>, configured: ServerType): (r: (Snapshot, ServerType))
    ensures stored.None? ==> r == (DefaultSnapshot(), configured)
    ensures stored.Some? ==> r.1 == stored.value.serverType
  {
    match stored
    case None => (DefaultSnapshot(), configured)
    case Some(rec) =>
      (Snapshot(rec.onlineCount, rec.serverStatus, rec.gamemode, rec.version, rec.playerNames), rec.serverType)
  }

  /** The record save_current_data writes for a snapshot, under the
      configured server type. */
  function RecordOf(s: Snapshot, kind: ServerType): (rec: StoredRecord)
    ensures LoadPrevious(Some(rec), kind) == (s, kind)
  {
    StoredRecord(s.onlineCount, s.status, s.gamemode, kind, s.version, s.playerNames)
  }
}
