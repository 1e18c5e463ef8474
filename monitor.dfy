/** The monitor itself: the snapshot it carries from one check to the next,
    the notifications it has sent, and the data file, with check_server as a
    method that updates all three. */
module Monitor {
  import opened Text
  import opened Names
  import opened State
  import opened Compose
  import opened Detect

  /** The ONLINE notification: the header with the version when it is known,
      Java's software, plugin and mod line when there is anything to list,
      and the message of the day when there is one. */
  method OnlineMessage(kind: ServerType, obs: Observation, motd: string) returns (message: string)
    requires motd == MotdOf(kind, obs)
    ensures message == Render(WentOnline(obs.version, ExtraOf(kind, obs), motd))
  {
    var versionSuffix := if obs.version != "" && obs.version != "Unknown" then " (" + obs.version + ")" else "";
    var parts := [OnlineBase + versionSuffix];
    if kind == Java {
      var extra: seq<string> := [];
      if obs.software != "" {
        extra := extra + [obs.software];
      }
      if obs.pluginCount != 0 {
        extra := extra + [Counted(obs.pluginCount, "plugin")];
      }
      if obs.modCount != 0 {
        extra := extra + [Counted(obs.modCount, "mod")];
      }
      assert extra == ExtraOf(kind, obs);
      if extra != [] {
        parts := parts + [Join(extra, " | ")];
      }
    }
    if motd != "" {
      parts := parts + [MotdLine(motd)];
    }
    assert parts == Lines(WentOnline(obs.version, ExtraOf(kind, obs), motd));
    message := Join(parts, [NewLine]);
  }

  /** The body of a `for name in sorted(...)` loop: one line per name, in
      the order given, after the lines already collected. */
  method AppendNameLines(parts: seq<string>, names: seq<string>, line: string -> string) returns (r: seq<string>)
    ensures r == parts + NameLines(names, line)
  {
    r := parts;
    for i := 0 to |names|
      invariant r == parts + NameLines(names[..i], line)
    {
      NameLinesSnoc(names, i, line);
      r := r + [line(names[i])];
    }
    assert names[..|names|] == names;
  }

  /** The name lines of the roster notification: a line per joined name in
      ascending order, then a line per departed name in ascending order. */
  method NameParts(joined: set<string>, left: set<string>) returns (parts: seq<string>)
    ensures |parts| == |joined| + |left|
    ensures parts == NameLines(SortedOf(joined), JoinedLine) + NameLines(SortedOf(left), LeftLine)
  {
    // Sorting or walking an empty set adds no line, so check_server's guards
    // on an empty difference are not repeated here.
    var joinedNames := SortNames(joined);
    parts := AppendNameLines([], joinedNames, JoinedLine);
    assert parts == NameLines(joinedNames, JoinedLine);
    var leftNames := SortNames(left);
    parts := AppendNameLines(parts, leftNames, LeftLine);
  }

  /** The Java roster notification: the name lines, then the population
      line; nothing when nobody joined or left. */
  method RosterMessage(joined: set<string>, left: set<string>, count: nat, max: nat) returns (message: Option<string>)
    ensures message.None? <==> joined == {} && left == {}
    ensures message.Some? ==> message.value == Render(RosterChanged(SortedOf(joined), SortedOf(left), count, max))
  {
    var parts := NameParts(joined, left);
    if parts != [] {
      parts := parts + [PopulationLine(count, max)];
      message := Some(Join(parts, [NewLine]));
    } else {
      message := None;
    }
  }

  /** The count fallback's notification: the change of the count in words,
      then the population line. As in check_server, anything but a rise is
      worded as departures. */
  method CountMessage(diff: int, count: nat, max: nat) returns (message: string)
    ensures message == Render(CountChanged(diff, count, max))
  {
    var population := PopulationLine(count, max);
    JoinTwo(CountLine(diff), population, [NewLine]);
    if diff > 0 {
      if diff == 1 {
        message := JoinMark + " A player joined!" + [NewLine] + population;
        assert JoinMark + " A player joined!" == CountLine(diff);
      } else {
        message := JoinMark + " " + DecimalString(diff) + " players joined!" + [NewLine] + population;
        assert JoinMark + " " + DecimalString(diff) + " players joined!" == CountLine(diff);
      }
    } else {
      var lost: nat := -diff;
      if lost == 1 {
        message := LeaveMark + " A player left." + [NewLine] + population;
        assert LeaveMark + " A player left." == CountLine(diff);
      } else {
        message := LeaveMark + " " + DecimalString(lost) + " players left." + [NewLine] + population;
        assert LeaveMark + " " + DecimalString(lost) + " players left." == CountLine(diff);
      }
    }
  }

  class ServerMonitor {
    /** SERVER_TYPE, fixed at start-up. */
    const kind: ServerType
    /** The five values the poll loop passes from one check to the next. */
    var state: Snapshot
    /** Every notification handed to the Discord webhook, oldest first. */
    var outbox: seq<string>
    /** The data file's content; None while no file exists. */
    var saved: Option<StoredRecord>

    /** Start-up: the snapshot comes from the data file, or the defaults. */
    constructor (kind: ServerType, stored: Option<StoredRecord>)
      ensures this.kind == kind
      ensures state == LoadPrevious(stored, kind).0
      ensures outbox == [] && saved == stored
    {
      this.kind := kind;
      state := LoadPrevious(stored, kind).0;
      outbox := [];
      saved := stored;
    }

    /** send_discord_notification: hands one message to the webhook. */
    method Send(message: string)
      modifies this`outbox
      ensures outbox == old(outbox) + [message]
    {
      outbox := outbox + [message];
    }

    /** save_current_data: replaces the data file's content. */
    method Save(onlineCount: nat, status: bool, gamemode: string, version: string, playerNames: set<string>)
      modifies this`saved
      ensures saved == Some(StoredRecord(onlineCount, Some(status), gamemode, kind, version, playerNames))
    {
      saved := Some(StoredRecord(onlineCount, Some(status), gamemode, kind, version, playerNames));
    }

    /** The status section of check_server: ONLINE or OFFLINE when the
        online flag differs from the previous status (always on the first
        check), otherwise a version change of an online server. */
    method ReportStatus(prev: Snapshot, obs: Observation, motd: string) returns (changed: bool)
      requires motd == MotdOf(kind, obs)
      modifies this`outbox
      ensures outbox == old(outbox) + RenderAll(StatusOrVersion(kind, prev, obs))
      ensures changed <==> StatusOrVersion(kind, prev, obs) != []
    {
      changed := false;
      if Some(obs.online) != prev.status || prev.status == None {
        changed := true;
        if obs.online {
          var message := OnlineMessage(kind, obs, motd);
          Send(message);
        } else {
          Send(OfflineLine);
        }
      } else if obs.online && obs.version != prev.version && obs.version != "Unknown" {
        changed := true;
        Send(VersionLine(prev.version, obs.version));
      }
    }

    /** The gamemode section of check_server, Bedrock only. */
    method ReportGamemode(prev: Snapshot, obs: Observation, gamemode: string) returns (changed: bool)
      requires gamemode == GamemodeOf(kind, obs)
      modifies this`outbox
      ensures outbox == old(outbox) + RenderAll(GamemodeRule(kind, prev, obs))
      ensures changed <==> GamemodeRule(kind, prev, obs) != []
    {
      changed := false;
      if kind == Bedrock && obs.online && gamemode != prev.gamemode {
        changed := true;
        Send(GamemodeLine(gamemode));
      }
    }

    /** The player section of check_server: by name for a Java server with
        a roster on either side, otherwise by count. */
    method ReportPlayers(prev: Snapshot, obs: Observation, current: set<string>) returns (changed: bool)
      requires current == NamesOf(kind, obs)
      modifies this`outbox
      ensures outbox == old(outbox) + RenderAll(PlayerRule(kind, prev, obs))
      ensures changed <==> PlayerRule(kind, prev, obs) != []
    {
      changed := false;
      if obs.online {
        if kind == Java && (current != {} || prev.playerNames != {}) {
          var joined := current - prev.playerNames;
          var left := prev.playerNames - current;
          if joined != {} {
            changed := true;
          }
          if left != {} {
            changed := true;
          }
          var message := RosterMessage(joined, left, obs.playerCount, obs.maxPlayers);
          if message.Some? {
            ghost var change := RosterChanged(SortedOf(joined), SortedOf(left), obs.playerCount, obs.maxPlayers);
            assert PlayerRule(kind, prev, obs) == [change];
            assert RenderAll([change]) == [message.value];
            Send(message.value);
          }
        } else if obs.playerCount != prev.onlineCount {
          changed := true;
          var message := CountMessage(obs.playerCount - prev.onlineCount, obs.playerCount, obs.maxPlayers);
          ghost var change := CountChanged(obs.playerCount - prev.onlineCount, obs.playerCount, obs.maxPlayers);
          assert PlayerRule(kind, prev, obs) == [change];
          assert RenderAll([change]) == [message];
          Send(message);
        }
      }
    }

    /** The three sections of check_server in turn; data_changed is set
        exactly when one of them sent a notification. */
    method Report(prev: Snapshot, obs: Observation, motd: string, gamemode: string, current: set<string>)
      returns (changed: bool)
      requires motd == MotdOf(kind, obs) && gamemode == GamemodeOf(kind, obs) && current == NamesOf(kind, obs)
      modifies this`outbox
      ensures outbox == old(outbox) + Notifications(kind, prev, Ok(obs))
      ensures changed <==> Changes(kind, prev, obs) != []
    {
      var statusChanged := ReportStatus(prev, obs, motd);
      var gamemodeChanged := ReportGamemode(prev, obs, gamemode);
      var playersChanged := ReportPlayers(prev, obs, current);
      changed := statusChanged || gamemodeChanged || playersChanged;
      NotificationsInSections(kind, prev, obs);
      ghost var status, gamemodes, players :=
        RenderAll(StatusOrVersion(kind, prev, obs)), RenderAll(GamemodeRule(kind, prev, obs)), RenderAll(PlayerRule(kind, prev, obs));
      Reassociate(old(outbox), status, gamemodes);
      Reassociate(old(outbox), status + gamemodes, players);
    }

    /** The end of check_server: the data file is rewritten when anything
        was sent, and the returned snapshot becomes the state. */
    method Commit(prev: Snapshot, obs: Observation, gamemode: string, current: set<string>, dataChanged: bool)
      requires gamemode == GamemodeOf(kind, obs) && current == NamesOf(kind, obs)
      modifies this`state, this`saved
      ensures state == NextState(kind, prev, Ok(obs))
      ensures saved == if dataChanged then Some(RecordOf(state, kind)) else old(saved)
    {
      if dataChanged {
        if obs.online {
          Save(obs.playerCount, obs.online, gamemode, obs.version, current);
        } else {
          Save(obs.playerCount, obs.online, prev.gamemode, prev.version, {});
        }
      }

      state := Snapshot(
        obs.playerCount,
        Some(obs.online),
        if obs.online then gamemode else prev.gamemode,
        if obs.online then obs.version else prev.version,
        if obs.online then current else {});
    }

    /** check_server: one poll of the status API. A failed fetch changes
        nothing; otherwise the notifications for what changed are sent in
        order, the data file is rewritten exactly when something was sent,
        and the returned snapshot becomes the state. */
    method CheckServer(fetch: FetchResult)
      modifies this
      ensures fetch.Failed? ==> state == old(state) && outbox == old(outbox) && saved == old(saved)
      ensures state == NextState(kind, old(state), fetch)
      ensures outbox == old(outbox) + Notifications(kind, old(state), fetch)
      ensures saved == if Notifications(kind, old(state), fetch) != [] then Some(RecordOf(state, kind)) else old(saved)
    {
      var prev := state;
      if fetch.Failed? {
        return;
      }
      var obs := fetch.obs;

      var motd := "";
      var gamemode := "";
      var current: set<string> := {};
      if kind == Bedrock {
        gamemode := Strip(obs.gamemode);
      } else {
        motd := obs.motd;
        current := obs.playerNames;
      }

      var dataChanged := Report(prev, obs, motd, gamemode, current);
      Commit(prev, obs, gamemode, current, dataChanged);
    }
  }
}
