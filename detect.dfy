/** What one call of check_server decides, stated as functions: the changes it
    notices (in the order it sends them), the snapshot it returns, and the
    properties these rules give, within one check and across several. */
module Detect {
  import opened Text
  import opened Names
  import opened State
  import opened Compose

  /** The gamemode a check reads: stripped for Bedrock, never read for Java. */
  function GamemodeOf(kind: ServerType, obs: Observation): string
  {
    if kind == Bedrock then Strip(obs.gamemode) else ""
  }

  /** The message of the day, read for Java only. */
  function MotdOf(kind: ServerType, obs: Observation): string
  {
    if kind == Java then obs.motd else ""
  }

  /** The connected players' names, reported by Java servers only. */
  function NamesOf(kind: ServerType, obs: Observation): set<string>
  {
    if kind == Java then obs.playerNames else {}
  }

  /** The extra ONLINE line's parts, for Java only. */
  function ExtraOf(kind: ServerType, obs: Observation): seq<string>
  {
    if kind == Java then ExtraInfo(obs.software, obs.pluginCount, obs.modCount) else []
  }

  /** Players are tracked by name when the server is Java and either roster
      is non-empty; otherwise by count. */
  predicate TracksRoster(kind: ServerType, prev: Snapshot, obs: Observation)
  {
    kind == Java && (NamesOf(kind, obs) != {} || prev.playerNames != {})
  }

  /** The first rule: a status change (also on the first check), or else a
      version change of an online server to a known version. */
  function StatusOrVersion(kind: ServerType, prev: Snapshot, obs: Observation): seq<Change>
  {
    if prev.status != Some(obs.online) then
      [if obs.online then WentOnline(obs.version, ExtraOf(kind, obs), MotdOf(kind, obs)) else WentOffline]
    else if obs.online && obs.version != prev.version && obs.version != "Unknown" then
      [VersionChanged(prev.version, obs.version)]
    else
      []
  }

  /** The second rule: a Bedrock server online with a different gamemode. */
  function GamemodeRule(kind: ServerType, prev: Snapshot, obs: Observation): seq<Change>
  {
    if kind == Bedrock && obs.online && GamemodeOf(kind, obs) != prev.gamemode then
      [GamemodeChanged(GamemodeOf(kind, obs))]
    else
      []
  }

  /** The third rule: players who joined or left, by name or by count, while
      online. */
  ghost function PlayerRule(kind: ServerType, prev: Snapshot, obs: Observation): seq<Change>
  {
    if !obs.online then []
    else if TracksRoster(kind, prev, obs) then
      var joined := NamesOf(kind, obs) - prev.playerNames;
      var left := prev.playerNames - NamesOf(kind, obs);
      if joined == {} && left == {} then []
      else [RosterChanged(SortedOf(joined), SortedOf(left), obs.playerCount, obs.maxPlayers)]
    else if obs.playerCount != prev.onlineCount then
      [CountChanged(obs.playerCount - prev.onlineCount, obs.playerCount, obs.maxPlayers)]
    else
      []
  }

  /** Everything a successful check notices, in the order it is sent. */
  ghost function Changes(kind: ServerType, prev: Snapshot, obs: Observation): seq<Change>
  {
    StatusOrVersion(kind, prev, obs) + GamemodeRule(kind, prev, obs) + PlayerRule(kind, prev, obs)
  }

  /** The notifications one check sends: none after a failed fetch. */
  ghost function Notifications(kind: ServerType, prev: Snapshot, fetch: FetchResult): seq<string>
  {
    match fetch
    case Failed(_) => []
    case Ok(obs) => RenderAll(Changes(kind, prev, obs))
  }

  /** The snapshot check_server returns. */
  function NextState(kind: ServerType, prev: Snapshot, fetch: FetchResult): Snapshot
  {
    match fetch
    case Failed(_) => prev
    case Ok(obs) =>
      if obs.online then
        Snapshot(obs.playerCount, Some(true), GamemodeOf(kind, obs), obs.version, NamesOf(kind, obs))
      else
        Snapshot(obs.playerCount, Some(false), prev.gamemode, prev.version, {})
  }

  /** The notifications of a check are those of the status rule, then the
      gamemode rule, then the player rule. */
  lemma NotificationsInSections(kind: ServerType, prev: Snapshot, obs: Observation)
    ensures Changes(kind, prev, obs) != [] <==>
      StatusOrVersion(kind, prev, obs) != [] || GamemodeRule(kind, prev, obs) != [] || PlayerRule(kind, prev, obs) != []
    ensures Notifications(kind, prev, Ok(obs)) ==
      RenderAll(StatusOrVersion(kind, prev, obs)) + RenderAll(GamemodeRule(kind, prev, obs)) + RenderAll(PlayerRule(kind, prev, obs))
  {
    var a, b, c := StatusOrVersion(kind, prev, obs), GamemodeRule(kind, prev, obs), PlayerRule(kind, prev, obs);
    assert Changes(kind, prev, obs) == a + b + c;
    RenderAllAppend(a, b);
    RenderAllAppend(a + b, c);
  }

  /** A failed fetch leaves the snapshot as it was and sends nothing. */
  lemma FailureChangesNothing(kind: ServerType, prev: Snapshot, e: FetchError)
    ensures NextState(kind, prev, Failed(e)) == prev
    ensures Notifications(kind, prev, Failed(e)) == []
  {
  }

  /** A successful fetch always leaves the status known, taken from the
      fetch, and the count taken from the fetch; an offline server keeps the
      previous gamemode and version and forgets the roster. */
  lemma NextStateFields(kind: ServerType, prev: Snapshot, obs: Observation)
    ensures var s := NextState(kind, prev, Ok(obs));
      s.status == Some(obs.online) && s.onlineCount == obs.playerCount &&
      (obs.online ==> s.gamemode == GamemodeOf(kind, obs) && s.version == obs.version && s.playerNames == NamesOf(kind, obs)) &&
      (!obs.online ==> s.gamemode == prev.gamemode && s.version == prev.version && s.playerNames == {})
  {
  }

  predicate IsStatus(c: Change)
  {
    c.WentOnline? || c.WentOffline?
  }

  /** A status notification goes out exactly when the fetched online flag
      differs from the previous status, the unknown status of the first check
      included; it is then the first notification, and it announces the new
      status. */
  lemma StatusRule(kind: ServerType, prev: Snapshot, obs: Observation)
    ensures var cs := Changes(kind, prev, obs);
      ((exists c :: c in cs && IsStatus(c)) <==> prev.status != Some(obs.online)) &&
      (prev.status != Some(obs.online) ==> cs[0].WentOnline? == obs.online && cs[0].WentOffline? == !obs.online)
  {
    var cs := Changes(kind, prev, obs);
    if prev.status != Some(obs.online) {
      assert cs[0] in cs;
    }
  }

  /** The ONLINE notification carries the version, Java's extra line and the
      message of the day; the OFFLINE one is the single fixed line. */
  lemma StatusText(kind: ServerType, prev: Snapshot, obs: Observation)
    requires prev.status != Some(obs.online)
    ensures var first := Lines(Changes(kind, prev, obs)[0]);
      (obs.online ==>
        first[0] == OnlineHeader(obs.version) &&
        (kind == Bedrock ==> first == [OnlineHeader(obs.version)]) &&
        (kind == Java ==>
          var extra := ExtraInfo(obs.software, obs.pluginCount, obs.modCount);
          first == [OnlineHeader(obs.version)] +
            (if extra != [] then [Join(extra, " | ")] else []) +
            (if obs.motd != "" then [MotdLine(obs.motd)] else []))) &&
      (!obs.online ==> first == [OfflineLine])
  {
  }

  /** A version notification goes out exactly when the status did not change,
      the server is online, and it reports a different version that is not
      "Unknown"; it is then the first notification and names the previous and
      the new version. A status change and a version change never go out
      together. */
  lemma VersionRule(kind: ServerType, prev: Snapshot, obs: Observation)
    ensures var cs := Changes(kind, prev, obs);
      var fires := prev.status == Some(obs.online) && obs.online && obs.version != prev.version && obs.version != "Unknown";
      ((exists c :: c in cs && c.VersionChanged?) <==> fires) &&
      (fires ==> cs[0] == VersionChanged(prev.version, obs.version)) &&
      !((exists c :: c in cs && c.VersionChanged?) && (exists c :: c in cs && IsStatus(c)))
  {
    var cs := Changes(kind, prev, obs);
    var a, b, c := StatusOrVersion(kind, prev, obs), GamemodeRule(kind, prev, obs), PlayerRule(kind, prev, obs);
    assert cs == a + b + c;
    assert forall x: Change :: x in b + c ==> !x.VersionChanged? && !IsStatus(x);
    if prev.status == Some(obs.online) && obs.online && obs.version != prev.version && obs.version != "Unknown" {
      assert cs[0] in cs;
    }
  }

  /** Gamemode notifications are for Bedrock only, while online, when the
      stripped gamemode differs from the previous one. */
  lemma GamemodeRuleHolds(kind: ServerType, prev: Snapshot, obs: Observation)
    ensures (exists c :: c in Changes(kind, prev, obs) && c.GamemodeChanged?) <==>
      kind == Bedrock && obs.online && Strip(obs.gamemode) != prev.gamemode
    ensures forall c :: c in Changes(kind, prev, obs) && c.GamemodeChanged? ==>
      c == GamemodeChanged(Strip(obs.gamemode))
    ensures kind == Java ==> forall c :: c in Changes(kind, prev, obs) ==> !c.GamemodeChanged?
  {
    var cs := Changes(kind, prev, obs);
    var a, b, c := StatusOrVersion(kind, prev, obs), GamemodeRule(kind, prev, obs), PlayerRule(kind, prev, obs);
    assert cs == a + b + c;
    assert forall x: Change :: x in a ==> !x.GamemodeChanged?;
    assert forall x: Change :: x in c ==> !x.GamemodeChanged?;
    if kind == Bedrock && obs.online && Strip(obs.gamemode) != prev.gamemode {
      assert b == [GamemodeChanged(Strip(obs.gamemode))];
      assert cs[|a|] in cs;
    } else {
      assert b == [];
    }
  }

  /** Java with a roster on either side: the names that joined and the names
      that left, each in ascending order, go out together in one notification
      (joins first, then leaves, then the population line) as the last one of
      the check; nothing goes out when nobody came or went, and the count is
      not looked at. */
  lemma RosterRule(prev: Snapshot, obs: Observation)
    requires obs.online
    requires obs.playerNames != {} || prev.playerNames != {}
    ensures var cs := Changes(Java, prev, obs);
      var joined := obs.playerNames - prev.playerNames;
      var left := prev.playerNames - obs.playerNames;
      (forall c :: c in cs ==> !c.CountChanged?) &&
      ((exists c :: c in cs && c.RosterChanged?) <==> joined != {} || left != {}) &&
      (joined != {} || left != {} ==>
        var last := cs[|cs| - 1];
        last.RosterChanged? &&
        StrictlySorted(last.joined) && (forall y :: y in last.joined <==> y in joined) &&
        StrictlySorted(last.left) && (forall y :: y in last.left <==> y in left) &&
        last.count == obs.playerCount && last.max == obs.maxPlayers)
  {
    var cs := Changes(Java, prev, obs);
    var joined := obs.playerNames - prev.playerNames;
    var left := prev.playerNames - obs.playerNames;
    var a, b, c := StatusOrVersion(Java, prev, obs), GamemodeRule(Java, prev, obs), PlayerRule(Java, prev, obs);
    assert cs == a + b + c;
    assert forall x: Change :: x in a + b ==> !x.CountChanged? && !x.RosterChanged?;
    if joined != {} || left != {} {
      assert cs[|cs| - 1] in cs;
    }
  }

  /** Bedrock, or Java with both rosters empty: while online, exactly one
      player notification goes out when the count changed, as the last one of
      the check, carrying the signed difference and the new population. */
  lemma CountRule(kind: ServerType, prev: Snapshot, obs: Observation)
    requires obs.online
    requires kind == Bedrock || (obs.playerNames == {} && prev.playerNames == {})
    ensures var cs := Changes(kind, prev, obs);
      (forall c :: c in cs ==> !c.RosterChanged?) &&
      ((exists c :: c in cs && c.CountChanged?) <==> obs.playerCount != prev.onlineCount) &&
      (obs.playerCount != prev.onlineCount ==>
        cs[|cs| - 1] == CountChanged(obs.playerCount - prev.onlineCount, obs.playerCount, obs.maxPlayers))
  {
    var cs := Changes(kind, prev, obs);
    var a, b, c := StatusOrVersion(kind, prev, obs), GamemodeRule(kind, prev, obs), PlayerRule(kind, prev, obs);
    assert cs == a + b + c;
    assert forall x: Change :: x in a + b ==> !x.CountChanged? && !x.RosterChanged?;
    if obs.playerCount != prev.onlineCount {
      assert cs[|cs| - 1] in cs;
    }
  }

  /** An offline server produces nothing but the OFFLINE notification, and
      that only when the status changed. */
  lemma OfflineOnlyStatus(kind: ServerType, prev: Snapshot, obs: Observation)
    requires !obs.online
    ensures Changes(kind, prev, obs) == if prev.status != Some(false) then [WentOffline] else []
  {
  }

  /** At most three notifications per check: status or version first, then
      the gamemode, then the players. */
  lemma NotificationOrder(kind: ServerType, prev: Snapshot, obs: Observation)
    ensures var cs := Changes(kind, prev, obs);
      |cs| <= 3 &&
      (forall i, j :: 0 <= i < j < |cs| ==> Rank(cs[i]) < Rank(cs[j]))
  {
    var cs := Changes(kind, prev, obs);
    var a, b, c := StatusOrVersion(kind, prev, obs), GamemodeRule(kind, prev, obs), PlayerRule(kind, prev, obs);
    assert cs == a + b + c;
    assert |a| <= 1 && |b| <= 1 && |c| <= 1;
    forall k | 0 <= k < |cs|
      ensures Rank(cs[k]) == if k < |a| then 0 else if k < |a| + |b| then 1 else 2
    {
      if k < |a| {
        assert cs[k] == a[k];
      } else if k < |a| + |b| {
        assert cs[k] == b[k - |a|];
      } else {
        assert cs[k] == c[k - |a| - |b|];
      }
    }
  }

  function Rank(c: Change): nat
  {
    match c
    case WentOnline(_, _, _) => 0
    case WentOffline => 0
    case VersionChanged(_, _) => 0
    case GamemodeChanged(_) => 1
    case RosterChanged(_, _, _, _) => 2
    case CountChanged(_, _, _) => 2
  }

  /** What the data file would hold for every server type: names only for
      Java, a gamemode only for Bedrock, and a Bedrock gamemode already
      stripped. */
  predicate Consistent(kind: ServerType, s: Snapshot)
  {
    (kind == Bedrock ==> s.playerNames == {} && Strip(s.gamemode) == s.gamemode) &&
    (kind == Java ==> s.gamemode == "")
  }

  lemma DefaultConsistent(kind: ServerType)
    ensures Consistent(kind, DefaultSnapshot())
  {
    StripFixed("");
  }

  /** Every check keeps a consistent snapshot consistent. */
  lemma ConsistentPreserved(kind: ServerType, prev: Snapshot, fetch: FetchResult)
    requires Consistent(kind, prev)
    ensures Consistent(kind, NextState(kind, prev, fetch))
  {
    if fetch.Ok? && fetch.obs.online && kind == Bedrock {
      StripIdempotent(fetch.obs.gamemode);
    }
  }

  /** The same answer twice in a row: the second check sends nothing, and
      returns the snapshot the first one returned. */
  lemma {:induction false} RepeatIsQuiet(kind: ServerType, prev: Snapshot, obs: Observation)
    ensures var s := NextState(kind, prev, Ok(obs));
      Changes(kind, s, obs) == [] && NextState(kind, s, Ok(obs)) == s
  {
    var s := NextState(kind, prev, Ok(obs));
    if obs.online {
      assert NamesOf(kind, obs) - s.playerNames == {};
      assert s.playerNames - NamesOf(kind, obs) == {};
    }
  }

  /** Threading the snapshot through a series of checks, as the poll loop
      does. */
  function Run(kind: ServerType, s: Snapshot, fetches: seq<FetchResult>): Snapshot
    decreases |fetches|
  {
    if fetches == [] then s else Run(kind, NextState(kind, s, fetches[0]), fetches[1..])
  }

  /** All notifications sent over a series of checks, in order. */
  ghost function RunNotifications(kind: ServerType, s: Snapshot, fetches: seq<FetchResult>): seq<string>
    decreases |fetches|
  {
    if fetches == [] then []
    else Notifications(kind, s, fetches[0]) + RunNotifications(kind, NextState(kind, s, fetches[0]), fetches[1..])
  }

  predicate AllFailed(fetches: seq<FetchResult>)
  {
    forall i :: 0 <= i < |fetches| ==> fetches[i].Failed?
  }

  /** Any run of failed fetches before later checks is invisible: the later
      checks see the snapshot they would have seen without it and send the
      same notifications. */
  lemma {:induction false} FailuresInvisible(kind: ServerType, s: Snapshot, failures: seq<FetchResult>, later: seq<FetchResult>)
    requires AllFailed(failures)
    ensures Run(kind, s, failures + later) == Run(kind, s, later)
    ensures RunNotifications(kind, s, failures + later) == RunNotifications(kind, s, later)
    decreases |failures|
  {
    if failures != [] {
      var all := failures + later;
      assert all[0] == failures[0] && failures[0].Failed?;
      assert all[1..] == failures[1..] + later;
      assert NextState(kind, s, all[0]) == s;
      assert AllFailed(failures[1..]);
      FailuresInvisible(kind, s, failures[1..], later);
      assert Run(kind, s, all) == Run(kind, s, all[1..]);
      assert RunNotifications(kind, s, all) == RunNotifications(kind, s, all[1..]);
    } else {
      assert failures + later == later;
    }
  }

  /** The first check of a Bedrock server that is up with three players:
      besides ONLINE, the gamemode and the player count are reported too,
      since the defaults hold no gamemode and no players. */
  lemma FirstBedrockCheck(max: nat)
    ensures var obs := Observation(true, 3, max, "1.21.2", " Survival\n", "", "", 0, 0, {});
      Changes(Bedrock, DefaultSnapshot(), obs) ==
        [WentOnline("1.21.2", [], ""), GamemodeChanged("Survival"), CountChanged(3, 3, max)] &&
      NextState(Bedrock, DefaultSnapshot(), Ok(obs)) == Snapshot(3, Some(true), "Survival", "1.21.2", {})
  {
    var raw := " Survival\n";
    assert SkipSpace(raw, 0) == 1;
    assert SkipSpaceBack(raw, 1, |raw|) == |raw| - 1;
    assert Strip(raw) == "Survival";
  }

  /** A Java roster change: Notch came and Steve went while Alex stayed, so
      one notification names each of them and nothing else is sent. */
  lemma RosterExample()
    ensures var prev := Snapshot(2, Some(true), "", "1.21", {"Alex", "Steve"});
      var obs := Observation(true, 2, 20, "1.21", "", "", "", 0, 0, {"Alex", "Notch"});
      Changes(Java, prev, obs) == [RosterChanged(["Notch"], ["Steve"], 2, 20)]
  {
    var joined: set<string> := {"Alex", "Notch"} - {"Alex", "Steve"};
    var left: set<string> := {"Alex", "Steve"} - {"Alex", "Notch"};
    assert "Notch" != "Alex" && "Steve" != "Alex" && "Notch" != "Steve";
    assert joined == {"Notch"};
    assert left == {"Steve"};
    SortedUnique(SortedOf(joined), ["Notch"]);
    SortedUnique(SortedOf(left), ["Steve"]);
  }
}
