/** The notification texts check_server sends. Each leading mark is the
    character sequence monitor.py holds (emoji stored as mis-decoded bytes),
    spelled out code point by code point. */
module Compose {
  import opened Text

  const OnlineMark: string := "\U{E2}\U{153}\U{2026}"
  const NoteMark: string := "\U{11F}\U{178}\U{201C}"
  const OfflineMark: string := "\U{E2}\U{152}"
  const VersionMark: string := "\U{11F}\U{178}\U{201D}\U{201E}"
  const Arrow: string := "\U{E2}\U{2020}\U{2019}"
  const InfoMark: string := "\U{E2}\U{201E}\U{B9}\U{EF}\U{B8}"
  const JoinMark: string := "\U{11F}\U{178}\U{AE}"
  const LeaveMark: string := "\U{11F}\U{178}\U{2018}\U{2039}"
  const StatsMark: string := "\U{11F}\U{178}\U{201C}\U{160}"

  const NewLine: char := '\n'
  const OnlineBase: string := OnlineMark + " The server is now ONLINE!"
  const OfflineLine: string := OfflineMark + " The server is now OFFLINE."

  /** The version is shown after the ONLINE header unless it is empty or the
      API's placeholder "Unknown". */
  predicate ShowsVersion(version: string)
  {
    version != "" && version != "Unknown"
  }

  function OnlineHeader(version: string): string
  {
    OnlineBase + (if ShowsVersion(version) then " (" + version + ")" else "")
  }

  function MotdLine(motd: string): string
  {
    NoteMark + " " + motd
  }

  function VersionLine(from: string, to: string): string
  {
    VersionMark + " Server version changed: " + from + " " + Arrow + " " + to
  }

  function GamemodeLine(mode: string): string
  {
    InfoMark + " Gamemode changed to: " + mode
  }

  function JoinedLine(name: string): string
  {
    JoinMark + " " + name + " joined!"
  }

  function LeftLine(name: string): string
  {
    LeaveMark + " " + name + " left."
  }

  /** "count/max players online", closing every player message. */
  function PopulationLine(count: nat, max: nat): string
  {
    StatsMark + " " + DecimalString(count) + "/" + DecimalString(max) + " players online"
  }

  /** "N noun" with an "s" unless N is 1: "1 plugin", "3 mods". */
  function Counted(n: nat, noun: string): string
  {
    DecimalString(n) + " " + noun + (if n != 1 then "s" else "")
  }

  /** The Java extra line's parts: software, plugins, mods, each only when
      present. */
  function ExtraInfo(software: string, plugins: nat, mods: nat): seq<string>
  {
    (if software != "" then [software] else []) +
    (if plugins != 0 then [Counted(plugins, "plugin")] else []) +
    (if mods != 0 then [Counted(mods, "mod")] else [])
  }

  /** The count fallback's first line: a rise is told as joins, anything
      else as departures. */
  function CountLine(diff: int): string
  {
    if diff > 0 then
      if diff == 1 then JoinMark + " A player joined!" else JoinMark + " " + DecimalString(diff) + " players joined!"
    else
      var lost := -diff;
      if lost == 1 then LeaveMark + " A player left." else LeaveMark + " " + DecimalString(lost) + " players left."
  }

  /** One notable difference found by a check. */
  datatype Change =
    | WentOnline(version: string, extra: seq<string>, motd: string)
    | WentOffline
    | VersionChanged(from: string, to: string)
    | GamemodeChanged(mode: string)
    | RosterChanged(joined: seq<string>, left: seq<string>, count: nat, max: nat)
    | CountChanged(diff: int, count: nat, max: nat)

  function NameLines(names: seq<string>, line: string -> string): (r: seq<string>)
    ensures |r| == |names|
    ensures forall i :: 0 <= i < |names| ==> r[i] == line(names[i])
  {
    seq(|names|, i requires 0 <= i < |names| => line(names[i]))
  }

  lemma NameLinesSnoc(names: seq<string>, k: nat, line: string -> string)
    requires k < |names|
    ensures NameLines(names[..k + 1], line) == NameLines(names[..k], line) + [line(names[k])]
  {
  }

  /** The lines of the one notification a change produces, in order. */
  function Lines(c: Change): (r: seq<string>)
    ensures |r| >= 1
  {
    match c
    case WentOnline(version, extra, motd) =>
      [OnlineHeader(version)] +
      (if extra != [] then [Join(extra, " | ")] else []) +
      (if motd != "" then [MotdLine(motd)] else [])
    case WentOffline => [OfflineLine]
    case VersionChanged(from, to) => [VersionLine(from, to)]
    case GamemodeChanged(mode) => [GamemodeLine(mode)]
    case RosterChanged(joined, left, count, max) =>
      NameLines(joined, JoinedLine) + NameLines(left, LeftLine) + [PopulationLine(count, max)]
    case CountChanged(diff, count, max) => [CountLine(diff), PopulationLine(count, max)]
  }

  /** The notification text: the lines joined by newlines. */
  function Render(c: Change): string
  {
    Join(Lines(c), [NewLine])
  }

  /** Each change's text in turn: one notification per change. */
  function RenderAll(cs: seq<Change>): (r: seq<string>)
    ensures |r| == |cs|
  {
    if cs == [] then [] else [Render(cs[0])] + RenderAll(cs[1..])
  }

  /** The i-th notification is the i-th change's text. */
  lemma {:induction false} RenderAllAt(cs: seq<Change>, i: nat)
    requires i < |cs|
    ensures RenderAll(cs)[i] == Render(cs[i])
  {
    if i > 0 {
      RenderAllAt(cs[1..], i - 1);
    }
  }

  lemma Reassociate<T>(x: seq<T>, y: seq<T>, z: seq<T>)
    ensures x + (y + z) == x + y + z
  {
  }

  /** Rendering is taken change by change, so it distributes over the
      concatenation of the changes found by successive rules. */
  lemma {:induction false} RenderAllAppend(a: seq<Change>, b: seq<Change>)
    ensures RenderAll(a + b) == RenderAll(a) + RenderAll(b)
  {
    if a != [] {
      var head := [Render(a[0])];
      assert (a + b)[0] == a[0];
      assert (a + b)[1..] == a[1..] + b;
      RenderAllAppend(a[1..], b);
      assert RenderAll(a + b) == head + (RenderAll(a[1..]) + RenderAll(b));
      assert RenderAll(a) == head + RenderAll(a[1..]);
      Reassociate(head, RenderAll(a[1..]), RenderAll(b));
    } else {
      assert a + b == b;
    }
  }

  /** A notification splits back into exactly its lines as long as no line
      holds a newline of its own (a version, name or message of the day can). */
  lemma RenderSplits(c: Change)
    requires forall i :: 0 <= i < |Lines(c)| ==> NewLine !in Lines(c)[i]
    ensures Split(Render(c), NewLine) == Lines(c)
  {
    SplitJoin(Lines(c), NewLine);
  }

  /** The roster notification: one "joined!" line per joined name, then one
      "left." line per departed name, then the population line. */
  lemma RosterLayout(joined: seq<string>, left: seq<string>, count: nat, max: nat)
    ensures var r := Lines(RosterChanged(joined, left, count, max));
      |r| == |joined| + |left| + 1 &&
      (forall i :: 0 <= i < |joined| ==> r[i] == JoinedLine(joined[i])) &&
      (forall i :: 0 <= i < |left| ==> r[|joined| + i] == LeftLine(left[i])) &&
      r[|r| - 1] == PopulationLine(count, max)
  {
    var r := Lines(RosterChanged(joined, left, count, max));
    var j, l := NameLines(joined, JoinedLine), NameLines(left, LeftLine);
    assert r == j + l + [PopulationLine(count, max)];
    forall i | 0 <= i < |left|
      ensures r[|joined| + i] == LeftLine(left[i])
    {
      assert r[|joined| + i] == l[i];
    }
  }

  /** A plural "s" is added exactly when the number is not 1. */
  lemma {:induction false} CountedSingular(n: nat, noun: string)
    ensures Counted(n, noun) == DecimalString(n) + " " + noun <==> n == 1
  {
    if n != 1 {
      assert |Counted(n, noun)| == |DecimalString(n) + " " + noun| + 1;
    }
  }

  /** The extra line lists one part for each of software, plugins and mods
      that is present, and nothing else, in that order. */
  lemma ExtraInfoShape(software: string, plugins: nat, mods: nat)
    ensures var r := ExtraInfo(software, plugins, mods);
      |r| == (if software != "" then 1 else 0) + (if plugins != 0 then 1 else 0) + (if mods != 0 then 1 else 0) &&
      (r == [] <==> software == "" && plugins == 0 && mods == 0) &&
      (software != "" ==> r[0] == software) &&
      (plugins != 0 ==> r[if software != "" then 1 else 0] == Counted(plugins, "plugin")) &&
      (mods != 0 ==> r[|r| - 1] == Counted(mods, "mod"))
  {
  }

  predicate EndsWith(s: string, suffix: string)
  {
    |suffix| <= |s| && s[|s| - |suffix|..] == suffix
  }

  /** The count fallback's first line says "A player" for a change of one;
      otherwise, between the mark and "players", it carries digits that read
      back as the size of the change. */
  lemma CountLineWording(diff: int)
    ensures diff == 1 ==> CountLine(diff) == JoinMark + " A player joined!"
    ensures diff == -1 ==> CountLine(diff) == LeaveMark + " A player left."
    ensures diff > 1 || diff < -1 ==>
      var mark := if diff > 0 then JoinMark else LeaveMark;
      var tail := if diff > 0 then " players joined!" else " players left.";
      var t := CountLine(diff);
      |mark| + 1 + |tail| < |t| && t[..|mark| + 1] == mark + " " && EndsWith(t, tail) &&
      DecimalValue(t[|mark| + 1..|t| - |tail|]) == (if diff > 0 then diff else -diff)
  {
    if diff > 1 || diff < -1 {
      var n: nat := if diff > 0 then diff else -diff;
      var mark := if diff > 0 then JoinMark else LeaveMark;
      var tail := if diff > 0 then " players joined!" else " players left.";
      var t := CountLine(diff);
      assert t == (mark + " ") + DecimalString(n) + tail;
      assert t[|mark| + 1..|t| - |tail|] == DecimalString(n);
      DecimalRoundTrip(n);
    }
  }
}
