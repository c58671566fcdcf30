/**
 * `generateRoomInsights(roomId)`: read the room's recent history, render it
 * as one text line per record, hand it to a text-generation model, strip
 * markdown fences from the reply and parse it as JSON. The model call,
 * `JSON.parse` and `toLocaleTimeString` are parameters of the model.
 */
module Insights {
  import opened Wrappers
  import opened JsText
  import opened History

  // ---------------------------------------------------------------------
  // Summary lines

  /** `${v}` of a string property that may be absent: a line break in it comes from the value. */
  function ShowText(v: Option<string>): (s: string)
    ensures '\n' in s <==> v.Some? && '\n' in v.value
  {
    match v
    case Some(t) => t
    case None => "undefined"
  }

  /** `${v}` of a number property that may be absent. */
  function ShowNumber(v: Option<int>): (s: string)
    ensures '\n' !in s
  {
    match v
    case Some(n) =>
      var t := IntToString(n);
      assert forall i :: 0 <= i < |t| ==> t[i] != '\n';
      t
    case None => "undefined"
  }

  /** `${v}` of a boolean property that may be absent. */
  function ShowFlag(v: Option<bool>): (s: string)
    ensures s in {"true", "false", "undefined"}
  {
    match v
    case Some(b) => if b then "true" else "false"
    case None => "undefined"
  }

  /**
   * The summary line of one record, `- D at T: O/C people. Ghost: G`, where
   * `timeText` stands for `timestamp.toLocaleTimeString()`. It starts with
   * "- " and adds no line break of its own.
   */
  function FormatLine(log: HistoryRecord, timeText: int -> string): (line: string)
    ensures |line| >= 2 && line[..2] == "- "
    ensures '\n' !in ShowText(log.dayOfWeek) && '\n' !in timeText(log.timestamp) ==> '\n' !in line
  {
    var line := "- " + ShowText(log.dayOfWeek) + " at " + timeText(log.timestamp) + ": "
      + ShowNumber(log.occupancy) + "/" + ShowNumber(log.capacity)
      + " people. Ghost: " + ShowFlag(log.isGhost);
    assert line[..2] == "- ";
    line
  }

  /** `logs.map(...)`: the lines, one per record, in window order. */
  function Lines(logs: seq<HistoryRecord>, timeText: int -> string): seq<string> {
    seq(|logs|, i requires 0 <= i < |logs| => FormatLine(logs[i], timeText))
  }

  /** `logs.map(...).join("\n")`. */
  function Summary(logs: seq<HistoryRecord>, timeText: int -> string): string {
    Join(Lines(logs, timeText), "\n")
  }

  /**
   * The join adds nothing but line breaks: a character other than a line
   * break that no line holds is not in the summary either.
   */
  lemma SummaryAddsOnlyLineBreaks(logs: seq<HistoryRecord>, timeText: int -> string, c: char)
    requires c != '\n'
    requires forall i :: 0 <= i < |logs| ==> c !in FormatLine(logs[i], timeText)
    ensures c !in Summary(logs, timeText)
  {
    JoinNoSeparator(Lines(logs, timeText), '\n', c);
  }

  /** The rendered day and time of a record carry no line break. */
  predicate SingleLineFields(log: HistoryRecord, timeText: int -> string) {
    '\n' !in ShowText(log.dayOfWeek) && '\n' !in timeText(log.timestamp)
  }

  /**
   * The summary has exactly one line per record, in the records' order
   * (newest first for a window), separated by line breaks with none at the end.
   */
  lemma SummaryLines(logs: seq<HistoryRecord>, timeText: int -> string)
    requires |logs| >= 1
    requires forall i :: 0 <= i < |logs| ==> SingleLineFields(logs[i], timeText)
    ensures |Split(Summary(logs, timeText), '\n')| == |logs|
    ensures forall i :: 0 <= i < |logs| ==> Split(Summary(logs, timeText), '\n')[i] == FormatLine(logs[i], timeText)
  {
    SplitJoin(Lines(logs, timeText), '\n');
  }

  // ---------------------------------------------------------------------
  // Fence stripping

  predicate StartsWith(s: string, p: string) {
    |p| <= |s| && s[..|p|] == p
  }

  /**
   * `text.replace(/```json|```/g, '')`: one left-to-right scan that, at each
   * position, deletes "```json" if it starts there, else "```", else keeps
   * the character and moves on.
   */
  function StripFences(s: string): (r: string)
    ensures |r| <= |s|
    decreases |s|
  {
    if StartsWith(s, "```json") then StripFences(s[7..])
    else if StartsWith(s, "```") then StripFences(s[3..])
    else if s == [] then []
    else [s[0]] + StripFences(s[1..])
  }

  /** `text.replace(/```json|```/g, '').trim()`. */
  function CleanReply(text: string): (r: string)
    ensures Trimmed(r)
  {
    Trim(StripFences(text))
  }

  /** Three backticks in a row at position `i`. */
  predicate FenceAt(t: string, i: int) {
    0 <= i && i + 3 <= |t| && t[i] == '`' && t[i + 1] == '`' && t[i + 2] == '`'
  }

  /** Text with no backtick passes the scan unchanged. */
  lemma {:induction false} StripFencesNoBacktick(s: string)
    requires '`' !in s
    ensures StripFences(s) == s
  {
    if s != [] {
      assert s == [s[0]] + s[1..];
      StripFencesKeeps(s[0], s[1..]);
      StripFencesNoBacktick(s[1..]);
    }
  }

  /** A character other than a backtick starts no marker, so the scan keeps it. */
  lemma StripFencesKeeps(c: char, t: string)
    requires c != '`'
    ensures StripFences([c] + t) == [c] + StripFences(t)
  {
    var s := [c] + t;
    assert s[0] == c;
    assert !StartsWith(s, "```json") by { assert "```json"[0] == '`'; }
    assert !StartsWith(s, "```") by { assert "```"[0] == '`'; }
    assert s[1..] == t;
  }

  /** No marker can span a backtick-free prefix, so the scan passes it through. */
  lemma {:induction false} StripFencesPrefix(a: string, b: string)
    requires '`' !in a
    ensures StripFences(a + b) == a + StripFences(b)
  {
    if a == [] {
      assert a + b == b;
    } else {
      var c, t := a[0], a[1..] + b;
      calc {
        StripFences(a + b);
        == { assert a + b == [c] + t; }
        StripFences([c] + t);
        == { StripFencesKeeps(c, t); }
        [c] + StripFences(t);
        == { StripFencesPrefix(a[1..], b); }
        [c] + (a[1..] + StripFences(b));
        == { assert [c] + a[1..] == a; }
        a + StripFences(b);
      }
    }
  }

  /** Where no marker starts, the scan keeps the first character. */
  lemma KeepsFirst(s: string)
    requires s != [] && s[0] != '`'
    ensures StripFences(s) != [] && StripFences(s)[0] == s[0]
  {
  }

  /** Whatever the reply, the scan leaves no three backticks in a row, so no fence marker. */
  lemma {:induction false} StripFencesLeavesNoFence(s: string)
    ensures forall i :: !FenceAt(StripFences(s), i)
    decreases |s|
  {
    if StartsWith(s, "```json") {
      StripFencesLeavesNoFence(s[7..]);
    } else if StartsWith(s, "```") {
      StripFencesLeavesNoFence(s[3..]);
    } else if s != [] {
      var r := StripFences(s);
      var t := s[1..];
      StripFencesLeavesNoFence(t);
      assert r == [s[0]] + StripFences(t);
      forall i ensures !FenceAt(r, i) {
        if 1 <= i {
          assert !FenceAt(StripFences(t), i - 1);
        } else if i == 0 && FenceAt(r, 0) {
          // s starts with a backtick but not with "```": one of s[1], s[2] is no backtick.
          assert s[0] == '`';
          if t[0] != '`' {
            KeepsFirst(t);
          } else {
            assert |s| >= 3 ==> s[2] != '`';
            assert !StartsWith(t, "```") && !StartsWith(t, "```json");
            assert StripFences(t) == [t[0]] + StripFences(t[1..]);
            KeepsFirst(t[1..]);
          }
          assert false;
        }
      }
    }
  }

  /** The cleaned reply contains no fence marker either. */
  lemma CleanReplyLeavesNoFence(text: string)
    ensures forall i :: !FenceAt(CleanReply(text), i)
  {
    var u := StripFences(text);
    StripFencesLeavesNoFence(text);
    var k := TrimIsMiddle(u);
    NoFenceInPiece(u, k, k + |Trim(u)|);
  }

  /** A piece of fence-free text is fence-free. */
  lemma NoFenceInPiece(u: string, lo: nat, hi: nat)
    requires lo <= hi <= |u|
    requires forall i :: !FenceAt(u, i)
    ensures forall i :: !FenceAt(u[lo..hi], i)
  {
    forall i ensures !FenceAt(u[lo..hi], i) {
      assert !FenceAt(u, lo + i);
    }
  }

  /** A reply without backticks is only trimmed. */
  lemma CleanReplyNoBacktick(s: string)
    requires '`' !in s
    ensures CleanReply(s) == Trim(s)
  {
    StripFencesNoBacktick(s);
  }

  /** A backtick-free answer wrapped in a json-tagged fence cleans to the same text as the bare answer. */
  lemma CleanReplyUnwrapsFence(s: string)
    requires '`' !in s
    ensures CleanReply("```json\n" + s + "\n```") == Trim(s)
  {
    var wrapped := "```json\n" + s + "\n```";
    var inner := "\n" + s + "\n";
    assert wrapped[..7] == "```json";
    assert wrapped[7..] == inner + "```";
    StripFencesPrefix(inner, "```");
    assert StripFences("```") == StripFences(""[..]) by {
      assert "```"[3..] == "";
    }
    assert inner + "" == inner;
    assert AllWhitespace("\n");
    TrimIgnoresPadding("\n", s, "\n");
  }

  // ---------------------------------------------------------------------
  // Outcomes

  /** A JSON value, as `JSON.parse` produces it (numbers restricted to integers). */
  datatype Json =
    | JNull
    | JBool(b: bool)
    | JNumber(n: int)
    | JString(str: string)
    | JArray(items: seq<Json>)
    | JObject(members: seq<(string, Json)>)

  /** The three ways `generateRoomInsights` can end. */
  datatype Outcome = NoData | Parsed(value: Json) | Failed

  const NoDataMessage := "No data available yet."
  const FailureMessage := "Failed to generate insights"

  /** The JavaScript value each outcome resolves to. */
  function ReturnValue(o: Outcome): (v: Json)
    ensures o.NoData? ==> v == JString(NoDataMessage)
    ensures o.Failed? ==> v == JObject([("error", JString(FailureMessage))])
    ensures o.Parsed? ==> v == o.value
  {
    match o
    case NoData => JString(NoDataMessage)
    case Parsed(value) => value
    case Failed => JObject([("error", JString(FailureMessage))])
  }

  /**
   * `generateRoomInsights(roomId)`. `store` is the history collection, `None`
   * when the query fails; `generate` is the model call, given the room id and
   * the summary the prompt embeds, `None` when it throws; `parse` is
   * `JSON.parse`, `None` when it throws. Every failure is caught and becomes
   * the error object.
   */
  function GenerateRoomInsights(
    roomId: string,
    store: Option<seq<HistoryRecord>>,
    timeText: int -> string,
    generate: (string, string) -> Option<string>,
    parse: string -> Option<Json>): (o: Outcome)
    ensures store.None? ==> o == Failed
    ensures o == NoData <==> store.Some? && Window(store.value, roomId) == []
    ensures store.Some? && Window(store.value, roomId) != [] ==>
      o == AskModel(roomId, Summary(Window(store.value, roomId), timeText), generate, parse)
  {
    match store
    case None => Failed
    case Some(records) =>
      var logs := Window(records, roomId);
      if |logs| == 0 then NoData
      else AskModel(roomId, Summary(logs, timeText), generate, parse)
  }

  /**
   * The part after the summary is built: ask the model, clean its reply and
   * parse it. The result is the parsed reply exactly when both calls
   * succeed, and the failure outcome otherwise — never the no-data sentinel.
   */
  function AskModel(
    roomId: string, summary: string,
    generate: (string, string) -> Option<string>,
    parse: string -> Option<Json>): (o: Outcome)
    ensures o != NoData
    ensures o.Parsed? <==> generate(roomId, summary).Some? && parse(CleanReply(generate(roomId, summary).value)).Some?
    ensures o.Parsed? ==> o.value == parse(CleanReply(generate(roomId, summary).value)).value
  {
    match generate(roomId, summary)
    case None => Failed
    case Some(text) =>
      var cleanText := CleanReply(text);
      match parse(cleanText)
      case None => Failed
      case Some(insight) => Parsed(insight)
  }

  /** A room with no history gets the no-data sentinel whatever the model and parser would do: neither is consulted. */
  lemma NoHistoryNoModelCall(
    roomId: string, records: seq<HistoryRecord>, timeText: int -> string,
    generate1: (string, string) -> Option<string>, parse1: string -> Option<Json>,
    generate2: (string, string) -> Option<string>, parse2: string -> Option<Json>)
    requires forall i :: 0 <= i < |records| ==> records[i].roomId != roomId
    ensures GenerateRoomInsights(roomId, Some(records), timeText, generate1, parse1) == NoData
    ensures ReturnValue(GenerateRoomInsights(roomId, Some(records), timeText, generate2, parse2)) == JString(NoDataMessage)
  {
  }

  /** The sentinel string and the error object are different values, and differ from each other as outcomes too. */
  lemma SentinelIsNotError()
    ensures ReturnValue(NoData) != ReturnValue(Failed)
    ensures forall v :: Parsed(v) != NoData && Parsed(v) != Failed
  {
  }

  /**
   * As JavaScript values the outcomes are not always told apart: a reply
   * that parses to the sentinel string, or to the error object, returns the
   * same value as a room without data, or as a failure.
   */
  lemma ParsedValueCanImitateOtherOutcomes()
    ensures ReturnValue(Parsed(JString(NoDataMessage))) == ReturnValue(NoData)
    ensures ReturnValue(Parsed(JObject([("error", JString(FailureMessage))]))) == ReturnValue(Failed)
  {
  }
}
