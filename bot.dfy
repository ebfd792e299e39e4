/**
  The slash-command handler of the PagerDuty on-call Slack bot: given the
  command text, the team-to-schedule table and the on-call lookup for each
  schedule, it answers with either the help message or one line that names
  the engineer currently on call for every schedule of the team.
 */
module Bot {
  import opened Wrappers
  import opened JsString

  /**
    The team-to-schedule table. `teams` lists the table's keys in the order
    `Object.keys` returns them; `schedules` gives each team its ordered list
    of PagerDuty schedule IDs (its escalation chain).
   */
  datatype Mappings = Mappings(teams: seq<string>, schedules: map<string, seq<string>>)

  /** A well-formed table: `teams` lists every key of `schedules` exactly once. */
  ghost predicate Valid(m: Mappings) {
    && (forall i, j :: 0 <= i < j < |m.teams| ==> m.teams[i] != m.teams[j])
    && (forall t :: t in m.schedules <==> t in m.teams)
  }

  /** The table the bot is deployed with. */
  const SCHEDULE_MAPPINGS: Mappings :=
    Mappings(["team"], map["team" := ["SCHEDULE_ID", "EXAMPLE_P12345"]])

  const HELP_PREFIX: string :=
    "Please provide a team name "
    + "for the oncall engineers you would like to lookup. "
    + "Example: `/oncall <team_name>` or `@oncall-bot <team_name>`. Allowed team names are: "

  /** A team name wrapped in backquotes, as the help message lists it. */
  function Quoted(team: string): string {
    "`" + team + "`"
  }

  function QuotedTeams(teams: seq<string>): seq<string> {
    seq(|teams|, i requires 0 <= i < |teams| => Quoted(teams[i]))
  }

  /** The help text: a fixed prefix, then every team in table order, back-quoted and comma-separated, then ".". */
  function HelpMessage(m: Mappings): string {
    HELP_PREFIX + (Join(QuotedTeams(m.teams), ", ") + ".")
  }

  /** The help text of the deployed table. */
  const HELP_MESSAGE: string := HelpMessage(SCHEDULE_MAPPINGS)

  /** One on-call record of a PagerDuty `/oncalls` response, reduced to the user's display name. */
  datatype Oncall = Oncall(userSummary: string)

  /** What the PagerDuty query for one schedule gives back: a rejected request, or the list of on-call records. */
  datatype Query = RequestFailed | Oncalls(records: seq<Oncall>)

  /**
    Why the lookup of one schedule rejects: the request itself failed, or the
    response held no record, so taking the first record's user throws. The
    schedule ID is recorded by the model; the source's errors do not carry it.
   */
  datatype LookupError = RequestError(scheduleId: string) | NoOncallRecord(scheduleId: string)

  /** The chain position label of the schedule at index `i` of a team's list. */
  function PositionLabel(i: nat): (r: string)
    ensures r == "Primary" <==> i == 0
    ensures r == "Secondary" <==> i == 1
    ensures r == "Tertiary" <==> i == 2
    ensures r == "Current" <==> i >= 3
  {
    match i
    case 0 => "Primary"
    case 1 => "Secondary"
    case 2 => "Tertiary"
    case _ => "Current"
  }

  /** The engineer on call for a schedule: the user of the first record returned; no record is an error. */
  function Engineer(scheduleId: string, q: Query): (r: Result<string, LookupError>)
    ensures r.Success? <==> q.Oncalls? && |q.records| > 0
    ensures r.Success? ==> r.value == q.records[0].userSummary
    ensures r.Failure? ==> r.error.scheduleId == scheduleId
    ensures r.Failure? ==> (r.error.RequestError? <==> q.RequestFailed?)
  {
    match q
    case RequestFailed => Failure(RequestError(scheduleId))
    case Oncalls(records) =>
      if |records| == 0 then Failure(NoOncallRecord(scheduleId)) else Success(records[0].userSummary)
  }

  /** The lookup of one schedule ID against PagerDuty, standing for the awaited `pagerDuty.get`. */
  function Lookup(engineerFor: string -> Query, scheduleId: string): Result<string, LookupError> {
    Engineer(scheduleId, engineerFor(scheduleId))
  }

  /** One entry of the reply: `*<position>*: <engineer>`. */
  function Entry(position: string, engineer: string): string {
    "*" + position + "*: " + engineer
  }

  /**
    The entries for a team's schedule list, as `Promise.all` over the indexed
    `map` produces them: one entry per schedule, in list order, labelled by
    index; if any lookup rejects, the whole result rejects. The model looks the
    schedules up one after the other and reports the first failing one.
   */
  function Entries(schedules: seq<string>, engineerFor: string -> Query): (r: Result<seq<string>, LookupError>)
    ensures r.Success? <==> forall i :: 0 <= i < |schedules| ==> Lookup(engineerFor, schedules[i]).Success?
    ensures r.Success? ==> |r.value| == |schedules|
    ensures r.Success? ==> forall i :: 0 <= i < |schedules| ==>
      r.value[i] == Entry(PositionLabel(i), Lookup(engineerFor, schedules[i]).value)
    ensures r.Failure? ==> exists i :: 0 <= i < |schedules| && Lookup(engineerFor, schedules[i]) == Failure(r.error)
    decreases |schedules|
  {
    if |schedules| == 0 then Success([])
    else
      var n := |schedules| - 1;
      var earlierSchedules := schedules[..n];
      assert forall i :: 0 <= i < n ==> earlierSchedules[i] == schedules[i];
      match Entries(earlierSchedules, engineerFor)
      case Failure(e) => Failure(e)
      case Success(earlier) =>
        match Lookup(engineerFor, schedules[n])
        case Failure(e) => Failure(e)
        case Success(engineer) =>
          var entries := earlier + [Entry(PositionLabel(n), engineer)];
          assert forall i :: 0 <= i < n ==> entries[i] == earlier[i];
          Success(entries)
  }

  /**
    Whether the command is answered with the help message: the text is missing
    or empty, its lower-cased form contains "help", or it names no team.

    bot/bot.js:33 writes `message.text.toLowerCase` without calling it, so the
    code as written tests a function object and throws on `includes` for every
    non-empty text. This model follows the evident intent, the lower-cased text
    that line 37 computes.
   */
  predicate IsHelpRequest(m: Mappings, text: Option<string>) {
    || text.None?
    || text.value == ""
    || Includes(ToLower(text.value), "help")
    || ToLower(text.value) !in m.schedules
  }

  /**
    The handler as bot/bot.js:33-34 is written: a non-empty text makes
    `messageText` the `toLowerCase` function itself, which has no `includes`
    method, so the handler rejects with a TypeError before any reply; only a
    missing or empty text reaches the help branch.
   */
  function ReplyAsWritten(m: Mappings, text: Option<string>): Result<string, string> {
    if text.None? || text.value == "" then Success(HelpMessage(m))
    else Failure("TypeError: messageText.includes is not a function")
  }

  /** The reply header: the command text upper-cased between asterisks. */
  function Header(text: string): string {
    "*" + ToUpper(text) + "* On Call Engineers - "
  }

  /**
    The one reply `handleSlackMessage` sends for a command, or the error with
    which it rejects (and then sends nothing). `text` is `message.text`;
    `engineerFor` answers the PagerDuty query for a schedule ID.
   */
  function Reply(m: Mappings, text: Option<string>, engineerFor: string -> Query): Result<string, LookupError> {
    if IsHelpRequest(m, text) then Success(HelpMessage(m))
    else
      match Entries(m.schedules[ToLower(text.value)], engineerFor)
      case Failure(e) => Failure(e)
      case Success(entries) => Success(Header(text.value) + Join(entries, ", "))
  }

  // ----- Properties of the help message -----

  /** The help message starts with the fixed prefix and ends with "."; with no teams it is nothing more. */
  lemma HelpMessageFrame(m: Mappings)
    ensures StartsWith(HelpMessage(m), HELP_PREFIX)
    ensures |HelpMessage(m)| > |HELP_PREFIX| && HelpMessage(m)[|HelpMessage(m)| - 1] == '.'
    ensures m.teams == [] ==> HelpMessage(m) == HELP_PREFIX + "."
  {
    SliceBefore(HELP_PREFIX, Join(QuotedTeams(m.teams), ", ") + ".", 0, |HELP_PREFIX|);
  }

  /** The `i`-th team of the table appears back-quoted right after the prefix and the teams before it. */
  lemma HelpMessageListsTeam(m: Mappings, i: nat)
    requires i < |m.teams|
    ensures
      var start := |HELP_PREFIX| + Offset(QuotedTeams(m.teams), ", ", i);
      && start + |Quoted(m.teams[i])| <= |HelpMessage(m)|
      && HelpMessage(m)[start..start + |Quoted(m.teams[i])|] == Quoted(m.teams[i])
  {
    var qs := QuotedTeams(m.teams);
    assert qs[i] == Quoted(m.teams[i]);
    FramedPart(HelpMessage(m), HELP_PREFIX, qs, ", ", ".", i);
  }

  /** Every team but the last is followed by ", " in the help message. */
  lemma HelpMessageSeparatesTeams(m: Mappings, i: nat)
    requires i + 1 < |m.teams|
    ensures
      var end := |HELP_PREFIX| + Offset(QuotedTeams(m.teams), ", ", i) + |Quoted(m.teams[i])|;
      && end + 2 <= |HelpMessage(m)|
      && HelpMessage(m)[end..end + 2] == ", "
  {
    var qs := QuotedTeams(m.teams);
    assert qs[i] == Quoted(m.teams[i]);
    FramedSeparator(HelpMessage(m), HELP_PREFIX, qs, ", ", 2, ".", i);
  }

  /** The last team is followed only by the final "." of the help message. */
  lemma HelpMessageEndsAfterLastTeam(m: Mappings)
    requires |m.teams| > 0
    ensures
      var last := |m.teams| - 1;
      var end := |HELP_PREFIX| + Offset(QuotedTeams(m.teams), ", ", last) + |Quoted(m.teams[last])|;
      end <= |HelpMessage(m)| && HelpMessage(m)[end..] == "."
  {
    var qs := QuotedTeams(m.teams);
    assert qs[|m.teams| - 1] == Quoted(m.teams[|m.teams| - 1]);
    FramedEnd(HelpMessage(m), HELP_PREFIX, qs, ", ", ".");
  }

  /** Every team of a well-formed table is named, back-quoted, in the help message. */
  lemma HelpMessageNamesEveryTeam(m: Mappings, team: string)
    requires Valid(m) && team in m.schedules
    ensures Includes(HelpMessage(m), Quoted(team))
  {
    var i :| 0 <= i < |m.teams| && m.teams[i] == team;
    HelpMessageListsTeam(m, i);
    var p := |HELP_PREFIX| + Offset(QuotedTeams(m.teams), ", ", i);
    IncludesAt(HelpMessage(m), Quoted(team), p);
  }

  /** The deployed table is well formed. */
  lemma ScheduleMappingsValid()
    ensures Valid(SCHEDULE_MAPPINGS)
  {
  }

  /** The help text of the deployed table, written out. */
  lemma HelpMessageText()
    ensures HELP_MESSAGE == HELP_PREFIX + "`team`."
  {
    var quoted := QuotedTeams(SCHEDULE_MAPPINGS.teams);
    assert |quoted| == 1 && quoted[0] == "`team`";
    assert quoted == ["`team`"];
  }

  // ----- Properties of the reply -----

  /** A command gets the help message exactly when it is a help request; no team reply equals it. */
  lemma ReplyIsHelpIff(m: Mappings, text: Option<string>, engineerFor: string -> Query)
    ensures Reply(m, text, engineerFor) == Success(HelpMessage(m)) <==> IsHelpRequest(m, text)
  {
    if !IsHelpRequest(m, text) && Reply(m, text, engineerFor).Success? {
      var entries := Entries(m.schedules[ToLower(text.value)], engineerFor).value;
      var r := Header(text.value) + Join(entries, ", ");
      assert r[0] == '*';
      HelpMessageFrame(m);
      assert HELP_PREFIX[0] == 'P';
    }
  }

  /** Any text whose lower-cased form contains "help", at whatever position, gets the help message. */
  lemma HelpWhenMentioned(m: Mappings, text: string, engineerFor: string -> Query, i: nat)
    requires i + 4 <= |text| && ToLower(text)[i..i + 4] == "help"
    ensures Reply(m, Some(text), engineerFor) == Success(HelpMessage(m))
  {
    IncludesAt(ToLower(text), "help", i);
  }

  /** A command that names no team of the table, in any case, gets the help message. */
  lemma HelpWhenUnknownTeam(m: Mappings, text: string, engineerFor: string -> Query)
    requires Valid(m) && ToLower(text) !in m.teams
    ensures Reply(m, Some(text), engineerFor) == Success(HelpMessage(m))
  {
  }

  /**
    Lookup ignores case: texts with the same lower-cased form get identical
    replies, header included.
   */
  lemma ReplyIgnoresCase(m: Mappings, text: string, other: string, engineerFor: string -> Query)
    requires ToLower(text) == ToLower(other)
    ensures Reply(m, Some(text), engineerFor) == Reply(m, Some(other), engineerFor)
  {
    assert |text| == |ToLower(text)| == |other|;
    SameLowerSameUpper(text, other);
  }

  /**
    All or nothing: a command rejects exactly when it names a team and the
    lookup of at least one of the team's schedules fails or finds no record;
    the error names such a schedule, and no partial reply is produced.
   */
  lemma ReplyFailsIff(m: Mappings, text: Option<string>, engineerFor: string -> Query)
    ensures Reply(m, text, engineerFor).Failure? <==>
      !IsHelpRequest(m, text) &&
      exists i :: 0 <= i < |m.schedules[ToLower(text.value)]| &&
        Lookup(engineerFor, m.schedules[ToLower(text.value)][i]).Failure?
    ensures Reply(m, text, engineerFor).Failure? ==>
      exists i :: 0 <= i < |m.schedules[ToLower(text.value)]| &&
        Lookup(engineerFor, m.schedules[ToLower(text.value)][i]) == Failure(Reply(m, text, engineerFor).error)
  {
  }

  /**
    The code as written answers only a missing or empty text, and then as the
    intended handler does; every other command, a valid team name included,
    rejects.
   */
  lemma AsWrittenAnswersOnlyEmptyText(m: Mappings, text: Option<string>, engineerFor: string -> Query)
    ensures ReplyAsWritten(m, text).Success? <==> text.None? || text.value == ""
    ensures ReplyAsWritten(m, text).Success? ==> Reply(m, text, engineerFor) == Success(ReplyAsWritten(m, text).value)
  {
  }

  /** The discrepancy on the deployed table: "team" names a team, yet the code as written rejects it. */
  lemma AsWrittenRejectsDeployedTeam()
    ensures !IsHelpRequest(SCHEDULE_MAPPINGS, Some("team"))
    ensures ReplyAsWritten(SCHEDULE_MAPPINGS, Some("team")).Failure?
  {
    assert ToLower("team") == "team";
    assert "team"[..4][0] == 't';
    ShorterExcludes("team"[1..], "help");
  }

  /** A command that names a team is answered with the header followed by the joined entries. */
  lemma TeamReply(m: Mappings, text: string, engineerFor: string -> Query)
    requires !IsHelpRequest(m, Some(text))
    ensures Reply(m, Some(text), engineerFor).Success? <==> Entries(m.schedules[ToLower(text)], engineerFor).Success?
    ensures Reply(m, Some(text), engineerFor).Success? ==>
      Reply(m, Some(text), engineerFor).value
        == Header(text) + Join(Entries(m.schedules[ToLower(text)], engineerFor).value, ", ")
  {
  }

  /** A team reply starts with the header: the command text upper-cased between asterisks. */
  lemma ReplyHeader(m: Mappings, text: string, engineerFor: string -> Query)
    requires !IsHelpRequest(m, Some(text)) && Reply(m, Some(text), engineerFor).Success?
    ensures StartsWith(Reply(m, Some(text), engineerFor).value, "*" + ToUpper(text) + "* On Call Engineers - ")
  {
    TeamReply(m, text, engineerFor);
    var entries := Entries(m.schedules[ToLower(text)], engineerFor).value;
    SliceBefore(Header(text), Join(entries, ", "), 0, |Header(text)|);
  }

  /**
    In a team reply, the entry `*<label i>*: <engineer>` of the `i`-th schedule
    sits right after the header and the entries before it.
   */
  lemma ReplyEntryAt(m: Mappings, text: string, engineerFor: string -> Query, i: nat)
    requires !IsHelpRequest(m, Some(text)) && Reply(m, Some(text), engineerFor).Success?
    requires i < |m.schedules[ToLower(text)]|
    ensures
      var schedules := m.schedules[ToLower(text)];
      var entries := Entries(schedules, engineerFor).value;
      var start := |Header(text)| + Offset(entries, ", ", i);
      var e := Entry(PositionLabel(i), Lookup(engineerFor, schedules[i]).value);
      && start + |e| <= |Reply(m, Some(text), engineerFor).value|
      && Reply(m, Some(text), engineerFor).value[start..start + |e|] == e
  {
    var schedules := m.schedules[ToLower(text)];
    TeamReply(m, text, engineerFor);
    var entries := Entries(schedules, engineerFor).value;
    assert entries[i] == Entry(PositionLabel(i), Lookup(engineerFor, schedules[i]).value);
    AppendEmpty(Join(entries, ", "));
    FramedPart(Reply(m, Some(text), engineerFor).value, Header(text), entries, ", ", "", i);
  }

  /**
    In the line that answers a team (the header, then the entries joined with
    ", ", as `Reply` builds it), every entry but the last is followed by ", ".
   */
  lemma TeamLineSeparatesEntries(text: string, entries: seq<string>, i: nat)
    requires i + 1 < |entries|
    ensures
      var line := Header(text) + Join(entries, ", ");
      var end := |Header(text)| + Offset(entries, ", ", i) + |entries[i]|;
      && end + 2 <= |line|
      && line[end..end + 2] == ", "
  {
    AppendEmpty(Join(entries, ", "));
    FramedSeparator(Header(text) + (Join(entries, ", ") + ""), Header(text), entries, ", ", 2, "", i);
  }

  /** A team reply ends with the entry of the team's last schedule. */
  lemma ReplyEndsWithLastEntry(m: Mappings, text: string, engineerFor: string -> Query)
    requires !IsHelpRequest(m, Some(text)) && Reply(m, Some(text), engineerFor).Success?
    requires |m.schedules[ToLower(text)]| > 0
    ensures
      var entries := Entries(m.schedules[ToLower(text)], engineerFor).value;
      var last := |entries| - 1;
      |Reply(m, Some(text), engineerFor).value| == |Header(text)| + Offset(entries, ", ", last) + |entries[last]|
  {
    TeamReply(m, text, engineerFor);
    var entries := Entries(m.schedules[ToLower(text)], engineerFor).value;
    AppendEmpty(Join(entries, ", "));
    FramedEnd(Reply(m, Some(text), engineerFor).value, Header(text), entries, ", ", "");
  }

  /** A team with no schedules gets the bare header. */
  lemma ReplyEmptyTeam(m: Mappings, text: string, engineerFor: string -> Query)
    requires !IsHelpRequest(m, Some(text)) && m.schedules[ToLower(text)] == []
    ensures Reply(m, Some(text), engineerFor) == Success(Header(text))
  {
    assert Header(text) + Join([], ", ") == Header(text);
  }

  /**
    A three-schedule chain: whatever the lookups return, the entries are the
    Primary, Secondary and Tertiary engineers, in the chain's order.
   */
  lemma ThreeScheduleChain(engineerFor: string -> Query, a: string, b: string, c: string, x: string, y: string, z: string)
    requires Lookup(engineerFor, a) == Success(x)
    requires Lookup(engineerFor, b) == Success(y)
    requires Lookup(engineerFor, c) == Success(z)
    ensures Entries([a, b, c], engineerFor)
      == Success(["*Primary*: " + x, "*Secondary*: " + y, "*Tertiary*: " + z])
  {
    var r := Entries([a, b, c], engineerFor);
    assert r.Success?;
    assert |r.value| == 3;
    assert r.value[0] == Entry(PositionLabel(0), x) == "*Primary*: " + x;
    assert r.value[1] == Entry(PositionLabel(1), y) == "*Secondary*: " + y;
    assert r.value[2] == Entry(PositionLabel(2), z) == "*Tertiary*: " + z;
    assert r.value == ["*Primary*: " + x, "*Secondary*: " + y, "*Tertiary*: " + z];
  }

  /**
    The reply for a team with a three-schedule chain: the upper-cased header,
    then Primary, Secondary and Tertiary in the chain's order.
   */
  lemma ReplyThreeScheduleTeam(m: Mappings, text: string, engineerFor: string -> Query,
                               a: string, b: string, c: string, x: string, y: string, z: string)
    requires !IsHelpRequest(m, Some(text)) && m.schedules[ToLower(text)] == [a, b, c]
    requires Lookup(engineerFor, a) == Success(x)
    requires Lookup(engineerFor, b) == Success(y)
    requires Lookup(engineerFor, c) == Success(z)
    ensures Reply(m, Some(text), engineerFor) == Success(
      Header(text) + "*Primary*: " + x + ", *Secondary*: " + y + ", *Tertiary*: " + z)
  {
    TeamReply(m, text, engineerFor);
    ThreeScheduleChain(engineerFor, a, b, c, x, y, z);
    ThreeEntriesText(Header(text), x, y, z);
  }

  lemma ThreeEntriesText(header: string, x: string, y: string, z: string)
    ensures header + Join(["*Primary*: " + x, "*Secondary*: " + y, "*Tertiary*: " + z], ", ")
      == header + "*Primary*: " + x + ", *Secondary*: " + y + ", *Tertiary*: " + z
  {
    var entries := ["*Primary*: " + x, "*Secondary*: " + y, "*Tertiary*: " + z];
    assert entries[1..] == [entries[1], entries[2]];
    assert entries[1..][1..] == [entries[2]];
    assert Join(entries[1..], ", ") == entries[1] + ", " + entries[2];
    assert Join(entries, ", ") == entries[0] + ", " + (entries[1] + ", " + entries[2]);
    assert ", " + "*Secondary*: " == ", *Secondary*: ";
    assert ", " + "*Tertiary*: " == ", *Tertiary*: ";
    calc {
      header + Join(entries, ", ");
    ==
      header + (("*Primary*: " + x) + ", " + ((("*Secondary*: " + y) + ", ") + ("*Tertiary*: " + z)));
    ==
      header + "*Primary*: " + x + (", " + "*Secondary*: ") + y + (", " + "*Tertiary*: ") + z;
    }
  }
}
