# PagerDuty on-call Slack bot: the command handler

This project models `handleSlackMessage` of the PagerDuty on-call Slack bot,
together with the two constants it uses. The handler receives the slash
command `/oncall <team>` and answers it in one of two ways:

- with a help message listing every known team, when the text is missing or
  empty, mentions "help" in any case, or names no team;
- otherwise with one line. The line starts with the upper-cased team name and
  then gives, for each schedule of the team, the engineer on call. Each
  engineer is labelled by the schedule's position in the escalation chain:
  Primary, Secondary, Tertiary, then Current for the rest.

The handler is pure apart from its collaborators, so the model is written as
functions and lemmas:

- `wrappers.dfy`: `Option` and `Result`.
- `js_string.dfy` (module `JsString`): the JavaScript string operations the
  handler uses. These are `toLowerCase`, `toUpperCase`, `includes` and
  `Array.prototype.join`. The module also proves where each part and each
  separator sits in a joined string.
- `bot.dfy` (module `Bot`) models:
  - the team-to-schedule table `SCHEDULE_MAPPINGS`;
  - the help text `HELP_MESSAGE`;
  - the lookup of one schedule (`Engineer`);
  - the chain of entries (`Entries`);
  - the help decision (`IsHelpRequest`);
  - the handler itself, `Reply`, which returns the one message sent or the
    error the handler rejects with.

The handler's collaborators appear as follows:

- The PagerDuty on-call query becomes an input: `engineerFor` gives, for a
  schedule ID, either a failed request or the list of on-call records.
- The message sent through `bot.reply` becomes the output: it is the
  `Success` value of `Reply`.

The code, and so the model, does not do the following:

- render a schedule with zero on-call records as "Currently Off Duty": the
  code throws at `resource[0].user.summary` (bot/bot.js:42), so the whole
  command rejects;
- consult a separate business-hours schedule;
- trim the text;
- catch a failed lookup and send a failure reply: the handler rejects and
  sends nothing.

## Model

| member | source | states |
|---|---|---|
| Bot.PositionLabel | bot/bot.js:45-59 | Index 0 is labelled Primary, 1 Secondary and 2 Tertiary. Every index from 3 on is labelled Current. Each label holds exactly for its index or indices. |
| Bot.Lookup | bot/bot.js:40 | The PagerDuty query for one schedule ID, answered by `engineerFor`, and the engineer taken from its response. |
| Bot.Engineer | bot/bot.js:40-42 | A lookup succeeds exactly when the query returns at least one record. The engineer is the user summary of the first record. A failure is a request error exactly when the request failed; the model's error also records the schedule ID (see Left out). |
| Bot.Entry | bot/bot.js:60 | One entry of the reply: `*<position>*: <engineer>`. |
| Bot.Entries | bot/bot.js:38-62 | The entries succeed exactly when every schedule's lookup succeeds. There is one entry per schedule, in chain order. Entry i is `*<label of i>*: <engineer of schedule i>`. A failure carries the error of some schedule whose lookup failed. |
| Bot.ThreeScheduleChain | bot/bot.js:38-62 | For a three-schedule chain, the entries are the Primary, Secondary and Tertiary engineers, in chain order. |
| Bot.SCHEDULE_MAPPINGS | bot/bot.js:6-8 | The deployed table: the one team "team", with the schedules "SCHEDULE_ID" and "EXAMPLE_P12345" in that order. |
| Bot.HELP_PREFIX | bot/bot.js:10-11 | The fixed start of the help text, exactly as the two literals of bot/bot.js:10-11 give it. |
| Bot.HELP_MESSAGE | bot/bot.js:10-12 | The help text of the deployed table. |
| Bot.HelpMessage | bot/bot.js:10-12 | The help text for a table: the fixed prefix, then every team back-quoted and joined with ", ", then ".". |
| Bot.ScheduleMappingsValid | bot/bot.js:6-8 | The deployed table is well formed: its key list names each schedule-table key exactly once. |
| Bot.HelpMessageText | bot/bot.js:6-12 | The deployed help text is the fixed prefix followed by "`team`.". |
| Bot.HelpMessageFrame | bot/bot.js:10-12 | The help message starts with the fixed prefix and ends with "."; for a table with no teams it is the prefix followed by "." alone. |
| Bot.HelpMessageListsTeam | bot/bot.js:12 | Team i appears back-quoted right after the prefix and the teams before it. |
| Bot.HelpMessageSeparatesTeams | bot/bot.js:12 | Every team except the last is followed by ", ". |
| Bot.HelpMessageEndsAfterLastTeam | bot/bot.js:12 | Only the final "." follows the last team. |
| Bot.HelpMessageNamesEveryTeam | bot/bot.js:10-12 | Every team of a well-formed table is named, back-quoted, in the help message. |
| Bot.Reply | bot/bot.js:31-66 | The handler: the help message for a help request; otherwise the header followed by the team's entries joined with ", ", or the error of a failing lookup. |
| Bot.IsHelpRequest | bot/bot.js:33-34 | The help decision: the text is missing or empty, its lower-cased form contains "help", or it is not a key of the table. |
| Bot.Header | bot/bot.js:64 | The reply header: `*<TEXT UPPER-CASED>* On Call Engineers - `. |
| Bot.ReplyAsWritten | bot/bot.js:33-34 | The handler as written: a missing or empty text gets the help message; any other text rejects with a TypeError. |
| Bot.ReplyIsHelpIff | bot/bot.js:33-36 | A command gets the help message exactly when it is a help request: the text is missing or empty, it mentions "help", or it names no team. |
| Bot.HelpWhenMentioned | bot/bot.js:34-35 | A text whose lower-cased form contains "help" at any position gets the help message. |
| Bot.HelpWhenUnknownTeam | bot/bot.js:34-35 | A text that names no team of the table, in any case, gets the help message. |
| Bot.ReplyIgnoresCase | bot/bot.js:37-64 | Two texts with the same lower-cased form get identical replies or identical errors, header included. |
| Bot.ReplyFailsIff | bot/bot.js:38-64 | A command rejects exactly when it names a team and some lookup of that team's schedules fails. The error is that of a failing schedule. |
| Bot.ReplyHeader | bot/bot.js:64 | A team reply starts with `*<TEXT UPPER-CASED>* On Call Engineers - `. |
| Bot.ReplyEntryAt | bot/bot.js:60-64 | In a team reply, the entry `*<label i>*: <engineer of schedule i>` sits right after the header and the earlier entries. |
| Bot.TeamLineSeparatesEntries | bot/bot.js:64 | In the line that answers a team (the header, then the entries joined with ", ", which is how `Bot.Reply` builds it), every entry except the last is followed by ", ". |
| Bot.ReplyEndsWithLastEntry | bot/bot.js:64 | A team reply ends with the entry of the last schedule. |
| Bot.ReplyEmptyTeam | bot/bot.js:37-64 | A team with no schedules gets the bare header. |
| Bot.ReplyThreeScheduleTeam | bot/bot.js:37-64 | A team with a three-schedule chain gets the header, then `*Primary*: x, *Secondary*: y, *Tertiary*: z` in chain order. |
| Bot.AsWrittenAnswersOnlyEmptyText | bot/bot.js:33-35 | As written, the handler answers only a missing or empty text, and then exactly as the intended handler does. |
| Bot.AsWrittenRejectsDeployedTeam | bot/bot.js:33-34 | "team" names a deployed team, yet the code as written rejects it. |
| JsString.ToLower | bot/bot.js:37 | `toLowerCase`, on ASCII letters (see Left out). |
| JsString.ToUpper | bot/bot.js:64 | `toUpperCase`, on ASCII letters (see Left out). |
| JsString.Includes | bot/bot.js:34 | `includes`: the substring occurs at some position. |
| JsString.Join | bot/bot.js:12 | `Array.prototype.join`: the parts with the separator between each two neighbours. |
| JsString.UpperOfLower | bot/bot.js:37-64 | Upper-casing after lower-casing gives the same result as upper-casing the original text. |
| JsString.SameLowerSameUpper | bot/bot.js:37-64 | Texts with the same lower-cased form have the same upper-cased form. |
| JsString.IncludesAt | bot/bot.js:34 | An occurrence of the substring at any position makes `includes` true. |
| JsString.IncludesHasPosition | bot/bot.js:34 | Conversely, `includes` being true yields a position where the substring occurs. |
| JsString.ShorterExcludes | bot/bot.js:34 | A string shorter than the substring does not include it. |
| JsString.JoinPart | bot/bot.js:12 | In a joined string, part i starts where the earlier parts and their separators end. |
| JsString.JoinSeparator | bot/bot.js:64 | In a joined string, every part except the last is followed by the separator. |
| JsString.JoinLength | bot/bot.js:64 | A joined string ends with its last part. |
| JsString.OffsetOrdered | bot/bot.js:64 | In a joined string, the parts appear in order and do not overlap. |

## Left out

- `accessSecretVersion` (bot/bot.js:19-29) is left out. It reads Slack and PagerDuty credentials from Google Cloud Secret Manager, which is I/O.
- `initBot` (bot/bot.js:71-98) is left out. It wires up the Botkit controller, the Slack adapter and the handlers, which is initialisation and I/O.
- The mention handler (bot/bot.js:94-96) is left out. It answers every direct message or mention with a fixed "Meow." reply, unrelated to on-call lookup.
- The `console.log` calls are left out.
- The PagerDuty HTTP request is not modelled. It becomes the parameter `engineerFor`, and only its outcome is modelled: a failed request, or the list of on-call records.
- Because `engineerFor` is a function, a schedule ID listed twice gets the same answer both times.
- `bot.reply` is not modelled. The message it would send is the `Success` value of `Reply`.
- The Slack `message` object is reduced to its optional `text`.
- Bot.Entries: the lookups run one after the other, not concurrently as with `Promise.all`. When several lookups fail, the model reports the failure with the lowest index. The source rejects with whichever failure happens first in time. Results still come back in chain order, as with `Promise.all`.
- Bot.ReplyFailsIff: states only that the error is that of some failing schedule, because which failure the source rejects with depends on timing.
- Bot.LookupError: the error's schedule ID is an addition of the model. The source rejects with the PagerDuty client's request error or with the TypeError from `resource[0].user` (bot/bot.js:42), and neither names the schedule.
- Bot.Reply: does not throw the TypeError of line 33 as written; it follows the intended behaviour. The code as written is modelled separately by `Bot.ReplyAsWritten` (see Findings).
- JsString.ToLower and JsString.ToUpper: only ASCII letters change case. Unicode case mapping, which can change a string's length, is not modelled.
- JsString.UpperOfLower, JsString.SameLowerSameUpper and Bot.ReplyIgnoresCase: hold only under the ASCII case mapping. They are false under JavaScript's full mapping. For example, U+212A KELVIN SIGN followed by "ey" lower-cases to "key" but upper-cases to U+212A followed by "EY". So for a key "key", that text and "KEY" get different headers.
- Bot.IsHelpRequest: does not model JavaScript prototype keys such as `constructor` or `__proto__`. On those the source's `SCHEDULE_MAPPINGS[...]` finds an inherited value that has no `map` method, so the source throws; the model gives the help message.
- Bot.Mappings: the key order of `Object.keys` is taken as given in `teams`. JavaScript's rule that integer-like keys come first is not modelled.
- Bot.Engineer: a record without a `user` field is not modelled; in the source that also throws. Nor is a `user` without `summary`: there bot/bot.js:42 does not throw and the entry reads `*Primary*: undefined`, which `Oncall(userSummary: string)` cannot express.

## Findings

| source | as written | input that shows it | evidently intended | confidence | as-written member | corrected member |
|---|---|---|---|---|---|---|
| bot/bot.js:33 | `message.text.toLowerCase` is not called, so `messageText` is the function itself. `messageText.includes` is then undefined, and calling it throws a TypeError for every non-empty text. | `message.text == "team"`: a deployed team, yet the handler rejects and sends nothing. | `message.text.toLowerCase()`: the lower-cased text, as line 37 computes it. | high (not executed) | Bot.AsWrittenRejectsDeployedTeam | Bot.Reply |
