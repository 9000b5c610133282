# Tanuki for Slack — a Dafny model of the message handler

Tanuki is a Slack bot that relays commands to the GitLab REST API. Around its Slack, HTTP and
file calls, `index.js` holds a small amount of deterministic logic, and that logic is modelled
and proved here:

- the `message` event handler: which events are ignored, which direct messages go to the
  bootstrap `initialise`, which channel messages are silently dropped, and how a mention of the
  bot is tokenized, checked against the project registry and dispatched (`router.dfy`);
- the tokenizer `text.split(/\b(\w+)\b/g)` (`tokenizer.dfy`);
- the access check `hasAccess` over the project registry (`access.dfy`);
- command resolution, modelled as an exact lookup in the closed table of the three handlers the
  file defines (`hello`, `job_last`, `job_retry`) instead of `eval` (`router.dfy`);
- the handlers themselves, as the ordered list of effects each performs (GitLab requests, Slack
  posts), with GitLab's responses as inputs (`handlers.dfy`);
- request URL building with the access-token query and the optional `&scope[]=` filter
  (`gitlab.dfy`);
- the five-line trace tail `split("\n").splice(-5)` (`trace.dfy`);
- the status colours and the two job cards (`cards.dfy`), and the error/help reply (`errors.dfy`);
- the bootstrap: the lazy `^<@.*?>` match, the removal of `<`, `>` and `@`, and the in-place
  update of the parsed `.env` map, a class `EnvFile` whose method `Initialise` changes only
  `SLACK_BOT_USER_ID` (`bootstrap.dfy`).

`text.dfy` holds the JavaScript string operations used throughout (`\w`, `split` and `join` on
one character, global character removal); `wrappers.dfy` holds `Option` and `Result`.

What the proofs expose about the handler as written:

- The word pieces of the split never contain `:` (`Tokenizer.WordPiecesHaveNoColon`), so the
  `params[1].includes(":")` branch never runs. The handler is therefore always called as
  `eval(params[1])(data)`, without `params`; `job_last` and `job_retry` then read `params[2]` of
  `undefined` and throw. No mention ever leads to a GitLab request: the only successful dispatch
  is the `hello` greeting (`Router.DispatchOnlyGreets`, `Router.HandledIsOnePrivateReply`).
- With a bot id made of word characters, `params[1]` is the bot id itself and `params[2]` starts
  with `>` — for `<@BOT> job:last backend` it is `"> "` (`Tokenizer.MentionThenCommand`). The
  access check looks that piece up as a project key, and the command resolved is the one named
  like the bot, whatever the message says (`Router.MentionDispatchesOnBotId`).
- The comment above the first test says bot messages are excluded, but the test joins its two
  conditions with `&&`: an event with type `message` and subtype `bot_message` goes on like any
  other message, and an event of another type with subtype `bot_message` does too
  (`Router.HandleMessage`).
- A direct message with no leading mention reaches `userMatch[0]` on `null` inside the file-read
  callback, outside any `try` (`Bootstrap.InitResult.Crashed`): the guard
  `typeof userMatch != undefined` is always true.

These are modelled as the code behaves, not corrected.

## Model

| member | source | states |
|---|---|---|
| Router.HandleMessage | index.js:28-63 | an event is ignored exactly when its type is not `message` and its subtype is not `bot_message`; otherwise a channel starting with `D` goes to bootstrap and only there; any other message not starting with `<@` + bot id + `>` is dropped with no reply; a mention's outcome is the dispatch's effects, or exactly one error reply carrying the caught error |
| Router.Dispatch | index.js:44-59 | with a third piece, a key missing from the registry ends in the `users` TypeError and a non-member in the Authorisation Error; a split of fewer than two pieces ends in the TypeError reading `includes`; once the check passes, a name that resolves runs its handler, with `params` exactly when the second piece holds `:`, and an unknown name ends in the ReferenceError for that name; success implies the check passed and the name resolved |
| Router.Invoke | index.js:51-55 | `hello` always answers with the private greeting; `job_last` and `job_retry` called without `params` throw reading `params[2]`, and called with them behave as `JobLast` and `JobRetry` |
| Router.ErrorResponse | index.js:236-249 | the error reply is a private post to the sender's channel and user whose text is the error reply text, with no attachment |
| Handlers.Greeting | index.js:86-88 | `hello` is a private post to the sender's channel and user with the text `Hey there` and no attachment |
| Router.Resolve | index.js:49-55 | only `hello`, `job_last` and `job_retry` resolve, each to its own handler; every other name resolves to nothing |
| Router.CompoundName | index.js:49-51 | a word without `:` is used as the name unchanged |
| Router.CompoundNameOfPair | index.js:50-51 | `verb:subject` resolves under the name `verb_subject` |
| Router.DispatchOnlyGreets | index.js:42-55 | on the split of any message text, a successful dispatch is exactly the greeting: the colon branch never runs and the GitLab handlers always throw |
| Router.HandledIsOnePrivateReply | index.js:28-63 | every answered mention produces exactly one private post to the sender's channel and user, and no GitLab request |
| Router.MentionDispatchesOnBotId | index.js:41-55 | for a word-character bot id, the pieces are `<@`, the bot id, then a piece starting with `>`; the dispatch result depends only on that piece's registry entry, the sender and the bot id |
| Tokenizer.Tokenize | index.js:42 | the split has an odd number of pieces |
| Tokenizer.TokenizeIsTokenization | index.js:42 | the pieces concatenate back to the text; odd pieces are non-empty runs of `[A-Za-z0-9_]`; even pieces hold no word character, and those between two words are non-empty, so word pieces are maximal |
| Tokenizer.TokenizationIsUnique | index.js:42 | any decomposition with those properties is the split itself |
| Tokenizer.TokenizeCons | index.js:42 | a leading gap and the word after it become the first two pieces, followed by the split of the rest |
| Tokenizer.WordPiecesHaveNoColon | index.js:42-49 | no odd-indexed piece contains `:` |
| Tokenizer.MentionPieces | index.js:41-42 | a text starting with `<@id>` for a word-character id splits into `<@`, the id, then a piece starting with `>` |
| Tokenizer.MentionThenCommand | index.js:42-45 | for `<@id> ` followed by a word, the third piece (the key the access check uses) is `"> "` |
| Access.HasAccess | index.js:232-234 | fails (reading `users` of `undefined`) exactly when the key is not in the registry; otherwise true exactly when the user is in the project's `users` |
| Errors.ErrorReplyText | index.js:236-249 | the reply is `No such luck - `, then the error's string form, then the fixed help lines |
| GitLab.BuildUrl | index.js:213-220 | every URL starts with `GITLAB_URL` |
| GitLab.RequestPath | index.js:213-220 | a path read back from a URL rebuilds exactly that URL |
| GitLab.RequestPathOfBuildUrl | index.js:213-220 | a built URL is `GITLAB_URL` + path + `?access_token=` + token, and the path can be read back from it |
| GitLab.JobsUrl | index.js:91-97 | without a scope the jobs-list URL is the built URL of `/api/v4/projects/<id>/jobs`; with one it is that URL followed by `&scope[]=` and the scope |
| GitLab.TraceUrl | index.js:101-107 | the trace URL is the built URL of `/api/v4/projects/<id>/jobs/<job>/trace` |
| GitLab.RetryUrl | index.js:166-172 | the retry URL is the built URL of `/api/v4/projects/<id>/jobs/<job>/retry` |
| Handlers.JobLast | index.js:90-163 | fails (reading `id` of `undefined`) exactly when the key is not in the registry; otherwise it first requests the jobs list, with the scope exactly when a fourth piece exists, then the trace of the most recent job exactly when the list arrives and is not empty, and posts that job's card to the project's channel exactly when both calls succeed and the list is not empty |
| Handlers.JobRetry | index.js:165-211 | fails exactly when the key is not in the registry; otherwise it posts the retry of job `params[3]`, and replies privately to the sender with the retried job's card exactly when the call succeeds |
| Trace.TraceTail | index.js:110-112 | the tail is the last `min(5, n)` of the `n` lines, in order: never more than 5, all of them when there are fewer than 5 |
| Trace.TailIsEndOfTrace | index.js:110-112 | the kept lines, joined with newlines, are the end of the trace |
| Trace.ShortTraceShownWhole | index.js:110-112 | a trace of at most five lines is shown whole |
| Text.SplitOn | index.js:111 | the split has at least one piece, no piece holds the separator, and there are two or more exactly when the text holds it |
| Text.JoinSplitOn | index.js:111 | joining the split pieces with the separator gives back the text |
| Text.SplitOnJoin | index.js:50 | splitting a join of separator-free pieces gives back the pieces |
| Text.Remove | index.js:78 | the result holds none of the removed characters and is no longer than the input |
| Text.RemoveOne | index.js:78 | a single character is dropped when it is one of the removed characters and kept otherwise |
| Text.RemoveAppend | index.js:78 | removal works piece by piece over a concatenation, so with `RemoveOne` it keeps every other character in order |
| Cards.StatusColour | index.js:222-230 | `success` is `#2eb67d`, `failed` is `#e01e5a`, `canceled` is `#ecb22e`, any other status `#36C5F0` |
| Cards.LastJobCard | index.js:114-160 | the card is coloured by the job's status, titled `Job - ` + id and linked to the job; its fields are, in order, Name (the name), Stage (the stage), Duration (the rounded duration followed by `s`), Status (the status), all four short, then Last Commit (`#` + short id + ` - ` + commit title) and an untitled trace tail in a code block, both long; markdown applies to fields and text; the footer is `GitLab API` with the GitLab icon; the timestamp is the job's creation time |
| Cards.RetryCard | index.js:175-209 | the card is always in the success colour, whatever the returned status, titled `Job - ` + id and linked to the job; its fields are, in order, Name and Status (short) and Last Commit (`#` + short id + ` - ` + commit title, long); no markdown list; the footer is `GitLab API` with the GitLab icon; the timestamp is the job's creation time |
| Bootstrap.LeadingMention | index.js:67 | a match is a prefix of the text made of `<@`, characters other than line terminators, and `>`, and no shorter prefix is one (the lazy `.*?`); no match means no prefix of that form exists |
| Bootstrap.ExtractBotId | index.js:67-78 | an id is extracted exactly when the text starts with a mention; it is the text between the token's `<@` and its closing `>` with every `<`, `>` and `@` removed, so it holds none of them |
| Bootstrap.RemoveMarks | index.js:78 | stripping `<`, `>` and `@` from a whole mention token gives the same result as stripping them from its inner text |
| Bootstrap.ExtractMentionedId | index.js:67-78 | a message starting with `<@id>`, for an id without `<`, `>`, `@` or line terminators, records exactly that id |
| Bootstrap.EnvFile.Initialise | index.js:65-84 | a failed read changes nothing; a text without a leading mention crashes and changes nothing; otherwise the map equals the old one with `SLACK_BOT_USER_ID` set to the extracted id, and every other key is unchanged |

## Left out

- The Slack client (`index.js:14-26`): connecting, receiving events, and the startup notice when `SLACK_BOT_USER_ID` is empty. A post is an `Effect` value.
- HTTP through axios and the promise chains (`index.js:99`, `109`, `174`): GitLab's responses are the `Upstream` input. A failed call, or a callback that throws, ends the list of effects, because the rejection is never handled; under current Node.js such an unhandled rejection also ends the process, which is not modelled. `Router.DispatchOnlyGreets` shows the handler never reaches these calls.
- File and environment I/O: `dotenv`, `fs.readFile`, `envfile.parse` and `envfile.stringify`, and writing the file back (`index.js:7-11`, `71-81`). The `.env` file is the already-parsed map of `EnvFile`, and the read result is a parameter. `process.env` is not reloaded after the write, so the mention gate keeps using the startup bot id; the model takes that id as the input `Env.botUserId`.
- `decodeURIComponent` (`index.js:110`) is not modelled: the trace is taken as already decoded. A decoding failure looks like a failed trace call.
- `Math.round(duration)` and `new Date(created_at).getTime() / 1000` (`index.js:135`, `157`, `206`) are not computed: `Job.roundedDuration` and `Job.createdSeconds` hold their rendered text.
- JavaScript prototype lookups such as `colours["constructor"]` or `projects["toString"]` (`index.js:229`, `233`) are not modelled: `colours` and the registry are plain finite maps.
- Router.Resolve: narrower than `eval`. `eval` can also reach the other top-level bindings (`initialise`, `buildUrl`, `statusColour`, `hasAccess`, `errorResponse`, `tanuki`, …) and JavaScript globals. The model resolves only the three handlers and treats every other name as the ReferenceError `<name> is not defined`. The implicit global `parts` is a local value.
- Errors.ErrorString: the TypeError text follows current Node.js (`Cannot read properties of undefined (reading '…')`); older engines word it differently.
- Strings are sequences of Unicode scalar values, not UTF-16 code units.
- Bot messages carry no `user`, but `Event.user` is always a string here: a missing sender (which `includes` never finds, so the access check fails) is not modelled.
- An event without a `text` field, which throws outside the `try` at `index.js:41`, is not modelled: `text` is always a string.
- The message options `mrkdwn: true` of the two posts are not modelled; the attachment's `mrkdwn_in` list is.
- The ANSI escape stripping, the `pipeline-create` command and the `-` separator described for later revisions do not appear in this `index.js`, so the model follows the code and has none of them.
