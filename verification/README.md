# GitLab course scripts: issue bot and group invitations

A Dafny model of two small GitLab scripts used by a compiler course.

- **`issue_bot.py`** is a webhook service. GitLab posts every event of a project to `/gitlab_webhook`. For a note (comment) on an issue that mentions the bot's account `compilerh-course-bot`, the bot:
  - asks a language model for a direct answer to the issue;
  - asks it for search keywords;
  - searches the project's issues with those keywords;
  - posts one reply comment that greets the note's author, links the note, and lists the answer, the keywords and the related issues.
- **`gitlab-invite.py`** invites a list of user ids into a group. It aborts when the group does not exist, skips users who are already members, and keeps going when an invitation is refused.

The model is functional.

- **Payload.** The webhook body is a parsed JSON value (`PyJson.Json`).
- **Python semantics.** The handler applies `dict.get`, `==`, `in` and f-string `str()` to the body, and those operations are modelled with their Python meaning.
- **Remote systems.** Everything the scripts ask a remote system is a parameter:
  - `Webhook.Env` holds the bot's account id, the user-name lookup, the language model's answer for each prompt, and the issue search;
  - `Invite.Server` holds the existing groups, the group's members and the uids whose invitation is refused.
- **Results.** A webhook request yields an `Outcome`: the HTTP status and, when the note handler ran, a `NoteRun` that says how it ended. From that, `Calls` derives the remote calls in order and `Posted` derives the comment. An invitation run yields `GroupNotFound` or one `Action` per uid.

Modules:

- `Text`: Python's `str.strip()`, `str.split(',')`, `sep.join`, substring `in` and `str(int)`.
- `Keywords`: keyword parsing and the two keyword joins.
- `PyJson`: the payload and the Python operations on it.
- `Reply`: the prompts, the question, the related-issue list and the comment template.
- `Webhook`: the endpoint and the note handler.
- `Invite`: the invitation loop.

## Model

| member | source | states |
|---|---|---|
| `Text.Strip` | issue_bot.py:69 | `kw.strip()` leaves no whitespace (in the `str.isspace` sense) at either end and never lengthens the text |
| `Text.StripPadding` | issue_bot.py:69 | what `strip()` removes is whitespace only: the result is a window of the input with all-whitespace text before and after it |
| `Text.StripPadded` | issue_bot.py:69 | conversely, a stripped core padded with whitespace on both sides strips back to exactly that core |
| `Text.StripEmptyIffAllSpace` | issue_bot.py:69 | `kw.strip()` is empty exactly when the piece is all whitespace, which is the filter `if kw.strip()` |
| `Text.StripIdempotent` | issue_bot.py:69 | stripping twice is stripping once |
| `Text.StripKeepsAbsent` | issue_bot.py:69 | stripping cannot introduce a character, so a comma-free piece stays comma-free |
| `Text.Split` | issue_bot.py:69 | `split(',')` yields at least one piece, no piece holds the separator, and joining the pieces with the separator gives back the input |
| `Text.SplitJoin` | issue_bot.py:69 | the other half of the round trip: splitting a join of separator-free pieces gives back the pieces |
| `Text.Join` | issue_bot.py:80-86 | `sep.join(parts)`, defined without a contract; `Text.Split` and `Text.SplitJoin` prove it inverse to `split` on separator-free pieces |
| `Text.Contains` | issue_bot.py:125 | Python's `pat in text` for strings holds exactly when some window of the text equals the pattern |
| `Text.ContainsTransitive` | issue_bot.py:30-31 | an occurrence of an occurrence is an occurrence |
| `Text.NatToDigits` | gitlab-invite.py:29 | decimal digits without leading zero whose value is the number |
| `Text.IntToString` | gitlab-invite.py:29 | `str(n)`: a minus sign exactly for negative numbers, followed by the digits of the magnitude |
| `Text.IntToStringInjective` | gitlab-invite.py:29 | distinct integers render as distinct strings, so `str(uid)` identifies the uid |
| `Keywords.KeepNonEmpty` | issue_bot.py:69 | the comprehension keeps at most as many pieces as it is given, and each kept piece is non-empty and stripped |
| `Keywords.ParseKeywords` | issue_bot.py:69 | every parsed keyword is non-empty, has no surrounding whitespace and contains no comma |
| `Keywords.KeptFrom` | issue_bot.py:69 | the positions of the non-blank pieces, strictly increasing, covering every non-blank piece |
| `Keywords.ParseKeepsNonEmptyPieces` | issue_bot.py:69 | parsing keeps exactly the stripped non-blank comma pieces, in input order, and drops every blank piece |
| `Keywords.ParseExample` | issue_bot.py:69 | `"A, B ,C,"` parses to `["A", "B", "C"]` |
| `Keywords.SearchQuery` | issue_bot.py:80 | the `' '.join(keywords)` query, defined without a contract; `Keywords.QuerySplitsBack` and `Keywords.QueryIsDisplayWithoutCommas` state its properties |
| `Keywords.QuerySplitsBack` | issue_bot.py:80 | when no keyword holds a space, the query splits back into exactly the keywords at single spaces |
| `Keywords.KeywordDisplay` | issue_bot.py:86 | the `', '.join(keywords)` line, defined without a contract; `Keywords.DisplayRoundTrip` proves that parsing inverts it |
| `Keywords.DisplayRoundTrip` | issue_bot.py:86 | parsing the displayed `", "`-joined list of clean keywords gives back the list |
| `Keywords.ParseDisplayIdempotent` | issue_bot.py:69-86 | re-parsing the displayed keyword string of a parse gives the same keywords |
| `Keywords.QueryIsDisplayWithoutCommas` | issue_bot.py:80-86 | the search query (`' '.join`) is the displayed string (`', '.join`) of the same list with its commas removed |
| `PyJson.Lookup` | issue_bot.py:111-135 | `d.get(key)` finds a value exactly when the key is present, and the value is stored under that key |
| `PyJson.ContainsText` | issue_bot.py:125 | `BOT_USERNAME in note` raises `TypeError` (here `None`) exactly when the note is neither a string, a list nor an object; `Webhook.NoteMentionsBot` is this test answering true, and `Webhook.PostsIffQualifies` states its role |
| `PyJson.GetOr` | issue_bot.py:111-135 | `d.get(key, default)` is a stored value when the key is present and the default otherwise |
| `PyJson.Truthy` | issue_bot.py:166 | Python's truthiness of a parsed value, defined without a contract; `PyJson.FalsyValues` lists the falsy values and `Webhook.GitlabWebhook` uses it for the 400 answer |
| `PyJson.FalsyValues` | issue_bot.py:166 | `not data` holds for exactly six values: `null`, `false`, `0`, `""`, `[]` and `{}` |
| `PyJson.EqualsInt` | issue_bot.py:121 | Python's `==` between a parsed value and an integer id (`True == 1` included), defined without a contract; `Webhook.NoReplyToSelf` and `Webhook.PostsIffQualifies` state its role |
| `PyJson.Str` | issue_bot.py:138 | `str(v)` as an f-string inserts it, defined without a contract; `Webhook.ComposedQuestion` states where the inserted title, description and note sit |
| `PyJson.Repr` | issue_bot.py:138 | `repr(v)` of a non-string value interpolated into the question, defined without a contract |
| `Reply.PromptCarriesQuestion` | issue_bot.py:59-95 | both prompts (keyword extraction at lines 59-62, direct answer at lines 92-95) are a system message naming the bot followed by a user message carrying the question |
| `Reply.KeywordMessages` | issue_bot.py:59-62 | the keyword-extraction prompt, defined without a contract; `Reply.PromptCarriesQuestion` states its shape |
| `Reply.AnswerMessages` | issue_bot.py:92-95 | the direct-answer prompt, defined without a contract; `Reply.PromptCarriesQuestion` states its shape |
| `Reply.Question` | issue_bot.py:138 | the question starts with the title label and holds title, description and note at fixed places, in that order |
| `Reply.IssueLine` | issue_bot.py:143 | the line `- [#iid title](url)` of one hit, defined without a contract; `Reply.RelatedIssuesLines` proves each line is recovered from the section |
| `Reply.RelatedIssuesSection` | issue_bot.py:141-143 | the section is the fallback sentence exactly when there are no hits, and otherwise starts with the issue line of the first hit |
| `Reply.RelatedIssuesLines` | issue_bot.py:143 | when no title or url holds a newline, splitting the section at newlines gives exactly one line per hit, in order |
| `Reply.ReplyBody` | issue_bot.py:144-159 | the comment template, defined without a contract; `Reply.ReplyBodyEmbeds` states what it embeds |
| `Reply.ReplyBodyEmbeds` | issue_bot.py:144-159 | the comment opens by greeting the author, links the note, and holds the answer, the keyword string and the related-issue section, and ends with the fixed footer |
| `Webhook.GitlabWebhook` | issue_bot.py:163-170 | 400 exactly for a falsy body, with no handler run; 500 exactly when the body is truthy and either not an object or the handler raised |
| `Webhook.IsNoteOnIssue` | issue_bot.py:168 | the shape gate holds exactly when `data.get("object_kind")` and `data.get("event_type")` are `"note"` (a missing key reads as `None`) and `issue` is a key |
| `Webhook.HandleNote` | issue_bot.py:110-160 | a non-object `object_attributes` raises before any call; a note that is not created or updated is dropped before any call; otherwise the payload's `author_id` is looked up first; an answer needs an author other than the bot, a note text that mentions the bot and an `issue` object, and greets the looked-up name |
| `Webhook.IsEditAction` | issue_bot.py:114 | the test `action` is `"create"` or `"update"`, defined without a contract; `Webhook.NonEditActionSilent` states its effect |
| `Webhook.NonEditActionSilent` | issue_bot.py:112-116 | a note event whose action is neither `create` nor `update` is acknowledged with `ok` and makes no remote call, not even the author lookup |
| `Webhook.Compose` | issue_bot.py:131-159 | the question is `QuestionOf` the payload; every keyword is clean; the shown keyword line parses back to the keywords and is the search query with its commas removed; the listed hits are those of that query; the answer is the model's answer to the same question; the author name and note url are passed through |
| `Webhook.RunCalls` | issue_bot.py:118-160 | a comment is only ever the last remote call; every run starts with the author lookup if it calls anything; a run that does not answer makes at most that lookup |
| `Webhook.PostsIffQualifies` | issue_bot.py:114-127 | a comment is posted if and only if the body is a note event on an issue, the action is create or update, the author is not the bot, the note mentions the bot's username, and `object_attributes` and `issue` are objects; when either is not an object the handler raises (500) and posts nothing |
| `Webhook.ShapeGateSilent` | issue_bot.py:168-170 | a non-empty object that is not a note event on an issue gets `ok` and causes no remote call |
| `Webhook.OkUnlessEmptyOrRaised` | issue_bot.py:166-170 | every non-empty object the handler does not raise on gets `ok`, whether or not a comment is posted |
| `Webhook.PostIsLastCall` | issue_bot.py:160 | at most one comment is posted, always as the last call, and it is the comment the outcome reports |
| `Webhook.ErrorBeforeAnyModelCall` | issue_bot.py:111-135 | when the handler raises, at most the author lookup happened: no model call, no search, no comment |
| `Webhook.QualifiedRun` | issue_bot.py:110-160 | a qualifying note is answered, with the reply composed for the looked-up author name |
| `Webhook.PostedTargetsIssue` | issue_bot.py:131-132 | the comment goes to the payload's `issue.iid` |
| `Webhook.AnswerTrace` | issue_bot.py:118-160 | the calls are, in order: author lookup, answer prompt, keyword prompt, search for the space-joined keywords, comment on the issue |
| `Webhook.ComposedQuestion` | issue_bot.py:132-138 | the question built from the payload (which `Webhook.Compose` puts into the reply) holds the issue title, the issue description and the note text, in that order, each with its default (`title: empty`, `description: empty`, `note: empty`) when missing |
| `Webhook.PostedCommentContent` | issue_bot.py:141-160 | the posted comment greets the looked-up author, links the note url, and holds the answer, the keyword string and the related-issue section; every listed keyword is clean |
| `Webhook.NoReplyToSelf` | issue_bot.py:121-123 | a note written by the bot's own account is never answered |
| `Webhook.DefaultNoteNeverAnswered` | issue_bot.py:117 | a note event without note text falls back to `"note: empty"`, which does not mention the bot, so it is never answered |
| `Webhook.MentionPassesGate` | issue_bot.py:30-31 | every text that passes `is_bot_mentioned` passes the handler's mention test |
| `Webhook.IsBotMentioned` | issue_bot.py:30-31 | `is_bot_mentioned`, defined without a contract; `Webhook.MentionIsAtName` characterises it |
| `Webhook.MentionIsAtName` | issue_bot.py:30-31 | `is_bot_mentioned` holds exactly when some `@` in the text is immediately followed by the bot's username |
| `Webhook.GateLooserThanMention` | issue_bot.py:125 | the converse fails: the bare username passes the handler's test without being an `@` mention |
| `Webhook.ExampleAnswered` | issue_bot.py:163-170 | a create note by user 99 that starts with `@compilerh-course-bot` on issue 42 is answered on issue 42 unless the bot is user 99 |
| `Invite.RequestFor` | gitlab-invite.py:28-31 | the request carries the given access level and the uid as a decimal string that reads back as the uid |
| `Invite.Step` | gitlab-invite.py:21-34 | a member is skipped; a non-member gets one invitation request, which is reported as failed exactly when the server refuses it |
| `Invite.Trace` | gitlab-invite.py:18-34 | one action per uid, in input order, each the outcome of that uid alone |
| `Invite.InviteUsers` | gitlab-invite.py:11-16 | the run aborts exactly when the group does not exist; otherwise it reports as many actions as there are uids |
| `Invite.InviteUsersToGroup` | gitlab-invite.py:11-34 | the loop computes exactly the run above |
| `Invite.AttemptsAreNonMembers` | gitlab-invite.py:18-31 | the invitation attempts are exactly the non-member uids of the input, in input order, repetitions kept |
| `Invite.TraceAppend` | gitlab-invite.py:18-34 | each uid is handled on its own: the run over two lists in sequence is the concatenation of their runs |
| `Invite.FailureDoesNotStop` | gitlab-invite.py:33-34 | a refused invitation is reported, and every later uid is handled as if it had not happened |
| `Invite.DuplicateInvitedTwice` | gitlab-invite.py:21-31 | with the membership fixed for the run, a non-member listed twice is invited twice with the same request |
| `Invite.RequestsIdentifyUser` | gitlab-invite.py:29 | different uids are invited under different `user_id` strings |
| `Invite.DefaultLevelIsDeveloper` | gitlab-invite.py:11 | without an explicit level every invitation asks for Developer access (30) |

## Behaviour of the source worth knowing

- **Responses.** Only a falsy JSON value (`{}`, `[]`, `null`, `0`, `""`, `false`) gets `400 {"status": "no data"}`. A non-empty object gets `{"status": "ok"}` whether or not it is handled, unless the handler raises. A truthy body that is not an object gets 500 (next item).
- **Malformed payloads.** The handler dereferences the payload without checking its types. Three cases raise an `AttributeError` or `TypeError`, which the web framework turns into a 500 response:
  - a non-object body;
  - a non-object `object_attributes` or `issue`;
  - a note text that is neither a string, a list nor an object.

  The model calls this `ServerError500` and records the calls made before the error.
- **Mention test.** The relevance gate tests for the bare username (`compilerh-course-bot`), not the `@`-prefixed mention that `is_bot_mentioned` tests. `is_bot_mentioned` is defined but never called.

## Left out

- **Remote calls.** The language model, the GitLab user lookup, the search, the comment post, and the group, member and invitation calls are not modelled as code. Each is an oracle: a field of `Webhook.Env` or `Invite.Server`. Their own failures are not modelled:
  - exceptions raised by these calls;
  - network errors;
  - the missing `iid`/`title`/`web_url` keys in a search hit.
- **The model's reply object.** The scripts take `result.content` when the reply has one and `str(result)` otherwise. The oracle hands back the resulting text directly.
- **The bot's account id.** `get_token_user_id()` runs for every note past the action test (issue_bot.py:121) and returns the cached id of the authenticated user, constant for the process. The model takes it as a configuration value and does not record it as a call.
- **Server plumbing.** Left out: FastAPI/uvicorn startup; JSON parsing of the request body (the endpoint calls `request.json()` itself, so a request with no body or a body that is not JSON raises inside the endpoint and gets 500, which the model does not represent); `load_dotenv` and environment variables; the CSV read; and the missing-token exit. These are configuration and I/O.
- **`print` output.** It is logging only.
- **JSON floats.** Numbers in the payload are integers.
- **Duplicate object keys.** An object keeps its members in order and `Lookup` takes the first binding of a key. Python's `json.loads` keeps the last value of a duplicated key, so for a payload with a repeated key the two differ; the model assumes keys are distinct and does not enforce it.
- PyJson.Repr: the escapes `repr` applies to non-printable characters beyond Latin-1 (for example U+2028, which `repr` writes as `\u2028`) are left out; such a character is copied as it is. Only the ASCII and Latin-1 escapes are modelled. They matter only when a non-string value is interpolated into the question.
- PyJson.Str: for a non-string value it is `PyJson.Repr`, so it has the same gap for characters beyond Latin-1 inside nested strings.
- **Invitation failures.** They are a fixed set of refused uids. A server whose answer changes between two invitations of the same uid is not modelled.
- **Membership.** The membership oracle covers the one group being filled, and it is fixed for the whole run. The script asks the server again for every uid (gitlab-invite.py:22), and a successful invitation by `user_id` can make that user a member, so in GitLab a later duplicate of an invited uid may be found a member and skipped. The members below state what happens when the server's membership answer does not change during the run.
- Invite.Step: decides membership from the fixed member set.
- Invite.Trace: applies `Invite.Step` with the same member set to every uid, so an earlier invitation does not make a later duplicate a member.
- Invite.AttemptsAreNonMembers: "repetitions kept" holds under the fixed member set; in GitLab a duplicate of a successfully invited uid may be skipped.
- Invite.DuplicateInvitedTwice: holds under the fixed member set; in GitLab the second occurrence of a successfully invited uid may be found a member and skipped.
- Webhook.PostedCommentContent: it states what the comment embeds and where it starts and ends. It does not state the full text, because the template's fixed text is given once in `Reply.ReplyBody`.
