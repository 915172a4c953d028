/**
 The issue bot's webhook endpoint (`gitlab_webhook`) and note handler
 (`handle_note`) as pure functions from the request body and the environment
 to the HTTP status and, when the handler ran, how it ended. The remote calls
 of a request, in order, and the comment it posts are derived from that.

 The environment stands for everything the handler asks other systems: the
 bot's own account id, the user lookup, the language model and the issue
 search.
 */
module Webhook {
  import opened Text
  import opened Keywords
  import opened PyJson
  import opened Reply

  /** `is_bot_mentioned`: the `@`-prefixed mention marker occurs in the text. */
  predicate IsBotMentioned(text: string) {
    Contains(text, "@" + BotUsername)
  }

  /** The answers of the systems the handler talks to. */
  datatype Env = Env(
    botId: int,                          // the account id behind the bot's token
    userName: Json -> string,            // `get_user_name(id)`
    llm: Prompt -> string,               // the text `llm.invoke(Messages(p))` answers
    search: string -> seq<IssueResult>)  // every hit of the project's issue search

  /** A remote call of the handler. */
  datatype Call =
    | LookupUser(id: Json)                    // `get_user_name`
    | Chat(prompt: Prompt)                    // `llm.invoke(Messages(prompt))`
    | SearchIssues(query: string)             // `proj.search` over issues
    | PostNote(iid: Json, body: string)       // `comment_on_issue`: `proj.issues.get(iid)`,
                                              // then `notes.create` on that issue

  /** The HTTP response: `400 {"status": "no data"}`, `200 {"status": "ok"}`,
      or the framework's `500` when the handler raises. */
  datatype Status = NoData400 | Ok200 | ServerError500

  /** What the reply composer works out for a qualifying note: the question,
      the search query built from the model's keywords, the target issue and
      the values of the reply template. */
  datatype Composed = Composed(question: string, query: string, iid: Json, fields: ReplyFields)

  /** How `handle_note` ended. `lookup` is the author id it looked up, if it
      got that far; `Raised` is an `AttributeError` or `TypeError` on a
      payload of unexpected shape. */
  datatype NoteRun =
    | Raised(lookup: Option<Json>)
    | Skipped(lookup: Option<Json>)
    | Answered(author: Json, reply: Composed)

  /** The endpoint's response and, when the note handler ran, how it ended. */
  datatype Outcome = Outcome(status: Status, run: Option<NoteRun>)

  /** A comment the bot posts: the target issue's `iid` and the text. */
  datatype Comment = Comment(iid: Json, body: string)

  // Field access of `handle_note`, each with the default the source gives.

  function Attrs(data: seq<Member>): Json {
    GetOr(data, "object_attributes", JObj([]))
  }

  function IssueData(data: seq<Member>): Json {
    GetOr(data, "issue", JObj([]))
  }

  /** A field of `object_attributes`, when that is an object. */
  function AttrField(data: seq<Member>, key: string, default: Json): Json
    requires Attrs(data).JObj?
  {
    GetOr(Attrs(data).members, key, default)
  }

  function Action(data: seq<Member>): Json
    requires Attrs(data).JObj?
  {
    AttrField(data, "action", JStr(""))
  }

  function NoteUrl(data: seq<Member>): Json
    requires Attrs(data).JObj?
  {
    AttrField(data, "url", JStr(""))
  }

  function NoteText(data: seq<Member>): Json
    requires Attrs(data).JObj?
  {
    AttrField(data, "note", JStr(DefaultNote))
  }

  function AuthorId(data: seq<Member>): Json
    requires Attrs(data).JObj?
  {
    AttrField(data, "author_id", JNull)
  }

  /** A field of `issue`, when that is an object. */
  function IssueField(data: seq<Member>, key: string, default: Json): Json
    requires IssueData(data).JObj?
  {
    GetOr(IssueData(data).members, key, default)
  }

  /** The question the bot answers: title, description and note text of the
      event, with the source's defaults for missing fields. */
  function QuestionOf(data: seq<Member>): string
    requires Attrs(data).JObj? && IssueData(data).JObj?
  {
    Question(Str(IssueField(data, "title", JStr(DefaultTitle))),
             Str(IssueField(data, "description", JStr(DefaultDescription))),
             Str(NoteText(data)))
  }

  /** `search_related_issues` after the keyword call: the keywords the model
      named for the question. */
  function KeywordsFor(question: string, env: Env): seq<string> {
    ParseKeywords(env.llm(KeywordPrompt(question)))
  }

  /** `action != "create" and action != "update"` fails. */
  predicate IsEditAction(action: Json) {
    action == JStr("create") || action == JStr("update")
  }

  /** The reply composer for a qualifying note: the question, the direct
      answer, the keywords, the search, and the values of the template.

      The keyword line the reply shows and the query the search was given
      come from one keyword list: the line parses back to that list, and
      deleting its commas gives the query. The hits shown are those of that
      query, and the answer is the model's answer to the same question. */
  function Compose(data: seq<Member>, authorName: string, env: Env): (c: Composed)
    requires Attrs(data).JObj? && IssueData(data).JObj?
    ensures c.question == QuestionOf(data)
    ensures forall k :: k in c.fields.keywords ==> IsKeyword(k)
    ensures c.fields.keywords == KeywordsFor(c.question, env)
    ensures ParseKeywords(KeywordDisplay(c.fields.keywords)) == c.fields.keywords
    ensures RemoveCommas(KeywordDisplay(c.fields.keywords)) == c.query
    ensures c.fields.related == env.search(c.query)
    ensures c.fields.answer == env.llm(AnswerPrompt(c.question))
    ensures c.fields.authorName == authorName && c.fields.noteUrl == Str(NoteUrl(data))
  {
    var question := QuestionOf(data);
    var kws := KeywordsFor(question, env);
    var query := SearchQuery(kws);
    DisplayRoundTrip(kws);
    QueryIsDisplayWithoutCommas(kws);
    Composed(question, query, IssueField(data, "iid", JNull),
             ReplyFields(authorName, Str(NoteUrl(data)), env.llm(AnswerPrompt(question)),
                         kws, env.search(query)))
  }

  /** `handle_note`: the relevance gate, then the reply.

      A non-object `object_attributes` raises at once; a note that is not
      created or updated is dropped before any call; otherwise the payload's
      `author_id` is looked up before anything else is decided, and an answer
      needs an author other than the bot, a note text that mentions the bot
      and an `issue` object. The reply greets the looked-up name. */
  function HandleNote(data: seq<Member>, env: Env): (r: NoteRun)
    ensures !Attrs(data).JObj? ==> r == Raised(None)
    ensures Attrs(data).JObj? ==> (r == Skipped(None) <==> !IsEditAction(Action(data)))
    ensures Attrs(data).JObj? && IsEditAction(Action(data)) ==>
              if r.Answered? then r.author == AuthorId(data) else r.lookup == Some(AuthorId(data))
    ensures r.Answered? ==>
              && Attrs(data).JObj? && IssueData(data).JObj?
              && !EqualsInt(AuthorId(data), env.botId)
              && ContainsText(NoteText(data), BotUsername) == Some(true)
              && r.reply.fields.authorName == env.userName(r.author)
  {
    if !Attrs(data).JObj? then Raised(None)
    else if !IsEditAction(Action(data)) then Skipped(None)
    else
      var author := AuthorId(data);
      if EqualsInt(author, env.botId) then Skipped(Some(author))
      else
        match ContainsText(NoteText(data), BotUsername)
        case None => Raised(Some(author))
        case Some(mentioned) =>
          if !mentioned then Skipped(Some(author))
          else if !IssueData(data).JObj? then Raised(Some(author))
          else Answered(author, Compose(data, env.userName(author), env))
  }

  /** `gitlab_webhook`: an empty body is a client error; an object that is a
      note event on an issue goes to `handle_note`; everything else is
      acknowledged with `ok`. */
  function GitlabWebhook(body: Json, env: Env): (o: Outcome)
    ensures o.status == NoData400 <==> !Truthy(body)
    ensures o.status == NoData400 ==> o.run == None
    ensures o.status == ServerError500 <==> (Truthy(body) && (!body.JObj? || (o.run.Some? && o.run.value.Raised?)))
  {
    if !Truthy(body) then Outcome(NoData400, None)
    else if !body.JObj? then Outcome(ServerError500, None)
    else if IsNoteOnIssue(body.members) then
      var run := HandleNote(body.members, env);
      Outcome(if run.Raised? then ServerError500 else Ok200, Some(run))
    else Outcome(Ok200, None)
  }

  /** The shape gate: `object_kind` and `event_type` are `"note"` and an
      `issue` key is present. A missing key reads as `None` in Python's
      `data.get(key) == "note"`, which is false. */
  function IsNoteOnIssue(data: seq<Member>): (b: bool)
    ensures b <==> && GetOr(data, "object_kind", JNull) == JStr("note")
                   && GetOr(data, "event_type", JNull) == JStr("note")
                   && HasKey(data, "issue")
  {
    && Lookup(data, "object_kind") == Some(JStr("note"))
    && Lookup(data, "event_type") == Some(JStr("note"))
    && HasKey(data, "issue")
  }

  /** The remote calls a run of `handle_note` makes, in order. */
  function RunCalls(run: NoteRun): (calls: seq<Call>)
    ensures forall i :: 0 <= i < |calls| && calls[i].PostNote? ==> i == |calls| - 1
    ensures |calls| > 0 ==> calls[0].LookupUser?
    ensures !run.Answered? ==> |calls| <= 1
  {
    match run
    case Raised(lookup) => LookupCalls(lookup)
    case Skipped(lookup) => LookupCalls(lookup)
    case Answered(author, c) =>
      [ LookupUser(author), Chat(AnswerPrompt(c.question)), Chat(KeywordPrompt(c.question)),
        SearchIssues(c.query), PostNote(c.iid, Render(c.fields)) ]
  }

  function LookupCalls(lookup: Option<Json>): seq<Call> {
    if lookup.Some? then [LookupUser(lookup.value)] else []
  }

  /** The remote calls of one request, in order. */
  function Calls(o: Outcome): seq<Call> {
    if o.run.Some? then RunCalls(o.run.value) else []
  }

  /** The comment one request posts, if any. */
  function Posted(o: Outcome): Option<Comment> {
    if o.run.Some? && o.run.value.Answered? then
      var c := o.run.value.reply;
      Some(Comment(c.iid, Render(c.fields)))
    else None
  }

  // Properties of the endpoint.

  /** The note text mentions the bot in the sense of Python's `BOT_USERNAME in
      note`: a substring of a string, an element of a list, a key of a dict. */
  predicate NoteMentionsBot(note: Json) {
    ContainsText(note, BotUsername) == Some(true)
  }

  /** A string note mentions the bot exactly when the username occurs in it. */
  lemma StringNoteMentions(text: string)
    ensures NoteMentionsBot(JStr(text)) <==> Contains(text, BotUsername)
  {
  }

  /** Every condition under which the bot answers: the body is an object whose
      `object_kind` and `event_type` are `"note"` and which has an `issue` key;
      the note was created or edited; its author is not the bot; its text
      mentions the bot's username; and the two nested records are objects. */
  predicate Qualifies(body: Json, botId: int) {
    && body.JObj?
    && Lookup(body.members, "object_kind") == Some(JStr("note"))
    && Lookup(body.members, "event_type") == Some(JStr("note"))
    && HasKey(body.members, "issue")
    && Attrs(body.members).JObj?
    && IsEditAction(Action(body.members))
    && !EqualsInt(AuthorId(body.members), botId)
    && NoteMentionsBot(NoteText(body.members))
    && IssueData(body.members).JObj?
  }

  /** A comment is posted exactly when every condition holds. */
  lemma PostsIffQualifies(body: Json, env: Env)
    ensures Posted(GitlabWebhook(body, env)).Some? <==> Qualifies(body, env.botId)
  {
    if Qualifies(body, env.botId) {
      QualifiedRun(body, env);
    }
  }

  /** A note event on an issue whose action is neither `create` nor
      `update` is acknowledged with `ok` before any remote call, not even the
      author lookup. */
  lemma NonEditActionSilent(body: Json, env: Env)
    requires body.JObj? && IsNoteOnIssue(body.members) && Attrs(body.members).JObj?
    requires !IsEditAction(Action(body.members))
    ensures GitlabWebhook(body, env) == Outcome(Ok200, Some(Skipped(None)))
    ensures Calls(GitlabWebhook(body, env)) == [] && Posted(GitlabWebhook(body, env)) == None
  {
    var m :| m in body.members && m.key == "issue";
    assert Truthy(body);
  }

  /** A payload that is not a note event on an issue is acknowledged with
      `ok` and causes no remote call. */
  lemma ShapeGateSilent(body: Json, env: Env)
    requires Truthy(body) && body.JObj? && !IsNoteOnIssue(body.members)
    ensures GitlabWebhook(body, env).status == Ok200
    ensures Calls(GitlabWebhook(body, env)) == []
  {
  }

  /** Every non-empty payload the handler does not raise on is acknowledged
      with `ok`, whether or not a comment is posted. */
  lemma OkUnlessEmptyOrRaised(body: Json, env: Env)
    requires Truthy(body) && body.JObj?
    requires IsNoteOnIssue(body.members) ==> !HandleNote(body.members, env).Raised?
    ensures GitlabWebhook(body, env).status == Ok200
  {
  }

  /** Whatever happens, a posted comment is the last remote call and there is
      at most one; the comment `Posted` reports is that call. */
  lemma PostIsLastCall(o: Outcome)
    ensures forall i :: 0 <= i < |Calls(o)| && Calls(o)[i].PostNote? ==> i == |Calls(o)| - 1
    ensures Posted(o).Some? <==> (|Calls(o)| > 0 && Calls(o)[|Calls(o)| - 1].PostNote?)
    ensures Posted(o).Some? ==>
              Calls(o)[|Calls(o)| - 1] == PostNote(Posted(o).value.iid, Posted(o).value.body)
  {
  }

  /** A payload the handler raises on costs at most the author lookup: no
      model call, no search and no comment. */
  lemma ErrorBeforeAnyModelCall(body: Json, env: Env)
    requires GitlabWebhook(body, env).status == ServerError500
    ensures forall c :: c in Calls(GitlabWebhook(body, env)) ==> c.LookupUser?
    ensures Posted(GitlabWebhook(body, env)) == None
  {
    var o := GitlabWebhook(body, env);
    if o.run.Some? {
      assert o.run.value.Raised?;
      assert |Calls(o)| <= 1;
    }
  }

  /** A qualifying note is answered: the author is looked up and the reply
      composed for the looked-up name. */
  lemma QualifiedRun(body: Json, env: Env)
    requires Qualifies(body, env.botId)
    ensures var data := body.members;
            var author := AuthorId(data);
            GitlabWebhook(body, env)
              == Outcome(Ok200, Some(Answered(author, Compose(data, env.userName(author), env))))
  {
    var m :| m in body.members && m.key == "issue";
    assert Truthy(body);
  }

  /** A qualifying note gets a comment, on the payload's `issue.iid`. */
  lemma PostedTargetsIssue(body: Json, env: Env)
    requires Qualifies(body, env.botId)
    ensures Posted(GitlabWebhook(body, env)).Some?
    ensures Posted(GitlabWebhook(body, env)).value.iid == IssueField(body.members, "iid", JNull)
  {
    QualifiedRun(body, env);
  }

  /** For a qualifying note the calls are, in order: the author lookup, the
      answer prompt and the keyword prompt about the question, the search for
      the keywords joined by single spaces, and the comment on the payload's
      `issue.iid`. */
  lemma AnswerTrace(body: Json, env: Env)
    requires Qualifies(body, env.botId)
    ensures var data := body.members;
            var o := GitlabWebhook(body, env);
            var c := Compose(data, env.userName(AuthorId(data)), env);
            Calls(o) == [ LookupUser(AuthorId(data)), Chat(AnswerPrompt(c.question)),
                          Chat(KeywordPrompt(c.question)), SearchIssues(Join(c.fields.keywords, " ")),
                          PostNote(IssueField(data, "iid", JNull), Render(c.fields)) ]
  {
    QualifiedRun(body, env);
  }

  /** The question holds the issue title, the issue description and the note
      text, in that order, each with its default when missing. `Compose`
      puts this question into the reply (its first `ensures`). */
  lemma ComposedQuestion(data: seq<Member>)
    requires Attrs(data).JObj? && IssueData(data).JObj?
    ensures var q := QuestionOf(data);
            var title := Str(IssueField(data, "title", JStr(DefaultTitle)));
            var desc := Str(IssueField(data, "description", JStr(DefaultDescription)));
            var note := Str(NoteText(data));
            && TitleLabel <= q
            && WindowAt(q, title, |TitleLabel|)
            && WindowAt(q, desc, |TitleLabel| + |title| + |DescriptionLabel|)
            && WindowAt(q, note, |q| - |note|)
  {
    var title := Str(IssueField(data, "title", JStr(DefaultTitle)));
    var desc := Str(IssueField(data, "description", JStr(DefaultDescription)));
    assert QuestionOf(data) == Question(title, desc, Str(NoteText(data)));
  }

  /** The posted comment greets the note's author by the looked-up name, links
      the note, and carries the model's answer, the keyword list and the
      related-issue section; every keyword it lists is a clean keyword. */
  lemma PostedCommentContent(body: Json, env: Env)
    requires Qualifies(body, env.botId)
    ensures var data := body.members;
            var f := Compose(data, env.userName(AuthorId(data)), env).fields;
            && Posted(GitlabWebhook(body, env)) == Some(Comment(IssueField(data, "iid", JNull), Render(f)))
            && Greeting + env.userName(AuthorId(data)) <= Render(f)
            && Contains(Render(f), "[note](" + Str(NoteUrl(data)) + ")")
            && Contains(Render(f), f.answer)
            && Contains(Render(f), KeywordDisplay(f.keywords))
            && Contains(Render(f), RelatedIssuesSection(f.related))
            && (forall k :: k in f.keywords ==> IsKeyword(k))
  {
    QualifiedRun(body, env);
    var data := body.members;
    var f := Compose(data, env.userName(AuthorId(data)), env).fields;
    ReplyBodyEmbeds(f.authorName, f.noteUrl, f.answer, KeywordDisplay(f.keywords),
                    RelatedIssuesSection(f.related));
  }

  /** The bot never answers its own notes. */
  lemma NoReplyToSelf(body: Json, env: Env)
    requires body.JObj? && Attrs(body.members).JObj?
    requires EqualsInt(AuthorId(body.members), env.botId)
    ensures Posted(GitlabWebhook(body, env)) == None
  {
    PostsIffQualifies(body, env);
  }

  /** A note event without a `note` text falls back to the default text,
      which does not mention the bot, so it is never answered. */
  lemma DefaultNoteNeverAnswered(body: Json, env: Env)
    requires body.JObj? && Attrs(body.members).JObj?
    requires !HasKey(Attrs(body.members).members, "note")
    ensures Posted(GitlabWebhook(body, env)) == None
  {
    PostsIffQualifies(body, env);
    ContainsNeedsRoom(DefaultNote, BotUsername);
  }

  lemma ContainsNeedsRoom(text: string, pat: string)
    requires |text| < |pat|
    ensures !Contains(text, pat)
  {
  }

  /** `is_bot_mentioned` holds exactly when some `@` in the text is
      immediately followed by the bot's username. */
  lemma MentionIsAtName(text: string)
    ensures IsBotMentioned(text) <==>
              exists i :: 0 <= i < |text| && text[i] == '@' && WindowAt(text, BotUsername, i + 1)
  {
    var mention := "@" + BotUsername;
    if IsBotMentioned(text) {
      var i :| WindowAt(text, mention, i);
      assert text[i..i + |mention|][0] == '@';
      assert text[i + 1..i + 1 + |BotUsername|] == text[i..i + |mention|][1..];
      assert WindowAt(text, BotUsername, i + 1);
    }
    if i :| 0 <= i < |text| && text[i] == '@' && WindowAt(text, BotUsername, i + 1) {
      assert text[i..i + |mention|] == [text[i]] + text[i + 1..i + 1 + |BotUsername|];
      assert WindowAt(text, mention, i);
    }
  }

  /** `is_bot_mentioned` is stricter than the handler's own relevance test:
      a text that mentions `@compilerh-course-bot` contains the bare
      username. */
  lemma MentionPassesGate(text: string)
    requires IsBotMentioned(text)
    ensures NoteMentionsBot(JStr(text))
  {
    ContainsMiddle("@", BotUsername, "");
    assert "@" + BotUsername + "" == "@" + BotUsername;
    ContainsTransitive(text, "@" + BotUsername, BotUsername);
    StringNoteMentions(text);
  }

  /** The converse fails: the bare username passes the handler's test without
      being an `@`-mention. */
  lemma GateLooserThanMention()
    ensures NoteMentionsBot(JStr(BotUsername)) && !IsBotMentioned(BotUsername)
  {
    ContainsMiddle("", BotUsername, "");
    assert "" + BotUsername + "" == BotUsername;
    ContainsNeedsRoom(BotUsername, "@" + BotUsername);
    StringNoteMentions(BotUsername);
  }

  /** A note event as GitLab sends it when user 99 writes a note starting
      with `@compilerh-course-bot` on issue 42; `rest` is the rest of the note. */
  function ExamplePayload(rest: string): Json {
    JObj([ Member("object_kind", JStr("note")),
           Member("event_type", JStr("note")),
           Member("object_attributes",
                  JObj(ExampleAttrs(rest))),
           Member("issue", JObj(ExampleIssue())) ])
  }

  function ExampleAttrs(rest: string): seq<Member> {
    [ Member("action", JStr("create")),
      Member("note", JStr("@" + BotUsername + rest)),
      Member("author_id", JInt(99)),
      Member("url", JStr("https://example.org/note/1")) ]
  }

  function ExampleIssue(): seq<Member> {
    [ Member("iid", JInt(42)), Member("title", JStr("crash")) ]
  }

  lemma ExampleRecords(rest: string)
    ensures Attrs(ExamplePayload(rest).members) == JObj(ExampleAttrs(rest))
    ensures IssueData(ExamplePayload(rest).members) == JObj(ExampleIssue())
  {
    ExampleAttrsRecord(rest);
    ExampleIssueRecord(rest);
  }

  lemma ExampleAttrsRecord(rest: string)
    ensures Lookup(ExamplePayload(rest).members, "object_attributes") == Some(JObj(ExampleAttrs(rest)))
  {
    assert ExamplePayload(rest).members[2].key == "object_attributes";
  }

  lemma ExampleIssueRecord(rest: string)
    ensures Lookup(ExamplePayload(rest).members, "issue") == Some(JObj(ExampleIssue()))
  {
    assert ExamplePayload(rest).members[3].key == "issue";
  }

  lemma ExampleShape(rest: string)
    ensures IsNoteOnIssue(ExamplePayload(rest).members)
  {
    var data := ExamplePayload(rest).members;
    assert data[3] in data && data[3].key == "issue";
  }

  lemma ExampleAttrLookups(rest: string)
    ensures Lookup(ExampleAttrs(rest), "action") == Some(JStr("create"))
    ensures Lookup(ExampleAttrs(rest), "author_id") == Some(JInt(99))
    ensures Lookup(ExampleAttrs(rest), "note") == Some(JStr("@" + BotUsername + rest))
  {
    var attrs := ExampleAttrs(rest);
    assert attrs[0].key == "action";
    assert attrs[1].key == "note";
    assert attrs[2].key == "author_id";
  }

  lemma ExampleAttrFields(rest: string)
    ensures Action(ExamplePayload(rest).members) == JStr("create")
    ensures AuthorId(ExamplePayload(rest).members) == JInt(99)
    ensures NoteText(ExamplePayload(rest).members) == JStr("@" + BotUsername + rest)
  {
    ExampleRecords(rest);
    ExampleAttrLookups(rest);
  }

  lemma ExampleIid(rest: string)
    ensures IssueData(ExamplePayload(rest).members).JObj?
    ensures IssueField(ExamplePayload(rest).members, "iid", JNull) == JInt(42)
  {
    ExampleRecords(rest);
    assert ExampleIssue()[0].key == "iid";
  }

  /** Unless the bot is user 99 itself, the example qualifies. */
  lemma ExampleQualifies(rest: string, botId: int)
    requires botId != 99
    ensures Qualifies(ExamplePayload(rest), botId)
  {
    var data := ExamplePayload(rest).members;
    ExampleRecords(rest);
    ExampleShape(rest);
    ExampleAttrFields(rest);
    assert IsEditAction(Action(data));
    assert !EqualsInt(AuthorId(data), botId);
    ContainsMiddle("@", BotUsername, rest);
    StringNoteMentions("@" + BotUsername + rest);
    assert NoteMentionsBot(NoteText(data));
  }

  /** Whatever follows the mention, the bot answers the example on issue 42,
      unless it is user 99 itself. */
  lemma ExampleAnswered(rest: string, env: Env)
    requires env.botId != 99
    ensures Posted(GitlabWebhook(ExamplePayload(rest), env)).Some?
    ensures Posted(GitlabWebhook(ExamplePayload(rest), env)).value.iid == JInt(42)
  {
    ExampleQualifies(rest, env.botId);
    PostedTargetsIssue(ExamplePayload(rest), env);
    ExampleIid(rest);
  }
}
