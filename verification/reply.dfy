/**
 Composition of the issue bot's reply (`handle_note`, `search_related_issues`
 and the two prompt builders): the question put to the language model, the
 two chat prompts, the related-issue list and the comment template. Every
 literal below is the source's own text.
 */
module Reply {
  import opened Text
  import opened Keywords

  /** The bot's GitLab username (`BOT_USERNAME`). */
  const BotUsername := "compilerh-course-bot"

  /** One role-tagged chat message handed to the language model. */
  datatype Message = Message(role: string, content: string)

  /** The prompt of `extract_keywords_from_question`. */
  function KeywordMessages(question: string): seq<Message> {
    [ Message("system", "你是编译方向的专家，你叫" + BotUsername + "，擅长从同学们不太清晰的问题中提取关键词。"),
      Message("user", "请从以下问题中提取3个最相关的英文或中文关键词，用逗号分隔：" + question) ]
  }

  /** The prompt of `response_zero_shot`. */
  function AnswerMessages(question: string): seq<Message> {
    [ Message("system", "你是一个编译方向的专家，你叫" + BotUsername + "，擅长为同学们的问题提供简明的解决方案。"),
      Message("user", "问题：" + question + "\n请给出简明的解决方案。注意不要添加招呼语，如你好，直接给出回答。") ]
  }

  /** The two conversations the handler opens with the language model, each
      about one question. */
  datatype Prompt = AnswerPrompt(question: string) | KeywordPrompt(question: string)

  /** The messages sent for a prompt. */
  function Messages(p: Prompt): seq<Message> {
    match p
    case AnswerPrompt(q) => AnswerMessages(q)
    case KeywordPrompt(q) => KeywordMessages(q)
  }

  /** Each prompt is a system message that names the bot, then a user
      message that carries the question. */
  lemma PromptCarriesQuestion(p: Prompt)
    ensures |Messages(p)| == 2
    ensures Messages(p)[0].role == "system" && Messages(p)[1].role == "user"
    ensures Contains(Messages(p)[0].content, BotUsername)
    ensures Contains(Messages(p)[1].content, p.question)
  {
    match p
    case AnswerPrompt(q) =>
      ContainsMiddle("你是一个编译方向的专家，你叫", BotUsername, "，擅长为同学们的问题提供简明的解决方案。");
      ContainsMiddle("问题：", q, "\n请给出简明的解决方案。注意不要添加招呼语，如你好，直接给出回答。");
    case KeywordPrompt(q) =>
      ContainsMiddle("你是编译方向的专家，你叫", BotUsername, "，擅长从同学们不太清晰的问题中提取关键词。");
      ContainsMiddle("请从以下问题中提取3个最相关的英文或中文关键词，用逗号分隔：", q, "");
      assert "请从以下问题中提取3个最相关的英文或中文关键词，用逗号分隔：" + q + ""
          == "请从以下问题中提取3个最相关的英文或中文关键词，用逗号分隔：" + q;
  }

  /** One search hit as `search_related_issues` keeps it. */
  datatype IssueResult = IssueResult(iid: int, title: string, url: string)

  /** Labels of the question string, in the order they appear. */
  const TitleLabel := "问题标题: "
  const DescriptionLabel := ", 问题描述: "
  const NoteLabel := ", 其他信息: "

  /** Defaults `handle_note` uses for missing fields. */
  const DefaultTitle := "title: empty"
  const DefaultDescription := "description: empty"
  const DefaultNote := "note: empty"

  /** The sentence shown instead of an empty related-issue list. */
  const NoRelatedIssues := "好像没有搜索到相关issue。"

  /** Pieces of the reply template around its five insertions. */
  const Greeting := "你好😊, @"
  const BeforeUrl := "。目前我只能看到问题的文字部分，还不能看到图片部分，所以尽可能以文字方式描述问题。我现在只根据问题标题、描述以及你@我的那条评论的最近一次更新([note]("
  const BeforeAnswer := "))进行回答：\n\n针对这个问题，有以下解决方案供你参考:\n\n"
  const BeforeKeywords := "\n\n此外，我也提取了你的问题、描述以及评论中的关键词，如下:\n\n"
  const BeforeRelated := "\n\n使用gitlab搜索引擎搜索关键词得到的相关issue如下:\n\n"
  const Footer := "\n\n如果帮助解决了你的问题，就给评论点个赞👍吧！如果没有，就点个踩👎，我会继续努力的！\n"

  /** `f"问题标题: {title}, 问题描述: {desc}, 其他信息: {note}"`: title,
      description and note text, each behind its label, in that fixed order. */
  function Question(title: string, desc: string, note: string): (q: string)
    ensures TitleLabel <= q
    ensures WindowAt(q, title, |TitleLabel|)
    ensures WindowAt(q, desc, |TitleLabel| + |title| + |DescriptionLabel|)
    ensures WindowAt(q, note, |q| - |note|)
    ensures |q| == |TitleLabel| + |title| + |DescriptionLabel| + |desc| + |NoteLabel| + |note|
  {
    var q := TitleLabel + title + DescriptionLabel + desc + NoteLabel + note;
    assert q[|TitleLabel|..|TitleLabel| + |title|] == title;
    assert q[|TitleLabel| + |title| + |DescriptionLabel|..|TitleLabel| + |title| + |DescriptionLabel| + |desc|] == desc;
    assert q[|q| - |note|..] == note;
    q
  }

  /** `f"- [#{issue.iid} {issue.title}]({issue.url})"`. */
  function IssueLine(r: IssueResult): string {
    "- [#" + IntToString(r.iid) + " " + r.title + "](" + r.url + ")"
  }

  /** The lines of the related-issue section, one per hit. */
  function IssueLines(results: seq<IssueResult>): seq<string>
  {
    seq(|results|, i requires 0 <= i < |results| => IssueLine(results[i]))
  }

  /** The related-issue section of the reply: one line per search hit, in
      hit order, joined by newlines; the fallback sentence exactly when there
      is no hit. */
  function RelatedIssuesSection(results: seq<IssueResult>): (s: string)
    ensures s == NoRelatedIssues <==> results == []
    ensures results != [] ==> "- [#" <= s && IssueLine(results[0]) <= s
  {
    if |results| == 0 then NoRelatedIssues
    else
      var s := Join(IssueLines(results), "\n");
      JoinStartsWithFirst(IssueLines(results), "\n");
      assert "- [#" <= IssueLine(results[0]);
      assert s[0] != NoRelatedIssues[0];
      s
  }

  lemma {:induction false} JoinStartsWithFirst(parts: seq<string>, sep: string)
    requires |parts| >= 1
    ensures parts[0] <= Join(parts, sep)
  {
  }

  /** When no title or url holds a newline, splitting the section at
      newlines gives back exactly one line per hit, in hit order. */
  lemma RelatedIssuesLines(results: seq<IssueResult>)
    requires results != []
    requires forall r :: r in results ==> '\n' !in r.title && '\n' !in r.url
    ensures Split(RelatedIssuesSection(results), '\n') == IssueLines(results)
  {
    var lines := IssueLines(results);
    forall l | l in lines
      ensures '\n' !in l
    {
      var i :| 0 <= i < |lines| && l == lines[i];
      assert results[i] in results;
      IssueLineOneLine(results[i]);
    }
    SplitJoin(lines, '\n');
  }

  lemma IssueLineOneLine(r: IssueResult)
    requires '\n' !in r.title && '\n' !in r.url
    ensures '\n' !in IssueLine(r)
  {
    var digits := IntToString(r.iid);
    assert '\n' !in digits by {
      if r.iid < 0 {
        assert digits == "-" + NatToDigits(-r.iid);
      }
    }
  }

  /** The reply comment: greeting and mention of the author, link to the
      note, the direct answer, the keyword line, the related-issue section
      and the closing request for feedback. */
  function ReplyBody(authorName: string, noteUrl: string, answer: string,
                     keywords: string, related: string): string
  {
    Greeting + authorName + BeforeUrl + noteUrl + BeforeAnswer + answer
      + BeforeKeywords + keywords + BeforeRelated + related + Footer
  }

  /** What the reply template is filled with: the author's display name, the
      note's link, the model's direct answer, the parsed keywords and the
      search hits. */
  datatype ReplyFields = ReplyFields(authorName: string, noteUrl: string, answer: string,
                                     keywords: seq<string>, related: seq<IssueResult>)

  /** The comment text for the given fields. */
  function Render(f: ReplyFields): string {
    ReplyBody(f.authorName, f.noteUrl, f.answer, KeywordDisplay(f.keywords),
              RelatedIssuesSection(f.related))
  }

  /** The body embeds each of its parts: it opens by mentioning the author,
      links the note, carries the answer, the keyword line and the related
      issues, and ends with the fixed footer. */
  lemma ReplyBodyEmbeds(authorName: string, noteUrl: string, answer: string,
                        keywords: string, related: string)
    ensures var body := ReplyBody(authorName, noteUrl, answer, keywords, related);
            && Greeting + authorName <= body
            && Contains(body, "[note](" + noteUrl + ")")
            && Contains(body, answer)
            && Contains(body, keywords)
            && Contains(body, related)
            && body[|body| - |Footer|..] == Footer
  {
    assert BeforeUrl == BeforeUrl[..|BeforeUrl| - 7] + "[note](";
    assert BeforeAnswer == ")" + BeforeAnswer[1..];
    TemplateEmbeds(Greeting, authorName, BeforeUrl[..|BeforeUrl| - 7], noteUrl, BeforeAnswer[1..],
                   answer, BeforeKeywords, keywords, BeforeRelated, related, Footer);
  }

  /** The template argument of `ReplyBodyEmbeds`, over arbitrary fixed text. */
  lemma TemplateEmbeds(g: string, name: string, u: string, url: string, a: string,
                       answer: string, k: string, keywords: string, r: string,
                       related: string, f: string)
    ensures var body := g + name + (u + "[note](") + url + (")" + a) + answer + k + keywords + r + related + f;
            && g + name <= body
            && Contains(body, "[note](" + url + ")")
            && Contains(body, answer)
            && Contains(body, keywords)
            && Contains(body, related)
            && body[|body| - |f|..] == f
  {
    var p0 := g + name + (u + "[note](") + url + (")" + a);
    LinkWindow(g + name, u, url, a);
    var p1 := p0 + answer;
    ContainsEnd(p0, answer);
    var p2 := p1 + k + keywords;
    ContainsEnd(p1 + k, keywords);
    var p3 := p2 + r + related;
    ContainsEnd(p2 + r, related);
    // extend every window to the right up to the whole body
    ContainsExtendRight(p0, answer, "[note](" + url + ")");
    ContainsExtendRight(p1, k, "[note](" + url + ")");
    ContainsExtendRight(p1, k, answer);
    ContainsExtendRight(p1 + k, keywords, "[note](" + url + ")");
    ContainsExtendRight(p1 + k, keywords, answer);
    ContainsExtendRight(p2, r, "[note](" + url + ")");
    ContainsExtendRight(p2, r, answer);
    ContainsExtendRight(p2, r, keywords);
    ContainsExtendRight(p2 + r, related, "[note](" + url + ")");
    ContainsExtendRight(p2 + r, related, answer);
    ContainsExtendRight(p2 + r, related, keywords);
    ContainsExtendRight(p3, f, "[note](" + url + ")");
    ContainsExtendRight(p3, f, answer);
    ContainsExtendRight(p3, f, keywords);
    ContainsExtendRight(p3, f, related);
  }

  lemma LinkWindow(x: string, u: string, url: string, a: string)
    ensures Contains(x + (u + "[note](") + url + (")" + a), "[note](" + url + ")")
  {
    var link := "[note](" + url + ")";
    assert x + (u + "[note](") + url + (")" + a) == (x + u) + link + a;
    ContainsMiddle(x + u, link, a);
  }
}
