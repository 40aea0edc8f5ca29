/** The constants of briefme/config.py that the digest uses: the feed list, the
    default title and the two format templates. The templates are written as token
    sequences; the format string itself is `Source` of the tokens, so every literal
    brace of the CSS is doubled in it exactly as in the Python constant. */
module Config {
  import opened Base
  import opened PyFormat

  /** `TITLE` when the environment does not set it. */
  const DefaultTitle: string := "Your News Digest"

  /** `RSS_FEEDS`, in order. */
  const RssFeeds: seq<string> := [
    "https://nitter.net/ryotkak/rss",
    "https://nitter.net/kevin_mizu/rss",
    "https://nitter.net/terjanq",
    "https://www.bleepingcomputer.com/feed/"
  ]

  // ---------- EMAIL_TEMPLATE ----------

  /** One line of the stylesheet as it reads after formatting: `{{`/`}}` became `{`/`}`. */
  function CssRule(selector: string, declarations: string): string
  {
    "    " + selector + " { " + declarations + " }\n"
  }

  const Stylesheet: string :=
    CssRule("body", "margin:0; padding:0; background:#f4f6f8; font-family:Arial, Helvetica, sans-serif; color:#333;")
    + CssRule(".container", "max-width:600px; margin:20px auto; background:#ffffff; border-radius:8px; overflow:hidden; box-shadow:0 2px 6px rgba(0,0,0,0.1);")
    + CssRule(".header", "background:#0a3d62; color:#ffffff; padding:20px; text-align:center;")
    + CssRule(".header h1", "margin:0; font-size:22px; font-weight:bold;")
    + CssRule(".section", "padding:20px;")
    + CssRule(".section h2", "font-size:18px; margin-bottom:12px; border-bottom:2px solid #0a3d62; padding-bottom:6px; color:#0a3d62;")
    + CssRule(".section p", "line-height:1.5;")
    + CssRule(".footer", "background:#f0f0f0; text-align:center; font-size:12px; color:#555; padding:15px;")
    + CssRule("a", "color:#0a7dda; text-decoration:none;")
    + CssRule("a:hover", "text-decoration:underline;")

  /** Text before the first `{title}`. */
  const EmailHead: string :=
    "<!DOCTYPE html>\n<html lang=\"en\">\n<head>\n  <meta charset=\"UTF-8\">\n  <title>"

  /** Text between `{title}` and `{summary}`: the stylesheet and the page header. */
  const EmailUpper: string :=
    "</title>\n  <style>\n" + Stylesheet + "  </style>\n</head>\n<body>\n"
    + "  <div class=\"container\">\n    <div class=\"header\">\n"
    + "      <h1>Cybersecurity Daily Digest</h1>\n    </div>\n    "

  /** Text between `{summary}` and the second `{title}`. */
  const EmailLower: string :=
    "\n    <div class=\"footer\">\n      \U{00A9} 2025 "

  /** Text after the second `{title}`. */
  const EmailTail: string :=
    " \U{2022} You are receiving this because you subscribed to daily updates.\n"
    + "    </div>\n  </div>\n</body>\n</html>\n"

  /** The literal pieces around the fields of an email template shaped like
      `EMAIL_TEMPLATE`: head, `{title}`, upper, `{summary}`, lower, `{title}`, tail. */
  datatype EmailLayout = EmailLayout(head: string, upper: string, lower: string, tail: string)

  /** The tokens of a template with that shape. */
  function EmailTokens(l: EmailLayout): seq<Token>
  {
    [Text(l.head), Field("title"), Text(l.upper), Field("summary"), Text(l.lower), Field("title"), Text(l.tail)]
  }

  /** The email document for a title and a summary (see EmailFormat). */
  function EmailDocument(l: EmailLayout, title: string, summary: string): string
  {
    l.head + title + l.upper + summary + l.lower + title + l.tail
  }

  const Email: EmailLayout := EmailLayout(EmailHead, EmailUpper, EmailLower, EmailTail)

  const EmailTemplate: seq<Token> := EmailTokens(Email)

  /** `EMAIL_TEMPLATE` as a format string. */
  const EmailTemplateText: string := Source(EmailTemplate)

  // ---------- PROMPT_TEMPLATE ----------

  const PromptHead: string :=
    "\nSummarise the following updates into a clear daily digest (max "

  const PromptMiddle: string := " words):\n\n"

  const PromptTail: string :=
    ".\n\nSplit into the following sections:\n- Cybersecurity News\n"
    + "- Vulnerability Writeups and Disclosures\n\n"
    + "The summary should be concise, informative, and easy to read. "
    + "Use bullet points or short paragraphs as needed.\n"
    + "It will be inserted into an HTML email template. Each section should be wrapped "
    + "in <div class=\"section\"> with a heading <h2>.\n\n"
    + "Include links from the original articles.\n\n"
    + "If there are any articles in the feed that do not relate to cybersecurity, ignore them.\n\n"
    + "Translate any non-English text to English.\n\n"
    + "Do not add any notes, comments, or disclaimers at the beginning or end of the summary. "
    + "Only produce the HTML content.\n"


  /** The literal pieces around the fields of a prompt template shaped like
      `PROMPT_TEMPLATE`: head, `{max_words}`, middle, `{text}`, tail. */
  datatype PromptLayout = PromptLayout(head: string, middle: string, tail: string)

  /** The tokens of a template with that shape. */
  function PromptTokens(l: PromptLayout): seq<Token>
  {
    [Text(l.head), Field("max_words"), Text(l.middle), Field("text"), Text(l.tail)]
  }

  /** The prompt for a word limit and a text (see PromptFormat). */
  function PromptDocument(l: PromptLayout, maxWords: string, text: string): string
  {
    l.head + maxWords + l.middle + text + l.tail
  }

  const Prompt: PromptLayout := PromptLayout(PromptHead, PromptMiddle, PromptTail)

  const PromptTemplate: seq<Token> := PromptTokens(Prompt)

  /** `PROMPT_TEMPLATE` as a format string. */
  const PromptTemplateText: string := Source(PromptTemplate)

  /** What the `__main__` block reads from the configuration: the title and the
      two templates. */
  datatype Settings = Settings(title: string, email: EmailLayout, prompt: PromptLayout)

  /** The configuration when the environment does not set `TITLE`. */
  const Defaults: Settings := Settings(DefaultTitle, Email, Prompt)

  // One lemma per field name keeps each proof about a literal small.
  lemma TitleNameValid() ensures ValidName("title") { LowerNameValid("title"); }
  lemma SummaryNameValid() ensures ValidName("summary") { LowerNameValid("summary"); }
  lemma MaxWordsNameValid() ensures ValidName("max_words") { LowerNameValid("max_words"); }
  lemma TextNameValid() ensures ValidName("text") { LowerNameValid("text"); }

  /** The field names the two templates use are plain keyword names. */
  lemma FieldNamesValid()
    ensures ValidName("title") && ValidName("summary") && ValidName("max_words") && ValidName("text")
  {
    TitleNameValid();
    SummaryNameValid();
    MaxWordsNameValid();
    TextNameValid();
  }

  /** Rendering a literal token puts its text in front of the rest. */
  lemma RenderText(a: string, rest: seq<Token>, args: map<string, string>)
    ensures Render([Text(a)] + rest, args) == Prepend(a, Render(rest, args))
  {
    assert ([Text(a)] + rest)[1..] == rest;
  }

  /** Rendering a field that was passed puts its argument in front of the rest. */
  lemma RenderField(f: string, rest: seq<Token>, args: map<string, string>)
    requires IsKeyword(f) && f in args
    ensures Render([Field(f)] + rest, args) == Prepend(args[f], Render(rest, args))
  {
    assert ([Field(f)] + rest)[1..] == rest;
  }

  /** Rendering text, field, text, field, text: the shape of the prompt template. */
  lemma RenderFive(a: string, f: string, b: string, g: string, c: string, args: map<string, string>)
    requires IsKeyword(f) && IsKeyword(g) && f in args && g in args
    ensures Render([Text(a), Field(f), Text(b), Field(g), Text(c)], args)
            == Ok(a + args[f] + b + args[g] + c)
  {
    var t5 := [Text(c)];
    var t4 := [Field(g)] + t5;
    var t3 := [Text(b)] + t4;
    var t2 := [Field(f)] + t3;
    var t1 := [Text(a)] + t2;
    RenderText(c, [], args);
    assert t5 == [Text(c)] + [];
    assert Render(t5, args) == Ok(c) by { assert c + [] == c; }
    RenderField(g, t5, args);
    RenderText(b, t4, args);
    RenderField(f, t3, args);
    RenderText(a, t2, args);
    assert a + (args[f] + (b + (args[g] + c))) == a + args[f] + b + args[g] + c;
    assert t1 == [Text(a), Field(f), Text(b), Field(g), Text(c)];
  }

  /** A piece of literal text followed by one field holds that field once. */
  lemma PairFieldCount(a: string, f: string, name: string)
    ensures FieldCount([Text(a), Field(f)], name) == if f == name then 1 else 0
  {
    var ts := [Text(a), Field(f)];
    assert ts[1..] == [Field(f)] && [Field(f)][1..] == [];
    assert FieldCount([Field(f)], name) == (if Field(f) == Field(name) then 1 else 0) + FieldCount([], name);
    assert FieldCount(ts, name) == 0 + FieldCount([Field(f)], name);
  }

  /** Field counts of the email template's shape, for any literal pieces. */
  lemma SevenFieldCount(a: string, b: string, c: string, d: string, name: string)
    ensures FieldCount([Text(a), Field("title"), Text(b), Field("summary"), Text(c), Field("title"), Text(d)], name)
            == (if name == "title" then 2 else if name == "summary" then 1 else 0)
  {
    var p1 := [Text(a), Field("title")];
    var p2 := [Text(b), Field("summary")];
    var p3 := [Text(c), Field("title")];
    var p4 := [Text(d)];
    assert [Text(a), Field("title"), Text(b), Field("summary"), Text(c), Field("title"), Text(d)]
           == p1 + (p2 + (p3 + p4));
    FieldCountAppend(p1, p2 + (p3 + p4), name);
    FieldCountAppend(p2, p3 + p4, name);
    FieldCountAppend(p3, p4, name);
    PairFieldCount(a, "title", name);
    PairFieldCount(b, "summary", name);
    PairFieldCount(c, "title", name);
    assert FieldCount(p4, name) == 0 by { assert p4[1..] == []; }
    assert "summary" != "title";
  }

  /** A template of the email shape has `{title}` twice, `{summary}` once and no
      other field, whatever its literal text; `EMAIL_TEMPLATE` is one of them. */
  lemma EmailTemplateFields(l: EmailLayout)
    ensures ValidTokens(EmailTokens(l))
    ensures FieldCount(EmailTokens(l), "title") == 2
    ensures FieldCount(EmailTokens(l), "summary") == 1
    ensures forall k :: 0 <= k < |EmailTokens(l)| && EmailTokens(l)[k].Field? ==>
              EmailTokens(l)[k].name in {"title", "summary"}
  {
    FieldNamesValid();
    SevenFieldCount(l.head, l.upper, l.lower, l.tail, "title");
    SevenFieldCount(l.head, l.upper, l.lower, l.tail, "summary");
  }

  /** Rendering the email template's shape, for any literal pieces. */
  lemma RenderSeven(a: string, b: string, c: string, d: string, title: string, summary: string)
    ensures Render([Text(a), Field("title"), Text(b), Field("summary"), Text(c), Field("title"), Text(d)],
                   map["summary" := summary, "title" := title])
            == Ok(a + title + b + summary + c + title + d)
  {
    FieldNamesValid();
    var args := map["summary" := summary, "title" := title];
    var front := [Text(a), Field("title"), Text(b), Field("summary"), Text(c)];
    var back := [Field("title")] + [Text(d)];
    assert [Text(a), Field("title"), Text(b), Field("summary"), Text(c), Field("title"), Text(d)] == front + back;
    RenderAppend(front, back, args);
    RenderFive(a, "title", b, "summary", c, args);
    assert back[1..] == [Text(d)] && [Text(d)][1..] == [];
    assert Render([Text(d)], args) == Ok(d) by { assert d + [] == d; }
    assert Render(back, args) == Ok(title + d);
    assert (a + title + b + summary + c) + (title + d) == a + title + b + summary + c + title + d;
  }

  /** `EMAIL_TEMPLATE.format(summary=summary, title=title)`, for any template of its
      shape: both `{title}` slots hold the title, the `{summary}` slot holds the
      summary, each inserted as it is, and everything else is the template's own
      text with its doubled braces collapsed. The format never fails. */
  lemma EmailFormat(l: EmailLayout, title: string, summary: string)
    ensures Format(Source(EmailTokens(l)), map["summary" := summary, "title" := title])
            == Ok(EmailDocument(l, title, summary))
  {
    EmailTemplateFields(l);
    FormatSource(EmailTokens(l), map["summary" := summary, "title" := title]);
    RenderSeven(l.head, l.upper, l.lower, l.tail, title, summary);
  }

  /** A template of the prompt shape uses only `{max_words}` and `{text}`. */
  lemma PromptTemplateFields(l: PromptLayout)
    ensures ValidTokens(PromptTokens(l))
    ensures forall k :: 0 <= k < |PromptTokens(l)| && PromptTokens(l)[k].Field? ==>
              PromptTokens(l)[k].name in {"max_words", "text"}
  {
    FieldNamesValid();
  }

  /** `PROMPT_TEMPLATE.format(max_words=..., text=...)`, for any template of its
      shape: the word limit and the feed text are inserted as they are into the
      fixed instructions, and the format never fails. */
  lemma PromptFormat(l: PromptLayout, maxWords: string, text: string)
    ensures Format(Source(PromptTokens(l)), map["max_words" := maxWords, "text" := text])
            == Ok(PromptDocument(l, maxWords, text))
  {
    FieldNamesValid();
    var args := map["max_words" := maxWords, "text" := text];
    PromptTemplateFields(l);
    FormatSource(PromptTokens(l), args);
    RenderFive(l.head, "max_words", l.middle, "text", l.tail, args);
  }

  /** The repository's own templates: `EMAIL_TEMPLATE.format(summary=..., title=...)`
      and `PROMPT_TEMPLATE.format(max_words=..., text=...)` never raise and give the
      documents of the two layouts of config.py. */
  lemma DefaultTemplatesFormat(title: string, summary: string, maxWords: string, text: string)
    ensures Format(EmailTemplateText, map["summary" := summary, "title" := title])
            == Ok(EmailDocument(Email, title, summary))
    ensures Format(PromptTemplateText, map["max_words" := maxWords, "text" := text])
            == Ok(PromptDocument(Prompt, maxWords, text))
  {
    EmailFormat(Email, title, summary);
    PromptFormat(Prompt, maxWords, text);
  }
}
