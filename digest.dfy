/** The `__main__` block of briefme/main.py and `summarise_text`: fetch the feeds,
    skip the summariser when the text is blank, otherwise summarise it once and fill
    the email template, then hand subject and body to `send_email`.

    The summarisation service is the parameter `complete`: given the prompt it
    answers `Some(reply)`, or `None` when the API call raises. The feed parser is the
    parameter `parse`. A run is described by the texts handed to `summarise_text`
    and by how the block ends. The title and the two templates are read from a
    `Config.Settings` (`Config.Defaults` holds the repository's own), and both
    `.format` calls appear in their closed form, `Config.PromptDocument` and
    `Config.EmailDocument`, which Config.PromptFormat and Config.EmailFormat prove
    equal to formatting the template. */
module Digest {
  import opened Base
  import opened PyStr
  import PyFormat
  import Config
  import opened Feeds

  /** What the blank branch assigns to `summary`. */
  const Placeholder: string := "No new updates today."

  /** The default of `summarise_text`'s `max_words`. */
  const DefaultMaxWords: nat := 2000

  /** How the block ends: `send_email(subject, body)` is called, the name passed to
      it is unbound, or the summarisation service raised. */
  datatype Outcome = Sent(subject: string, body: string) | NameError(name: string) | ServiceFailed

  /** `summarised` lists, in order, the texts passed to `summarise_text`. */
  datatype Run = Run(summarised: seq<string>, outcome: Outcome)

  /** `str(n)` for a natural number: ASCII digits, no leading zero unless `n` is 0,
      and reading the digits back in base ten gives `n`. */
  function Decimal(n: nat): (r: string)
    ensures |r| >= 1
    ensures forall i :: 0 <= i < |r| ==> '0' <= r[i] <= '9'
    ensures r[0] == '0' ==> r == "0"
    ensures PyFormat.IsPositional(r) && PyFormat.IndexValue(r) == n
    decreases n
  {
    var last := [('0' as int + n % 10) as char];
    if n < 10 then
      assert last[..0] == [];
      last
    else
      var front := Decimal(n / 10);
      var r := front + last;
      assert r[..|front|] == front;
      assert r[0] == front[0];
      r
  }

  /** The prompt `summarise_text` sends: `PROMPT_TEMPLATE` formatted with the word
      limit and the text. */
  function PromptFor(prompt: Config.PromptLayout, text: string, maxWords: nat): string
  {
    Config.PromptDocument(prompt, Decimal(maxWords), text)
  }

  /** `summarise_text(text, max_words)`: formatting the prompt template with the
      word limit and the text does not raise, and the service is called once, on
      that formatted prompt; its reply is returned as it is, and a service error
      (`None`) is propagated. */
  function SummariseText(prompt: Config.PromptLayout, text: string, maxWords: nat,
                         complete: string -> Option<string>): (r: Option<string>)
    ensures var formatted := PyFormat.Render(Config.PromptTokens(prompt),
                                             map["max_words" := Decimal(maxWords), "text" := text]);
            formatted.Ok? && r == complete(formatted.value)
  {
    Config.FieldNamesValid();
    Config.RenderFive(prompt.head, "max_words", prompt.middle, "text", prompt.tail,
                      map["max_words" := Decimal(maxWords), "text" := text]);
    complete(PromptFor(prompt, text, maxWords))
  }

  /** The `__main__` block as written, from `raw_content` on. On a blank text only
      `summary` is assigned, so evaluating `send_email(TITLE, html_summary)` raises
      `NameError`: no email is sent and the summariser is not called. Otherwise the
      summariser is called exactly once, on the whole text, and its reply fills the
      `{summary}` slot of the email template while the title fills both `{title}`
      slots. */
  function DigestAsWritten(raw: string, cfg: Config.Settings, complete: string -> Option<string>): (run: Run)
    ensures IsBlank(raw) ==> run == Run([], NameError("html_summary"))
    ensures !IsBlank(raw) ==> run.summarised == [raw]
    ensures !IsBlank(raw) ==>
      var reply := complete(PromptFor(cfg.prompt, raw, DefaultMaxWords));
      run.outcome == if reply.Some? then Sent(cfg.title, Config.EmailDocument(cfg.email, cfg.title, reply.value)) else ServiceFailed
  {
    if Strip(raw) == [] then
      Run([], NameError("html_summary"))
    else
      match SummariseText(cfg.prompt, raw, DefaultMaxWords, complete)
      case None => Run([raw], ServiceFailed)
      case Some(summary) => Run([raw], Sent(cfg.title, Config.EmailDocument(cfg.email, cfg.title, summary)))
  }

  /** The block with the template fill applied to whichever `summary` was chosen.
      A blank text sends the placeholder in the template without calling the
      summariser; otherwise the run is the one written. It never ends in `NameError`. */
  function DigestCorrected(raw: string, cfg: Config.Settings, complete: string -> Option<string>): (run: Run)
    ensures IsBlank(raw) ==> run == Run([], Sent(cfg.title, Config.EmailDocument(cfg.email, cfg.title, Placeholder)))
    ensures !IsBlank(raw) ==> run == DigestAsWritten(raw, cfg, complete)
    ensures !run.outcome.NameError?
  {
    var blank := Strip(raw) == [];
    var summarised := if blank then [] else [raw];
    var summary := if blank then Some(Placeholder) else SummariseText(cfg.prompt, raw, DefaultMaxWords, complete);
    match summary
    case None => Run(summarised, ServiceFailed)
    case Some(s) => Run(summarised, Sent(cfg.title, Config.EmailDocument(cfg.email, cfg.title, s)))
  }

  /** One daily run: fetch with the default cap, then the corrected block. The
      summariser is skipped exactly when every considered entry has a blank title
      and summary, and is otherwise called once with the fetched text. */
  method DailyDigest(urls: seq<string>, cfg: Config.Settings, parse: string -> seq<Entry>,
                     complete: string -> Option<string>)
    returns (run: Run)
    ensures run == DigestCorrected(FetchText(Parsed(urls, parse), DefaultMaxItems), cfg, complete)
    ensures run.summarised == [] <==> ConsideredBlank(Parsed(urls, parse), DefaultMaxItems)
    ensures run.summarised != [] ==> run.summarised == [FetchText(Parsed(urls, parse), DefaultMaxItems)]
    ensures (run.outcome.Sent? && run.outcome.subject == cfg.title) || run.outcome == ServiceFailed
  {
    var raw := FetchRssContent(urls, DefaultMaxItems, parse);
    FetchBlank(Parsed(urls, parse), DefaultMaxItems);
    run := DigestCorrected(raw, cfg, complete);
  }

  /** The daily run of the repository as configured: the feeds of `RSS_FEEDS`, the
      title `TITLE` and both templates of config.py. */
  method DefaultDigest(parse: string -> seq<Entry>, complete: string -> Option<string>)
    returns (run: Run)
    ensures run == DigestCorrected(FetchText(Parsed(Config.RssFeeds, parse), DefaultMaxItems), Config.Defaults, complete)
    ensures (run.outcome.Sent? && run.outcome.subject == Config.DefaultTitle) || run.outcome == ServiceFailed
  {
    run := DailyDigest(Config.RssFeeds, Config.Defaults, parse, complete);
  }

  /** Whenever every considered entry is blank, including when there are no feeds
      or no entries, the block as written ends in `NameError` before any email is
      sent, and the summariser is not called. */
  lemma BlankFeedsRaiseNameError(feeds: seq<seq<Entry>>, cfg: Config.Settings, complete: string -> Option<string>)
    requires ConsideredBlank(feeds, DefaultMaxItems)
    ensures DigestAsWritten(FetchText(feeds, DefaultMaxItems), cfg, complete) == Run([], NameError("html_summary"))
  {
    FetchBlank(feeds, DefaultMaxItems);
  }

  /** A concrete input that shows the defect: one feed whose only entry has neither
      title nor summary. The text is a single newline; the block as written sends
      nothing, the corrected block sends the placeholder. */
  lemma UntitledEntryExample(cfg: Config.Settings, complete: string -> Option<string>)
    ensures FetchText([[Entry(None, None)]], DefaultMaxItems) == "\n"
    ensures DigestAsWritten("\n", cfg, complete).outcome == NameError("html_summary")
    ensures DigestCorrected("\n", cfg, complete).outcome == Sent(cfg.title, Config.EmailDocument(cfg.email, cfg.title, Placeholder))
  {
    var e := Entry(None, None);
    var feeds := [[e]];
    assert feeds[1..] == [];
    assert Title(e) == "" && Summary(e) == "";
    assert Piece(e) == "\n";
    assert SliceTo([e], DefaultMaxItems) == [e];
    var head := FeedPieces(feeds[0], DefaultMaxItems);
    assert |head| == 1 && head[0] == "\n";
    assert head == ["\n"];
    assert Pieces(feeds, DefaultMaxItems) == ["\n"];
    assert IsBlank("\n") by { assert IsSpace("\n"[0]); }
  }

  /** The word limit is written into the prompt as `2000`. */
  lemma DefaultWordLimit()
    ensures Decimal(DefaultMaxWords) == "2000"
  {
    assert Decimal(2) == "2";
    assert Decimal(20) == "20";
    assert Decimal(200) == "200";
  }
}
