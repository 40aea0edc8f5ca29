# briefme daily digest — Dafny model

briefme runs once a day. It does four things:

- It reads a fixed list of RSS feeds.
- It keeps the first five entries of each feed and renders each one as its title, a newline and its summary.
- It joins these pieces with blank lines and asks a language-model service to summarise the text in at most 2000 words.
- It puts the summary into an HTML email template and sends the result with the configured title as subject.

If the fetched text is whitespace only, the script does not call the service.

This project models that pipeline as follows:

- `fetch_rss_content` is an imperative method with nested loops (`Feeds.FetchRssContent`). It is proved against the specification function `Feeds.FetchText`.
- The `__main__` block and `summarise_text` are pure functions over a run (`Digest`).
- The Python builtins the pipeline relies on are written out:
  - `str.strip` and `str.join` (`PyStr`);
  - `str.format` with keyword arguments, including `{{`/`}}` escapes and its `ValueError`, `KeyError` and `IndexError` cases (`PyFormat`).
- The configuration constants are written out: the feed list, the default title and both templates (`Config`).
- A template is described by its shape, meaning its fields in order, plus the literal text between them.
- The formatting facts are proved for every template of that shape, so they hold for `EMAIL_TEMPLATE` and `PROMPT_TEMPLATE` in particular.
- The `__main__` block reads the title and the templates from a `Config.Settings` value. `Config.Defaults` holds the repository's values.

The feed parser and the summarisation service are parameters:

- `parse(url)` gives the entries of a feed.
- `complete(prompt)` gives `Some(reply)`, or `None` when the API call raises.

The proofs cover these properties:

- The fetched text lists the pieces in feed order and then entry order, with at most `max_items` per feed.
- The fetched text is empty or blank exactly in the stated cases.
- Both template format strings format without error, and the result puts each argument verbatim into every slot.
- The script as written raises `NameError` whenever the fetched text is blank (see Findings). The corrected run never does.

## Model

| member | source | states |
|---|---|---|
| Feeds.FetchRssContent | briefme/main.py:24-33 | the loop over feeds and their entries returns exactly `FetchText` of the parsed feeds: the pieces of every feed in URL order, each feed cut to `max_items` entries, joined by a blank line |
| Feeds.SliceTo | briefme/main.py:29 | `entries[:max_items]` is a prefix of the entries, of length `min(stop, len)` for a non-negative stop and `max(0, len + stop)` for a negative one |
| Feeds.FeedPieces | briefme/main.py:29-32 | one feed contributes exactly its considered entries, piece `i` being `title + "\n" + summary` of entry `i`, never more than `max_items` of them |
| Feeds.Title | briefme/main.py:30 | `entry.get("title", "")` is the entry's title when it has one and the empty text otherwise; with Feeds.MissingFields and Feeds.PieceBlank this fixes what a missing title contributes |
| Feeds.Summary | briefme/main.py:31 | `entry.get("summary", "")` is the entry's summary when it has one and the empty text otherwise (partners Feeds.MissingFields and Feeds.PieceBlank) |
| Feeds.Piece | briefme/main.py:32 | a piece is the title, one newline, then the summary: it splits back into exactly those three parts (partners Feeds.PieceBlank and Feeds.PieceNotEmpty) |
| Feeds.Parsed | briefme/main.py:26-27 | feed `k` of the result is `parse(urls[k])`, one feed per URL |
| Feeds.ParsedAppend | briefme/main.py:26-27 | parsing two runs of URLs gives the feeds of the first run followed by those of the second: URL order is kept |
| Feeds.PiecesAppend | briefme/main.py:26-32 | the pieces of two runs of feeds are those of the first followed by those of the second: no sorting, merging or dropping across feeds |
| Feeds.PieceCount | briefme/main.py:25-32 | the number of pieces is the sum over feeds of `min(len(entries), max_items)` |
| Feeds.PieceAt | briefme/main.py:26-32 | every considered entry's piece is in the list, right after the pieces of earlier feeds and of earlier entries of its own feed |
| Feeds.PieceNotEmpty | briefme/main.py:32 | every piece is non-empty and has the newline right after the title |
| Feeds.PieceBlank | briefme/main.py:30-32 | a piece is whitespace only exactly when both its title and its summary are |
| Feeds.MissingFields | briefme/main.py:30-31 | a missing title or summary counts as the empty text, so an entry with neither yields a single newline |
| Feeds.PiecesEmpty | briefme/main.py:25-32 | no pieces exactly when no feed has a considered entry |
| Feeds.PiecesNonEmpty | briefme/main.py:32 | no piece is the empty text |
| Feeds.PiecesBlank | briefme/main.py:25-32 | every piece is blank exactly when every considered entry has a blank title and summary |
| Feeds.AllBlankConcat | briefme/main.py:32 | the pieces of two lists are all blank exactly when those of each list are |
| Feeds.ConsideredBlankCons | briefme/main.py:26-29 | blank considered entries in all feeds means blank considered entries in the first feed and in the rest |
| Feeds.FetchEmpty | briefme/main.py:33 | the returned text is empty exactly when no entry is considered (no feeds, no entries, or a cap that keeps none) |
| Feeds.FetchBlank | briefme/main.py:33 | the returned text is whitespace only exactly when every considered entry has a blank title and summary |
| PyStr.IsSpace | briefme/main.py:64 | `c.isspace()`; on ASCII it holds exactly for tab, line feed, vertical tab, form feed, carriage return, the four separators `\x1c`-`\x1f` and space (its partner, PyStr.Strip, removes exactly these characters at either end) |
| PyStr.LeadingSpace | briefme/main.py:64 | counts the leading whitespace: what it covers is blank, and the next character is not whitespace |
| PyStr.TrailingSpace | briefme/main.py:64 | counts the trailing whitespace: what it covers is blank, and the character before it is not whitespace |
| PyStr.Strip | briefme/main.py:64 | `strip()` is empty exactly when the text is blank, otherwise starts and ends with non-whitespace, and is a slice of the text with only whitespace cut off either end |
| PyStr.Join | briefme/main.py:33 | `sep.join` of no parts is empty, and otherwise its length is the parts' lengths plus one separator between each pair |
| PyStr.JoinPart | briefme/main.py:33 | every part appears verbatim at its offset in the joined text |
| PyStr.JoinSeparator | briefme/main.py:33 | between two consecutive parts the joined text holds exactly one separator, and the next part starts right after it |
| PyStr.JoinAppend | briefme/main.py:33 | joining two non-empty lists is joining each with one separator between them |
| PyStr.BlankConcat | briefme/main.py:64 | a concatenation is blank exactly when both halves are |
| PyStr.JoinBlank | briefme/main.py:33 | with the blank separator, the joined text is blank exactly when every part is |
| PyFormat.FieldLength | briefme/main.py:68 | the field text after `{` runs up to the next brace and contains none |
| PyFormat.Lookup | briefme/main.py:38 | a field name yields its keyword argument exactly when its leading digits do not overflow, it is not positional, and it was passed. If the leading Unicode decimal digits, read one at a time, pass `PY_SSIZE_T_MAX`, it fails with `ValueError`, whatever follows them. Otherwise a positional name (empty, or digits only) fails with `IndexError`, and an absent name fails with `KeyError` |
| PyFormat.NinesOverflow | briefme/main.py:38 | a run of `k` nines in front of a rest overflows exactly when `10^k - 1` passes `PY_SSIZE_T_MAX` or the scan overflows later in the rest |
| PyFormat.LeadingOverflowExample | briefme/main.py:38 | `{99999999999999999999a}` raises `ValueError`, although the name is not positional |
| PyFormat.LowerNameValid | briefme/main.py:38 | a non-empty name of lower-case letters and underscores is a valid keyword field name |
| PyFormat.NinesLookup | briefme/main.py:38 | a field of `k` nines raises `ValueError` exactly when `10^k - 1` is past `PY_SSIZE_T_MAX`, and `IndexError` otherwise |
| PyFormat.IndexOverflowExample | briefme/main.py:38 | `{99999999999999999999}` raises `ValueError` |
| PyFormat.IndexInRangeExample | briefme/main.py:38 | a field of eighteen nines still reads as an index and raises `IndexError` |
| PyFormat.Format | briefme/main.py:68 | a format string without braces formats to itself; its partner PyFormat.FormatSource proves that any format string written from text and fields formats to what the tokens render to |
| PyFormat.Escape | briefme/config.py:51-60 | writing literal text into a format string never shortens it |
| PyFormat.PrependPrepend | briefme/main.py:68 | prefixing twice is prefixing with the concatenation, and errors stay errors |
| PyFormat.FormatDoubled | briefme/config.py:51-60 | a doubled brace formats to one brace |
| PyFormat.FormatPlain | briefme/config.py:45-50 | any other literal character formats to itself |
| PyFormat.FormatEscape | briefme/config.py:51-60 | escaped literal text (every brace doubled) formats back to the original text |
| PyFormat.FormatField | briefme/config.py:68 | `{name}` formats to the argument's value, or to the lookup's error |
| PyFormat.FormatSource | briefme/main.py:68 | a format string written from text and named fields formats to what the tokens render to |
| PyFormat.RenderOk | briefme/main.py:68 | rendering succeeds exactly when every field used was passed as an argument |
| PyFormat.RenderAppend | briefme/main.py:68 | rendering a concatenation renders the first part and then the second, failing on the first error |
| PyFormat.FieldCountAppend | briefme/config.py:44-75 | field occurrences add up over concatenation; Config.SevenFieldCount counts the email template's fields piece by piece with it |
| Config.FieldNamesValid | briefme/config.py:3-70 | the field names are valid keyword names: `{max_words}` and `{text}` (line 3), `{title}` and `{summary}` (lines 49, 68 and 70). They have no braces, no `:`, `!`, `.` or `[`, and no digit prefix |
| Config.RenderFive | briefme/config.py:2-19 | the prompt's text, field, text, field, text shape renders to the pieces with the arguments in the two slots |
| Config.SevenFieldCount | briefme/config.py:44-75 | the email template's shape has two `{title}` fields and one `{summary}` field |
| Config.EmailTemplateFields | briefme/config.py:44-75 | a template shaped like `EMAIL_TEMPLATE` (so `EMAIL_TEMPLATE` itself) is well formed, has `{title}` twice, `{summary}` once and no other field |
| Config.RenderSeven | briefme/config.py:44-75 | the email template's shape renders with the title in both title slots and the summary in its slot |
| Config.EmailFormat | briefme/main.py:68 | `EMAIL_TEMPLATE.format(summary=..., title=...)` never raises. Its result is the template's text with doubled braces collapsed, the title verbatim in both slots and the summary verbatim in its slot |
| Config.PromptTemplateFields | briefme/config.py:2-19 | a template shaped like `PROMPT_TEMPLATE` is well formed and uses only `{max_words}` and `{text}` |
| Config.PromptFormat | briefme/main.py:38 | `PROMPT_TEMPLATE.format(max_words=..., text=...)` never raises, and gives the instructions with the word limit and the feed text inserted verbatim |
| Config.DefaultTemplatesFormat | briefme/config.py:2-75 | the repository's own `EMAIL_TEMPLATE` and `PROMPT_TEMPLATE` format without error into the documents of their layouts, for any title, summary, word limit and text |
| Digest.SummariseText | briefme/main.py:36-46 | filling the prompt template with the word limit and the text succeeds. The service is called once, on that prompt, and its reply or failure is the result |
| Digest.Decimal | briefme/main.py:38 | `str(max_words)` is a non-empty run of ASCII digits that starts with `0` only when it is exactly `"0"`, and reading it back in base ten (PyFormat.IndexValue) gives the number; together these fix the text for every number |
| Digest.DefaultWordLimit | briefme/main.py:36 | the default word limit appears in the prompt as `2000` |
| Digest.DigestAsWritten | briefme/main.py:63-70 | blank text: `NameError` on `html_summary` and no service call. Otherwise: exactly one service call on the whole text, and on success the email is sent with the title as subject and the filled template as body; a service failure sends nothing |
| Digest.DigestCorrected | briefme/main.py:63-70 | blank text sends the template filled with the placeholder, without calling the service; otherwise the run is the one written; a run never ends in `NameError` |
| Digest.DailyDigest | briefme/main.py:61-70 | the corrected run: the fetch with the default cap followed by Digest.DigestCorrected (the block as written is Digest.DigestAsWritten, and Digest.BlankFeedsRaiseNameError shows where it differs). It skips the service exactly when every considered entry is blank, otherwise passes the fetched text to it once, and sends with the configured title as subject unless the service fails |
| Digest.DefaultDigest | briefme/main.py:61-70 | the corrected run on the repository's configuration: the `RSS_FEEDS` list, `TITLE` and both templates; it sends with subject `TITLE` unless the service fails |
| Digest.BlankFeedsRaiseNameError | briefme/main.py:63-70 | whenever every considered entry is blank (no feeds, no entries, or whitespace-only entries), the block as written raises `NameError` |
| Digest.UntitledEntryExample | briefme/main.py:64-70 | one feed with one entry lacking both fields gives the text `"\n"`; the block as written raises `NameError`, and the corrected one sends the placeholder |

## Left out

- `feedparser.parse` is not modelled: network access and feed parsing are the parameter `parse`, and an entry is reduced to its optional `title` and `summary`.
- The OpenAI client is the parameter `complete`. The model name, `max_tokens`, the API key and the response's `choices[0].message.content` path are not modelled.
- A reply whose content is `None` is modelled as a reply like any other text.
- `send_email` is reduced to the `Sent(subject, body)` outcome. This leaves out the MIME envelope, the sender and recipient, SMTP over TLS, login, and delivery failures.
- Logging (briefme/log_config.py) and the final `print` are output only and are left out.
- Loading the environment and `.env` is left out: `TITLE` is the `title` of the `Config.Settings` passed in (`Config.DefaultTitle` in `Config.Defaults`), and the SMTP and API settings are not used by the model.
- `str.format` is modelled only for plain field names. Conversions (`!r`), format specs (`:>10`), and attribute or index access in fields are not modelled, since neither template uses them. `PyFormat.ValidName` therefore excludes names containing `:`, `!`, `.` or `[`.
- Digest.SummariseText: the `max_words` argument is a natural number; other argument types are not modelled.
- Digest.Decimal: does not model CPython's limit of 4300 digits on `str` of an integer, which the word limit of 2000 is far below.
- PyFormat.IsDecimalDigit and PyStr.IsSpace follow the Unicode 15 character tables; other Unicode versions are not modelled.
- PyFormat.Lookup: the largest readable argument index is `PY_SSIZE_T_MAX` of a 64-bit platform; 32-bit platforms are not modelled.
- PyFormat.DigitValue: the digit values of non-ASCII digits follow from how the Unicode 15 digit runs are laid out; the model does not prove that they are below 10.
- The tests under tests/ describe code the repository does not contain. This includes an `RSSItem` record, an age filter on entries and a different service API. The model follows `briefme/main.py` as written.

## Findings

| source | as written | input that shows it | evidently intended | confidence | as-written member | corrected member |
|---|---|---|---|---|---|---|
| briefme/main.py:64-70 | when the fetched text is blank, only `summary` is assigned, and `send_email(TITLE, html_summary)` then raises `NameError` because `html_summary` was never bound | one feed whose single entry has no title and no summary (the text is `"\n"`); also no feeds or no entries at all | fill the template with the placeholder summary and send it | high; not executed | Digest.DigestAsWritten | Digest.DigestCorrected |
