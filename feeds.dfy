/** `fetch_rss_content` of briefme/main.py: for each feed URL in order, the first
    `max_items` parsed entries, each rendered as `title + "\n" + summary`, all joined
    with a blank line. */
module Feeds {
  import opened Base
  import opened PyStr

  /** One parsed feed entry. A field is `None` when the entry has no such key. */
  datatype Entry = Entry(title: Option<string>, summary: Option<string>)

  /** The text put between two entries. */
  const Separator: string := "\n\n"

  /** The default of `max_items`. */
  const DefaultMaxItems: int := 5

  /** `entry.get("title", "")`: the title when the entry has one, else the empty text. */
  function Title(e: Entry): (r: string)
    ensures e.title.Some? ==> r == e.title.value
    ensures e.title.None? ==> r == ""
  {
    GetOr(e.title, "")
  }

  /** `entry.get("summary", "")`: the summary when the entry has one, else the empty text. */
  function Summary(e: Entry): (r: string)
    ensures e.summary.Some? ==> r == e.summary.value
    ensures e.summary.None? ==> r == ""
  {
    GetOr(e.summary, "")
  }

  /** `f"{title}\n{summary}"`: what one entry contributes. Its first `|title|`
      characters are the title, then comes one newline, then the summary. */
  function Piece(e: Entry): (r: string)
    ensures |r| == |Title(e)| + 1 + |Summary(e)|
    ensures r[..|Title(e)|] == Title(e) && r[|Title(e)|] == '\n' && r[|Title(e)| + 1..] == Summary(e)
  {
    Title(e) + "\n" + Summary(e)
  }

  /** Python's `s[:stop]`: a prefix of `s`; a negative stop counts from the end. */
  function SliceTo<T>(s: seq<T>, stop: int): (r: seq<T>)
    ensures r <= s
    ensures 0 <= stop ==> |r| == Min(stop, |s|)
    ensures stop < 0 ==> |r| == Max(0, |s| + stop)
  {
    if stop >= 0 then (if stop <= |s| then s[..stop] else s)
    else if |s| + stop >= 0 then s[..|s| + stop]
    else []
  }

  /** The pieces one feed contributes: its considered entries, rendered, in order. */
  function FeedPieces(entries: seq<Entry>, maxItems: int): (r: seq<string>)
    ensures |r| == |SliceTo(entries, maxItems)|
    ensures 0 <= maxItems ==> |r| <= maxItems
    ensures forall i :: 0 <= i < |r| ==> r[i] == Piece(entries[i])
  {
    var considered := SliceTo(entries, maxItems);
    seq(|considered|, i requires 0 <= i < |considered| => Piece(considered[i]))
  }

  /** The pieces of all feeds: feed after feed, nothing sorted or dropped. */
  function Pieces(feeds: seq<seq<Entry>>, maxItems: int): seq<string>
  {
    if feeds == [] then [] else FeedPieces(feeds[0], maxItems) + Pieces(feeds[1..], maxItems)
  }

  /** The value `fetch_rss_content` returns for the given parsed feeds. */
  function FetchText(feeds: seq<seq<Entry>>, maxItems: int): string
  {
    Join(Separator, Pieces(feeds, maxItems))
  }

  /** The entries the feed parser returns for each URL, in URL order. */
  function Parsed(urls: seq<string>, parse: string -> seq<Entry>): (feeds: seq<seq<Entry>>)
    ensures |feeds| == |urls|
    ensures forall k :: 0 <= k < |urls| ==> feeds[k] == parse(urls[k])
  {
    seq(|urls|, k requires 0 <= k < |urls| => parse(urls[k]))
  }

  /** Parsing a list of URLs made of two runs parses the first run, then the second. */
  lemma ParsedAppend(a: seq<string>, b: seq<string>, parse: string -> seq<Entry>)
    ensures Parsed(a + b, parse) == Parsed(a, parse) + Parsed(b, parse)
  {
    assert forall k :: 0 <= k < |a| ==> (a + b)[k] == a[k];
    assert forall k :: 0 <= k < |b| ==> (a + b)[|a| + k] == b[k];
  }

  /** `fetch_rss_content(feeds, max_items)`, with `feedparser.parse(url).entries`
      given as `parse(url)`. */
  method FetchRssContent(urls: seq<string>, maxItems: int, parse: string -> seq<Entry>)
    returns (text: string)
    ensures text == FetchText(Parsed(urls, parse), maxItems)
  {
    ghost var feeds := Parsed(urls, parse);
    var texts: seq<string> := [];
    for u := 0 to |urls|
      invariant texts == Pieces(feeds[..u], maxItems)
    {
      var entries := parse(urls[u]);
      var considered := SliceTo(entries, maxItems);
      ghost var before := texts;
      for j := 0 to |considered|
        invariant texts == before + FeedPieces(entries, maxItems)[..j]
      {
        var entry := considered[j];
        var title := GetOr(entry.title, "");
        var summary := GetOr(entry.summary, "");
        FeedPiecesStep(entries, maxItems, j);
        texts := texts + [title + "\n" + summary];
      }
      assert FeedPieces(entries, maxItems)[..|considered|] == FeedPieces(entries, maxItems);
      PiecesStep(feeds, u, maxItems);
    }
    assert feeds[..|urls|] == feeds;
    text := Join(Separator, texts);
  }

  /** The pieces of a feed's first `j + 1` considered entries extend those of the
      first `j` by the piece of entry `j`. */
  lemma FeedPiecesStep(entries: seq<Entry>, maxItems: int, j: int)
    requires 0 <= j < |SliceTo(entries, maxItems)|
    ensures var e := SliceTo(entries, maxItems)[j];
      FeedPieces(entries, maxItems)[..j + 1] ==
        FeedPieces(entries, maxItems)[..j] + [GetOr(e.title, "") + "\n" + GetOr(e.summary, "")]
  {
    var r := FeedPieces(entries, maxItems);
    assert r[..j + 1] == r[..j] + [r[j]];
  }

  /** The pieces of the first `u + 1` feeds extend those of the first `u` by the
      pieces of feed `u`. */
  lemma PiecesStep(feeds: seq<seq<Entry>>, u: int, maxItems: int)
    requires 0 <= u < |feeds|
    ensures Pieces(feeds[..u + 1], maxItems) == Pieces(feeds[..u], maxItems) + FeedPieces(feeds[u], maxItems)
  {
    PiecesAppend(feeds[..u], [feeds[u]], maxItems);
    assert feeds[..u + 1] == feeds[..u] + [feeds[u]];
    assert Pieces([feeds[u]], maxItems) == FeedPieces(feeds[u], maxItems) by {
      assert [feeds[u]][1..] == [];
    }
  }

  /** Feed order: the pieces of two runs of feeds are those of the first run
      followed by those of the second. */
  lemma {:induction false} PiecesAppend(a: seq<seq<Entry>>, b: seq<seq<Entry>>, maxItems: int)
    ensures Pieces(a + b, maxItems) == Pieces(a, maxItems) + Pieces(b, maxItems)
  {
    if a == [] {
      assert a + b == b;
    } else {
      assert (a + b)[0] == a[0];
      assert (a + b)[1..] == a[1..] + b;
      PiecesAppend(a[1..], b, maxItems);
    }
  }

  /** The sum over feeds of `min(len(entries), max_items)`. */
  function CappedTotal(feeds: seq<seq<Entry>>, maxItems: nat): nat
  {
    if feeds == [] then 0 else Min(|feeds[0]|, maxItems) + CappedTotal(feeds[1..], maxItems)
  }

  /** The number of pieces is the sum over feeds of `min(len(entries), max_items)`. */
  lemma {:induction false} PieceCount(feeds: seq<seq<Entry>>, maxItems: nat)
    ensures |Pieces(feeds, maxItems)| == CappedTotal(feeds, maxItems)
  {
    if feeds != [] {
      PieceCount(feeds[1..], maxItems);
    }
  }

  /** Every considered entry `i` of feed `k` has its piece in the list, right after
      the pieces of the feeds before `k` and of the entries before `i`: feed order
      first, then entry order, with no sorting or merging. */
  lemma {:induction false} PieceAt(feeds: seq<seq<Entry>>, maxItems: int, k: nat, i: nat)
    requires k < |feeds| && i < |SliceTo(feeds[k], maxItems)|
    ensures |Pieces(feeds[..k], maxItems)| + i < |Pieces(feeds, maxItems)|
    ensures Pieces(feeds, maxItems)[|Pieces(feeds[..k], maxItems)| + i] == Piece(feeds[k][i])
  {
    assert feeds == feeds[..k] + ([feeds[k]] + feeds[k + 1..]);
    PiecesAppend(feeds[..k], [feeds[k]] + feeds[k + 1..], maxItems);
    assert ([feeds[k]] + feeds[k + 1..])[0] == feeds[k];
    assert ([feeds[k]] + feeds[k + 1..])[1..] == feeds[k + 1..];
  }

  /** Every piece contains the newline between title and summary. */
  lemma PieceNotEmpty(e: Entry)
    ensures Piece(e) != [] && Piece(e)[|Title(e)|] == '\n'
  {
  }

  /** An entry's piece is blank exactly when its title and summary are. */
  lemma PieceBlank(e: Entry)
    ensures IsBlank(Piece(e)) <==> IsBlank(Title(e)) && IsBlank(Summary(e))
  {
    BlankConcat(Title(e), "\n");
    BlankConcat(Title(e) + "\n", Summary(e));
  }

  /** A missing title or summary contributes the empty text on its side of the newline. */
  lemma MissingFields(e: Entry)
    ensures e.title.None? ==> Piece(e) == "\n" + Summary(e)
    ensures e.summary.None? ==> Piece(e) == Title(e) + "\n"
    ensures e.title.None? && e.summary.None? ==> Piece(e) == "\n"
  {
  }

  /** No piece is considered from any feed. */
  predicate NoneConsidered(feeds: seq<seq<Entry>>, maxItems: int)
  {
    forall k :: 0 <= k < |feeds| ==> SliceTo(feeds[k], maxItems) == []
  }

  /** Every considered entry has a blank title and a blank summary (a missing
      field counts as the empty text). */
  predicate ConsideredBlank(feeds: seq<seq<Entry>>, maxItems: int)
  {
    forall k, i :: 0 <= k < |feeds| && 0 <= i < |SliceTo(feeds[k], maxItems)| ==>
      IsBlank(Title(feeds[k][i])) && IsBlank(Summary(feeds[k][i]))
  }

  predicate AllBlank(parts: seq<string>)
  {
    forall j :: 0 <= j < |parts| ==> IsBlank(parts[j])
  }

  lemma {:induction false} PiecesEmpty(feeds: seq<seq<Entry>>, maxItems: int)
    ensures Pieces(feeds, maxItems) == [] <==> NoneConsidered(feeds, maxItems)
  {
    if feeds != [] {
      PiecesEmpty(feeds[1..], maxItems);
      assert forall k :: 1 <= k < |feeds| ==> feeds[k] == feeds[1..][k - 1];
    }
  }

  lemma {:induction false} PiecesNonEmpty(feeds: seq<seq<Entry>>, maxItems: int)
    ensures forall j :: 0 <= j < |Pieces(feeds, maxItems)| ==> Pieces(feeds, maxItems)[j] != []
  {
    if feeds != [] {
      PiecesNonEmpty(feeds[1..], maxItems);
      var head := FeedPieces(feeds[0], maxItems);
      forall j | 0 <= j < |head| ensures head[j] != [] { PieceNotEmpty(feeds[0][j]); }
    }
  }

  lemma {:induction false} PiecesBlank(feeds: seq<seq<Entry>>, maxItems: int)
    ensures AllBlank(Pieces(feeds, maxItems)) <==> ConsideredBlank(feeds, maxItems)
  {
    if feeds != [] {
      PiecesBlank(feeds[1..], maxItems);
      var head := FeedPieces(feeds[0], maxItems);
      AllBlankConcat(head, Pieces(feeds[1..], maxItems));
      forall i | 0 <= i < |head| { PieceBlank(feeds[0][i]); }
      ConsideredBlankCons(feeds, maxItems);
    }
  }

  lemma AllBlankConcat(a: seq<string>, b: seq<string>)
    ensures AllBlank(a + b) <==> AllBlank(a) && AllBlank(b)
  {
    assert forall j :: 0 <= j < |a| ==> (a + b)[j] == a[j];
    assert forall j :: 0 <= j < |b| ==> (a + b)[|a| + j] == b[j];
  }

  /** `ConsideredBlank` split into the first feed and the rest. */
  lemma ConsideredBlankCons(feeds: seq<seq<Entry>>, maxItems: int)
    requires feeds != []
    ensures ConsideredBlank(feeds, maxItems) <==>
      (forall i :: 0 <= i < |SliceTo(feeds[0], maxItems)| ==>
         IsBlank(Title(feeds[0][i])) && IsBlank(Summary(feeds[0][i])))
      && ConsideredBlank(feeds[1..], maxItems)
  {
    if (forall i :: 0 <= i < |SliceTo(feeds[0], maxItems)| ==>
          IsBlank(Title(feeds[0][i])) && IsBlank(Summary(feeds[0][i])))
       && ConsideredBlank(feeds[1..], maxItems) {
      forall k, i | 0 <= k < |feeds| && 0 <= i < |SliceTo(feeds[k], maxItems)|
        ensures IsBlank(Title(feeds[k][i])) && IsBlank(Summary(feeds[k][i]))
      {
        if k > 0 { assert feeds[k] == feeds[1..][k - 1]; }
      }
    }
    if ConsideredBlank(feeds, maxItems) {
      forall k, i | 0 <= k < |feeds[1..]| && 0 <= i < |SliceTo(feeds[1..][k], maxItems)|
        ensures IsBlank(Title(feeds[1..][k][i])) && IsBlank(Summary(feeds[1..][k][i]))
      {
        assert feeds[1..][k] == feeds[k + 1];
      }
    }
  }

  /** The result is empty exactly when no entry is considered: no feeds, feeds
      without entries, or a cap that keeps none. */
  lemma FetchEmpty(feeds: seq<seq<Entry>>, maxItems: int)
    ensures FetchText(feeds, maxItems) == [] <==> NoneConsidered(feeds, maxItems)
  {
    PiecesEmpty(feeds, maxItems);
    var ps := Pieces(feeds, maxItems);
    if ps != [] {
      PiecesNonEmpty(feeds, maxItems);
      assert TotalLength(ps) >= |ps[0]| > 0;
    }
  }

  /** The result is whitespace only (so `strip()` empties it) exactly when every
      considered entry has a blank title and summary; in particular when every
      considered entry lacks both fields. */
  lemma FetchBlank(feeds: seq<seq<Entry>>, maxItems: int)
    ensures IsBlank(FetchText(feeds, maxItems)) <==> ConsideredBlank(feeds, maxItems)
  {
    assert IsBlank(Separator) by { assert IsSpace(Separator[0]) && IsSpace(Separator[1]); }
    JoinBlank(Separator, Pieces(feeds, maxItems));
    PiecesBlank(feeds, maxItems);
  }
}
