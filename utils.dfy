/**
 * The HTML helpers of `utils.py`, reduced to the logic the repository writes itself.
 * Parsing, tag decomposition, `get_text`, `markdownify` and `urljoin` are library calls: they
 * appear as function parameters, and the parsed document as a `ParsedPage` holding the
 * anchors, meta tags and `<title>` that BeautifulSoup's `find_all` would return, in document order.
 */
module Utils {
  import opened Common
  import opened Text

  /** The tags `html_to_text` removes when the caller gives no list (utils.py:47). */
  const DefaultStripTags: seq<string> := ["script", "style", "meta", "link", "noscript"]

  /** The tags `html_to_text` decomposes: the default list only when none was passed. */
  function TextStripTags(stripTags: Option<seq<string>>): seq<string>
  {
    match stripTags
    case None => DefaultStripTags
    case Some(tags) => tags
  }

  /** The tags `html_to_markdown` decomposes: `if strip_tags:` skips both `None` and `[]`. */
  function MarkdownStripTags(stripTags: Option<seq<string>>): seq<string>
  {
    match stripTags
    case None => []
    case Some(tags) => tags
  }

  /** The two defaults differ: text conversion strips five tags by default, markdown none; an explicit list wins in both. */
  lemma StripTagDefaults(tags: seq<string>)
    ensures TextStripTags(None) == DefaultStripTags && |TextStripTags(None)| == 5
    ensures TextStripTags(Some([])) == [] && MarkdownStripTags(None) == []
    ensures TextStripTags(Some(tags)) == tags && MarkdownStripTags(Some(tags)) == tags
  {
  }

  /** `[line.strip() for line in lines if line.strip()]`. */
  function NonBlankStripped(lines: seq<string>): (r: seq<string>)
    ensures |r| <= |lines|
    ensures forall i :: 0 <= i < |r| ==> r[i] != "" && IsStripped(r[i])
    ensures (forall i :: 0 <= i < |lines| ==> '\n' !in lines[i]) ==> forall i :: 0 <= i < |r| ==> '\n' !in r[i]
  {
    if |lines| == 0 then []
    else
      var l := Strip(lines[0]);
      (if l != "" then [l] else []) + NonBlankStripped(lines[1..])
  }

  /** A non-blank stripped line in front is kept as it is. */
  lemma NonBlankStrippedCons(line: string, rest: seq<string>)
    requires line != "" && IsStripped(line)
    ensures NonBlankStripped([line] + rest) == [line] + NonBlankStripped(rest)
  {
    var lines := [line] + rest;
    assert lines[0] == line && lines[1..] == rest;
    StripFixed(line);
  }

  /** A list whose lines are all non-blank and stripped comes through the filter unchanged. */
  lemma {:induction false} NonBlankStrippedFixed(lines: seq<string>)
    requires forall i :: 0 <= i < |lines| ==> lines[i] != "" && IsStripped(lines[i])
    ensures NonBlankStripped(lines) == lines
  {
    if |lines| > 0 {
      var rest := lines[1..];
      assert lines == [lines[0]] + rest;
      NonBlankStrippedFixed(rest);
      NonBlankStrippedCons(lines[0], rest);
    }
  }

  /** The shape `html_to_text` promises: empty, or lines that are non-empty and carry no surrounding whitespace. */
  predicate IsCleanText(t: string)
  {
    t == "" || forall line :: line in Split(t, '\n') ==> line != "" && IsStripped(line)
  }

  /**
   * The line clean-up at the end of `html_to_text`: split on newlines, strip each line, drop blank ones,
   * join with newlines. The lines of the result are exactly the kept lines, in order.
   */
  function CleanLines(text: string): (r: string)
    ensures IsCleanText(r)
    ensures var kept := NonBlankStripped(Split(text, '\n'));
      (kept == [] && r == "") || (kept != [] && Split(r, '\n') == kept)
  {
    var kept := NonBlankStripped(Split(text, '\n'));
    var r := Join(kept, '\n');
    if kept == [] then r
    else
      SplitJoin(kept, '\n');
      r
  }

  /** Cleaning text twice gives what cleaning it once gives. */
  lemma CleanLinesIdempotent(text: string)
    ensures CleanLines(CleanLines(text)) == CleanLines(text)
  {
    var once := CleanLines(text);
    var kept := NonBlankStripped(Split(text, '\n'));
    if kept == [] {
      assert Split(once, '\n') == [""];
      assert NonBlankStripped([""]) == [] by {
        assert Strip("") == "";
      }
    } else {
      NonBlankStrippedFixed(kept);
    }
  }

  /**
   * `html_to_text`: the library extracts raw text from the parsed page after removing the
   * tags to strip; the repository's own part is the choice of tags and the line clean-up.
   */
  function HtmlToText(html: string, stripTags: Option<seq<string>>,
                      getText: (string, seq<string>) -> Result<string, Exception>): (r: Result<string, Exception>)
    ensures r.Ok? <==> getText(html, TextStripTags(stripTags)).Ok?
    ensures r.Ok? ==> IsCleanText(r.value) && r.value == CleanLines(getText(html, TextStripTags(stripTags)).value)
    ensures r.Err? ==> r.error == getText(html, TextStripTags(stripTags)).error
  {
    match getText(html, TextStripTags(stripTags))
    case Ok(raw) => Ok(CleanLines(raw))
    case Err(e) => Err(e)
  }

  /** `html_to_markdown`: library conversion of the page minus the tags to strip, then `.strip()`. */
  function HtmlToMarkdown(html: string, stripTags: Option<seq<string>>,
                          convert: (string, seq<string>) -> Result<string, Exception>): (r: Result<string, Exception>)
    ensures r.Ok? <==> convert(html, MarkdownStripTags(stripTags)).Ok?
    ensures r.Ok? ==> IsStripped(r.value) && r.value == Strip(convert(html, MarkdownStripTags(stripTags)).value)
    ensures r.Err? ==> r.error == convert(html, MarkdownStripTags(stripTags)).error
  {
    match convert(html, MarkdownStripTags(stripTags))
    case Ok(md) => Ok(Strip(md))
    case Err(e) => Err(e)
  }

  /** An `<a>` element as BeautifulSoup sees it: its `href` and `title` attributes (if any) and its stripped text. */
  datatype Anchor = Anchor(href: Option<string>, text: string, title: Option<string>)

  /** A `<meta>` element's `name`, `property` and `content` attributes. */
  datatype MetaTag = MetaTag(name: Option<string>, property: Option<string>, content: Option<string>)

  /** `soup.title`: absent, or present with its `.string` (absent when the element has no single string). */
  datatype TitleTag = NoTitle | Title(text: Option<string>)

  /** The parts of a parsed document that the helpers read, in document order. */
  datatype ParsedPage = ParsedPage(title: TitleTag, anchors: seq<Anchor>, metas: seq<MetaTag>)

  /** One entry of `extract_links`'s result: the dict `{"url", "text", "title"}`. */
  datatype LinkRecord = LinkRecord(url: string, text: string, title: string)

  /**
   * The record for one anchor that has an `href`. `urljoin` is only called when a non-empty
   * base is given, and what it raises (`ValueError` on a malformed bracketed host) is raised here.
   */
  function LinkFor(a: Anchor, baseUrl: Option<string>, urljoin: (string, string) -> Result<string, Exception>)
    : (r: Result<LinkRecord, Exception>)
    requires a.href.Some?
    ensures r.Err? <==> Truthy(baseUrl) && urljoin(baseUrl.value, a.href.value).Err?
    ensures r.Err? ==> r.error == urljoin(baseUrl.value, a.href.value).error
    ensures r.Ok? ==> r.value.url == if Truthy(baseUrl) then urljoin(baseUrl.value, a.href.value).value else a.href.value
    ensures r.Ok? ==> r.value.text == a.text
    ensures r.Ok? ==> r.value.title == if a.title.Some? then a.title.value else ""
  {
    var href := if Truthy(baseUrl) then urljoin(baseUrl.value, a.href.value) else Ok(a.href.value);
    match href
    case Err(e) => Err(e)
    case Ok(h) => Ok(LinkRecord(h, a.text, if a.title.Some? then a.title.value else ""))
  }

  /** The anchors `find_all("a", href=True)` returns: those with an `href`, in document order. */
  function WithHref(anchors: seq<Anchor>): (r: seq<Anchor>)
    ensures |r| <= |anchors|
    ensures forall i :: 0 <= i < |r| ==> r[i].href.Some? && r[i] in anchors
  {
    if anchors == [] then []
    else
      var last := anchors[|anchors| - 1];
      WithHref(anchors[..|anchors| - 1]) + (if last.href.Some? then [last] else [])
  }

  /**
   * What `extract_links` returns or raises: the records of the anchors that have an `href`, in
   * document order, or the first exception a record raises.
   */
  function Links(anchors: seq<Anchor>, baseUrl: Option<string>, urljoin: (string, string) -> Result<string, Exception>)
    : (r: Result<seq<LinkRecord>, Exception>)
    ensures r.Ok? ==> |r.value| == |WithHref(anchors)|
    ensures r.Ok? ==> forall i :: 0 <= i < |r.value| ==> LinkFor(WithHref(anchors)[i], baseUrl, urljoin) == Ok(r.value[i])
  {
    if anchors == [] then Ok([])
    else
      var last := anchors[|anchors| - 1];
      match Links(anchors[..|anchors| - 1], baseUrl, urljoin)
      case Err(e) => Err(e)
      case Ok(init) =>
        if last.href.None? then Ok(init)
        else
          match LinkFor(last, baseUrl, urljoin)
          case Err(e) => Err(e)
          case Ok(link) => Ok(init + [link])
  }

  /** Among `kept`, entry `j` is the first whose record raises, and it raises `e`. */
  predicate FailsFirstAt(kept: seq<Anchor>, j: int, baseUrl: Option<string>,
                         urljoin: (string, string) -> Result<string, Exception>, e: Exception)
  {
    && 0 <= j < |kept|
    && kept[j].href.Some? && LinkFor(kept[j], baseUrl, urljoin) == Err(e)
    && forall k :: 0 <= k < j ==> kept[k].href.Some? && LinkFor(kept[k], baseUrl, urljoin).Ok?
  }

  /**
   * `extract_links` raises exactly when some kept anchor's record raises, and then with the
   * exception of the first such anchor.
   */
  lemma {:induction false} LinksFailAtFirst(anchors: seq<Anchor>, baseUrl: Option<string>,
                                            urljoin: (string, string) -> Result<string, Exception>)
    ensures var kept := WithHref(anchors);
      (exists j :: 0 <= j < |kept| && LinkFor(kept[j], baseUrl, urljoin).Err?) ==> Links(anchors, baseUrl, urljoin).Err?
    ensures Links(anchors, baseUrl, urljoin).Err? ==>
      exists j :: FailsFirstAt(WithHref(anchors), j, baseUrl, urljoin, Links(anchors, baseUrl, urljoin).error)
    decreases |anchors|
  {
    if anchors != [] {
      var init := anchors[..|anchors| - 1];
      var last := anchors[|anchors| - 1];
      var kept := WithHref(anchors);
      var keptInit := WithHref(init);
      assert kept == keptInit + (if last.href.Some? then [last] else []);
      match Links(init, baseUrl, urljoin)
      case Err(e) =>
        LinksFailAtFirst(init, baseUrl, urljoin);
        var j :| FailsFirstAt(keptInit, j, baseUrl, urljoin, e);
        assert forall k :: 0 <= k <= j ==> kept[k] == keptInit[k];
        assert FailsFirstAt(kept, j, baseUrl, urljoin, e);
      case Ok(links) =>
        if last.href.Some? && LinkFor(last, baseUrl, urljoin).Err? {
          assert forall k :: 0 <= k < |keptInit| ==> kept[k] == keptInit[k];
          assert kept[|keptInit|] == last;
          assert FailsFirstAt(kept, |keptInit|, baseUrl, urljoin, LinkFor(last, baseUrl, urljoin).error);
        }
    }
  }

  /** Once a prefix of the anchors raises, the whole list raises the same exception. */
  lemma {:induction false} LinksFailurePersists(anchors: seq<Anchor>, n: nat, baseUrl: Option<string>,
                                                urljoin: (string, string) -> Result<string, Exception>)
    requires n <= |anchors|
    requires Links(anchors[..n], baseUrl, urljoin).Err?
    ensures Links(anchors, baseUrl, urljoin) == Links(anchors[..n], baseUrl, urljoin)
    decreases |anchors|
  {
    if n < |anchors| {
      var init := anchors[..|anchors| - 1];
      assert init[..n] == anchors[..n];
      LinksFailurePersists(init, n, baseUrl, urljoin);
    } else {
      assert anchors[..n] == anchors;
    }
  }

  /** Every anchor without an `href` is skipped, and every anchor with one gives exactly one record. */
  lemma {:induction false} WithHrefCount(anchors: seq<Anchor>)
    ensures |WithHref(anchors)| == |set i | 0 <= i < |anchors| && anchors[i].href.Some?|
    decreases |anchors|
  {
    var n := |anchors|;
    if n > 0 {
      var init := anchors[..n - 1];
      WithHrefCount(init);
      var s := set i | 0 <= i < n && anchors[i].href.Some?;
      var s' := set i | 0 <= i < n - 1 && init[i].href.Some?;
      if anchors[n - 1].href.Some? {
        assert s == s' + {n - 1};
      } else {
        assert s == s';
      }
    }
  }

  /**
   * `extract_links` over a parsed page: a loop appending one record per anchor that has an
   * `href`, left at the first `urljoin` that raises.
   */
  method ExtractLinks(page: ParsedPage, baseUrl: Option<string>, urljoin: (string, string) -> Result<string, Exception>)
    returns (r: Result<seq<LinkRecord>, Exception>)
    ensures r == Links(page.anchors, baseUrl, urljoin)
    ensures r.Ok? ==> |r.value| == |WithHref(page.anchors)|
  {
    var links := [];
    var i := 0;
    while i < |page.anchors|
      invariant 0 <= i <= |page.anchors|
      invariant Links(page.anchors[..i], baseUrl, urljoin) == Ok(links)
    {
      var link := page.anchors[i];
      assert page.anchors[..i + 1][..i] == page.anchors[..i];
      if link.href.Some? {
        var href := link.href.value;
        if Truthy(baseUrl) {
          var joined := urljoin(baseUrl.value, href);
          if joined.Err? {
            LinksFailurePersists(page.anchors, i + 1, baseUrl, urljoin);
            return Err(joined.error);
          }
          href := joined.value;
        }
        links := links + [LinkRecord(href, link.text, if link.title.Some? then link.title.value else "")];
      }
      i := i + 1;
    }
    assert page.anchors[..i] == page.anchors;
    r := Ok(links);
  }

  /** `meta.get("name") or meta.get("property")`: the name when it is non-empty, otherwise the property. */
  function MetaKey(m: MetaTag): Option<string>
  {
    if Truthy(m.name) then m.name else m.property
  }

  /** The entry one meta tag contributes, if both its key and its content are non-empty. */
  predicate Defines(m: MetaTag, key: string)
  {
    Truthy(MetaKey(m)) && Truthy(m.content) && MetaKey(m).value == key
  }

  /** The title entry `extract_metadata` starts from: `soup.title.string or ""` when the page has a title. */
  function TitleEntry(t: TitleTag): map<string, string>
  {
    match t
    case NoTitle => map[]
    case Title(text) => map["title" := if text.Some? then text.value else ""]
  }

  /** Assigning each meta tag's entry in turn, as the loop in `extract_metadata` does. */
  function MetaFold(init: map<string, string>, metas: seq<MetaTag>): map<string, string>
  {
    if metas == [] then init
    else
      var acc := MetaFold(init, metas[..|metas| - 1]);
      var m := metas[|metas| - 1];
      if Truthy(MetaKey(m)) && Truthy(m.content) then acc[MetaKey(m).value := m.content.value] else acc
  }

  /** What `extract_metadata` returns for a parsed page. */
  function PageMetadata(page: ParsedPage): map<string, string>
  {
    MetaFold(TitleEntry(page.title), page.metas)
  }

  /** The content of the last meta tag that defines `key`, if any does: later tags overwrite earlier ones. */
  function LastDefinition(metas: seq<MetaTag>, key: string): (r: Option<string>)
    ensures r.Some? <==> exists i :: 0 <= i < |metas| && Defines(metas[i], key)
  {
    if metas == [] then None
    else if Defines(metas[|metas| - 1], key) then metas[|metas| - 1].content
    else
      var r := LastDefinition(metas[..|metas| - 1], key);
      assert forall i :: 0 <= i < |metas| - 1 ==> metas[..|metas| - 1][i] == metas[i];
      r
  }

  /** Each key of the folded map holds the last meta definition of that key, or else its starting value. */
  lemma {:induction false} MetaFoldAt(init: map<string, string>, metas: seq<MetaTag>, key: string)
    ensures key in MetaFold(init, metas) <==> key in init || LastDefinition(metas, key).Some?
    ensures key in MetaFold(init, metas) ==>
      MetaFold(init, metas)[key] == if LastDefinition(metas, key).Some? then LastDefinition(metas, key).value else init[key]
    decreases |metas|
  {
    if metas != [] {
      MetaFoldAt(init, metas[..|metas| - 1], key);
    }
  }

  /**
   * The key rule of `extract_metadata`: a key is present iff it is "title" on a page with a `<title>`,
   * or some meta tag defines it with non-empty content; the last such tag wins over the title.
   */
  lemma PageMetadataAt(page: ParsedPage, key: string)
    ensures key in PageMetadata(page) <==>
      (key == "title" && page.title.Title?) || exists i :: 0 <= i < |page.metas| && Defines(page.metas[i], key)
    ensures key in PageMetadata(page) && LastDefinition(page.metas, key).Some? ==>
      PageMetadata(page)[key] == LastDefinition(page.metas, key).value
    ensures key in PageMetadata(page) && LastDefinition(page.metas, key).None? ==>
      key == "title" && PageMetadata(page)[key] == (if page.title.text.Some? then page.title.text.value else "")
  {
    MetaFoldAt(TitleEntry(page.title), page.metas, key);
  }

  /** `extract_metadata` over a parsed page: the title entry, then one assignment per qualifying meta tag. */
  method ExtractMetadata(page: ParsedPage) returns (metadata: map<string, string>)
    ensures metadata == PageMetadata(page)
  {
    metadata := map[];
    if page.title.Title? {
      metadata := metadata["title" := if page.title.text.Some? then page.title.text.value else ""];
    }
    var i := 0;
    while i < |page.metas|
      invariant 0 <= i <= |page.metas|
      invariant metadata == MetaFold(TitleEntry(page.title), page.metas[..i])
    {
      var meta := page.metas[i];
      assert page.metas[..i + 1][..i] == page.metas[..i];
      var name := if Truthy(meta.name) then meta.name else meta.property;
      var content := meta.content;
      if Truthy(name) && Truthy(content) {
        metadata := metadata[name.value := content.value];
      }
      i := i + 1;
    }
    assert page.metas[..i] == page.metas;
  }
}
