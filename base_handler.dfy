/**
 * LoosePhabric/Handlers/BaseHandler.swift: the settings every handler reads,
 * the choice between a direct link and a title fetch, and the write of the
 * rich link to the pasteboard.
 */
module BaseHandler {
  import opened Wrappers
  import opened Text
  import opened Foundation
  import opened Pasteboards

  /** The label and URL a handler hands to `setPasteboard` / `setLinkToPasteboard`. */
  datatype Link = Link(text: string, url: string)

  /** What `setPasteboard` does: start the title fetch, or write the link at once. */
  datatype Action = StartFetch(text: string, urlString: string) | WriteLink(link: Link)

  const ExpandTitlesKey: string := "expandTitles"
  const ShowStatusKey: string := "showStatus"

  /** `enabled()`: the boolean stored under the handler's own key. */
  function Enabled(defaultsKey: string, d: Defaults): (b: bool)
    ensures b <==> defaultsKey in d && d[defaultsKey]
  {
    BoolForKey(d, defaultsKey)
  }

  function Expand(d: Defaults): (b: bool)
    ensures b <==> ExpandTitlesKey in d && d[ExpandTitlesKey]
  {
    BoolForKey(d, ExpandTitlesKey)
  }

  function ShowStatus(d: Defaults): (b: bool)
    ensures b <==> ShowStatusKey in d && d[ShowStatusKey]
  {
    BoolForKey(d, ShowStatusKey)
  }

  /** `setPasteboard`: exactly one of the two actions, with the handler's text and URL. */
  function SetPasteboard(d: Defaults, text: string, url: string): (a: Action)
    ensures a.StartFetch? <==> Expand(d)
    ensures a.StartFetch? ==> a.text == text && a.urlString == url
    ensures a.WriteLink? ==> a.link == Link(text, url)
  {
    if Expand(d) then StartFetch(text, url) else WriteLink(Link(text, url))
  }

  /**
   * The guard of the escaping step is a literal substring test for the
   * seven characters `&[^;]+;`, not a regular expression.
   */
  const EntityGuard: string := "&[^;]+;"

  /** The escape of one character: `<` and `>` become entities, everything else stays. */
  function EscapeChar(c: char): string {
    if c == '<' then "&lt;" else if c == '>' then "&gt;" else [c]
  }

  /** Reference definition of the escaping, one character at a time. */
  function EscapeAngles(s: string): (r: string)
    ensures '<' !in r && '>' !in r
  {
    if s == [] then [] else EscapeChar(s[0]) + EscapeAngles(s[1..])
  }

  lemma {:induction false} EscapeAnglesAppend(s: string, t: string)
    ensures EscapeAngles(s + t) == EscapeAngles(s) + EscapeAngles(t)
  {
    if s != [] {
      assert (s + t)[1..] == s[1..] + t;
      EscapeAnglesAppend(s[1..], t);
    } else {
      assert s + t == t;
    }
  }

  lemma {:induction false} ReplaceEachAppend(s: string, t: string, c: char, rep: string)
    ensures ReplaceEach(s + t, c, rep) == ReplaceEach(s, c, rep) + ReplaceEach(t, c, rep)
  {
    if s != [] {
      assert (s + t)[1..] == s[1..] + t;
      ReplaceEachAppend(s[1..], t, c, rep);
    } else {
      assert s + t == t;
    }
  }

  /** The two chained `replacingOccurrences` calls equal the per-character escape. */
  lemma {:induction false} TwoReplacementsEscape(s: string)
    ensures ReplaceAll(ReplaceAll(s, "<", "&lt;"), ">", "&gt;") == EscapeAngles(s)
  {
    ReplaceOneCharIsEach(s, '<', "&lt;");
    ReplaceOneCharIsEach(ReplaceEach(s, '<', "&lt;"), '>', "&gt;");
    EachThenEach(s);
  }

  lemma {:induction false} EachThenEach(s: string)
    ensures ReplaceEach(ReplaceEach(s, '<', "&lt;"), '>', "&gt;") == EscapeAngles(s)
  {
    if s != [] {
      var head := if s[0] == '<' then "&lt;" else [s[0]];
      assert ReplaceEach(s, '<', "&lt;") == head + ReplaceEach(s[1..], '<', "&lt;");
      ReplaceEachAppend(head, ReplaceEach(s[1..], '<', "&lt;"), '>', "&gt;");
      assert ReplaceEach(head, '>', "&gt;") == EscapeChar(s[0]) by {
        if s[0] == '<' {
          assert ReplaceEach("&lt;", '>', "&gt;") == "&lt;";
        } else {
          assert ReplaceEach([s[0]], '>', "&gt;") == (if s[0] == '>' then "&gt;" else [s[0]]) + ReplaceEach([], '>', "&gt;");
        }
      }
      EachThenEach(s[1..]);
    }
  }

  /** The label as it goes into the HTML anchor. */
  function HtmlSafeText(text: string): (r: string)
    ensures Contains(text, EntityGuard) ==> r == text
    ensures !Contains(text, EntityGuard) ==> r == EscapeAngles(text)
  {
    if Contains(text, EntityGuard) then text
    else
      TwoReplacementsEscape(text);
      ReplaceAll(ReplaceAll(text, "<", "&lt;"), ">", "&gt;")
  }

  lemma EscapeKeepsOtherCharacters(s: string, i: nat)
    requires i < |s| && s[i] != '<' && s[i] != '>'
    ensures s[i] in EscapeAngles(s)
  {
    EscapeAnglesAppend(s[..i], s[i..]);
    assert s == s[..i] + s[i..];
    assert EscapeAngles(s[i..]) == [s[i]] + EscapeAngles(s[i + 1..]);
  }

  const TitleOpen: string := "<title>"
  const TitleClose: string := "</title>"

  /**
   * The text between the first `<title>` and the next `</title>` after it,
   * or nothing when either delimiter is missing (the scrape shared by the
   * Phabricator fallback, the GitLab handler and the earlier AppDelegate).
   */
  function PageTitle(html: string): (r: Option<string>)
    ensures !Contains(html, TitleOpen) ==> r.None?
    ensures r.Some? ==> Contains(html, TitleOpen + r.value + TitleClose) && !Contains(r.value, TitleClose)
  {
    ContainsIffFound(html, TitleOpen);
    match IndexOf(html, TitleOpen, 0)
    case None => None
    case Some(i) =>
      match IndexOf(html, TitleClose, i + |TitleOpen|)
      case None => None
      case Some(j) =>
        PageTitleSound(html, i, j);
        Some(html[i + |TitleOpen|..j])
  }

  lemma PageTitleSound(html: string, i: nat, j: nat)
    requires ContainsAt(html, i, TitleOpen) && i + |TitleOpen| <= j
    requires ContainsAt(html, j, TitleClose)
    requires forall k :: i + |TitleOpen| <= k < j ==> !ContainsAt(html, k, TitleClose)
    ensures Contains(html, TitleOpen + html[i + |TitleOpen|..j] + TitleClose)
    ensures !Contains(html[i + |TitleOpen|..j], TitleClose)
  {
    var t := html[i + |TitleOpen|..j];
    assert html[i..j + |TitleClose|] == html[i..i + |TitleOpen|] + t + html[j..j + |TitleClose|];
    assert ContainsAt(html, i, TitleOpen + t + TitleClose);
    forall m: nat | m <= |t| ensures !ContainsAt(t, m, TitleClose) {
      if ContainsAt(t, m, TitleClose) {
        ContainsAtSlice(html, i + |TitleOpen|, j, m, TitleClose);
      }
    }
  }

  /** Each tag has its `<` only in front, so an occurrence cannot overlap the next tag. */
  lemma TagsLeadOnce()
    ensures TitleOpen != [] && TitleOpen[0] !in TitleOpen[1..]
    ensures TitleClose != [] && TitleClose[0] !in TitleClose[1..]
  {
    assert TitleOpen[1..] == "title>";
    assert TitleClose[1..] == "/title>";
  }

  /** The first `<title>` and the first `</title>` after it delimit the title, whatever follows. */
  lemma PageTitleOf(pre: string, t: string, post: string)
    requires !Contains(pre, TitleOpen) && !Contains(t, TitleClose)
    ensures PageTitle(pre + TitleOpen + t + TitleClose + post) == Some(t)
  {
    TagsLeadOnce();
    var html := pre + TitleOpen + t + TitleClose + post;
    AroundTitle(html, pre, TitleOpen, t, TitleClose, post);
    OccurrenceAfter(html, [], pre, TitleOpen, t + TitleClose + post, 0);
    OccurrenceAfter(html, pre + TitleOpen, t, TitleClose, post, |pre| + |TitleOpen|);
    PageTitleBetween(html, |pre|, |pre| + |TitleOpen|, |pre| + |TitleOpen| + |t|);
  }

  /** The two groupings of a page around its title that the tag searches need. */
  lemma AroundTitle(s: string, pre: string, open: string, t: string, close: string, post: string)
    requires s == pre + open + t + close + post
    ensures s == [] + pre + (open + (t + close + post))
    ensures s == (pre + open) + t + (close + post)
    ensures |pre| + |open| + |t| <= |s| && s[|pre| + |open|..|pre| + |open| + |t|] == t
  {
  }

  lemma PageTitleBetween(html: string, i: nat, k: nat, j: nat)
    requires k == i + |TitleOpen| && k <= j <= |html|
    requires IndexOf(html, TitleOpen, 0) == Some(i) && IndexOf(html, TitleClose, k) == Some(j)
    ensures PageTitle(html) == Some(html[k..j])
  {
  }

  /** The HTML value: the URL lands in `href` as it is, the label as given. */
  function AnchorHtml(url: string, htmlSafeText: string): string {
    "<a href=\"" + url + "\">" + htmlSafeText + "</a>"
  }

  /** The single item `setLinkToPasteboard` leaves on the pasteboard. */
  function LinkItem(original: string, text: string, url: string, rtf: Option<Bytes>): (item: Item)
    ensures Html in item && item[Html] == Str(AnchorHtml(url, HtmlSafeText(text)))
    ensures PlainText in item && item[PlainText] == Str(original)
    ensures UrlType in item && item[UrlType] == Str(url)
    ensures Rtf in item <==> rtf.Some?
    ensures rtf.Some? ==> item[Rtf] == Data(rtf.value)
  {
    var html: Item := map[Html := Str(AnchorHtml(url, HtmlSafeText(text)))];
    var withRtf := if rtf.Some? then html[Rtf := Data(rtf.value)] else html;
    withRtf[PlainText := Str(original)][UrlType := Str(url)]
  }

  /**
   * `setLinkToPasteboard`, without the `PasteboardSet` notification: the
   * caller delivers that (see Controller and AppDelegate). The force-unwrap
   * of the first item is the requires.
   */
  method SetLinkToPasteboard(pasteboard: Pasteboard, text: string, url: string, p: Platform)
    requires pasteboard.HasFirstItem()
    modifies pasteboard
    ensures pasteboard.changeCount == old(pasteboard.changeCount) + 1
    ensures pasteboard.items == Some([LinkItem(old(pasteboard.FirstPlain()).GetOr(text), text, url, p.rtf(text, url))])
    ensures pasteboard.FirstPlain() == Some(old(pasteboard.FirstPlain()).GetOr(text))
  {
    var original := pasteboard.FirstPlain().GetOr(text);
    var htmlSafeText := text;
    if !Contains(htmlSafeText, EntityGuard) {
      htmlSafeText := ReplaceAll(htmlSafeText, "<", "&lt;");
      htmlSafeText := ReplaceAll(htmlSafeText, ">", "&gt;");
    }
    assert htmlSafeText == HtmlSafeText(text) by { TwoReplacementsEscape(text); }
    pasteboard.ClearContents();
    pasteboard.SetValue(Str(AnchorHtml(url, htmlSafeText)), Html);
    var rtf := p.rtf(text, url);
    if rtf.Some? {
      pasteboard.SetValue(Data(rtf.value), Rtf);
    }
    pasteboard.SetValue(Str(original), PlainText);
    pasteboard.SetValue(Str(url), UrlType);
    assert pasteboard.items.value[0] == LinkItem(original, text, url, rtf);
    assert pasteboard.items.value == [pasteboard.items.value[0]];
  }
}
