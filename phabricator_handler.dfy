/**
 * LoosePhabric/Handlers/PhabricatorHandler.swift: the object-name grammar of
 * `handle`, the phabroxy lookup with its comment splice and status glyph,
 * the HTML fallback with its login-wall guard, and `cleanUpHTMLTitle`.
 */
module PhabricatorHandler {
  import opened Wrappers
  import opened Text
  import opened StringExt
  import opened Foundation
  import opened BaseHandler

  const DefaultsKey: string := "phabricator"
  const Host: string := "phabricator.wikimedia.org"
  const BaseUrl: string := "https://phabricator.wikimedia.org/"
  const LookupBase: string := "https://phabroxy.toolforge.org/lookup/"

  /** T tickets, P pastes, D code reviews, M mocks, E events, F files. */
  const ObjectLetters: set<char> := {'T', 'P', 'D', 'M', 'E', 'F'}

  const ClosedGlyph: string := "\U{2705}"
  const StatusMap: map<string, string> := map["closed" := ClosedGlyph]

  /** The anchor glyph and the space after it that Phabricator puts before page titles. */
  const Anchor: string := "\U{2693} "

  /** The marker of Phabricator's login page. */
  const AuthMarker: string := "class=\"auth-custom-message\""

  /**
   * `s` wholly matches `[letters]\d+(?:#\d+)?`. The digits before the
   * optional `#` hold no `#`, so the first `#` is where the comment starts.
   */
  predicate IsObjectName(s: string, letters: set<char>) {
    |s| >= 2 && s[0] in letters &&
    var rest := s[1..];
    match FirstIndexOf(rest, '#')
    case None => IsDigitRun(rest)
    case Some(k) => IsDigitRun(rest[..k]) && IsDigitRun(rest[k + 1..])
  }

  /** `#` followed by the comment number, or nothing. */
  function CommentSuffix(m: Option<string>): string {
    if m.Some? then "#" + m.value else ""
  }

  /** Every string of the shape letter, digits, optional `#digits` is an object name. */
  lemma ObjectNameShape(c: char, n: string, m: Option<string>, letters: set<char>)
    requires c in letters && IsDigitRun(n)
    requires m.Some? ==> IsDigitRun(m.value)
    ensures IsObjectName([c] + n + CommentSuffix(m), letters)
  {
    var s := [c] + n + CommentSuffix(m);
    assert s[1..] == n + CommentSuffix(m);
    assert forall i :: 0 <= i < |n| ==> n[i] != '#';
    if m.Some? {
      assert s[1..] == n + ['#'] + m.value;
      FirstIndexAfter(n, '#', m.value);
      assert s[1..][..|n|] == n;
      assert s[1..][|n| + 1..] == m.value;
    }
  }

  /** An object name holds no `/`, so it is a single path component. */
  lemma ObjectNameHasNoSlash(s: string, letters: set<char>)
    requires IsObjectName(s, letters) && '/' !in letters
    ensures '/' !in s
  {
    var rest := s[1..];
    forall i | 0 <= i < |s| ensures s[i] != '/' {
      if i > 0 {
        assert s[i] == rest[i - 1];
        match FirstIndexOf(rest, '#')
        case None =>
        case Some(k) =>
          if i - 1 < k {
            assert rest[..k][i - 1] == rest[i - 1];
          } else if i - 1 > k {
            assert rest[k + 1..][i - 1 - (k + 1)] == rest[i - 1];
          }
      }
    }
  }

  /** The label for an accepted URL: the component, plus `#fragment` when the fragment is numeric. */
  function UrlObjectName(u: Url): (name: string)
    ensures u.fragment.Some? && IsNumeric(u.fragment.value) ==> name == LastPathComponent(u) + "#" + u.fragment.value
    ensures (u.fragment.None? || !IsNumeric(u.fragment.value)) ==> name == LastPathComponent(u)
  {
    var last := LastPathComponent(u);
    if u.fragment.Some? && IsNumeric(u.fragment.value) then last + "#" + u.fragment.value else last
  }

  /** `#fragment` when the fragment is numeric, otherwise nothing. */
  function FragmentSuffix(u: Url): string {
    if u.fragment.Some? && IsNumeric(u.fragment.value) then "#" + u.fragment.value else ""
  }

  /** The URL rule: the Phabricator host, exactly `["/", name]` as components, and an object name. */
  predicate AcceptsUrl(u: Url, letters: set<char>) {
    u.host == Some(Host) && |PathComponents(u.path)| == 2 && IsObjectName(LastPathComponent(u), letters)
  }

  /**
   * `handle` without its final side effect: the label and URL it hands to
   * `setPasteboard`, or nothing when it returns false. The letter set is a
   * parameter so the earlier AppDelegate grammar (tickets only) shares it.
   */
  function MatchWith(text: string, p: Platform, letters: set<char>): (r: Option<Link>)
    ensures IsObjectName(text, letters) ==> r == Some(Link(text, BaseUrl + text))
    ensures !IsObjectName(text, letters) ==>
      (r.Some? <==> p.parseUrl(text).Some? && AcceptsUrl(p.parseUrl(text).value, letters))
    ensures !IsObjectName(text, letters) && r.Some? ==>
      r.value == Link(UrlObjectName(p.parseUrl(text).value), p.parseUrl(text).value.absoluteString)
  {
    if IsObjectName(text, letters) then Some(Link(text, BaseUrl + text))
    else match p.parseUrl(text)
      case None => None
      case Some(u) =>
        if AcceptsUrl(u, letters) then Some(Link(UrlObjectName(u), u.absoluteString)) else None
  }

  function Match(text: string, p: Platform): Option<Link> {
    MatchWith(text, p, ObjectLetters)
  }

  /** The bare-name rule on every shape of object name. */
  lemma BareNameAccepted(c: char, n: string, m: Option<string>, p: Platform)
    requires c in ObjectLetters && IsDigitRun(n)
    requires m.Some? ==> IsDigitRun(m.value)
    ensures var name := [c] + n + CommentSuffix(m);
      Match(name, p) == Some(Link(name, BaseUrl + name))
  {
    ObjectNameShape(c, n, m, ObjectLetters);
  }

  /** A Phabricator page URL `/<name>` is accepted, labelled with the name and a numeric fragment. */
  lemma PageUrlAccepted(text: string, u: Url, name: string, p: Platform)
    requires !IsObjectName(text, ObjectLetters) && p.parseUrl(text) == Some(u)
    requires u.host == Some(Host) && u.path == "/" + name && IsObjectName(name, ObjectLetters)
    ensures Match(text, p) == Some(Link(name + FragmentSuffix(u), u.absoluteString))
  {
    ObjectNameHasNoSlash(name, ObjectLetters);
    assert Join([name], "/") == name;
    ComponentsOfAbsolutePath([name]);
    assert PathComponents(u.path) == ["/", name];
    assert LastPathComponent(u) == name;
    assert AcceptsUrl(u, ObjectLetters);
    if u.fragment.Some? && IsNumeric(u.fragment.value) {
      assert name + "#" + u.fragment.value == name + ("#" + u.fragment.value);
    } else {
      assert name + FragmentSuffix(u) == name;
    }
  }

  /** An empty fragment is numeric (the empty set is a subset of the digits), so `T1#` keeps its `#`. */
  lemma EmptyFragmentKeepsHash(u: Url)
    requires u.fragment == Some("")
    ensures UrlObjectName(u) == LastPathComponent(u) + "#"
  {
    EmptyIsNumeric();
  }

  /** A URL on any other host is refused. */
  lemma OtherHostRejected(text: string, u: Url, p: Platform)
    requires !IsObjectName(text, ObjectLetters) && p.parseUrl(text) == Some(u) && u.host != Some(Host)
    ensures Match(text, p).None?
  {
  }

  /** A deeper (or shallower) path is refused even on the Phabricator host. */
  lemma DeepPathRejected(text: string, u: Url, p: Platform)
    requires !IsObjectName(text, ObjectLetters) && p.parseUrl(text) == Some(u) && |PathComponents(u.path)| != 2
    ensures Match(text, p).None?
  {
  }

  /** `handle`: true exactly when it calls `setPasteboard`, with the matched label and URL. */
  function Handle(text: string, d: Defaults, p: Platform): (r: Option<Action>)
    ensures r.Some? <==> Match(text, p).Some?
    ensures r.Some? ==> r.value == SetPasteboard(d, Match(text, p).value.text, Match(text, p).value.url)
  {
    match Match(text, p)
    case None => None
    case Some(l) => Some(SetPasteboard(d, l.text, l.url))
  }

  // ---------------------------------------------------------------------
  // cleanUpHTMLTitle
  // ---------------------------------------------------------------------

  /** `T\d+` matches at `k`. */
  predicate TicketAt(s: string, k: nat) {
    k + 1 < |s| && s[k] == 'T' && IsDigit(s[k + 1])
  }

  predicate HasTicket(s: string) {
    exists k: nat :: k < |s| && TicketAt(s, k)
  }

  /** The leftmost `T\d+` at or after `from`. */
  function FirstTicket(s: string, from: nat): (r: Option<nat>)
    requires from <= |s|
    decreases |s| - from
    ensures r.Some? ==> from <= r.value && TicketAt(s, r.value)
    ensures r.Some? ==> forall k :: from <= k < r.value ==> !TicketAt(s, k)
    ensures r.None? ==> forall k :: from <= k ==> !TicketAt(s, k)
  {
    if from == |s| then None
    else if TicketAt(s, from) then Some(from)
    else FirstTicket(s, from + 1)
  }

  /** Where the leftmost `T\d+` match ends: the digit run is taken greedily. */
  function TicketMatchEnd(s: string): (r: Option<nat>)
    ensures r.None? <==> !HasTicket(s)
    ensures r.Some? ==> r.value <= |s| && (r.value == |s| || !IsDigit(s[r.value]))
    ensures r.Some? ==> exists k: nat :: k + 1 < r.value && TicketAt(s, k) && (forall j :: 0 <= j < k ==> !TicketAt(s, j))
                                    && IsDigitRun(s[k + 1..r.value])
  {
    match FirstTicket(s, 0)
    case None => None
    case Some(k) =>
      var e := DigitRunEnd(s, k + 1);
      assert k + 1 < e;
      Some(e)
  }

  /** A `T\d+` at `i` with none before it is the leftmost. */
  lemma FirstTicketIs(s: string, i: nat)
    requires TicketAt(s, i) && forall j :: 0 <= j < i ==> !TicketAt(s, j)
    ensures FirstTicket(s, 0) == Some(i)
  {
  }

  /** In `pre + "T" + digits + rest`, with no ticket in `pre`, the match ends right after `digits`. */
  lemma TicketMatchEndAfter(pre: string, digits: string, rest: string)
    requires !HasTicket(pre) && IsDigitRun(digits) && (rest == [] || !IsDigit(rest[0]))
    ensures TicketMatchEnd(pre + "T" + digits + rest) == Some(|pre| + 1 + |digits|)
  {
    LeftmostTicketAfter(pre, digits, rest);
    DigitsAfter(pre + "T", digits, rest);
    TicketMatchEndAt(pre + "T" + digits + rest, |pre|, |pre| + 1 + |digits|);
  }

  lemma TicketMatchEndAt(s: string, k: nat, e: nat)
    requires k < |s| && FirstTicket(s, 0) == Some(k) && DigitRunEnd(s, k + 1) == e
    ensures TicketMatchEnd(s) == Some(e)
  {
  }

  /** The ticket after a ticket-free `pre` is the leftmost. */
  lemma LeftmostTicketAfter(pre: string, digits: string, rest: string)
    requires !HasTicket(pre) && IsDigitRun(digits)
    ensures FirstTicket(pre + "T" + digits + rest, 0) == Some(|pre|)
  {
    var s := pre + "T" + digits + rest;
    assert s[|pre|] == 'T' && s[|pre| + 1] == digits[0];
    forall j | 0 <= j < |pre| ensures !TicketAt(s, j) {
      if j + 1 < |pre| {
        assert s[j] == pre[j] && s[j + 1] == pre[j + 1];
        assert !TicketAt(pre, j);
      } else {
        assert s[j + 1] == 'T';
      }
    }
    FirstTicketIs(s, |pre|);
  }

  /** The digit run after `x` is exactly `digits` when `rest` does not start with a digit. */
  lemma DigitsAfter(x: string, digits: string, rest: string)
    requires AllDigits(digits) && (rest == [] || !IsDigit(rest[0]))
    ensures DigitRunEnd(x + digits + rest, |x|) == |x| + |digits|
  {
    assert x + digits + rest == x + (digits + rest);
    DigitRunEndShift(x, digits + rest, 0);
    DigitRunEndOf(digits, rest, 0);
  }

  /** The cleaned title as a function: anchor dropped, everything through the first `T\d+` dropped and trimmed, entities decoded. */
  function CleanedTitle(title: string, p: Platform): string {
    var t := if HasPrefix(title, Anchor) then title[|Anchor|..] else title;
    var t' := match TicketMatchEnd(t) case None => t case Some(e) => Trim(t[e..]);
    HtmlDecoded(t', p)
  }

  /** `cleanUpHTMLTitle`, step by step on `cleanedTitle`. */
  method CleanUpHtmlTitle(title: string, p: Platform) returns (cleaned: string)
    ensures cleaned == CleanedTitle(title, p)
  {
    var cleanedTitle := title;
    if HasPrefix(cleanedTitle, Anchor) {
      cleanedTitle := cleanedTitle[|Anchor|..];
    }
    var range := TicketMatchEnd(cleanedTitle);
    if range.Some? {
      cleanedTitle := Trim(cleanedTitle[range.value..]);
    }
    cleaned := HtmlDecoded(cleanedTitle, p);
  }



  /** Behind the anchor, the clean-up cuts `t` at its ticket's end, trims and decodes. */
  lemma CleanedBehindAnchor(t: string, e: nat, p: Platform)
    requires TicketMatchEnd(t) == Some(e)
    ensures CleanedTitle(Anchor + t, p) == HtmlDecoded(Trim(t[e..]), p)
  {
    var title := Anchor + t;
    assert title[..|Anchor|] == Anchor && title[|Anchor|..] == t;
  }

  /** A ticket right at the start ends after its digits. */
  lemma TicketMatchEndAtStart(digits: string, rest: string)
    requires IsDigitRun(digits) && (rest == [] || !IsDigit(rest[0]))
    ensures TicketMatchEnd("T" + digits + rest) == Some(1 + |digits|)
  {
    var s := "T" + digits + rest;
    assert s[0] == 'T' && s[1] == digits[0];
    FirstTicketIs(s, 0);
    DigitsAfter("T", digits, rest);
    TicketMatchEndAt(s, 0, 1 + |digits|);
  }

  /** Whatever comes before the first ticket, it is dropped with the ticket, and the rest is trimmed and decoded. */
  lemma CleanUpTicketTitle(pre: string, digits: string, rest: string, p: Platform)
    requires !HasPrefix(pre + "T" + digits + rest, Anchor)
    requires !HasTicket(pre) && IsDigitRun(digits) && (rest == [] || !IsDigit(rest[0]))
    ensures CleanedTitle(pre + "T" + digits + rest, p) == HtmlDecoded(Trim(rest), p)
  {
    var t := pre + "T" + digits + rest;
    TicketMatchEndAfter(pre, digits, rest);
    assert t[|pre| + 1 + |digits|..] == rest;
  }

  /** The same behind the anchor: the anchor goes first, then everything through the first ticket. */
  lemma CleanUpAnchoredTicketTitle(pre: string, digits: string, rest: string, p: Platform)
    requires !HasTicket(pre) && IsDigitRun(digits) && (rest == [] || !IsDigit(rest[0]))
    ensures CleanedTitle(Anchor + (pre + "T" + digits + rest), p) == HtmlDecoded(Trim(rest), p)
  {
    var t := pre + "T" + digits + rest;
    TicketMatchEndAfter(pre, digits, rest);
    CleanedBehindAnchor(t, |pre| + 1 + |digits|, p);
    assert t[|pre| + 1 + |digits|..] == rest;
  }

  /** The usual page title `⚓ T<digits> <rest>` cleans up to the decoded, trimmed rest. */
  lemma CleanUpTaskTitle(digits: string, rest: string, p: Platform)
    requires IsDigitRun(digits) && (rest == [] || !IsDigit(rest[0]))
    ensures CleanedTitle(Anchor + "T" + digits + rest, p) == HtmlDecoded(Trim(rest), p)
  {
    var t := "T" + digits + rest;
    assert Anchor + "T" + digits + rest == Anchor + t;
    TicketMatchEndAtStart(digits, rest);
    CleanedBehindAnchor(t, 1 + |digits|, p);
    assert t[1 + |digits|..] == rest;
  }

  /** A title without the anchor and without any `T\d+` is only entity-decoded. */
  lemma CleanUpPlainTitle(title: string, p: Platform)
    requires !HasPrefix(title, Anchor) && !HasTicket(title)
    ensures CleanedTitle(title, p) == HtmlDecoded(title, p)
  {
  }

  // ---------------------------------------------------------------------
  // fallbackHTMLFetch
  // ---------------------------------------------------------------------

  /** The page is Phabricator's login wall. */
  predicate IsLoginWall(title: string, html: string) {
    title == "Login" && Contains(html, AuthMarker)
  }

  /** What `fallbackHTMLFetch` hands to `setLinkToPasteboard`, or nothing. */
  function FallbackLink(objectName: string, urlString: string, net: Network, p: Platform): (r: Option<Link>)
    ensures r.Some? ==> r.value.url == urlString && HasPrefix(r.value.text, objectName + ": ")
    ensures net(urlString).Failed? ==> r.None?
    ensures net(urlString).Response? && !Is2xx(net(urlString).status) ==> r.None?
    ensures var reply := net(urlString); reply.Response? && p.utf8(reply.data).None? ==> r.None?
    ensures var reply := net(urlString);
      reply.Response? && p.utf8(reply.data).Some? && PageTitle(p.utf8(reply.data).value).None? ==> r.None?
  {
    if p.parseUrl(urlString).None? then None
    else match net(urlString)
      case Failed => None
      case Response(status, data) =>
        if !Is2xx(status) then None
        else match p.utf8(data)
          case None => None
          case Some(html) =>
            match PageTitle(html)
            case None => None
            case Some(raw) =>
              var title := CleanedTitle(Trim(raw), p);
              if IsLoginWall(title, html) then None
              else
                assert (objectName + ": " + title)[..|objectName + ": "|] == objectName + ": ";
                Some(Link(objectName + ": " + title, urlString))
  }

  /** An HTML page whose title element is `raw` gives `objectName: <cleaned raw>`, unless it is the login wall. */
  lemma FallbackOfPage(objectName: string, urlString: string, net: Network, p: Platform, status: int, data: Bytes, html: string, raw: string)
    requires p.parseUrl(urlString).Some? && net(urlString) == Response(status, data) && Is2xx(status)
    requires p.utf8(data) == Some(html) && PageTitle(html) == Some(raw)
    ensures IsLoginWall(CleanedTitle(Trim(raw), p), html) ==> FallbackLink(objectName, urlString, net, p).None?
    ensures !IsLoginWall(CleanedTitle(Trim(raw), p), html) ==>
      FallbackLink(objectName, urlString, net, p) == Some(Link(objectName + ": " + CleanedTitle(Trim(raw), p), urlString))
  {
  }

  /** A page without any `<title>` writes nothing. */
  lemma FallbackWithoutTitle(objectName: string, urlString: string, net: Network, p: Platform, status: int, data: Bytes, html: string)
    requires net(urlString) == Response(status, data) && p.utf8(data) == Some(html)
    requires !Contains(html, TitleOpen)
    ensures FallbackLink(objectName, urlString, net, p).None?
  {
  }

  /** `fallbackHTMLFetch`: the guards in order, then the reassigned `title`. */
  method FallbackHtmlFetch(objectName: string, urlString: string, net: Network, p: Platform) returns (link: Option<Link>)
    ensures link == FallbackLink(objectName, urlString, net, p)
  {
    link := None;
    if p.parseUrl(urlString).None? {
      return;
    }
    var reply := net(urlString);
    if reply.Failed? {
      return;
    }
    if !Is2xx(reply.status) {
      return;
    }
    var htmlString := p.utf8(reply.data);
    if htmlString.None? {
      return;
    }
    var raw := PageTitle(htmlString.value);
    if raw.None? {
      return;
    }
    var title := Trim(raw.value);
    title := CleanUpHtmlTitle(title, p);
    if title == "Login" && Contains(htmlString.value, AuthMarker) {
      return;
    }
    link := Some(Link(objectName + ": " + title, urlString));
  }

  // ---------------------------------------------------------------------
  // fetchTitleAndSetToPasteboard
  // ---------------------------------------------------------------------

  /** The glyph for a status, when `statusMap` has one. */
  function StatusGlyph(status: string): (g: Option<string>)
    ensures g.Some? <==> status == "closed"
    ensures g.Some? ==> g.value == ClosedGlyph
  {
    if status in StatusMap then Some(StatusMap[status]) else None
  }

  /** The label and URL built from a decoded phabroxy record. */
  function ProxyLink(r: PhabroxyResponse, urlString: string, showStatus: bool): Link {
    var comment := LastPiece(urlString, '#').GetOr("");
    var spliced := if Contains(urlString, "#") then ReplaceAll(r.fullName, r.name, r.name + "#" + comment) else r.fullName;
    var uri := if Contains(urlString, "#") then r.uri + "#" + comment else r.uri;
    var glyph := StatusGlyph(r.status);
    Link(if showStatus && glyph.Some? then glyph.value + spliced else spliced, uri)
  }

  /** Without a `#` in the URL the record's own name and URI are used. */
  lemma ProxyWithoutComment(r: PhabroxyResponse, urlString: string)
    requires !Contains(urlString, "#")
    ensures ProxyLink(r, urlString, false) == Link(r.fullName, r.uri)
  {
  }

  /**
   * The comment splice: for `urlString = base#c` and a full name that starts
   * with its `name` once, the comment lands after the name and on the URI.
   */
  lemma ProxyCommentSplice(r: PhabroxyResponse, base: string, c: string, rest: string)
    requires c != [] && '#' !in c
    requires r.name != [] && r.fullName == r.name + rest && !Contains(rest, r.name)
    ensures ProxyLink(r, base + "#" + c, false) == Link(r.name + "#" + c + rest, r.uri + "#" + c)
  {
    var u := base + "#" + c;
    assert u == base + ['#'] + c;
    LastPieceAfter(base, '#', c);
    assert ContainsAt(u, |base|, "#");
    ReplaceAllLeading(r.name, rest, r.name + "#" + c);
    ReplaceAllAbsent(rest, r.name, r.name + "#" + c);
  }

  /** The glyph is a prefix of the label exactly when status display is on and the ticket is closed. */
  lemma ProxyStatusGlyph(r: PhabroxyResponse, urlString: string, showStatus: bool)
    ensures ProxyLink(r, urlString, showStatus).text ==
      (if showStatus && r.status == "closed" then ClosedGlyph else "") + ProxyLink(r, urlString, false).text
    ensures ProxyLink(r, urlString, showStatus).url == ProxyLink(r, urlString, false).url
  {
  }

  /** The phabroxy lookup decoded into a record. */
  predicate ProxyDecodes(reply: Reply, p: Platform) {
    reply.Response? && Is2xx(reply.status) && p.decodePhabroxy(reply.data).Some?
  }

  /** What `fetchTitleAndSetToPasteboard` eventually hands to `setLinkToPasteboard`, or nothing. */
  function Enrichment(text: string, urlString: string, net: Network, showStatus: bool, p: Platform): (l: Option<Link>)
    ensures p.parseUrl(LookupBase + text).Some? && !ProxyDecodes(net(LookupBase + text), p) ==>
      l == FallbackLink(text, urlString, net, p)
    ensures p.parseUrl(LookupBase + text).Some? && ProxyDecodes(net(LookupBase + text), p) ==>
      l == Some(ProxyLink(p.decodePhabroxy(net(LookupBase + text).data).value, urlString, showStatus))
    ensures p.parseUrl(LookupBase + text).None? ==> l.None?
  {
    var lookup := LookupBase + text;
    if p.parseUrl(lookup).None? then None
    else match net(lookup)
      case Failed => FallbackLink(text, urlString, net, p)
      case Response(status, data) =>
        if !Is2xx(status) then FallbackLink(text, urlString, net, p)
        else match p.decodePhabroxy(data)
          case None => FallbackLink(text, urlString, net, p)
          case Some(r) => Some(ProxyLink(r, urlString, showStatus))
  }

  /** `fetchTitleAndSetToPasteboard`: the guards, then `fullName` and `uri` updated in place. */
  method FetchTitle(text: string, urlString: string, net: Network, showStatus: bool, p: Platform) returns (link: Option<Link>)
    ensures link == Enrichment(text, urlString, net, showStatus, p)
  {
    var lookup := LookupBase + text;
    if p.parseUrl(lookup).None? {
      return None;
    }
    var reply := net(lookup);
    if reply.Failed? || !Is2xx(reply.status) {
      link := FallbackHtmlFetch(text, urlString, net, p);
      return;
    }
    var decoded := p.decodePhabroxy(reply.data);
    if decoded.None? {
      link := FallbackHtmlFetch(text, urlString, net, p);
      return;
    }
    var r := decoded.value;
    var fullName := r.fullName;
    var uri := r.uri;
    if Contains(urlString, "#") {
      var comment := LastPiece(urlString, '#').GetOr("");
      fullName := ReplaceAll(fullName, r.name, r.name + "#" + comment);
      uri := uri + "#" + comment;
    }
    if showStatus && r.status in StatusMap {
      fullName := StatusMap[r.status] + fullName;
    }
    link := Some(Link(fullName, uri));
  }
}
