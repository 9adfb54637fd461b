/**
 * LoosePhabric/Handlers/GitlabHandler.swift: the merge-request grammar of
 * `handle` and the page fetch with title extraction, suffix stripping,
 * status glyphs and label composition.
 */
module GitlabHandler {
  import opened Wrappers
  import opened Text
  import opened Foundation
  import opened BaseHandler

  const DefaultsKey: string := "gitlab"
  const Host: string := "gitlab.wikimedia.org"
  const RepoPrefix: string := "/repos/mediawiki/"
  const MergeInfix: string := "/-/merge_requests/"

  const MergedMarker: string := "data-state=\"merged\""
  const ClosedMarker: string := "data-state=\"closed\""
  const MergedGlyph: string := "\U{2705}"
  const ClosedGlyph: string := "\U{274C}"

  /** Where the run of digits that ends `s` starts. */
  function TrailingDigitsStart(s: string): (k: nat)
    ensures k <= |s| && AllDigits(s[k..])
    ensures k == 0 || !IsDigit(s[k - 1])
  {
    if s == [] || !IsDigit(s[|s| - 1]) then |s|
    else
      var k := TrailingDigitsStart(s[..|s| - 1]);
      assert s[k..] == s[..|s| - 1][k..] + [s[|s| - 1]];
      k
  }

  lemma {:induction false} TrailingDigitsOf(a: string, d: string)
    requires a != [] && !IsDigit(a[|a| - 1]) && AllDigits(d)
    ensures TrailingDigitsStart(a + d) == |a|
    decreases |d|
  {
    if d == [] {
      assert a + d == a;
    } else {
      var s := a + d;
      assert s[|s| - 1] == d[|d| - 1];
      assert s[..|s| - 1] == a + d[..|d| - 1];
      TrailingDigitsOf(a, d[..|d| - 1]);
    }
  }

  /**
   * The named groups of a whole match of
   * `/repos/mediawiki/(?<repo>.+)/-/merge_requests/(?<reqid>\d+)` against the
   * path. The infix ends in `/`, which is not a digit, so `reqid` is the
   * whole trailing digit run and the split is unique.
   */
  function MergeRequestPath(path: string): (r: Option<(string, string)>)
    ensures r.Some? ==>
      path == RepoPrefix + r.value.0 + MergeInfix + r.value.1
      && r.value.0 != [] && NoLineBreak(r.value.0) && IsDigitRun(r.value.1)
  {
    if !HasPrefix(path, RepoPrefix) then None
    else
      var rest := path[|RepoPrefix|..];
      var k := TrailingDigitsStart(rest);
      if k == |rest| || k < |MergeInfix| + 1 || rest[k - |MergeInfix|..k] != MergeInfix then None
      else
        var repo := rest[..k - |MergeInfix|];
        if !NoLineBreak(repo) then None
        else
          assert rest == repo + MergeInfix + rest[k..];
          assert path == RepoPrefix + rest;
          Some((repo, rest[k..]))
  }

  /** Every path of the merge-request shape is matched, with its repository and request number. */
  lemma MergeRequestPathOf(repo: string, reqid: string)
    requires repo != [] && NoLineBreak(repo) && IsDigitRun(reqid)
    ensures MergeRequestPath(RepoPrefix + repo + MergeInfix + reqid) == Some((repo, reqid))
  {
    var path := RepoPrefix + repo + MergeInfix + reqid;
    assert path[..|RepoPrefix|] == RepoPrefix;
    var rest := path[|RepoPrefix|..];
    assert rest == (repo + MergeInfix) + reqid;
    TrailingDigitsOf(repo + MergeInfix, reqid);
    var k := |repo + MergeInfix|;
    assert rest[k - |MergeInfix|..k] == MergeInfix;
    assert rest[..k - |MergeInfix|] == repo;
    assert rest[k..] == reqid;
  }

  /** `handle` without its final side effect: `repo~reqid` and the URL it hands to `setPasteboard`. */
  function Match(text: string, p: Platform): (r: Option<Link>)
    ensures r.Some? ==>
      p.parseUrl(text).Some? && p.parseUrl(text).value.host == Some(Host)
      && r.value.url == p.parseUrl(text).value.absoluteString
  {
    match p.parseUrl(text)
    case None => None
    case Some(u) =>
      if u.host != Some(Host) then None
      else match MergeRequestPath(u.path)
        case None => None
        case Some((repo, reqid)) => Some(Link(repo + "~" + reqid, u.absoluteString))
  }

  /** A merge-request URL gives `repo~reqid`, the repository without the `repos/mediawiki/` prefix. */
  lemma MergeRequestUrl(text: string, u: Url, repo: string, reqid: string, p: Platform)
    requires p.parseUrl(text) == Some(u) && u.host == Some(Host)
    requires u.path == RepoPrefix + repo + MergeInfix + reqid
    requires repo != [] && NoLineBreak(repo) && IsDigitRun(reqid)
    ensures Match(text, p) == Some(Link(repo + "~" + reqid, u.absoluteString))
  {
    MergeRequestPathOf(repo, reqid);
  }

  /** A path outside `/repos/mediawiki/`, or one that does not end in a digit, is refused. */
  lemma OtherPathRejected(text: string, u: Url, p: Platform)
    requires p.parseUrl(text) == Some(u)
    requires !HasPrefix(u.path, RepoPrefix) || u.path == [] || !IsDigit(u.path[|u.path| - 1])
    ensures Match(text, p).None?
  {
    if HasPrefix(u.path, RepoPrefix) && u.path != [] {
      var rest := u.path[|RepoPrefix|..];
      if rest != [] {
        assert rest[|rest| - 1] == u.path[|u.path| - 1];
      }
    }
  }

  /** `handle`: true exactly when it calls `setPasteboard`. */
  function Handle(text: string, d: Defaults, p: Platform): (r: Option<Action>)
    ensures r.Some? <==> Match(text, p).Some?
    ensures r.Some? ==> r.value == SetPasteboard(d, Match(text, p).value.text, Match(text, p).value.url)
  {
    match Match(text, p)
    case None => None
    case Some(l) => Some(SetPasteboard(d, l.text, l.url))
  }

  // ---------------------------------------------------------------------
  // The ` (!N) · …` suffix
  // ---------------------------------------------------------------------

  /** `u` wholly matches ` \(!\d+\) ·.+`. */
  predicate MergeTail(u: string) {
    |u| >= 3 && u[..3] == " (!" &&
    var e := DigitRunEnd(u, 3);
    e > 3 && ContainsAt(u, e, ") \U{B7}") && e + 3 < |u| && NoLineBreak(u[e + 3..])
  }

  /** Splitting `s` at `k` gives a whole match of `(?<title>.+) \(!\d+\) ·.+`. */
  predicate ValidSplit(s: string, k: nat) {
    1 <= k < |s| && NoLineBreak(s[..k]) && MergeTail(s[k..])
  }

  /** The largest valid split at or below `k`: the greedy `.+` keeps as much as it can. */
  function LastSplit(s: string, k: nat): (r: Option<nat>)
    ensures r.Some? ==> r.value <= k && ValidSplit(s, r.value)
    ensures r.Some? ==> forall m :: r.value < m <= k ==> !ValidSplit(s, m)
    ensures r.None? ==> forall m :: 0 <= m <= k ==> !ValidSplit(s, m)
  {
    if k == 0 then None
    else if ValidSplit(s, k) then Some(k)
    else LastSplit(s, k - 1)
  }

  /** The title without its ` (!N) · …` suffix, or unchanged when it has none. */
  function StripMergeSuffix(s: string): (r: string)
    ensures (forall m :: 0 <= m < |s| ==> !ValidSplit(s, m)) ==> r == s
    ensures (exists m :: 0 <= m < |s| && ValidSplit(s, m)) ==> exists k :: 0 <= k < |s| && ValidSplit(s, k) && r == s[..k]
  {
    if |s| == 0 then s
    else match LastSplit(s, |s| - 1)
      case None => s
      case Some(k) => s[..k]
  }

  /** The usual merge-request page title `<t> (!N) · <rest>` is reduced to `<t>`. */
  lemma StripTypicalTitle(t: string, d: string, rest: string)
    requires t != [] && NoLineBreak(t) && IsDigitRun(d)
    requires rest != [] && NoLineBreak(rest) && '(' !in rest
    ensures StripMergeSuffix(t + " (!" + d + ") \U{B7}" + rest) == t
  {
    var u := " (!" + d + ") \U{B7}" + rest;
    assert t + " (!" + d + ") \U{B7}" + rest == t + u;
    TypicalSplit(t, u, d, rest);
    NoLaterSplit(t, u);
    StripAtLastSplit(t + u, |t|);
  }

  /** A valid split with none after it is where the suffix is cut. */
  lemma StripAtLastSplit(s: string, k: nat)
    requires k < |s| && ValidSplit(s, k)
    requires forall m :: k < m < |s| ==> !ValidSplit(s, m)
    ensures StripMergeSuffix(s) == s[..k]
  {
    var r := LastSplit(s, |s| - 1);
    assert r.Some?;
    assert r.value == k;
  }

  /** The typical title splits validly right after `t`. */
  lemma TypicalSplit(t: string, u: string, d: string, rest: string)
    requires t != [] && NoLineBreak(t) && IsDigitRun(d)
    requires rest != [] && NoLineBreak(rest) && u == " (!" + d + ") \U{B7}" + rest
    ensures |t| < |t + u| && ValidSplit(t + u, |t|)
  {
    var s := t + u;
    assert s[..|t|] == t && s[|t|..] == u;
    TypicalTail(d, rest);
  }

  lemma TypicalTail(d: string, rest: string)
    requires IsDigitRun(d) && rest != [] && NoLineBreak(rest)
    ensures MergeTail(" (!" + d + ") \U{B7}" + rest)
  {
    var u := " (!" + d + ") \U{B7}" + rest;
    assert u[..3] == " (!";
    assert u == " (!" + (d + (") \U{B7}" + rest));
    DigitRunEndShift(" (!", d + (") \U{B7}" + rest), 0);
    DigitRunEndOf(d, ") \U{B7}" + rest, 0);
    var e := 3 + |d|;
    assert DigitRunEnd(u, 3) == e;
    assert u[e..e + 3] == ") \U{B7}";
    assert u[e + 3..] == rest;
  }

  /** A split needs `(` right after it, and past the first two characters of `u` there is none. */
  lemma NoLaterSplit(t: string, u: string)
    requires |u| >= 2 && forall i :: 2 <= i < |u| ==> u[i] != '('
    ensures forall m :: |t| < m < |t + u| ==> !ValidSplit(t + u, m)
  {
    var s := t + u;
    forall m | |t| < m < |s| ensures !ValidSplit(s, m) {
      if m + 1 < |s| {
        assert s[m + 1] == u[m + 1 - |t|];
      }
    }
  }

  /** With status display on, the merged marker wins over the closed marker. */
  function StatusTitle(title: string, html: string, showStatus: bool): (r: string)
    ensures !showStatus ==> r == title
    ensures showStatus && Contains(html, MergedMarker) ==> r == MergedGlyph + title
    ensures showStatus && !Contains(html, MergedMarker) && Contains(html, ClosedMarker) ==> r == ClosedGlyph + title
    ensures !Contains(html, MergedMarker) && !Contains(html, ClosedMarker) ==> r == title
  {
    if !showStatus then title
    else if Contains(html, MergedMarker) then MergedGlyph + title
    else if Contains(html, ClosedMarker) then ClosedGlyph + title
    else title
  }

  // ---------------------------------------------------------------------
  // fetchTitleAndSetToPasteboard
  // ---------------------------------------------------------------------

  /** `title (text)`: the identifier after the title. */
  function Labelled(title: string, text: string): (r: string)
    ensures HasPrefix(r, title) && HasSuffix(r, " (" + text + ")")
    ensures |r| == |title| + |text| + 3
  {
    var r := title + " (" + text + ")";
    assert r[..|title|] == title;
    assert r[|r| - |" (" + text + ")"|..] == " (" + text + ")";
    r
  }

  /** What the fetch eventually hands to `setLinkToPasteboard`, or nothing. */
  function Enrichment(text: string, urlString: string, net: Network, showStatus: bool, p: Platform): (r: Option<Link>)
    ensures r.Some? ==> r.value.url == urlString && HasSuffix(r.value.text, " (" + text + ")")
    ensures net(urlString).Failed? ==> r.None?
    ensures net(urlString).Response? && !Is2xx(net(urlString).status) ==> r.None?
    ensures var reply := net(urlString); reply.Response? && p.utf8(reply.data).None? ==> r.None?
    ensures var reply := net(urlString);
      reply.Response? && p.utf8(reply.data).Some? && PageTitle(p.utf8(reply.data).value).None? ==> r.None?
  {
    if p.parseUrl(urlString).None? then None
    else match net(urlString)
      case Failed => None
      case Response(status, data) =>
        if !Is2xx(status) then None
        else match p.utf8(data)
          case None => None
          case Some(html) =>
            match PageTitle(html)
            case None => None
            case Some(raw) =>
              var title := StatusTitle(StripMergeSuffix(HtmlDecoded(Trim(raw), p)), html, showStatus);
              Some(Link(Labelled(title, text), urlString))
  }

  /** A page whose title element holds `raw` gives the stripped, decorated title with the identifier after it. */
  lemma EnrichmentOfPage(text: string, urlString: string, net: Network, showStatus: bool, p: Platform, status: int, data: Bytes, html: string, raw: string)
    requires p.parseUrl(urlString).Some? && net(urlString) == Response(status, data) && Is2xx(status)
    requires p.utf8(data) == Some(html) && PageTitle(html) == Some(raw)
    ensures Enrichment(text, urlString, net, showStatus, p) ==
      Some(Link(Labelled(StatusTitle(StripMergeSuffix(HtmlDecoded(Trim(raw), p)), html, showStatus), text), urlString))
  {
  }

  /** A page without any `<title>` writes nothing. */
  lemma NoTitleNoWrite(text: string, urlString: string, net: Network, showStatus: bool, p: Platform, status: int, data: Bytes, html: string)
    requires net(urlString) == Response(status, data) && p.utf8(data) == Some(html) && !Contains(html, TitleOpen)
    ensures Enrichment(text, urlString, net, showStatus, p).None?
  {
  }

  /** The fetch: the guards in order, then the reassigned `title`. */
  method FetchTitle(text: string, urlString: string, net: Network, showStatus: bool, p: Platform) returns (link: Option<Link>)
    ensures link == Enrichment(text, urlString, net, showStatus, p)
  {
    link := None;
    if p.parseUrl(urlString).None? {
      return;
    }
    var reply := net(urlString);
    if reply.Failed? || !Is2xx(reply.status) {
      return;
    }
    var htmlString := p.utf8(reply.data);
    if htmlString.None? {
      return;
    }
    var raw := PageTitle(htmlString.value);
    if raw.None? {
      return;
    }
    var title := HtmlDecoded(Trim(raw.value), p);
    title := StripMergeSuffix(title);
    if showStatus {
      if Contains(htmlString.value, MergedMarker) {
        title := MergedGlyph + title;
      } else if Contains(htmlString.value, ClosedMarker) {
        title := ClosedGlyph + title;
      }
    }
    link := Some(Link(title + " (" + text + ")", urlString));
  }
}
