/**
 * LoosePhabric/Handlers/GerritHandler.swift: the three shapes `handle`
 * accepts (a bare Change-Id, a `/r/N` URL and a `/c/<project>/+/N` URL) and
 * the change-API fetch with its XSSI stripping and title composition.
 */
module GerritHandler {
  import opened Wrappers
  import opened Text
  import opened Foundation
  import opened BaseHandler

  const DefaultsKey: string := "gerrit"
  const Host: string := "gerrit.wikimedia.org"
  const QueryBase: string := "https://gerrit.wikimedia.org/r/q/"
  const ChangesApiBase: string := "https://gerrit.wikimedia.org/r/changes/"

  /** Gerrit's guard against cross-site script inclusion, put before every JSON body. */
  const XssiPrefix: string := ")]}'"

  predicate IsHexDigit(c: char) {
    IsDigit(c) || ('a' <= c <= 'f') || ('A' <= c <= 'F')
  }

  /** `s` wholly matches `I[a-fA-F0-9]{40}`. */
  predicate IsChangeId(s: string) {
    |s| == 41 && s[0] == 'I' && forall i :: 1 <= i < 41 ==> IsHexDigit(s[i])
  }

  /** The percent-encoded path wholly matches `/r/\d+`. */
  predicate IsLegacyChangePath(path: string) {
    HasPrefix(path, "/r/") && IsDigitRun(path[3..])
  }

  /** A `c` component comes before the first `+` component, and `+` is the last component. */
  predicate PlusIsLast(pc: seq<string>) {
    var c := FirstIndexOf(pc, "c");
    var plus := FirstIndexOf(pc, "+");
    c.Some? && plus.Some? && c.value < plus.value && plus.value + 1 == |pc|
  }

  /**
   * `project~number` from the components: the ones strictly between the
   * first `c` and the first `+`, joined with `%2F`, then the one after `+`.
   * The source reads past the end of the array when `+` is the last
   * component; that trap is the requires.
   */
  function ProjectChangeId(pc: seq<string>): (r: Option<string>)
    requires !PlusIsLast(pc)
    ensures r.Some? <==> "c" in pc && "+" in pc && FirstIndexOf(pc, "c").value < FirstIndexOf(pc, "+").value
  {
    var c := FirstIndexOf(pc, "c");
    var plus := FirstIndexOf(pc, "+");
    if c.Some? && plus.Some? && c.value < plus.value then
      Some(Join(pc[c.value + 1..plus.value], "%2F") + "~" + pc[plus.value + 1])
    else None
  }

  /** The inputs on which `handle` crashes: the force-unwrapped query URL, or an index past the last component. */
  predicate Traps(text: string, p: Platform) {
    if IsChangeId(text) then p.parseUrl(QueryBase + text).None?
    else
      p.parseUrl(text).Some? && p.parseUrl(text).value.host == Some(Host)
      && !IsLegacyChangePath(p.parseUrl(text).value.path)
      && PlusIsLast(PathComponents(p.parseUrl(text).value.path))
  }

  /** `handle` without its final side effect: the change ID and URL it hands to `setPasteboard`. */
  function Match(text: string, p: Platform): (r: Option<Link>)
    requires !Traps(text, p)
    ensures IsChangeId(text) ==> r == Some(Link(text, p.parseUrl(QueryBase + text).value.absoluteString))
    ensures !IsChangeId(text) && r.Some? ==>
      p.parseUrl(text).Some? && p.parseUrl(text).value.host == Some(Host)
      && r.value.url == p.parseUrl(text).value.absoluteString
  {
    if IsChangeId(text) then Some(Link(text, p.parseUrl(QueryBase + text).value.absoluteString))
    else match p.parseUrl(text)
      case None => None
      case Some(u) =>
        if u.host != Some(Host) then None
        else
          var pc := PathComponents(u.path);
          if IsLegacyChangePath(u.path) then Some(Link(pc[|pc| - 1], u.absoluteString))
          else match ProjectChangeId(pc)
            case None => None
            case Some(id) => Some(Link(id, u.absoluteString))
  }

  /** `handle`: true exactly when it calls `setPasteboard`. */
  function Handle(text: string, d: Defaults, p: Platform): (r: Option<Action>)
    requires !Traps(text, p)
    ensures r.Some? <==> Match(text, p).Some?
    ensures r.Some? ==> r.value == SetPasteboard(d, Match(text, p).value.text, Match(text, p).value.url)
  {
    match Match(text, p)
    case None => None
    case Some(l) => Some(SetPasteboard(d, l.text, l.url))
  }

  /** `https://gerrit.wikimedia.org/r/<digits>` gives the change number itself. */
  lemma LegacyChangeNumber(text: string, u: Url, n: string, p: Platform)
    requires !IsChangeId(text) && p.parseUrl(text) == Some(u) && u.host == Some(Host)
    requires u.path == "/r/" + n && IsDigitRun(n)
    ensures !Traps(text, p) && Match(text, p) == Some(Link(n, u.absoluteString))
  {
    assert u.path[..3] == "/r/" && u.path[3..] == n;
    LegacyPathComponents(u.path);
  }

  /** `/r/<digits>` has the three components `/`, `r` and the number. */
  lemma LegacyPathComponents(path: string)
    requires IsLegacyChangePath(path)
    ensures PathComponents(path) == ["/", "r", path[3..]]
  {
    var n := path[3..];
    assert path == "/r/" + n;
    assert forall i :: 0 <= i < |n| ==> n[i] != '/';
    assert Join(["r", n], "/") == "r/" + n;
    ComponentsOfAbsolutePath(["r", n]);
    assert path == "/" + Join(["r", n], "/");
  }

  /** A path with more than three components is no legacy change path. */
  lemma LongPathNotLegacy(path: string)
    ensures |PathComponents(path)| > 3 ==> !IsLegacyChangePath(path)
  {
    if IsLegacyChangePath(path) {
      LegacyPathComponents(path);
    }
  }

  /**
   * The `c…+` shape: whatever precedes `c` (holding neither `c` nor `+`),
   * the project components (holding no `+`) and anything after the change
   * number, such as a patchset, give `project~number`.
   */
  lemma ProjectChangeIdOf(pre: seq<string>, project: seq<string>, n: string, rest: seq<string>)
    requires "c" !in pre && "+" !in pre && "+" !in project
    ensures var pc := pre + ["c"] + project + ["+"] + ([n] + rest);
      !PlusIsLast(pc) && ProjectChangeId(pc) == Some(Join(project, "%2F") + "~" + n)
  {
    var head := pre + ["c"] + project;
    var tail := [n] + rest;
    var pc := head + ["+"] + tail;
    CPlusPositions(pre, project, tail);
    assert pc[|pre| + 1..|head|] == project;
    assert pc[|head| + 1] == n;
    assert ProjectChangeId(pc) == Some(Join(pc[|pre| + 1..|head|], "%2F") + "~" + pc[|head| + 1]);
  }

  lemma CPlusPositions(pre: seq<string>, project: seq<string>, tail: seq<string>)
    requires "c" !in pre && "+" !in pre && "+" !in project
    ensures var head := pre + ["c"] + project;
      FirstIndexOf(head + ["+"] + tail, "c") == Some(|pre|)
      && FirstIndexOf(head + ["+"] + tail, "+") == Some(|head|)
  {
    var head := pre + ["c"] + project;
    var pc := head + ["+"] + tail;
    assert pc == pre + ["c"] + (project + ["+"] + tail);
    FirstIndexAfter(pre, "c", project + ["+"] + tail);
    assert "+" !in head;
    FirstIndexAfter(head, "+", tail);
  }

  /** A review URL `/r/c/<project…>/+/<number>…` gives `project~number`, the project components joined with `%2F`. */
  lemma ReviewUrlChangeId(text: string, u: Url, project: seq<string>, n: string, rest: seq<string>, p: Platform)
    requires !IsChangeId(text) && p.parseUrl(text) == Some(u) && u.host == Some(Host)
    requires PathComponents(u.path) == ["/", "r", "c"] + project + ["+"] + ([n] + rest) && "+" !in project
    ensures !Traps(text, p) && Match(text, p) == Some(Link(Join(project, "%2F") + "~" + n, u.absoluteString))
  {
    LongPathNotLegacy(u.path);
    assert ["/", "r", "c"] + project + ["+"] + ([n] + rest) == ["/", "r"] + ["c"] + project + ["+"] + ([n] + rest);
    ProjectChangeIdOf(["/", "r"], project, n, rest);
  }

  /** Components after the change number do not affect the change ID. */
  lemma PatchsetIgnored(pre: seq<string>, project: seq<string>, n: string, rest: seq<string>, rest': seq<string>)
    requires "c" !in pre && "+" !in pre && "+" !in project
    ensures var pc := pre + ["c"] + project + ["+"] + ([n] + rest);
      var pc' := pre + ["c"] + project + ["+"] + ([n] + rest');
      !PlusIsLast(pc) && !PlusIsLast(pc') && ProjectChangeId(pc) == ProjectChangeId(pc')
  {
    ProjectChangeIdOf(pre, project, n, rest);
    ProjectChangeIdOf(pre, project, n, rest');
  }

  /** A `+` component before any `c` component gives no change ID. */
  lemma PlusBeforeCRejected(pre: seq<string>, rest: seq<string>)
    requires "c" !in pre && "+" !in pre
    ensures var pc := pre + ["+"] + rest; !PlusIsLast(pc) && ProjectChangeId(pc).None?
  {
    var pc := pre + ["+"] + rest;
    FirstIndexAfter(pre, "+", rest);
    if "c" in pc {
      var k := FirstIndexOf(pc, "c").value;
      assert k != |pre|;
    }
  }

  // ---------------------------------------------------------------------
  // fetchTitleAndSetToPasteboard
  // ---------------------------------------------------------------------

  /** The body with every `)]}'` removed and surrounding whitespace trimmed. */
  function CleanedJson(body: string): string {
    Trim(ReplaceAll(body, XssiPrefix, ""))
  }

  /** Gerrit's usual body, the prefix then a newline then the JSON, yields the JSON exactly. */
  lemma XssiStripped(json: string)
    requires !Contains(json, XssiPrefix)
    requires json == [] || (!IsWhitespace(json[0]) && !IsWhitespace(json[|json| - 1]))
    ensures CleanedJson(XssiPrefix + "\n" + json) == json
  {
    var tail := "\n" + json;
    assert XssiPrefix + "\n" + json == XssiPrefix + tail;
    ReplaceAllLeading(XssiPrefix, tail, "");
    NotContainedAfterHead('\n', json, XssiPrefix);
    ReplaceAllAbsent(tail, XssiPrefix, "");
    assert "" + tail == tail;
    TrimStartPadded("\n", json);
    TrimUnpadded(json);
  }

  /** The label: `subject (id)`, decorated with the status, then percent-decoded. */
  function ChangeTitle(g: GerritChange, p: Platform): string {
    PercentDecoded(p.decorateTitle(g.subject + " (" + g.id + ")", g.status), p)
  }

  /** What the fetch eventually hands to `setLinkToPasteboard`, or nothing. */
  function Enrichment(changeID: string, urlString: string, net: Network, p: Platform): (r: Option<Link>)
    ensures r.Some? ==> r.value.url == urlString
    ensures net(ChangesApiBase + changeID).Failed? ==> r.None?
    ensures net(ChangesApiBase + changeID).Response? && !Is2xx(net(ChangesApiBase + changeID).status) ==> r.None?
    ensures var reply := net(ChangesApiBase + changeID); reply.Response? && p.utf8(reply.data).None? ==> r.None?
    ensures var reply := net(ChangesApiBase + changeID);
      reply.Response? && p.utf8(reply.data).Some? && p.decodeGerrit(CleanedJson(p.utf8(reply.data).value)).None? ==> r.None?
  {
    var api := ChangesApiBase + changeID;
    if p.parseUrl(api).None? then None
    else match net(api)
      case Failed => None
      case Response(status, data) =>
        if !Is2xx(status) then None
        else match p.utf8(data)
          case None => None
          case Some(body) =>
            match p.decodeGerrit(CleanedJson(body))
            case None => None
            case Some(g) => Some(Link(ChangeTitle(g, p), urlString))
  }

  /** A successful answer whose body cleans to `json` is labelled from the decoded `json`. */
  lemma AnswerOfCleanedBody(changeID: string, urlString: string, net: Network, p: Platform, status: int, data: Bytes, body: string, json: string)
    requires p.parseUrl(ChangesApiBase + changeID).Some?
    requires net(ChangesApiBase + changeID) == Response(status, data) && Is2xx(status)
    requires p.utf8(data) == Some(body) && CleanedJson(body) == json
    ensures Enrichment(changeID, urlString, net, p) ==
      (if p.decodeGerrit(json).Some? then Some(Link(ChangeTitle(p.decodeGerrit(json).value, p), urlString)) else None)
  {
  }

  /** A successful answer `)]}'\n<json>` gives the decorated `subject (id)` of the decoded change. */
  lemma ChangeAnswer(changeID: string, urlString: string, net: Network, p: Platform, status: int, data: Bytes, json: string)
    requires p.parseUrl(ChangesApiBase + changeID).Some?
    requires net(ChangesApiBase + changeID) == Response(status, data) && Is2xx(status)
    requires p.utf8(data) == Some(XssiPrefix + "\n" + json)
    requires !Contains(json, XssiPrefix) && (json == [] || (!IsWhitespace(json[0]) && !IsWhitespace(json[|json| - 1])))
    ensures p.decodeGerrit(json).None? ==> Enrichment(changeID, urlString, net, p).None?
    ensures p.decodeGerrit(json).Some? ==>
      Enrichment(changeID, urlString, net, p) == Some(Link(ChangeTitle(p.decodeGerrit(json).value, p), urlString))
  {
    XssiStripped(json);
    AnswerOfCleanedBody(changeID, urlString, net, p, status, data, XssiPrefix + "\n" + json, json);
  }

  /** The fetch: the guards in order, then the reassigned `title`. */
  method FetchTitle(changeID: string, urlString: string, net: Network, p: Platform) returns (link: Option<Link>)
    ensures link == Enrichment(changeID, urlString, net, p)
  {
    link := None;
    var apiUrlString := ChangesApiBase + changeID;
    if p.parseUrl(apiUrlString).None? {
      return;
    }
    var reply := net(apiUrlString);
    if reply.Failed? || !Is2xx(reply.status) {
      return;
    }
    var dataString := p.utf8(reply.data);
    if dataString.None? {
      return;
    }
    var jsonString := Trim(ReplaceAll(dataString.value, XssiPrefix, ""));
    var decoded := p.decodeGerrit(jsonString);
    if decoded.None? {
      return;
    }
    var title := decoded.value.subject + " (" + decoded.value.id + ")";
    title := p.decorateTitle(title, decoded.value.status);
    link := Some(Link(PercentDecoded(title, p), urlString));
  }
}
