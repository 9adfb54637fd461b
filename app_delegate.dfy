/**
 * LoosePhabric/AppDelegate.swift: the earlier, single-class version of the
 * engine. It knows two grammars (Phabricator tickets, then Gerrit), asks no
 * handler objects, and counts its own writes inside `setLinkToPasteboard`.
 * Its fetches check neither the HTTP status nor Phabricator's login wall,
 * and its Gerrit title is not decorated.
 */
module AppDelegate {
  import opened Wrappers
  import opened Text
  import opened Foundation
  import opened Pasteboards
  import opened BaseHandler
  import PhabricatorHandler
  import GerritHandler

  const PhabricatorKey: string := "phabricator"
  const GerritKey: string := "gerrit"

  /** Only tickets: `T\d+(?:#\d+)?`. */
  const TicketLetters: set<char> := {'T'}

  /** The defaults registered at launch, under the values the user has set. */
  const RegisteredDefaults: Defaults := map[ExpandTitlesKey := true, PhabricatorKey := true, GerritKey := true]

  /** `register(defaults:)`: a key the user has not set reads as its registered value. */
  function Launch(user: Defaults): (d: Defaults)
    ensures forall k :: k in user ==> k in d && d[k] == user[k]
    ensures forall k :: k !in user && k in RegisteredDefaults ==> k in d && d[k] == RegisteredDefaults[k]
  {
    RegisteredDefaults + user
  }

  /** On a fresh install both grammars run and titles are fetched; status display does not exist here. */
  lemma FreshInstall()
    ensures BoolForKey(Launch(map[]), PhabricatorKey) && BoolForKey(Launch(map[]), GerritKey)
    ensures Expand(Launch(map[]))
  {
  }

  /** `fetchPhabricatorTitleAndSetLink` as a decision: what it starts, or nothing when it returns false. */
  function PhabricatorStep(text: string, d: Defaults, p: Platform): (r: Option<Action>)
    ensures !BoolForKey(d, PhabricatorKey) ==> r.None?
    ensures r.Some? ==> PhabricatorHandler.MatchWith(text, p, TicketLetters).Some?
    ensures r.Some? && r.value.WriteLink? ==> !Expand(d) && r.value.link == PhabricatorHandler.MatchWith(text, p, TicketLetters).value
    ensures r.Some? && r.value.StartFetch? ==> Expand(d) && p.parseUrl(r.value.urlString).Some?
    ensures r.Some? <==>
      BoolForKey(d, PhabricatorKey) && PhabricatorHandler.MatchWith(text, p, TicketLetters).Some?
      && (Expand(d) ==> p.parseUrl(PhabricatorHandler.MatchWith(text, p, TicketLetters).value.url).Some?)
    ensures r.Some? && Expand(d) ==>
      r.value == StartFetch(PhabricatorHandler.MatchWith(text, p, TicketLetters).value.text, PhabricatorHandler.MatchWith(text, p, TicketLetters).value.url)
  {
    if !BoolForKey(d, PhabricatorKey) then None
    else match PhabricatorHandler.MatchWith(text, p, TicketLetters)
      case None => None
      case Some(l) =>
        if Expand(d) then
          if p.parseUrl(l.url).None? then None else Some(StartFetch(l.text, l.url))
        else Some(WriteLink(l))
  }

  /** Text on which `fetchGerritTitleAndSetLink` does not trap. */
  predicate GerritSafe(text: string, d: Defaults, p: Platform) {
    BoolForKey(d, GerritKey) ==> !GerritHandler.Traps(text, p)
  }

  /** `fetchGerritTitleAndSetLink` as a decision; without titles the label is the percent-decoded change ID. */
  function GerritStep(text: string, d: Defaults, p: Platform): (r: Option<Action>)
    requires GerritSafe(text, d, p)
    ensures !BoolForKey(d, GerritKey) ==> r.None?
    ensures r.Some? ==> GerritHandler.Match(text, p).Some?
    ensures r.Some? && r.value.WriteLink? ==>
      !Expand(d) && r.value.link == Link(PercentDecoded(GerritHandler.Match(text, p).value.text, p), GerritHandler.Match(text, p).value.url)
    ensures r.Some? && r.value.StartFetch? ==> Expand(d) && p.parseUrl(GerritHandler.ChangesApiBase + r.value.text).Some?
    ensures r.Some? <==>
      BoolForKey(d, GerritKey) && GerritHandler.Match(text, p).Some?
      && (Expand(d) ==> p.parseUrl(GerritHandler.ChangesApiBase + GerritHandler.Match(text, p).value.text).Some?)
    ensures r.Some? && Expand(d) ==> r.value == StartFetch(GerritHandler.Match(text, p).value.text, GerritHandler.Match(text, p).value.url)
  {
    if !BoolForKey(d, GerritKey) then None
    else match GerritHandler.Match(text, p)
      case None => None
      case Some(l) =>
        if Expand(d) then
          if p.parseUrl(GerritHandler.ChangesApiBase + l.text).None? then None else Some(StartFetch(l.text, l.url))
        else Some(WriteLink(Link(PercentDecoded(l.text, p), l.url)))
  }

  /** A ticket `T<digits>` or `T<digits>#<digits>` is taken: linked at once, or fetched when titles are on and its URL parses. */
  lemma TicketTaken(n: string, m: Option<string>, d: Defaults, p: Platform)
    requires BoolForKey(d, PhabricatorKey) && IsDigitRun(n) && (m.Some? ==> IsDigitRun(m.value))
    ensures var name := "T" + n + PhabricatorHandler.CommentSuffix(m);
      var link := Link(name, PhabricatorHandler.BaseUrl + name);
      (!Expand(d) ==> PhabricatorStep(name, d, p) == Some(WriteLink(link)))
      && (Expand(d) && p.parseUrl(link.url).Some? ==> PhabricatorStep(name, d, p) == Some(StartFetch(name, link.url)))
  {
    PhabricatorHandler.ObjectNameShape('T', n, m, TicketLetters);
  }

  /** Only tickets: another object letter is not a legacy object name. */
  lemma PasteNotTicket(n: string)
    requires IsDigitRun(n)
    ensures !PhabricatorHandler.IsObjectName("P" + n, TicketLetters)
  {
    assert ("P" + n)[0] == 'P';
  }

  /** A Change-Id is taken: linked to its query URL under the percent-decoded ID, or fetched from the change API. */
  lemma ChangeIdTaken(text: string, d: Defaults, p: Platform)
    requires BoolForKey(d, GerritKey) && GerritHandler.IsChangeId(text) && p.parseUrl(GerritHandler.QueryBase + text).Some?
    ensures GerritSafe(text, d, p)
    ensures var url := p.parseUrl(GerritHandler.QueryBase + text).value.absoluteString;
      (!Expand(d) ==> GerritStep(text, d, p) == Some(WriteLink(Link(PercentDecoded(text, p), url))))
      && (Expand(d) && p.parseUrl(GerritHandler.ChangesApiBase + text).Some? ==> GerritStep(text, d, p) == Some(StartFetch(text, url)))
  {
  }

  /** `https://gerrit.wikimedia.org/r/<n>` is taken as change `<n>`. */
  lemma ChangeNumberTaken(text: string, u: Url, n: string, d: Defaults, p: Platform)
    requires BoolForKey(d, GerritKey) && !GerritHandler.IsChangeId(text) && p.parseUrl(text) == Some(u)
    requires u.host == Some(GerritHandler.Host) && u.path == "/r/" + n && IsDigitRun(n)
    ensures GerritSafe(text, d, p)
    ensures (!Expand(d) ==> GerritStep(text, d, p) == Some(WriteLink(Link(PercentDecoded(n, p), u.absoluteString))))
      && (Expand(d) && p.parseUrl(GerritHandler.ChangesApiBase + n).Some? ==> GerritStep(text, d, p) == Some(StartFetch(n, u.absoluteString)))
  {
    GerritHandler.LegacyChangeNumber(text, u, n, p);
  }

  /** A review URL `/r/c/<project>/+/<n>/...` is taken as `<project joined by %2F>~<n>`. */
  lemma ReviewUrlTaken(text: string, u: Url, project: seq<string>, n: string, rest: seq<string>, d: Defaults, p: Platform)
    requires BoolForKey(d, GerritKey) && !GerritHandler.IsChangeId(text) && p.parseUrl(text) == Some(u)
    requires u.host == Some(GerritHandler.Host)
    requires PathComponents(u.path) == ["/", "r", "c"] + project + ["+"] + ([n] + rest) && "+" !in project
    ensures GerritSafe(text, d, p)
    ensures var id := Join(project, "%2F") + "~" + n;
      (!Expand(d) ==> GerritStep(text, d, p) == Some(WriteLink(Link(PercentDecoded(id, p), u.absoluteString))))
      && (Expand(d) && p.parseUrl(GerritHandler.ChangesApiBase + id).Some? ==> GerritStep(text, d, p) == Some(StartFetch(id, u.absoluteString)))
  {
    GerritHandler.ReviewUrlChangeId(text, u, project, n, rest, p);
  }

  /** The chain can run on `text` without reaching a trap: Gerrit is only asked when Phabricator declines. */
  predicate LegacySafe(text: string, d: Defaults, p: Platform) {
    PhabricatorStep(text, d, p).Some? || GerritSafe(text, d, p)
  }

  datatype LegacyDispatch =
    | NotChanged
    | NoPlainText
    | NeitherTook
    | PhabricatorTook(action: Action)
    | GerritTook(action: Action)

  /** Phabricator first; Gerrit only when Phabricator returned false. */
  function LegacyOutcome(plain: Option<string>, d: Defaults, p: Platform): (o: LegacyDispatch)
    requires plain.Some? ==> LegacySafe(plain.value, d, p)
    ensures o.NoPlainText? <==> plain.None?
    ensures o.PhabricatorTook? ==> PhabricatorStep(plain.value, d, p) == Some(o.action)
    ensures o.GerritTook? ==> PhabricatorStep(plain.value, d, p).None? && GerritStep(plain.value, d, p) == Some(o.action)
    ensures o.NeitherTook? ==> PhabricatorStep(plain.value, d, p).None? && GerritStep(plain.value, d, p).None?
    ensures !o.NotChanged?
  {
    match plain
    case None => NoPlainText
    case Some(t) =>
      match PhabricatorStep(t, d, p)
      case Some(a) => PhabricatorTook(a)
      case None =>
        match GerritStep(t, d, p)
        case Some(a) => GerritTook(a)
        case None => NeitherTook
  }

  /** Where the earlier, ticket-only grammar accepts (on anything but a non-ticket object name), the handler grammar gives the same link. */
  lemma TicketGrammarAgrees(text: string, p: Platform)
    requires !PhabricatorHandler.IsObjectName(text, PhabricatorHandler.ObjectLetters) || PhabricatorHandler.IsObjectName(text, TicketLetters)
    ensures PhabricatorHandler.MatchWith(text, p, TicketLetters).Some? ==>
      PhabricatorHandler.Match(text, p) == PhabricatorHandler.MatchWith(text, p, TicketLetters)
  {
  }

  /** Conversely, a link the handler grammar makes for a ticket (its label starts with `T`) is the earlier grammar's too. */
  lemma TicketsAgree(text: string, p: Platform)
    requires PhabricatorHandler.Match(text, p).Some? && HasPrefix(PhabricatorHandler.Match(text, p).value.text, "T")
    ensures PhabricatorHandler.MatchWith(text, p, TicketLetters) == PhabricatorHandler.Match(text, p)
  {
    if PhabricatorHandler.IsObjectName(text, PhabricatorHandler.ObjectLetters) {
      BareTicketAgrees(text, p);
    } else {
      var u := p.parseUrl(text).value;
      LabelLeadsWithName(u);
      UrlTicketAgrees(text, p, u);
    }
  }

  lemma BareTicketAgrees(text: string, p: Platform)
    requires PhabricatorHandler.IsObjectName(text, PhabricatorHandler.ObjectLetters) && text[0] == 'T'
    ensures PhabricatorHandler.MatchWith(text, p, TicketLetters) == PhabricatorHandler.Match(text, p)
  {
    TicketNameNarrows(text);
  }

  /** The label of a page URL starts with the first character of its last path component. */
  lemma LabelLeadsWithName(u: Url)
    requires LastPathComponent(u) != []
    ensures PhabricatorHandler.UrlObjectName(u)[0] == LastPathComponent(u)[0]
  {
  }

  lemma UrlTicketAgrees(text: string, p: Platform, u: Url)
    requires !PhabricatorHandler.IsObjectName(text, PhabricatorHandler.ObjectLetters) && p.parseUrl(text) == Some(u)
    requires PhabricatorHandler.AcceptsUrl(u, PhabricatorHandler.ObjectLetters) && LastPathComponent(u)[0] == 'T'
    ensures PhabricatorHandler.MatchWith(text, p, TicketLetters) == PhabricatorHandler.Match(text, p)
  {
    NarrowerNames(text);
    TicketNameNarrows(LastPathComponent(u));
  }

  /** An object name of the handler grammar that starts with `T` is a ticket name. */
  lemma TicketNameNarrows(s: string)
    requires PhabricatorHandler.IsObjectName(s, PhabricatorHandler.ObjectLetters) && s[0] == 'T'
    ensures PhabricatorHandler.IsObjectName(s, TicketLetters)
  {
  }

  /** A ticket name is an object name of the handler grammar. */
  lemma NarrowerNames(s: string)
    ensures PhabricatorHandler.IsObjectName(s, TicketLetters) ==> PhabricatorHandler.IsObjectName(s, PhabricatorHandler.ObjectLetters)
  {
  }

  /** The HTML fetch of a ticket page: no status check, no login guard. */
  function PhabricatorEnrichment(ticket: string, urlString: string, net: Network, p: Platform): (r: Option<Link>)
    ensures r.Some? ==> r.value.url == urlString && HasPrefix(r.value.text, ticket + ": ")
    ensures net(urlString).Failed? ==> r.None?
    ensures var reply := net(urlString); reply.Response? && p.utf8(reply.data).None? ==> r.None?
    ensures var reply := net(urlString);
      reply.Response? && p.utf8(reply.data).Some? && PageTitle(p.utf8(reply.data).value).None? ==> r.None?
  {
    match net(urlString)
    case Failed => None
    case Response(_, data) =>
      match p.utf8(data)
      case None => None
      case Some(html) =>
        match PageTitle(html)
        case None => None
        case Some(raw) =>
          var shown := ticket + ": " + PhabricatorHandler.CleanedTitle(Trim(raw), p);
          assert shown[..|ticket + ": "|] == ticket + ": ";
          Some(Link(shown, urlString))
  }

  /** Any reply whose page has a title is labelled `<ticket>: ` followed by the cleaned, trimmed title. */
  lemma PhabricatorEnrichmentOfPage(ticket: string, urlString: string, net: Network, p: Platform, status: int, data: Bytes, html: string, raw: string)
    requires net(urlString) == Response(status, data) && p.utf8(data) == Some(html) && PageTitle(html) == Some(raw)
    ensures PhabricatorEnrichment(ticket, urlString, net, p) ==
      Some(Link(ticket + ": " + PhabricatorHandler.CleanedTitle(Trim(raw), p), urlString))
  {
  }

  /** Unlike the handler's fallback, an error page with a title is still written. */
  lemma ErrorPageStillWritten(ticket: string, urlString: string, net: Network, p: Platform, data: Bytes, html: string, raw: string)
    requires p.parseUrl(urlString).Some? && net(urlString) == Response(404, data)
    requires p.utf8(data) == Some(html) && PageTitle(html) == Some(raw)
    ensures PhabricatorEnrichment(ticket, urlString, net, p).Some?
    ensures PhabricatorHandler.FallbackLink(ticket, urlString, net, p).None?
  {
  }

  /** The change-API fetch: `subject (id)` from the bare JSON object, percent-decoded, not decorated. */
  function GerritEnrichment(changeID: string, urlString: string, net: Network, p: Platform): (r: Option<Link>)
    ensures r.Some? ==> r.value.url == urlString
    ensures net(GerritHandler.ChangesApiBase + changeID).Failed? ==> r.None?
    ensures var reply := net(GerritHandler.ChangesApiBase + changeID); reply.Response? && p.utf8(reply.data).None? ==> r.None?
    ensures var reply := net(GerritHandler.ChangesApiBase + changeID);
      reply.Response? && p.utf8(reply.data).Some? && p.gerritSubjectAndId(GerritHandler.CleanedJson(p.utf8(reply.data).value)).None? ==> r.None?
  {
    match net(GerritHandler.ChangesApiBase + changeID)
    case Failed => None
    case Response(_, data) =>
      match p.utf8(data)
      case None => None
      case Some(body) =>
        match p.gerritSubjectAndId(GerritHandler.CleanedJson(body))
        case None => None
        case Some((subject, id)) => Some(Link(PercentDecoded(subject + " (" + id + ")", p), urlString))
  }

  /** A successful answer `)]}'\n<json>` is labelled with the subject and id the probe finds in the JSON. */
  lemma GerritAnswer(changeID: string, urlString: string, net: Network, p: Platform, status: int, data: Bytes, json: string, subject: string, id: string)
    requires net(GerritHandler.ChangesApiBase + changeID) == Response(status, data)
    requires p.utf8(data) == Some(GerritHandler.XssiPrefix + "\n" + json)
    requires !Contains(json, GerritHandler.XssiPrefix) && (json == [] || (!IsWhitespace(json[0]) && !IsWhitespace(json[|json| - 1])))
    requires p.gerritSubjectAndId(json) == Some((subject, id))
    ensures GerritEnrichment(changeID, urlString, net, p) == Some(Link(PercentDecoded(subject + " (" + id + ")", p), urlString))
  {
    GerritHandler.XssiStripped(json);
    GerritAnswerOfCleanedBody(changeID, urlString, net, p, status, data, GerritHandler.XssiPrefix + "\n" + json, json);
  }

  /** An answer whose body cleans to `json` is labelled from what the probe finds in `json`, whatever the status. */
  lemma GerritAnswerOfCleanedBody(changeID: string, urlString: string, net: Network, p: Platform, status: int, data: Bytes, body: string, json: string)
    requires net(GerritHandler.ChangesApiBase + changeID) == Response(status, data)
    requires p.utf8(data) == Some(body) && GerritHandler.CleanedJson(body) == json
    ensures GerritEnrichment(changeID, urlString, net, p) ==
      (if p.gerritSubjectAndId(json).Some? then
         Some(Link(PercentDecoded(p.gerritSubjectAndId(json).value.0 + " (" + p.gerritSubjectAndId(json).value.1 + ")", p), urlString))
       else None)
  {
  }

  class AppDelegate {
    const pasteboard: Pasteboard
    var lastChangeCount: int

    constructor (pasteboard: Pasteboard)
      ensures this.pasteboard == pasteboard && lastChangeCount == 0
    {
      this.pasteboard := pasteboard;
      lastChangeCount := 0;
    }

    predicate InSync()
      reads this, pasteboard
    {
      lastChangeCount == pasteboard.changeCount
    }

    predicate CanDispatch(d: Defaults, p: Platform)
      reads this, pasteboard
    {
      pasteboard.FirstPlain().Some? ==> LegacySafe(pasteboard.FirstPlain().value, d, p)
    }

    /** `setLinkToPasteboard`: the same four values as the handlers write, then one more change counted. */
    method SetLinkToPasteboard(text: string, url: string, p: Platform)
      requires pasteboard.HasFirstItem()
      modifies this, pasteboard
      ensures lastChangeCount == old(lastChangeCount) + 1
      ensures pasteboard.changeCount == old(pasteboard.changeCount) + 1
      ensures pasteboard.items == Some([LinkItem(old(pasteboard.FirstPlain()).GetOr(text), text, url, p.rtf(text, url))])
    {
      BaseHandler.SetLinkToPasteboard(pasteboard, text, url, p);
      lastChangeCount := lastChangeCount + 1;
    }

    /** The outcome's direct write, when it has one. */
    method Perform(a: Action, p: Platform)
      requires pasteboard.HasFirstItem()
      modifies this, pasteboard
      ensures a.WriteLink? ==>
        lastChangeCount == old(lastChangeCount) + 1 && pasteboard.changeCount == old(pasteboard.changeCount) + 1
        && pasteboard.items == Some([LinkItem(old(pasteboard.FirstPlain()).GetOr(a.link.text), a.link.text, a.link.url, p.rtf(a.link.text, a.link.url))])
      ensures a.StartFetch? ==> lastChangeCount == old(lastChangeCount) && unchanged(pasteboard)
    {
      if a.WriteLink? {
        SetLinkToPasteboard(a.link.text, a.link.url, p);
      }
    }

    /** `fetchPhabricatorTitleAndSetLink`: true exactly when `r` is something; a direct link is written at once. */
    method FetchPhabricatorTitleAndSetLink(text: string, d: Defaults, p: Platform) returns (r: Option<Action>)
      requires pasteboard.HasFirstItem()
      modifies this, pasteboard
      ensures r == PhabricatorStep(text, d, p)
      ensures r.Some? && r.value.WriteLink? ==>
        lastChangeCount == old(lastChangeCount) + 1 && pasteboard.changeCount == old(pasteboard.changeCount) + 1
        && pasteboard.items == Some([LinkItem(old(pasteboard.FirstPlain()).GetOr(r.value.link.text), r.value.link.text, r.value.link.url,
                                           p.rtf(r.value.link.text, r.value.link.url))])
      ensures !(r.Some? && r.value.WriteLink?) ==> lastChangeCount == old(lastChangeCount) && unchanged(pasteboard)
    {
      r := PhabricatorStep(text, d, p);
      if r.Some? {
        Perform(r.value, p);
      }
    }

    /** `fetchGerritTitleAndSetLink`. */
    method FetchGerritTitleAndSetLink(text: string, d: Defaults, p: Platform) returns (r: Option<Action>)
      requires pasteboard.HasFirstItem() && GerritSafe(text, d, p)
      modifies this, pasteboard
      ensures r == GerritStep(text, d, p)
      ensures r.Some? && r.value.WriteLink? ==>
        lastChangeCount == old(lastChangeCount) + 1 && pasteboard.changeCount == old(pasteboard.changeCount) + 1
        && pasteboard.items == Some([LinkItem(old(pasteboard.FirstPlain()).GetOr(r.value.link.text), r.value.link.text, r.value.link.url,
                                           p.rtf(r.value.link.text, r.value.link.url))])
      ensures !(r.Some? && r.value.WriteLink?) ==> lastChangeCount == old(lastChangeCount) && unchanged(pasteboard)
    {
      r := GerritStep(text, d, p);
      if r.Some? {
        Perform(r.value, p);
      }
    }

    /** `onPasteboardChanged`: Phabricator first, Gerrit only when it returned false. */
    method OnPasteboardChanged(d: Defaults, p: Platform) returns (outcome: LegacyDispatch)
      requires CanDispatch(d, p)
      modifies this, pasteboard
      ensures outcome == LegacyOutcome(old(pasteboard.FirstPlain()), d, p)
      ensures (outcome.PhabricatorTook? || outcome.GerritTook?) && outcome.action.WriteLink? ==>
        lastChangeCount == old(lastChangeCount) + 1 && pasteboard.changeCount == old(pasteboard.changeCount) + 1
        && pasteboard.items == Some([LinkItem(old(pasteboard.FirstPlain()).value, outcome.action.link.text, outcome.action.link.url,
                                              p.rtf(outcome.action.link.text, outcome.action.link.url))])
      ensures !((outcome.PhabricatorTook? || outcome.GerritTook?) && outcome.action.WriteLink?) ==>
        lastChangeCount == old(lastChangeCount) && unchanged(pasteboard)
    {
      var plain := pasteboard.FirstPlain();
      if plain.None? {
        return NoPlainText;
      }
      var r := FetchPhabricatorTitleAndSetLink(plain.value, d, p);
      if r.Some? {
        return PhabricatorTook(r.value);
      }
      r := FetchGerritTitleAndSetLink(plain.value, d, p);
      if r.Some? {
        return GerritTook(r.value);
      }
      return NeitherTook;
    }

    /** One timer tick: nothing when the counts agree, else the count is taken and the chain runs. */
    method TimerTick(d: Defaults, p: Platform) returns (outcome: LegacyDispatch)
      requires !InSync() ==> CanDispatch(d, p)
      modifies this, pasteboard
      ensures old(lastChangeCount) == old(pasteboard.changeCount) ==>
        outcome == NotChanged && lastChangeCount == old(lastChangeCount) && unchanged(pasteboard)
      ensures old(lastChangeCount) != old(pasteboard.changeCount) ==>
        outcome == LegacyOutcome(old(pasteboard.FirstPlain()), d, p)
      ensures old(lastChangeCount) != old(pasteboard.changeCount) && (outcome.PhabricatorTook? || outcome.GerritTook?) && outcome.action.WriteLink? ==>
        pasteboard.changeCount == old(pasteboard.changeCount) + 1
        && pasteboard.items == Some([LinkItem(old(pasteboard.FirstPlain()).value, outcome.action.link.text, outcome.action.link.url,
                                              p.rtf(outcome.action.link.text, outcome.action.link.url))])
      ensures old(lastChangeCount) != old(pasteboard.changeCount) && !((outcome.PhabricatorTook? || outcome.GerritTook?) && outcome.action.WriteLink?) ==>
        unchanged(pasteboard)
      ensures InSync()
    {
      if lastChangeCount != pasteboard.changeCount {
        lastChangeCount := pasteboard.changeCount;
        outcome := OnPasteboardChanged(d, p);
      } else {
        outcome := NotChanged;
      }
    }

    /** `cleanUpPhabricatorTitle`, step by step; it cleans exactly as the handler's `cleanUpHTMLTitle`. */
    method CleanUpPhabricatorTitle(title: string, p: Platform) returns (cleaned: string)
      ensures cleaned == PhabricatorHandler.CleanedTitle(title, p)
    {
      var cleanedTitle := title;
      if HasPrefix(cleanedTitle, PhabricatorHandler.Anchor) {
        cleanedTitle := cleanedTitle[|PhabricatorHandler.Anchor|..];
      }
      var range := PhabricatorHandler.TicketMatchEnd(cleanedTitle);
      if range.Some? {
        cleanedTitle := Trim(cleanedTitle[range.value..]);
      }
      cleaned := HtmlDecoded(cleanedTitle, p);
    }

    /** The main-queue end of the Phabricator title fetch. */
    method CompletePhabricatorFetch(ticket: string, urlString: string, net: Network, p: Platform) returns (link: Option<Link>)
      requires pasteboard.HasFirstItem()
      modifies this, pasteboard
      ensures link == PhabricatorEnrichment(ticket, urlString, net, p)
      ensures link.Some? ==>
        lastChangeCount == old(lastChangeCount) + 1 && pasteboard.changeCount == old(pasteboard.changeCount) + 1
        && pasteboard.items == Some([LinkItem(old(pasteboard.FirstPlain()).GetOr(link.value.text), link.value.text, link.value.url,
                                              p.rtf(link.value.text, link.value.url))])
      ensures link.None? ==> lastChangeCount == old(lastChangeCount) && unchanged(pasteboard)
      ensures lastChangeCount - pasteboard.changeCount == old(lastChangeCount - pasteboard.changeCount)
    {
      link := None;
      var reply := net(urlString);
      if reply.Failed? {
        return;
      }
      var htmlString := p.utf8(reply.data);
      if htmlString.None? {
        return;
      }
      var raw := PageTitle(htmlString.value);
      if raw.None? {
        return;
      }
      var title := Trim(raw.value);
      title := CleanUpPhabricatorTitle(title, p);
      link := Some(Link(ticket + ": " + title, urlString));
      SetLinkToPasteboard(ticket + ": " + title, urlString, p);
    }

    /** The main-queue end of the Gerrit title fetch. */
    method CompleteGerritFetch(changeID: string, urlString: string, net: Network, p: Platform) returns (link: Option<Link>)
      requires pasteboard.HasFirstItem()
      modifies this, pasteboard
      ensures link == GerritEnrichment(changeID, urlString, net, p)
      ensures link.Some? ==>
        lastChangeCount == old(lastChangeCount) + 1 && pasteboard.changeCount == old(pasteboard.changeCount) + 1
        && pasteboard.items == Some([LinkItem(old(pasteboard.FirstPlain()).GetOr(link.value.text), link.value.text, link.value.url,
                                              p.rtf(link.value.text, link.value.url))])
      ensures link.None? ==> lastChangeCount == old(lastChangeCount) && unchanged(pasteboard)
      ensures lastChangeCount - pasteboard.changeCount == old(lastChangeCount - pasteboard.changeCount)
    {
      link := GerritEnrichmentOf(changeID, urlString, net, p);
      if link.Some? {
        SetLinkToPasteboard(link.value.text, link.value.url, p);
      }
    }

    /** The fetch closure's guards in order. */
    method GerritEnrichmentOf(changeID: string, urlString: string, net: Network, p: Platform) returns (link: Option<Link>)
      ensures link == GerritEnrichment(changeID, urlString, net, p)
    {
      link := None;
      var reply := net(GerritHandler.ChangesApiBase + changeID);
      if reply.Failed? {
        return;
      }
      var dataString := p.utf8(reply.data);
      if dataString.None? {
        return;
      }
      var jsonString := Trim(ReplaceAll(dataString.value, GerritHandler.XssiPrefix, ""));
      var probe := p.gerritSubjectAndId(jsonString);
      if probe.None? {
        return;
      }
      var title := probe.value.0 + " (" + probe.value.1 + ")";
      link := Some(Link(PercentDecoded(title, p), urlString));
    }
  }
}
