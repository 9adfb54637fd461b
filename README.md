# LoosePhabric link rewriting, modelled in Dafny

LoosePhabric is a macOS menu-bar utility. It watches the general pasteboard.
When the plain text just copied names a Wikimedia Phabricator object, a
Gerrit change or a GitLab merge request, it replaces the copied item with a
rich link: HTML, RTF, the original plain text and the URL. Turned on, it
first fetches the object's title and labels the link with it.

This project models that engine:

- the change monitor `PasteboardController`, with its handler chain and
  the counter that stops its own writes from being processed again;
- the shared `BaseHandler` behaviour: settings, `setPasteboard` and
  `setLinkToPasteboard`;
- the three handlers' grammars and their title enrichment;
- the `String` extensions;
- the earlier single-class `AppDelegate` engine, which knows only
  Phabricator tickets and Gerrit.

Modules follow the source files:

- `Text` holds the string operations of Foundation that the code uses (prefix and suffix, contains, trim, replace, split, join).
- `StringExt` is `String.swift`.
- `Foundation` holds URLs, replies and the platform routines.
- `Pasteboards` holds an `NSPasteboard` stand-in class.
- `BaseHandler`, `PhabricatorHandler`, `GerritHandler` and `GitlabHandler` are the handler files.
- `Handlers` holds the three conformances as one variant type and the chain's specification.
- `Controller` is `PasteboardController.swift`.
- `AppDelegate` is `AppDelegate.swift`.

State that the source updates in place is kept in classes:

- the pasteboard: its change count and items;
- the controller: its last seen count and its handler list;
- the app delegate: its last seen count.

Pure decisions are functions:

- what `handle` would do;
- what a completed title fetch writes;
- which handler wins.

Each method is proved against one of these functions, and lemmas prove
their properties:

- the grammars, on the inputs they accept and the ones they reject;
- the title clean-ups;
- the escaping;
- the first-taker rule of the chain;
- the loop guard: right after a check, the next check sees nothing new.

The network is a function from the requested URL to a reply, either a
failure or a status with a body. URL parsing, HTML and percent decoding,
UTF-8 decoding, RTF generation, the JSON decoders and Gerrit's
`decorateTitle` are library routines that the model takes as parameters
(the `Platform` record).

## Model

| member | source | states |
|---|---|---|
| StringExt.NumericIffAllDigits | LoosePhabric/Extensions/String.swift:20-25 | `isNumeric` (the string's character set is within the decimal digits) holds exactly when every character is a digit |
| StringExt.NumericOfConcat | LoosePhabric/Extensions/String.swift:20-25 | a concatenation is numeric iff both parts are |
| StringExt.NumericOfSameCharacters | LoosePhabric/Extensions/String.swift:20-25 | two strings in which the same characters occur are both numeric or both not, whatever the order and the number of copies |
| StringExt.EmptyIsNumeric | LoosePhabric/Extensions/String.swift:20-25 | the empty string counts as numeric (the empty set is a subset of the digits) |
| StringExt.NonDigitIsNotNumeric | LoosePhabric/Extensions/String.swift:20-25 | one non-digit anywhere makes the string not numeric |
| Foundation.HtmlDecoded | LoosePhabric/Extensions/String.swift:11-18 | the decoded text, or the string unchanged when decoding fails |
| Foundation.ComponentsOfAbsolutePath | LoosePhabric/Handlers/PhabricatorHandler.swift:30 | `pathComponents` of `/a/b/...` is `["/", a, b, ...]`, the shape the URL rules count and index |
| Pasteboards.Pasteboard.ClearContents | LoosePhabric/Handlers/BaseHandler.swift:51 | clearing bumps the change count by one and leaves one empty item |
| Pasteboards.Pasteboard.SetValue | LoosePhabric/Handlers/BaseHandler.swift:53-67 | setting a type changes only the first item's value for that type and not the change count |
| BaseHandler.Enabled | LoosePhabric/Handlers/BaseHandler.swift:18-20 | a handler is enabled iff its key is set to true (an unset key reads false) |
| BaseHandler.Expand | LoosePhabric/Handlers/BaseHandler.swift:22-24 | title expansion is on iff `expandTitles` is set to true |
| BaseHandler.ShowStatus | LoosePhabric/Handlers/BaseHandler.swift:26-28 | status display is on iff `showStatus` is set to true |
| BaseHandler.SetPasteboard | LoosePhabric/Handlers/BaseHandler.swift:30-36 | with expansion on, a title fetch for exactly (text, url) starts; otherwise exactly the link (text, url) is written |
| BaseHandler.EscapeAngles | LoosePhabric/Handlers/BaseHandler.swift:44-49 | the reference escaping leaves no `<` or `>` in its result |
| BaseHandler.TwoReplacementsEscape | LoosePhabric/Handlers/BaseHandler.swift:44-49 | replacing `<` by `&lt;` and then `>` by `&gt;` equals the per-character reference escaping, so the first pass's output is never re-escaped |
| BaseHandler.HtmlSafeText | LoosePhabric/Handlers/BaseHandler.swift:44-49 | text holding the literal `&[^;]+;` is used verbatim; any other text is angle-escaped |
| BaseHandler.EscapeKeepsOtherCharacters | LoosePhabric/Handlers/BaseHandler.swift:44-49 | every character other than `<` and `>` survives the escaping |
| BaseHandler.PageTitle | LoosePhabric/Handlers/PhabricatorHandler.swift:99-103 | no `<title>` gives no title; a found title sits between `<title>` and `</title>` in the page and holds no `</title>` itself (the first closing tag) |
| BaseHandler.PageTitleOf | LoosePhabric/Handlers/PhabricatorHandler.swift:99-103 | a page `<pre><title><t></title><post>` with no `<title>` in `pre` and no `</title>` in `t` has title exactly `t`, whatever `post` holds: the first opening tag and the first closing tag after it |
| BaseHandler.LinkItem | LoosePhabric/Handlers/BaseHandler.swift:51-67 | the written item holds the anchor HTML with the escaped label, the original plain text, the URL, and RTF exactly when RTF generation succeeds |
| BaseHandler.SetLinkToPasteboard | LoosePhabric/Handlers/BaseHandler.swift:38-70 | one change counted; the pasteboard holds just that item; its plain text is the original copy (or the label when there was none) |
| PhabricatorHandler.MatchWith | LoosePhabric/Handlers/PhabricatorHandler.swift:18-45 | a bare object name links to the Phabricator base URL plus itself; otherwise a URL is accepted iff it parses, is on the Phabricator host, has two path components and its last one is an object name, and then links its name (plus a numeric fragment) to its absolute string |
| PhabricatorHandler.ObjectNameShape | LoosePhabric/Handlers/PhabricatorHandler.swift:24 | every string letter, digits, optional `#digits` matches `[TPDMEF]\d+(?:#\d+)?` |
| PhabricatorHandler.BareNameAccepted | LoosePhabric/Handlers/PhabricatorHandler.swift:27-29 | each such object name is linked to `https://phabricator.wikimedia.org/<name>` |
| PhabricatorHandler.PageUrlAccepted | LoosePhabric/Handlers/PhabricatorHandler.swift:30-37 | an object page URL is linked by its object name, with `#comment` kept only when the fragment is numeric |
| PhabricatorHandler.EmptyFragmentKeepsHash | LoosePhabric/Handlers/PhabricatorHandler.swift:32-36 | an empty fragment counts as numeric, so the label ends in a bare `#` |
| PhabricatorHandler.OtherHostRejected | LoosePhabric/Handlers/PhabricatorHandler.swift:30-40 | a URL on any other host is declined |
| PhabricatorHandler.DeepPathRejected | LoosePhabric/Handlers/PhabricatorHandler.swift:30-40 | a URL with other than two path components is declined |
| PhabricatorHandler.Handle | LoosePhabric/Handlers/PhabricatorHandler.swift:18-45 | `handle` returns true exactly when the grammar matches, and then hands exactly the matched label and URL to `setPasteboard` |
| PhabricatorHandler.CleanUpHtmlTitle | LoosePhabric/Handlers/PhabricatorHandler.swift:118-130 | the step-by-step clean-up equals the reference clean-up, whose meaning `CleanUpTicketTitle`, `CleanUpAnchoredTicketTitle`, `CleanUpTaskTitle` and `CleanUpPlainTitle` state: decode, strip the anchor, drop everything through the first `T\d+`, trim |
| PhabricatorHandler.TicketMatchEnd | LoosePhabric/Handlers/PhabricatorHandler.swift:125 | absent iff the title holds no `T\d+`; otherwise the end of the digit run after the leftmost `T` that a digit follows, with the run maximal |
| PhabricatorHandler.TicketMatchEndAfter | LoosePhabric/Handlers/PhabricatorHandler.swift:125 | in `<pre>T<digits><rest>` with no ticket in `pre` and no digit leading `rest`, the match ends exactly after `digits` |
| PhabricatorHandler.CleanUpTicketTitle | LoosePhabric/Handlers/PhabricatorHandler.swift:118-130 | a title `<pre>T<digits><rest>` without the anchor, with no ticket in `pre`, cleans up to the decoded, trimmed `rest` |
| PhabricatorHandler.CleanUpAnchoredTicketTitle | LoosePhabric/Handlers/PhabricatorHandler.swift:118-130 | the same after the `⚓ ` prefix: everything through the first `T\d+` is dropped |
| PhabricatorHandler.CleanUpTaskTitle | LoosePhabric/Handlers/PhabricatorHandler.swift:118-130 | `⚓ T<digits><rest>` cleans up to the decoded, trimmed `<rest>` |
| PhabricatorHandler.CleanUpPlainTitle | LoosePhabric/Handlers/PhabricatorHandler.swift:118-130 | a title with neither the anchor nor a ticket is only HTML-decoded |
| PhabricatorHandler.FallbackLink | LoosePhabric/Handlers/PhabricatorHandler.swift:85-116 | a written fallback link has the fetched URL and the label `<object>: `; a transport failure, a status outside 200-299, a body that is not UTF-8 or a page without `<title>` writes nothing |
| PhabricatorHandler.FallbackOfPage | LoosePhabric/Handlers/PhabricatorHandler.swift:99-110 | a 2xx page with a title is labelled `<object>: <cleaned title>` unless it is the login wall (title `Login` and the auth-provider marker), which writes nothing |
| PhabricatorHandler.FallbackWithoutTitle | LoosePhabric/Handlers/PhabricatorHandler.swift:99-101 | a page without `<title>` writes nothing |
| PhabricatorHandler.FallbackHtmlFetch | LoosePhabric/Handlers/PhabricatorHandler.swift:85-116 | the closure's guards, in order, yield exactly the fallback link |
| PhabricatorHandler.StatusGlyph | LoosePhabric/Handlers/PhabricatorHandler.swift:13-16 | only status `closed` has a glyph, the check mark |
| PhabricatorHandler.ProxyWithoutComment | LoosePhabric/Handlers/PhabricatorHandler.swift:63-75 | without `#` in the copied URL the record's full name and URI are used as they are |
| PhabricatorHandler.ProxyCommentSplice | LoosePhabric/Handlers/PhabricatorHandler.swift:66-70 | with `#c` in the copied URL the comment is spliced after the object name in the label and appended to the URI |
| PhabricatorHandler.ProxyStatusGlyph | LoosePhabric/Handlers/PhabricatorHandler.swift:71-73 | with status display on, a closed object's label gets the check-mark prefix; nothing else changes |
| PhabricatorHandler.Enrichment | LoosePhabric/Handlers/PhabricatorHandler.swift:47-83 | a decoded 2xx phabroxy record gives the proxy link; any failure falls back to the HTML fetch; an unparsable lookup URL does nothing |
| PhabricatorHandler.FetchTitle | LoosePhabric/Handlers/PhabricatorHandler.swift:47-83 | the fetch closure yields exactly that enrichment |
| GerritHandler.ProjectChangeId | LoosePhabric/Handlers/GerritHandler.swift:45-51 | a change ID is found iff the components hold `c` and `+` with the first `c` before the first `+` |
| GerritHandler.Match | LoosePhabric/Handlers/GerritHandler.swift:20-58 | a Change-Id links to its query URL; any other accepted text parses to a URL on the Gerrit host and links to its absolute string |
| GerritHandler.Handle | LoosePhabric/Handlers/GerritHandler.swift:20-58 | returns true exactly when the grammar matches and passes exactly its change ID and URL on |
| GerritHandler.LegacyChangeNumber | LoosePhabric/Handlers/GerritHandler.swift:33-43 | `https://gerrit.wikimedia.org/r/<n>` links as change `<n>` |
| GerritHandler.ProjectChangeIdOf | LoosePhabric/Handlers/GerritHandler.swift:45-51 | components `... c <project...> + <n> ...` give `<project joined by %2F>~<n>` |
| GerritHandler.ReviewUrlChangeId | LoosePhabric/Handlers/GerritHandler.swift:39-51 | a review URL `/r/c/<project>/+/<n>/...` links as `<project joined by %2F>~<n>` to its absolute string |
| GerritHandler.PatchsetIgnored | LoosePhabric/Handlers/GerritHandler.swift:48-50 | components after the change number (the patch set) do not change the change ID |
| GerritHandler.PlusBeforeCRejected | LoosePhabric/Handlers/GerritHandler.swift:45-47 | a `+` before any `c` is declined |
| GerritHandler.XssiStripped | LoosePhabric/Handlers/GerritHandler.swift:79 | a body of `)]}'`, a newline and JSON is cleaned to the JSON exactly |
| GerritHandler.Enrichment | LoosePhabric/Handlers/GerritHandler.swift:60-110 | a written link keeps the copied URL; a transport failure, a status outside 200-299, a body that is not UTF-8 or JSON that does not decode writes nothing |
| GerritHandler.ChangeAnswer | LoosePhabric/Handlers/GerritHandler.swift:79-106 | a 2xx answer whose JSON decodes is labelled with the percent-decoded, decorated `subject (id)`; one that does not decode writes nothing |
| GerritHandler.FetchTitle | LoosePhabric/Handlers/GerritHandler.swift:60-110 | the fetch closure yields exactly that enrichment |
| GitlabHandler.TrailingDigitsStart | LoosePhabric/Handlers/GitlabHandler.swift:16 | the start of the maximal run of trailing digits |
| GitlabHandler.MergeRequestPath | LoosePhabric/Handlers/GitlabHandler.swift:16-23 | a match splits the path into `/repos/mediawiki/<repo>/-/merge_requests/<digits>` with a non-empty single-line repo |
| GitlabHandler.MergeRequestPathOf | LoosePhabric/Handlers/GitlabHandler.swift:16-23 | every such path matches, with exactly that repo and request id |
| GitlabHandler.Match | LoosePhabric/Handlers/GitlabHandler.swift:13-34 | an accepted text parses to a URL on the GitLab host and links to its absolute string |
| GitlabHandler.MergeRequestUrl | LoosePhabric/Handlers/GitlabHandler.swift:19-23 | a merge request URL links as `<repo>~<id>` |
| GitlabHandler.OtherPathRejected | LoosePhabric/Handlers/GitlabHandler.swift:24-29 | a path outside `/repos/mediawiki/` or not ending in a digit is declined |
| GitlabHandler.Handle | LoosePhabric/Handlers/GitlabHandler.swift:13-34 | returns true exactly when the grammar matches and passes exactly its label and URL on |
| GitlabHandler.LastSplit | LoosePhabric/Handlers/GitlabHandler.swift:53 | the greedy `(?<title>.+)`: the largest split point that leaves a valid ` (!n) ·…` tail |
| GitlabHandler.StripMergeSuffix | LoosePhabric/Handlers/GitlabHandler.swift:53-55 | a title with no ` (!n) ·…` tail is kept; otherwise the result is a prefix before such a tail |
| GitlabHandler.StripAtLastSplit | LoosePhabric/Handlers/GitlabHandler.swift:53-55 | the stripped title is the part before the last split point that leaves a valid ` (!n) ·…` tail |
| GitlabHandler.StripTypicalTitle | LoosePhabric/Handlers/GitlabHandler.swift:53-55 | `<t> (!<n>) · <rest>` with no `(` in the rest strips to `<t>` |
| GitlabHandler.StatusTitle | LoosePhabric/Handlers/GitlabHandler.swift:56-62 | with status display on, the merged marker gives the check-mark prefix and takes precedence over the closed marker's cross; off, or without markers, the title is unchanged |
| GitlabHandler.Labelled | LoosePhabric/Handlers/GitlabHandler.swift:64 | the label starts with the title, ends with ` (<repo~id>)` and is exactly three characters longer than both together: nothing else is inserted |
| GitlabHandler.Enrichment | LoosePhabric/Handlers/GitlabHandler.swift:36-70 | a written link keeps the copied URL and ends in ` (<repo~id>)`; a transport failure, a status outside 200-299, a body that is not UTF-8 or a page without `<title>` writes nothing |
| GitlabHandler.EnrichmentOfPage | LoosePhabric/Handlers/GitlabHandler.swift:49-66 | a 2xx page with a title writes the stripped, decoded, status-marked title labelled with the change |
| GitlabHandler.NoTitleNoWrite | LoosePhabric/Handlers/GitlabHandler.swift:49-51 | a page without `<title>` writes nothing |
| GitlabHandler.FetchTitle | LoosePhabric/Handlers/GitlabHandler.swift:36-70 | the fetch closure yields exactly that enrichment |
| Handlers.Decision | LoosePhabric/PasteboardController.swift:36 | a disabled handler decides nothing, on any text; an enabled one decides what its `handle` returns, which never traps because the chain demands no Gerrit trap only while Gerrit is enabled |
| Handlers.GerritOffDispatchesAnything | LoosePhabric/PasteboardController.swift:36 | with Gerrit disabled every text can be dispatched, the trapping ones included, and the winner is never the Gerrit handler |
| Handlers.DecisionAt | LoosePhabric/PasteboardController.swift:35-36 | the round for position `i` of the chain is the decision of the `i`-th registered handler |
| Handlers.AskedMembers | LoosePhabric/PasteboardController.swift:35-36 | the positions whose `handle` runs before position `n` are exactly the enabled ones below `n` |
| Handlers.FirstSomeFrom | LoosePhabric/PasteboardController.swift:35-39 | the loop stops at a decision that takes the text with none taking it before, or finds none at all |
| Handlers.Outcome | LoosePhabric/PasteboardController.swift:35-39 | a sequence of decisions is either won by its first taking decision, with that decision's action, or not won by anyone |
| Controller.PasteboardController.RunChain | LoosePhabric/PasteboardController.swift:35-39 | the loop returns the outcome of the handlers' decisions in registration order; it calls `handle` on exactly the enabled handlers up to the winner, or on all enabled ones when none wins |
| Handlers.FirstTaker | LoosePhabric/PasteboardController.swift:35-39 | the index found is enabled and accepts the text, and no earlier handler does; none found means no handler does |
| Handlers.FirstTakerUnique | LoosePhabric/PasteboardController.swift:35-39 | any enabled, accepting handler with no such handler before it is the winner |
| Handlers.RegisterKeepsWinner | LoosePhabric/PasteboardController.swift:47-49 | appending a handler never changes an existing winner; it can only take text nobody took |
| Handlers.DisabledNeverWins | LoosePhabric/PasteboardController.swift:36 | a disabled handler never wins |
| Handlers.ChainOutcome | LoosePhabric/PasteboardController.swift:30-40 | no plain text gives no dispatch; otherwise the first enabled handler that accepts wins, with its own action, or no handler takes it |
| Controller.PasteboardController.RegisterHandler | LoosePhabric/PasteboardController.swift:47-49 | the handler is appended; earlier ones keep their order |
| Controller.PasteboardController.OnPasteboardSet | LoosePhabric/PasteboardController.swift:42-45 | exactly one more change is accounted for |
| Controller.PasteboardController.WriteLink | LoosePhabric/Handlers/BaseHandler.swift:69 | a write and its notification move both counters by one, so their difference is kept |
| Controller.PasteboardController.OnPasteboardChanged | LoosePhabric/PasteboardController.swift:30-40 | the outcome is the chain's; only a direct link is written, and it is counted; the handlers asked are exactly the enabled ones up to the winner, never a disabled one |
| Controller.PasteboardController.CheckPasteboard | LoosePhabric/PasteboardController.swift:22-28 | equal counts do nothing; otherwise the chain runs on the text as it was, a winning direct link leaves exactly its item and any other outcome leaves the pasteboard as it was; afterwards the controller is in sync, its own write included |
| Controller.PasteboardController.CompleteFetch | LoosePhabric/Handlers/BaseHandler.swift:38-70 | the completed fetch writes exactly the enrichment, or nothing, and keeps the controller's sync |
| Controller.PasteboardController.CheckTwice | LoosePhabric/PasteboardController.swift:22-28 | right after any check, the next check dispatches nothing: the app does not loop on its own writes |
| Controller.PasteboardController.ExternalCopySeen | LoosePhabric/PasteboardController.swift:22-28 | a copy by another application while in sync is dispatched at the next check |
| AppDelegate.Launch | LoosePhabric/AppDelegate.swift:19-23 | a value the user set wins; an unset registered key reads its registered value |
| AppDelegate.FreshInstall | LoosePhabric/AppDelegate.swift:19-23 | on a fresh install both grammars run and titles are fetched |
| AppDelegate.PhabricatorStep | LoosePhabric/AppDelegate.swift:42-85 | a step is taken exactly when the setting is on, the ticket grammar matches and, with expansion, the URL parses; without expansion exactly the matched link is written, with it the fetch starts for exactly the matched ticket and URL |
| AppDelegate.TicketTaken | LoosePhabric/AppDelegate.swift:47-83 | every `T<digits>` and `T<digits>#<digits>` is linked to the Phabricator base URL plus itself, or fetched under that name and URL |
| AppDelegate.PasteNotTicket | LoosePhabric/AppDelegate.swift:47 | the earlier grammar knows only `T`: a paste name `P<digits>` is no object name there |
| AppDelegate.GerritStep | LoosePhabric/AppDelegate.swift:87-172 | a step is taken exactly when the setting is on, the Gerrit grammar matches and, with expansion, the API URL parses; without expansion the percent-decoded change ID is written with the change URL, with it the fetch starts for exactly the change ID and URL |
| AppDelegate.ChangeIdTaken | LoosePhabric/AppDelegate.swift:99-170 | a Change-Id is linked under its percent-decoded self to its query URL, or fetched from the change API |
| AppDelegate.ChangeNumberTaken | LoosePhabric/AppDelegate.swift:112-170 | `/r/<n>` is taken as change `<n>`, linked or fetched |
| AppDelegate.ReviewUrlTaken | LoosePhabric/AppDelegate.swift:115-170 | `/r/c/<project>/+/<n>/...` is taken as `<project joined by %2F>~<n>`, linked or fetched |
| AppDelegate.LegacyOutcome | LoosePhabric/AppDelegate.swift:33-40 | Phabricator first, Gerrit only when Phabricator returned false |
| AppDelegate.TicketGrammarAgrees | LoosePhabric/AppDelegate.swift:47-63 | where the earlier ticket-only grammar accepts (anything but a non-ticket object name), the handler grammar gives the same link |
| AppDelegate.TicketsAgree | LoosePhabric/AppDelegate.swift:47-63 | conversely, a link the handler grammar makes for a ticket (its label starts with `T`) is the earlier grammar's link too |
| AppDelegate.PhabricatorEnrichment | LoosePhabric/AppDelegate.swift:67-77 | a written link keeps the URL and has the label `<ticket>: `; a transport failure, a body that is not UTF-8 or a page without `<title>` writes nothing |
| AppDelegate.PhabricatorEnrichmentOfPage | LoosePhabric/AppDelegate.swift:67-77 | any reply whose page has a title, whatever its status, is labelled `<ticket>: ` and the cleaned, trimmed title |
| AppDelegate.ErrorPageStillWritten | LoosePhabric/AppDelegate.swift:68-76 | unlike the handler, a 404 page with a title is still written |
| AppDelegate.GerritEnrichment | LoosePhabric/AppDelegate.swift:131-165 | a written link keeps the change URL; a transport failure, a body that is not UTF-8 or an answer in which the probe finds no subject and id writes nothing |
| AppDelegate.GerritAnswer | LoosePhabric/AppDelegate.swift:137-159 | an XSSI-prefixed answer is labelled with the percent-decoded `subject (id)` found in the JSON |
| AppDelegate.GerritAnswerOfCleanedBody | LoosePhabric/AppDelegate.swift:137-159 | any answer is labelled from what the probe finds in the cleaned body, or writes nothing when it finds nothing; the status is not checked |
| AppDelegate.AppDelegate.SetLinkToPasteboard | LoosePhabric/AppDelegate.swift:188-216 | the same item as the handlers write, and the delegate counts the write itself |
| AppDelegate.AppDelegate.Perform | LoosePhabric/AppDelegate.swift:80-82 | a direct link leaves exactly its item on the pasteboard and is counted; a fetch start changes nothing |
| AppDelegate.AppDelegate.FetchPhabricatorTitleAndSetLink | LoosePhabric/AppDelegate.swift:42-85 | returns exactly the Phabricator step; only a direct link is written, as exactly its item, and counted |
| AppDelegate.AppDelegate.FetchGerritTitleAndSetLink | LoosePhabric/AppDelegate.swift:87-172 | returns exactly the Gerrit step; only a direct link is written, as exactly its item, and counted |
| AppDelegate.AppDelegate.OnPasteboardChanged | LoosePhabric/AppDelegate.swift:33-40 | the outcome is the earlier chain's, on the text as it was; a winning direct link leaves exactly its item on the pasteboard |
| AppDelegate.AppDelegate.TimerTick | LoosePhabric/AppDelegate.swift:24-30 | equal counts do nothing; otherwise the chain runs and a direct link leaves exactly its item, any other outcome leaves the pasteboard as it was; afterwards the delegate is in sync |
| AppDelegate.AppDelegate.CleanUpPhabricatorTitle | LoosePhabric/AppDelegate.swift:174-186 | cleans exactly as the handler's clean-up, so everything through the first `T\d+` is dropped |
| AppDelegate.AppDelegate.CompletePhabricatorFetch | LoosePhabric/AppDelegate.swift:67-77 | returns the earlier enrichment; when there is one, the pasteboard holds exactly its item and the write is counted; otherwise nothing changes; the delegate's sync is kept |
| AppDelegate.AppDelegate.GerritEnrichmentOf | LoosePhabric/AppDelegate.swift:131-165 | the fetch closure's guards, in order, yield exactly the earlier Gerrit enrichment |
| AppDelegate.AppDelegate.CompleteGerritFetch | LoosePhabric/AppDelegate.swift:131-165 | returns the earlier Gerrit enrichment; when there is one, the pasteboard holds exactly its item and the write is counted; otherwise nothing changes; the delegate's sync is kept |

## Left out

- The user interface (`SettingsView.swift`, `UpdaterView.swift`, the menu-bar scene in `LoosePhabricApp.swift`) and the Sparkle updater are not part of this model: they do not touch links.
- Networking: `URLSession` is the `Network` parameter, a function from the requested URL to a failure or a status with a body. Timeouts, redirects and cancellation are not modelled.
- Concurrency: a fetch's main-queue completion is a separate call (`CompleteFetch`, `CompletePhabricatorFetch`, `CompleteGerritFetch`). The model does not capture another copy arriving while a fetch is in flight, nor a stale title overwriting a newer copy.
- The repeating timers are the caller invoking `CheckPasteboard` or `TimerTick`. The `PasteboardSet` notification is `WriteLink` calling `OnPasteboardSet` directly.
- Foundation and AppKit routines are parameters, and their internals are not modelled: URL parsing, HTML entity decoding, percent decoding, UTF-8 decoding, RTF generation, the two JSON decoders and `decorateTitle`.
- `\d` and `decimalDigits` are taken as the ASCII digits `0`-`9`; Unicode's other decimal digits (Arabic-Indic, full-width and so on) are not modelled. The trimming set is Foundation's `whitespacesAndNewlines`, listed out as its code points. Strings are sequences of Unicode scalar values, not grapheme clusters.
- Console logging (`print`) is left out.
- PathComponents: `URL.pathComponents` and `URL.lastPathComponent` percent-decode each component, while `path()` keeps the encoding. The model derives the components from the one `path` string, split at `/` without decoding. So a URL whose object name or Gerrit project is percent-encoded (`/%54123` for `/T123`) is declined by the model where the source accepts it.
- NoLineBreak: the Swift `Regex` literal's `.` excludes the characters for which `Character.isNewline` holds: U+000A to U+000D, U+0085, U+2028 and U+2029. Swift matches a CR LF pair as one `Character` and the model as two scalars; `.` rejects it either way.
- GerritHandler.Match: the source reads past the end of the path components when `+` is the last one, and force-unwraps the Change-Id query URL. Both are crashes, so the model excludes them by a requires, `!Traps`. The same holds for `AppDelegate.GerritStep`. The chain (`Handlers.Safe`, `Controller.PasteboardController.CanDispatch`) demands this only while the Gerrit handler is enabled, because a disabled handler's `handle` is never called; `Handlers.GerritOffDispatchesAnything` states that case.
- BaseHandler.SetLinkToPasteboard: the force-unwrap of the first pasteboard item is a requires, `HasFirstItem`. A direct write follows right after the change check has seen an item. The fetch completions (`Controller.PasteboardController.CompleteFetch`, `AppDelegate.AppDelegate.CompletePhabricatorFetch`, `AppDelegate.AppDelegate.CompleteGerritFetch`) assume it too. In the source they run after the network reply, when another application may have emptied the pasteboard, and there they crash; the model does not capture that crash.
- GitlabHandler.MergeRequestPath: follows the code's pattern `/repos/mediawiki/<repo>/-/merge_requests/<n>`. A merge request outside `mediawiki/` is declined.
- Defaults: the handler version registers none. The settings view's `@AppStorage` initial values are `true`, but they are not registered with `UserDefaults`. So `bool(forKey:)`, and the model, read an unset key as false. This includes `showStatus`, which has no setting at all in the shown code.
- AppDelegate.PhabricatorEnrichment: the earlier engine checks neither the HTTP status nor the login wall. The model keeps that as written, and `ErrorPageStillWritten` shows the difference.
