/**
 * LoosePhabric/PasteboardController.swift: the change monitor that compares
 * the pasteboard's change count with the last one it saw, runs the handler
 * chain on the first item's plain text, and counts its own writes so that
 * it does not process them again.
 *
 * The timer is the caller invoking `CheckPasteboard` repeatedly; the
 * `PasteboardSet` notification is `WriteLink` calling `OnPasteboardSet`
 * right after the write; the main-queue block that ends a title fetch is
 * `CompleteFetch`.
 */
module Controller {
  import opened Wrappers
  import opened Foundation
  import opened Pasteboards
  import opened BaseHandler
  import opened Handlers

  class PasteboardController {
    const pasteboard: Pasteboard
    var lastChangeCount: int
    var handlers: seq<Handler>

    constructor (pasteboard: Pasteboard)
      ensures this.pasteboard == pasteboard
      ensures lastChangeCount == 0 && handlers == []
    {
      this.pasteboard := pasteboard;
      lastChangeCount := 0;
      handlers := [];
    }

    /** The controller has seen the pasteboard's current change count. */
    predicate InSync()
      reads this, pasteboard
    {
      lastChangeCount == pasteboard.changeCount
    }

    /** The chain can run on the current plain text without reaching a trap. */
    predicate CanDispatch(d: Defaults, p: Platform)
      reads this, pasteboard
    {
      pasteboard.FirstPlain().Some? ==> Safe(pasteboard.FirstPlain().value, d, p)
    }

    /** `registerHandler`: appended at the end, earlier handlers and their order untouched. */
    method RegisterHandler(h: Handler)
      modifies this
      ensures handlers == old(handlers) + [h]
      ensures lastChangeCount == old(lastChangeCount)
    {
      handlers := handlers + [h];
    }

    /** `onPasteboardSet`: exactly one more change accounted for. */
    method OnPasteboardSet()
      modifies this
      ensures lastChangeCount == old(lastChangeCount) + 1
      ensures handlers == old(handlers)
    {
      lastChangeCount := lastChangeCount + 1;
    }

    /** `setLinkToPasteboard` followed by the `PasteboardSet` notification it posts. */
    method WriteLink(l: Link, p: Platform)
      requires pasteboard.HasFirstItem()
      modifies this, pasteboard
      ensures lastChangeCount == old(lastChangeCount) + 1
      ensures pasteboard.changeCount == old(pasteboard.changeCount) + 1
      ensures pasteboard.items == Some([LinkItem(old(pasteboard.FirstPlain()).GetOr(l.text), l.text, l.url, p.rtf(l.text, l.url))])
      ensures handlers == old(handlers)
    {
      SetLinkToPasteboard(pasteboard, l.text, l.url, p);
      OnPasteboardSet();
    }

    /**
     * The loop of `onPasteboardChanged`: the handlers in registration order,
     * stopping at the first that is enabled and accepts the text. `asked`
     * holds the handlers whose `handle` was called: exactly the enabled ones
     * up to the winner (all enabled ones when none wins), never a disabled one.
     */
    method RunChain(text: string, d: Defaults, p: Platform) returns (outcome: Dispatch, ghost asked: set<nat>)
      requires Safe(text, d, p)
      ensures outcome == Outcome(Decisions(handlers, text, d, p))
      ensures outcome.Handled? ==> outcome.index < |handlers| && asked == Asked(handlers, d, outcome.index + 1)
      ensures outcome.NoHandler? ==> asked == Asked(handlers, d, |handlers|)
    {
      asked := {};
      ghost var v := Decisions(handlers, text, d, p);
      for i := 0 to |handlers|
        invariant forall j :: 0 <= j < i ==> v[j].None?
        invariant asked == Asked(handlers, d, i)
      {
        var h := handlers[i];
        if Enabled(DefaultsKey(h), d) {
          asked := asked + {i};
          var action := Handle(h, text, d, p);
          DecisionAt(handlers, text, d, p, i);
          if action.Some? {
            FirstSomeUnique(v, i);
            return Handled(i, action.value), asked;
          }
        } else {
          DecisionAt(handlers, text, d, p, i);
        }
      }
      outcome := NoHandler;
    }

    /** `onPasteboardChanged`: the guards on the first item's plain text, the chain, and the winner's direct write. */
    method OnPasteboardChanged(d: Defaults, p: Platform) returns (outcome: Dispatch, ghost asked: set<nat>)
      requires CanDispatch(d, p)
      modifies this, pasteboard
      ensures outcome == ChainOutcome(old(pasteboard.FirstPlain()), handlers, d, p)
      ensures handlers == old(handlers)
      ensures outcome.Handled? && outcome.action.WriteLink? ==>
        lastChangeCount == old(lastChangeCount) + 1
        && pasteboard.changeCount == old(pasteboard.changeCount) + 1
        && pasteboard.items == Some([LinkItem(old(pasteboard.FirstPlain()).value, outcome.action.link.text, outcome.action.link.url,
                                              p.rtf(outcome.action.link.text, outcome.action.link.url))])
      ensures !(outcome.Handled? && outcome.action.WriteLink?) ==>
        lastChangeCount == old(lastChangeCount) && unchanged(pasteboard)
      ensures forall j :: j in asked ==> j < |handlers| && Enabled(DefaultsKey(handlers[j]), d)
      ensures forall j ::
        (0 <= j < |handlers| && Enabled(DefaultsKey(handlers[j]), d)
         && (outcome.NoHandler? || (outcome.Handled? && j <= outcome.index))) ==> j in asked
    {
      asked := {};
      var plain := pasteboard.FirstPlain();
      if plain.None? {
        return NoPlainText, asked;
      }
      outcome, asked := RunChain(plain.value, d, p);
      AskedMembers(handlers, d, if outcome.Handled? then outcome.index + 1 else |handlers|);
      if outcome.Handled? && outcome.action.WriteLink? {
        WriteLink(outcome.action.link, p);
      }
    }

    /**
     * `checkPasteboard`: nothing when the counts agree; otherwise the count
     * is taken first and the chain runs. Either way the controller is in
     * sync afterwards, its own write included.
     */
    method CheckPasteboard(d: Defaults, p: Platform) returns (outcome: Dispatch, ghost asked: set<nat>)
      requires !InSync() ==> CanDispatch(d, p)
      modifies this, pasteboard
      ensures old(lastChangeCount) == old(pasteboard.changeCount) ==>
        outcome == NotChanged && lastChangeCount == old(lastChangeCount) && unchanged(pasteboard)
      ensures old(lastChangeCount) != old(pasteboard.changeCount) ==>
        outcome == ChainOutcome(old(pasteboard.FirstPlain()), handlers, d, p)
      ensures old(lastChangeCount) != old(pasteboard.changeCount) && outcome.Handled? && outcome.action.WriteLink? ==>
        pasteboard.changeCount == old(pasteboard.changeCount) + 1
        && pasteboard.items == Some([LinkItem(old(pasteboard.FirstPlain()).value, outcome.action.link.text, outcome.action.link.url,
                                              p.rtf(outcome.action.link.text, outcome.action.link.url))])
      ensures old(lastChangeCount) != old(pasteboard.changeCount) && !(outcome.Handled? && outcome.action.WriteLink?) ==>
        unchanged(pasteboard)
      ensures InSync()
      ensures handlers == old(handlers)
    {
      asked := {};
      if lastChangeCount != pasteboard.changeCount {
        lastChangeCount := pasteboard.changeCount;
        outcome, asked := OnPasteboardChanged(d, p);
      } else {
        outcome := NotChanged;
      }
    }

    /**
     * The main-queue end of `fetchTitleAndSetToPasteboard`: the enriched
     * link, when there is one, is written and counted. The difference
     * between the two counters is kept, so a controller in sync stays so.
     */
    method CompleteFetch(h: Handler, text: string, urlString: string, net: Network, d: Defaults, p: Platform) returns (link: Option<Link>)
      requires pasteboard.HasFirstItem()
      modifies this, pasteboard
      ensures link == Enrichment(h, text, urlString, net, d, p)
      ensures link.Some? ==>
        pasteboard.items == Some([LinkItem(old(pasteboard.FirstPlain()).GetOr(link.value.text), link.value.text, link.value.url,
                                           p.rtf(link.value.text, link.value.url))])
      ensures link.None? ==> unchanged(pasteboard) && lastChangeCount == old(lastChangeCount)
      ensures lastChangeCount - pasteboard.changeCount == old(lastChangeCount - pasteboard.changeCount)
      ensures handlers == old(handlers)
    {
      link := FetchTitle(h, text, urlString, net, d, p);
      if link.Some? {
        WriteLink(link.value, p);
      }
    }

    /** Loop safety: right after any check, the next check dispatches nothing. */
    method CheckTwice(d: Defaults, p: Platform) returns (first: Dispatch, second: Dispatch)
      requires !InSync() ==> CanDispatch(d, p)
      modifies this, pasteboard
      ensures second == NotChanged
      ensures InSync()
    {
      ghost var asked;
      first, asked := CheckPasteboard(d, p);
      second, asked := CheckPasteboard(d, p);
    }

    /** A copy made by another application while in sync is dispatched at the next check. */
    method ExternalCopySeen(s: string, d: Defaults, p: Platform) returns (outcome: Dispatch)
      requires InSync() && Safe(s, d, p)
      modifies this, pasteboard
      ensures outcome == ChainOutcome(Some(s), handlers, d, p)
      ensures InSync()
    {
      pasteboard.CopyString(s);
      ghost var asked;
      outcome, asked := CheckPasteboard(d, p);
    }
  }
}
