/**
 * The three `BaseHandler` conformances as one variant type, and the
 * handler chain of LoosePhabric/PasteboardController.swift as a function:
 * the first registered handler that is enabled and accepts the text wins.
 */
module Handlers {
  import opened Wrappers
  import opened Foundation
  import opened BaseHandler
  import PhabricatorHandler
  import GerritHandler
  import GitlabHandler

  datatype Handler = Phabricator | Gerrit | Gitlab

  function DefaultsKey(h: Handler): string {
    match h
    case Phabricator => PhabricatorHandler.DefaultsKey
    case Gerrit => GerritHandler.DefaultsKey
    case Gitlab => GitlabHandler.DefaultsKey
  }

  /** Text on which `h`'s `handle` does not trap (only the Gerrit grammar has a crash path). */
  predicate CanHandle(h: Handler, text: string, p: Platform) {
    h.Gerrit? ==> !GerritHandler.Traps(text, p)
  }

  /**
   * Text on which the chain does not trap: Gerrit's `handle` is only called
   * when Gerrit is enabled, so with Gerrit off every text is safe.
   */
  predicate Safe(text: string, d: Defaults, p: Platform) {
    Enabled(GerritHandler.DefaultsKey, d) ==> !GerritHandler.Traps(text, p)
  }

  /** With Gerrit off, every text can be dispatched, and Gerrit never wins: the `&&` keeps its `handle` from running. */
  lemma GerritOffDispatchesAnything(hs: seq<Handler>, text: string, d: Defaults, p: Platform)
    requires !Enabled(GerritHandler.DefaultsKey, d)
    ensures Safe(text, d, p)
    ensures ChainOutcome(Some(text), hs, d, p).Handled? ==> hs[ChainOutcome(Some(text), hs, d, p).index] != Gerrit
  {
  }

  /** `handle(_:)` of each handler: the action it starts, or nothing when it returns false. */
  function Handle(h: Handler, text: string, d: Defaults, p: Platform): Option<Action>
    requires CanHandle(h, text, p)
  {
    match h
    case Phabricator => PhabricatorHandler.Handle(text, d, p)
    case Gerrit => GerritHandler.Handle(text, d, p)
    case Gitlab => GitlabHandler.Handle(text, d, p)
  }

  /** `fetchTitleAndSetToPasteboard` of each handler: the link it eventually writes, or nothing. */
  function Enrichment(h: Handler, text: string, urlString: string, net: Network, d: Defaults, p: Platform): Option<Link> {
    match h
    case Phabricator => PhabricatorHandler.Enrichment(text, urlString, net, ShowStatus(d), p)
    case Gerrit => GerritHandler.Enrichment(text, urlString, net, p)
    case Gitlab => GitlabHandler.Enrichment(text, urlString, net, ShowStatus(d), p)
  }

  method FetchTitle(h: Handler, text: string, urlString: string, net: Network, d: Defaults, p: Platform) returns (link: Option<Link>)
    ensures link == Enrichment(h, text, urlString, net, d, p)
  {
    match h
    case Phabricator => link := PhabricatorHandler.FetchTitle(text, urlString, net, ShowStatus(d), p);
    case Gerrit => link := GerritHandler.FetchTitle(text, urlString, net, p);
    case Gitlab => link := GitlabHandler.FetchTitle(text, urlString, net, ShowStatus(d), p);
  }

  /** One round of the loop: nothing when the handler is disabled, else what its `handle` does. */
  function Decision(h: Handler, text: string, d: Defaults, p: Platform): (r: Option<Action>)
    requires Safe(text, d, p)
    ensures !Enabled(DefaultsKey(h), d) ==> r.None?
    ensures Enabled(DefaultsKey(h), d) ==> CanHandle(h, text, p) && r == Handle(h, text, d, p)
  {
    if Enabled(DefaultsKey(h), d) then Handle(h, text, d, p) else None
  }

  /** `handler.enabled() && handler.handle(plain)`. */
  predicate Takes(h: Handler, text: string, d: Defaults, p: Platform)
    requires Safe(text, d, p)
  {
    Decision(h, text, d, p).Some?
  }

  /** Each registered handler's decision, in registration order. */
  function Decisions(hs: seq<Handler>, text: string, d: Defaults, p: Platform): (v: seq<Option<Action>>)
    requires Safe(text, d, p)
    ensures |v| == |hs|
  {
    if hs == [] then [] else [Decision(hs[0], text, d, p)] + Decisions(hs[1..], text, d, p)
  }

  lemma {:induction false} DecisionAt(hs: seq<Handler>, text: string, d: Defaults, p: Platform, i: nat)
    requires Safe(text, d, p) && i < |hs|
    ensures Decisions(hs, text, d, p)[i] == Decision(hs[i], text, d, p)
  {
    if i > 0 {
      DecisionAt(hs[1..], text, d, p, i - 1);
    }
  }

  lemma DecisionsMeaning(hs: seq<Handler>, text: string, d: Defaults, p: Platform)
    requires Safe(text, d, p)
    ensures forall j :: 0 <= j < |hs| ==> Decisions(hs, text, d, p)[j] == Decision(hs[j], text, d, p)
  {
    forall j | 0 <= j < |hs| {
      DecisionAt(hs, text, d, p, j);
    }
  }

  /** The positions below `n` whose `handle` the loop calls: the enabled ones. */
  ghost function Asked(hs: seq<Handler>, d: Defaults, n: nat): set<nat>
    requires n <= |hs|
  {
    if n == 0 then {}
    else if Enabled(DefaultsKey(hs[n - 1]), d) then Asked(hs, d, n - 1) + {n - 1}
    else Asked(hs, d, n - 1)
  }

  lemma {:induction false} AskedMembers(hs: seq<Handler>, d: Defaults, n: nat)
    requires n <= |hs|
    ensures forall j :: j in Asked(hs, d, n) <==> 0 <= j < n && Enabled(DefaultsKey(hs[j]), d)
  {
    if n > 0 {
      AskedMembers(hs, d, n - 1);
    }
  }

  /** The loop's stopping point: the first decision at or after `from` that takes the text. */
  function FirstSomeFrom(v: seq<Option<Action>>, from: nat): (r: Option<nat>)
    requires from <= |v|
    decreases |v| - from
    ensures r.Some? ==> from <= r.value < |v| && v[r.value].Some?
    ensures r.Some? ==> forall j :: from <= j < r.value ==> v[j].None?
    ensures r.None? ==> forall j :: from <= j < |v| ==> v[j].None?
  {
    if from == |v| then None
    else if v[from].Some? then Some(from)
    else FirstSomeFrom(v, from + 1)
  }

  /** A decision that takes the text, with none taking it before, is where the loop stops. */
  lemma FirstSomeUnique(v: seq<Option<Action>>, i: nat)
    requires i < |v| && v[i].Some? && forall j :: 0 <= j < i ==> v[j].None?
    ensures FirstSomeFrom(v, 0) == Some(i)
  {
  }

  /** What the loop returns for a sequence of decisions. */
  function Outcome(v: seq<Option<Action>>): (o: Dispatch)
    ensures o.Handled? || o.NoHandler?
    ensures o.Handled? ==> o.index < |v| && v[o.index] == Some(o.action) && forall j :: 0 <= j < o.index ==> v[j].None?
    ensures o.NoHandler? ==> forall j :: 0 <= j < |v| ==> v[j].None?
  {
    match FirstSomeFrom(v, 0)
    case None => NoHandler
    case Some(i) => Handled(i, v[i].value)
  }

  /** The index of the first handler that is enabled and takes the text. */
  function FirstTaker(hs: seq<Handler>, text: string, d: Defaults, p: Platform): (r: Option<nat>)
    requires Safe(text, d, p)
    ensures r.Some? ==> r.value < |hs| && Takes(hs[r.value], text, d, p)
    ensures r.Some? ==> forall j {:trigger Takes(hs[j], text, d, p)} :: 0 <= j < r.value ==> !Takes(hs[j], text, d, p)
    ensures r.None? ==> forall j {:trigger Takes(hs[j], text, d, p)} :: 0 <= j < |hs| ==> !Takes(hs[j], text, d, p)
  {
    DecisionsMeaning(hs, text, d, p);
    FirstSomeFrom(Decisions(hs, text, d, p), 0)
  }

  /** The first taker is unique: any index with the two properties is it. */
  lemma FirstTakerUnique(hs: seq<Handler>, text: string, d: Defaults, p: Platform, i: nat)
    requires Safe(text, d, p) && i < |hs| && Takes(hs[i], text, d, p)
    requires forall j {:trigger Takes(hs[j], text, d, p)} :: 0 <= j < i ==> !Takes(hs[j], text, d, p)
    ensures FirstTaker(hs, text, d, p) == Some(i)
  {
    var v := Decisions(hs, text, d, p);
    DecisionsMeaning(hs, text, d, p);
    assert forall j :: 0 <= j < i ==> v[j].None? by {
      forall j | 0 <= j < i ensures v[j].None? {
        assert !Takes(hs[j], text, d, p);
      }
    }
    FirstSomeUnique(v, i);
  }

  /** Registering another handler never changes an existing winner; it only fills in when nobody took the text. */
  lemma {:induction false} RegisterKeepsWinner(hs: seq<Handler>, h: Handler, text: string, d: Defaults, p: Platform)
    requires Safe(text, d, p)
    ensures FirstTaker(hs, text, d, p).Some? ==> FirstTaker(hs + [h], text, d, p) == FirstTaker(hs, text, d, p)
    ensures FirstTaker(hs, text, d, p).None? ==>
      FirstTaker(hs + [h], text, d, p) == (if Takes(h, text, d, p) then Some(|hs|) else None)
  {
    var hs' := hs + [h];
    match FirstTaker(hs, text, d, p)
    case Some(i) =>
      assert hs'[i] == hs[i];
      assert forall j :: 0 <= j < i ==> hs'[j] == hs[j];
      FirstTakerUnique(hs', text, d, p, i);
    case None =>
      assert forall j :: 0 <= j < |hs| ==> hs'[j] == hs[j];
      if Takes(h, text, d, p) {
        assert hs'[|hs|] == h;
        FirstTakerUnique(hs', text, d, p, |hs|);
      } else {
        assert forall j :: 0 <= j < |hs'| ==> !Takes(hs'[j], text, d, p);
      }
  }

  /** A disabled handler never wins, wherever it is registered. */
  lemma DisabledNeverWins(hs: seq<Handler>, text: string, d: Defaults, p: Platform)
    requires Safe(text, d, p)
    ensures FirstTaker(hs, text, d, p).Some? ==> Enabled(DefaultsKey(hs[FirstTaker(hs, text, d, p).value]), d)
  {
  }

  /** The result of one `onPasteboardChanged` (or of the change check before it). */
  datatype Dispatch =
    | NotChanged
    | NoPlainText
    | NoHandler
    | Handled(index: nat, action: Action)

  /** What the chain decides for the plain text of the first item. */
  function ChainOutcome(plain: Option<string>, hs: seq<Handler>, d: Defaults, p: Platform): (o: Dispatch)
    requires plain.Some? ==> Safe(plain.value, d, p)
    ensures o.NoPlainText? <==> plain.None?
    ensures o.Handled? ==>
      o.index < |hs| && Takes(hs[o.index], plain.value, d, p) && Enabled(DefaultsKey(hs[o.index]), d)
      && (forall j {:trigger Takes(hs[j], plain.value, d, p)} :: 0 <= j < o.index ==> !Takes(hs[j], plain.value, d, p))
      && Handle(hs[o.index], plain.value, d, p) == Some(o.action)
    ensures o.NoHandler? ==> forall j {:trigger Takes(hs[j], plain.value, d, p)} :: 0 <= j < |hs| ==> !Takes(hs[j], plain.value, d, p)
    ensures !o.NotChanged?
  {
    match plain
    case None => NoPlainText
    case Some(t) =>
      DecisionsMeaning(hs, t, d, p);
      Outcome(Decisions(hs, t, d, p))
  }
}
