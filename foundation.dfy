/**
 * The two computed properties of LoosePhabric/Extensions/String.swift.
 */
module StringExt {
  import opened Wrappers
  import opened Text

  /** The set of characters of `s` (`CharacterSet(charactersIn:)`). */
  function CharSet(s: string): set<char> {
    set i | 0 <= i < |s| :: s[i]
  }

  /** `isNumeric`: the characters of `s` form a subset of the decimal digits. */
  predicate IsNumeric(s: string) {
    forall c :: c in CharSet(s) ==> IsDigit(c)
  }

  lemma NumericIffAllDigits(s: string)
    ensures IsNumeric(s) <==> AllDigits(s)
  {
    if !AllDigits(s) {
      var i :| 0 <= i < |s| && !IsDigit(s[i]);
      assert s[i] in CharSet(s);
    }
  }

  lemma EmptyIsNumeric()
    ensures IsNumeric("")
  {
  }

  lemma {:induction false} NumericOfConcat(s: string, t: string)
    ensures IsNumeric(s + t) <==> IsNumeric(s) && IsNumeric(t)
  {
    NumericIffAllDigits(s);
    NumericIffAllDigits(t);
    NumericIffAllDigits(s + t);
    if AllDigits(s) && AllDigits(t) {
      forall i | 0 <= i < |s + t| ensures IsDigit((s + t)[i]) {
        if i < |s| { assert (s + t)[i] == s[i]; } else { assert (s + t)[i] == t[i - |s|]; }
      }
    }
    if AllDigits(s + t) {
      forall i | 0 <= i < |s| ensures IsDigit(s[i]) { assert (s + t)[i] == s[i]; }
      forall i | 0 <= i < |t| ensures IsDigit(t[i]) { assert (s + t)[|s| + i] == t[i]; }
    }
  }

  /** Only which characters occur matters: reordering, repeating or dropping copies does not change the answer. */
  lemma NumericOfSameCharacters(s: string, t: string)
    requires forall c :: c in s <==> c in t
    ensures IsNumeric(s) <==> IsNumeric(t)
  {
    forall c ensures c in CharSet(s) <==> c in CharSet(t) {
      if c in CharSet(s) {
        var i :| 0 <= i < |s| && s[i] == c;
        assert c in s;
        var j :| 0 <= j < |t| && t[j] == c;
      }
      if c in CharSet(t) {
        var j :| 0 <= j < |t| && t[j] == c;
        assert c in t;
        var i :| 0 <= i < |s| && s[i] == c;
      }
    }
  }

  lemma NonDigitIsNotNumeric(s: string, i: nat)
    requires i < |s| && !IsDigit(s[i])
    ensures !IsNumeric(s)
  {
    assert s[i] in CharSet(s);
  }
}

/**
 * What the core takes from Foundation and AppKit, as inputs: a parsed URL,
 * the outcome of a network request, the decoded JSON records and the
 * library routines the model does not re-implement.
 */
module Foundation {
  import opened Wrappers
  import opened Text

  type Bytes = seq<bv8>

  /** A URL as `URL(string:)` parses it. */
  datatype Url = Url(host: Option<string>, path: string, fragment: Option<string>, absoluteString: string)

  /** `URL.pathComponents`: the root "/" first when the path is absolute, then the non-empty segments. */
  function PathComponents(path: string): (r: seq<string>)
    ensures path != [] && path[0] == '/' ==> |r| >= 1 && r[0] == "/"
  {
    if path == [] then []
    else (if path[0] == '/' then ["/"] else []) + Pieces(path, '/')
  }

  /** `URL.lastPathComponent`. */
  function LastPathComponent(u: Url): string {
    var pc := PathComponents(u.path);
    if pc == [] then "" else pc[|pc| - 1]
  }

  /** `pathComponents` of `/` followed by segments joined with `/` is the root and those segments. */
  lemma ComponentsOfAbsolutePath(segments: seq<string>)
    requires segments != []
    requires forall k :: 0 <= k < |segments| ==> segments[k] != [] && '/' !in segments[k]
    ensures PathComponents("/" + Join(segments, "/")) == ["/"] + segments
  {
    var joined := Join(segments, ['/']);
    assert "/" == ['/'];
    PiecesOfJoin(segments, '/');
    PiecesAfterLeadingSep('/', joined);
    assert PathComponents(['/'] + joined) == ["/"] + Pieces(['/'] + joined, '/');
  }

  /** The outcome of one `dataTask`: no data or an error, or an HTTP status with a body. */
  datatype Reply = Failed | Response(status: int, data: Bytes)

  predicate Is2xx(status: int) {
    200 <= status <= 299
  }

  /** What the network answers for each requested URL. */
  type Network = string -> Reply

  /** The phabroxy lookup record. */
  datatype PhabroxyResponse = PhabroxyResponse(
    fullName: string, name: string, phid: string, status: string,
    objectType: string, typeName: string, uri: string)

  /** The fields of Gerrit's ChangeInfo that the handler reads. */
  datatype GerritChange = GerritChange(id: string, changeId: string, subject: string, status: string, project: string)

  /**
   * Library routines taken as given: URL parsing, HTML entity decoding,
   * percent decoding, UTF-8 decoding, RTF generation, the two JSON decoders
   * (the typed one of GerritHandler and the `subject`/`id` probe of the
   * earlier AppDelegate), and `decorateTitle`.
   */
  datatype Platform = Platform(
    parseUrl: string -> Option<Url>,
    htmlDecode: string -> Option<string>,
    percentDecode: string -> Option<string>,
    utf8: Bytes -> Option<string>,
    rtf: (string, string) -> Option<Bytes>,
    decodePhabroxy: Bytes -> Option<PhabroxyResponse>,
    decodeGerrit: string -> Option<GerritChange>,
    gerritSubjectAndId: string -> Option<(string, string)>,
    decorateTitle: (string, string) -> string)

  /** `htmlDecoded`: the decoded text, or the string itself when decoding fails. */
  function HtmlDecoded(s: string, p: Platform): (r: string)
    ensures p.htmlDecode(s).None? ==> r == s
    ensures p.htmlDecode(s).Some? ==> r == p.htmlDecode(s).value
  {
    p.htmlDecode(s).GetOr(s)
  }

  /** `removingPercentEncoding ?? s`. */
  function PercentDecoded(s: string, p: Platform): (r: string)
    ensures p.percentDecode(s).None? ==> r == s
  {
    p.percentDecode(s).GetOr(s)
  }

  /** The user defaults store. */
  type Defaults = map<string, bool>

  /** `UserDefaults.bool(forKey:)`: false for a key that is not set. */
  function BoolForKey(d: Defaults, key: string): (b: bool)
    ensures b <==> key in d && d[key]
  {
    key in d && d[key]
  }
}

/**
 * A stand-in for `NSPasteboard.general`: a change counter and the typed
 * values of its items.
 */
module Pasteboards {
  import opened Wrappers
  import opened Foundation

  datatype PasteboardType = PlainText | Html | Rtf | UrlType

  datatype Value = Str(s: string) | Data(bytes: Bytes)

  type Item = map<PasteboardType, Value>

  class Pasteboard {
    /** Advanced by `clearContents`, by this app's writes and by other applications'. */
    var changeCount: int
    /** `pasteboardItems`, which AppKit may report as nil. */
    var items: Option<seq<Item>>

    constructor (changeCount: int, items: Option<seq<Item>>)
      ensures this.changeCount == changeCount && this.items == items
    {
      this.changeCount := changeCount;
      this.items := items;
    }

    predicate HasFirstItem()
      reads this
    {
      items.Some? && |items.value| > 0
    }

    /** `pasteboardItems?.first?.string(forType: .string)`. */
    function FirstPlain(): (r: Option<string>)
      reads this
      ensures r.Some? ==> HasFirstItem()
    {
      if HasFirstItem() && PlainText in items.value[0] && items.value[0][PlainText].Str?
      then Some(items.value[0][PlainText].s)
      else None
    }

    /** `clearContents`: a new, empty item and one more change. */
    method ClearContents()
      modifies this
      ensures changeCount == old(changeCount) + 1
      ensures items == Some([map[]])
    {
      changeCount := changeCount + 1;
      items := Some([map[]]);
    }

    /** `setString(_:forType:)` and `setData(_:forType:)` on the item just declared. */
    method SetValue(v: Value, t: PasteboardType)
      requires HasFirstItem()
      modifies this
      ensures changeCount == old(changeCount)
      ensures items == Some([old(items.value[0])[t := v]] + old(items.value[1..]))
      ensures |items.value| == |old(items.value)|
    {
      items := Some([items.value[0][t := v]] + items.value[1..]);
    }

    /** Another application copying plain text: a cleared pasteboard holding one string. */
    method CopyString(s: string)
      modifies this
      ensures changeCount == old(changeCount) + 1
      ensures items == Some([map[PlainText := Str(s)]])
      ensures FirstPlain() == Some(s)
    {
      ClearContents();
      SetValue(Str(s), PlainText);
      assert items.value == [map[PlainText := Str(s)]];
    }
  }
}
