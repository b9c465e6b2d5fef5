/**
 * Request composition (`composeMultipart` in src/commands/run.ts): one
 * `multipart/mixed` body (RFC 2046 section 5.1) carrying a publish
 * sub-request per URL for the Google Indexing batch endpoint, and a reader
 * that takes such a body apart again: the composer's own inverse, not a
 * general RFC 2046 parser (the body ends with a plain delimiter, with no
 * close-delimiter).
 */
module Multipart {
  import opened Wrappers
  import opened Text

  /** The update-type tag every sub-request carries. */
  const UrlUpdated := "URL_UPDATED"

  /** The header lines of a publish part before its content-length line. */
  const PublishHead: seq<string> := [
    "Content-Type: application/http",
    "Content-Transfer-Encoding: binary",
    "Content-ID: ''",
    "",
    "POST /v3/urlNotifications:publish HTTP/1.1",
    "Content-Type: application/json",
    "accept: application/json"
  ]

  const ContentLengthField := "content-length: "

  /** The JSON object of one sub-request: the URL and its update type. */
  datatype Notification = Notification(url: string, kind: string)

  /**
   * A string JSON.stringify copies between quotes unchanged: no quote, no
   * backslash and no control character.
   */
  predicate JsonSafe(s: string) {
    forall i :: 0 <= i < |s| ==> ' ' <= s[i] && s[i] != '"' && s[i] != '\\'
  }

  const UrlKey := "{\"url\":\""
  const TypeKey := "\",\"type\":\""
  const Closing := "\"}"

  /** `JSON.stringify({ url, type })` for JSON-safe strings. */
  function NotificationJson(n: Notification): string {
    UrlKey + n.url + TypeKey + n.kind + Closing
  }

  /** The envelope's header lines as sent, each ended by a line break. */
  const EnvelopeHead := Terminated(PublishHead, "\n")

  /** The `application/http` envelope around `POST /v3/urlNotifications:publish` for one URL. */
  function PublishPart(url: string): string {
    var data := NotificationJson(Notification(url, UrlUpdated));
    EnvelopeHead + ContentLengthField + Decimal(|data|) + "\n" + "\n" + data
  }

  /** The delimiter the parts are joined by and wrapped in. */
  function Delimiter(boundary: string): string {
    "\n--" + boundary + "\n"
  }

  /**
   * The body of one batch request: the parts joined by the delimiter, with the
   * same delimiter again before the first part and after the last one.
   */
  function ComposeMultipart(urls: seq<string>, boundary: string): string {
    var delimiter := Delimiter(boundary);
    delimiter + Join(Parts(urls), delimiter) + delimiter
  }

  /** `urls.map(...)`: one publish part per URL. */
  function Parts(urls: seq<string>): (r: seq<string>)
    ensures |r| == |urls|
    ensures forall i :: 0 <= i < |urls| ==> r[i] == PublishPart(urls[i])
  {
    seq(|urls|, i requires 0 <= i < |urls| => PublishPart(urls[i]))
  }

  // ---------------------------------------------------------------------------
  // The reader: the inverse of ComposeMultipart.

  /** Reads `{"url":"U","type":"T"}` with quote-free U and T. */
  function ReadNotification(body: string): Option<Notification> {
    if |body| < |UrlKey| || body[..|UrlKey|] != UrlKey then None
    else
      var rest := body[|UrlKey|..];
      match FindFrom(rest, "\"", 0)
      case None => None
      case Some(i) =>
        var tail := rest[i..];
        if |tail| < |TypeKey| + |Closing| || tail[..|TypeKey|] != TypeKey
           || tail[|tail| - |Closing|..] != Closing then None
        else
          var kind := tail[|TypeKey|..|tail| - |Closing|];
          if '"' in kind then None else Some(Notification(rest[..i], kind))
  }

  /**
   * Reads the lines of one part: the fixed publish envelope, a content-length
   * that equals the length of the JSON body, and the body itself.
   */
  function ReadLines(lines: seq<string>): Option<Notification> {
    if |lines| != 10 || lines[..7] != PublishHead || lines[8] != "" then None
    else
      var field := lines[7];
      if |field| < |ContentLengthField| || field[..|ContentLengthField|] != ContentLengthField then None
      else if ParseDecimal(field[|ContentLengthField|..]) != Some(|lines[9]|) then None
      else ReadNotification(lines[9])
  }

  /** Reads one part, line by line. */
  function ReadPart(part: string): Option<Notification> {
    ReadLines(Split(part, "\n"))
  }

  function ReadParts(parts: seq<string>): Option<seq<Notification>> {
    if |parts| == 0 then Some([])
    else
      match ReadPart(parts[0])
      case None => None
      case Some(n) =>
        match ReadParts(parts[1..])
        case None => None
        case Some(ns) => Some([n] + ns)
  }

  /** The pieces between the delimiters: an empty preamble, the parts, an empty epilogue. */
  function ReadPieces(pieces: seq<string>): Option<seq<Notification>> {
    if |pieces| < 2 || pieces[0] != "" || pieces[|pieces| - 1] != "" then None
    else ReadParts(pieces[1..|pieces| - 1])
  }

  /** Splits a body on the delimiter and reads the pieces. */
  function ReadMultipart(body: string, boundary: string): Option<seq<Notification>> {
    ReadPieces(Split(body, Delimiter(boundary)))
  }

  /** What a batch of URLs announces: each URL as updated, in order. */
  function Updated(urls: seq<string>): (r: seq<Notification>)
    ensures |r| == |urls|
    ensures forall i :: 0 <= i < |urls| ==> r[i] == Notification(urls[i], UrlUpdated)
  {
    seq(|urls|, i requires 0 <= i < |urls| => Notification(urls[i], UrlUpdated))
  }

  // ---------------------------------------------------------------------------
  // Round trip.

  /** The lines a publish part is made of. */
  function PartLines(url: string): seq<string> {
    var data := NotificationJson(Notification(url, UrlUpdated));
    PublishHead + [ContentLengthField + Decimal(|data|), "", data]
  }

  /** The fixed header lines hold no line break and none starts with '-'. */
  lemma HeadLinesPlain()
    ensures forall i :: 0 <= i < |PublishHead| ==> '\n' !in PublishHead[i]
    ensures forall i :: 0 <= i < |PublishHead| ==> PublishHead[i] == [] || PublishHead[i][0] != '-'
  {
    FirstHeadLinesUnbroken();
    MiddleHeadLinesUnbroken();
    LastHeadLinesUnbroken();
  }

  lemma FirstHeadLinesUnbroken()
    ensures '\n' !in PublishHead[0] && '\n' !in PublishHead[1]
  {
  }

  lemma MiddleHeadLinesUnbroken()
    ensures '\n' !in PublishHead[2] && '\n' !in PublishHead[3] && '\n' !in PublishHead[4]
  {
  }

  lemma LastHeadLinesUnbroken()
    ensures '\n' !in PublishHead[5] && '\n' !in PublishHead[6]
  {
  }

  lemma PublishPartIsLines(url: string)
    ensures PublishPart(url) == Join(PartLines(url), "\n")
  {
    var data := NotificationJson(Notification(url, UrlUpdated));
    var E, F, D, nl := EnvelopeHead, ContentLengthField, Decimal(|data|), "\n";
    var G := F + D;
    JoinAfterTerminated(PublishHead, [G, "", data], nl);
    JoinThree(G, "", data, nl);
    // Regroup E + F + D + nl + nl + data as E + (G + nl + (nl + data)).
    Regroup(E, F, D);
    Regroup(E, G, nl);
    Regroup(E, G + nl, nl);
    Regroup(E, G + nl + nl, data);
    Regroup(G + nl, nl, data);
    assert "" + nl == nl;
  }

  lemma Regroup(a: string, b: string, c: string)
    ensures a + b + c == a + (b + c)
  {
  }

  lemma JsonSafeHasNoLineBreak(s: string)
    requires JsonSafe(s)
    ensures '\n' !in s && '"' !in s
  {
    forall i | 0 <= i < |s| ensures s[i] != '\n' && s[i] != '"' {
    }
  }

  lemma {:induction false} DigitsHaveNoLineBreak(s: string)
    requires IsDigits(s)
    ensures '\n' !in s
  {
    forall i | 0 <= i < |s| ensures s[i] != '\n' {
    }
  }

  /** A JSON body read back gives the notification it was made from. */
  lemma ReadNotificationJson(n: Notification)
    requires JsonSafe(n.url) && '"' !in n.kind
    ensures ReadNotification(NotificationJson(n)) == Some(n)
  {
    var body := NotificationJson(n);
    var rest := n.url + "\"" + (TypeKey[1..] + n.kind + Closing);
    assert body[|UrlKey|..] == rest;
    JsonSafeHasNoLineBreak(n.url);
    LineSeparable(n.url, '"');
    FindAfterSeparable(n.url, "\"", TypeKey[1..] + n.kind + Closing);
    var tail := rest[|n.url|..];
    assert tail == TypeKey + n.kind + Closing;
    assert tail[|TypeKey|..|tail| - |Closing|] == n.kind;
    assert rest[..|n.url|] == n.url;
  }

  /**
   * The lines of a publish part for a JSON-safe URL hold no line break, none
   * after the first starts with '-', and the last (the JSON body) is not empty.
   */
  lemma PartLinesPlain(url: string)
    requires JsonSafe(url)
    ensures var L := PartLines(url);
            && |L| == 10
            && (forall i :: 0 <= i < |L| ==> '\n' !in L[i])
            && (forall i :: 0 < i < |L| ==> L[i] == [] || L[i][0] != '-')
            && L[9] != []
  {
    var L := PartLines(url);
    var data := NotificationJson(Notification(url, UrlUpdated));
    JsonSafeHasNoLineBreak(url);
    DigitsHaveNoLineBreak(Decimal(|data|));
    HeadLinesPlain();
    assert '\n' !in data;
    assert forall i :: 0 <= i < 7 ==> L[i] == PublishHead[i];
  }

  /** Splitting the joined lines of a publish part gives its ten lines. */
  lemma SplitPartLines(url: string)
    requires JsonSafe(url)
    ensures Split(Join(PartLines(url), "\n"), "\n") == PartLines(url)
  {
    var L := PartLines(url);
    PartLinesPlain(url);
    forall i | 0 <= i < |L| ensures Separable(L[i], "\n") {
      LineSeparable(L[i], '\n');
    }
    SplitJoin(L, "\n");
  }

  /** The lines of a publish part read back as the URL, tagged URL_UPDATED. */
  lemma ReadPartLines(url: string)
    requires JsonSafe(url)
    ensures ReadLines(PartLines(url)) == Some(Notification(url, UrlUpdated))
  {
    var L := PartLines(url);
    var data := NotificationJson(Notification(url, UrlUpdated));
    assert L[..7] == PublishHead;
    assert L[7][..|ContentLengthField|] == ContentLengthField;
    assert L[7][|ContentLengthField|..] == Decimal(|data|);
    ParseDecimalRoundTrip(|data|);
    ReadNotificationJson(Notification(url, UrlUpdated));
  }

  /** A publish part read back gives the URL, tagged URL_UPDATED; its content-length is its body's length. */
  lemma ReadPublishPart(url: string)
    requires JsonSafe(url)
    ensures ReadPart(PublishPart(url)) == Some(Notification(url, UrlUpdated))
  {
    PublishPartIsLines(url);
    SplitPartLines(url);
    ReadPartLines(url);
  }

  /** No occurrence of a multipart delimiter can begin inside a publish part. */
  lemma PublishPartSeparable(url: string, boundary: string)
    requires JsonSafe(url)
    ensures Separable(PublishPart(url), Delimiter(boundary))
  {
    PublishPartIsLines(url);
    PartLinesPlain(url);
    JoinedLinesSeparable(PartLines(url), Delimiter(boundary));
  }

  lemma PartsSeparable(urls: seq<string>, boundary: string)
    requires forall i :: 0 <= i < |urls| ==> JsonSafe(urls[i])
    ensures forall i :: 0 <= i < |urls| ==> Separable(Parts(urls)[i], Delimiter(boundary))
  {
    forall i | 0 <= i < |urls| ensures Separable(Parts(urls)[i], Delimiter(boundary)) {
      PublishPartSeparable(urls[i], boundary);
    }
  }

  /**
   * Splitting a composed body on its delimiter gives an empty preamble, one
   * part per URL in URL order, and an empty epilogue.
   */
  lemma {:induction false} SplitComposed(urls: seq<string>, boundary: string)
    requires |urls| > 0 && forall i :: 0 <= i < |urls| ==> JsonSafe(urls[i])
    ensures Split(ComposeMultipart(urls, boundary), Delimiter(boundary)) == [""] + Parts(urls) + [""]
  {
    PartsSeparable(urls, boundary);
    SplitWrapped(Parts(urls), Delimiter(boundary));
  }

  /** Parts that each read back as a notification read back as the list of them. */
  lemma {:induction false} ReadEachPart(parts: seq<string>, ns: seq<Notification>)
    requires |parts| == |ns|
    requires forall i :: 0 <= i < |parts| ==> ReadPart(parts[i]) == Some(ns[i])
    ensures ReadParts(parts) == Some(ns)
    decreases |parts|
  {
    if |parts| > 0 {
      var rest, more := parts[1..], ns[1..];
      assert forall i :: 0 <= i < |rest| ==> rest[i] == parts[i + 1] && more[i] == ns[i + 1];
      ReadEachPart(rest, more);
      assert ReadPart(parts[0]) == Some(ns[0]);
      assert ReadParts(parts) == Some([ns[0]] + more);
      assert ns == [ns[0]] + ns[1..];
    }
  }

  lemma ReadPublishParts(urls: seq<string>)
    requires forall i :: 0 <= i < |urls| ==> JsonSafe(urls[i])
    ensures ReadParts(Parts(urls)) == Some(Updated(urls))
  {
    forall i | 0 <= i < |urls| ensures ReadPart(Parts(urls)[i]) == Some(Updated(urls)[i]) {
      ReadPublishPart(urls[i]);
    }
    ReadEachPart(Parts(urls), Updated(urls));
  }

  /**
   * Round trip: the reader takes a composed body back to the batch's URLs,
   * in order, each tagged URL_UPDATED.
   */
  lemma ReadComposed(urls: seq<string>, boundary: string)
    requires |urls| > 0 && forall i :: 0 <= i < |urls| ==> JsonSafe(urls[i])
    ensures ReadMultipart(ComposeMultipart(urls, boundary), boundary) == Some(Updated(urls))
  {
    SplitComposed(urls, boundary);
    ReadPublishParts(urls);
    ReadWrappedPieces(Parts(urls));
  }

  /** The parts between an empty preamble and an empty epilogue are read as they are. */
  lemma ReadWrappedPieces(items: seq<string>)
    ensures ReadPieces([""] + items + [""]) == ReadParts(items)
  {
    var pieces := [""] + items + [""];
    assert pieces[1..|pieces| - 1] == items;
  }
}
