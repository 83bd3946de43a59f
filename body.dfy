/** `get_message_body`: the plain-text body of a fetched message. MIME parsing and transfer
    decoding happen before this model: each part arrives with its type, its declared charset and
    its payload already decoded to text. */
module Body {
  import opened Outcomes
  import opened Text

  /** One part of a multipart message. A nested multipart container declares no charset. */
  datatype Part = Part(contentType: string, charset: Option<string>, payload: string)

  /** The content of a message: one payload, or a sequence of parts. */
  datatype Content =
    | SinglePart(charset: Option<string>, payload: string)
    | Multipart(parts: seq<Part>)

  /** A fetched message: its Subject header, when present, and its content. */
  datatype Message = Message(subject: Option<string>, content: Content)

  const PlainType: string := "text/plain"
  const HtmlType: string := "text/html"

  /** The text a part with a declared charset yields: stripped plain text, the tag-stripped HTML
      (`removeTags` may fail), or "" for any other type. */
  function PartText(p: Part, removeTags: string -> Option<string>): (r: Result<Option<string>>)
    requires p.charset.Some?
    ensures r.Ok? ==> r.value.Some?
    ensures r.Err? <==> p.contentType == HtmlType && removeTags(Strip(p.payload)).None?
    ensures r.Err? ==> r.error == MalformedHtml
  {
    if p.contentType == PlainType then Ok(Some(Strip(p.payload)))
    else if p.contentType == HtmlType then
      match removeTags(Strip(p.payload))
      case Some(text) => Ok(Some(text))
      case None => Err(MalformedHtml)
    else Ok(Some(""))
  }

  /** The scan over the parts: parts without a charset are skipped, the first part with one decides,
      and running off the end yields no body at all. */
  function ScanParts(parts: seq<Part>, removeTags: string -> Option<string>): (r: Result<Option<string>>)
    ensures r == Ok(None) ==> forall i :: 0 <= i < |parts| ==> parts[i].charset.None?
  {
    if parts == [] then Ok(None)
    else if parts[0].charset.None? then ScanParts(parts[1..], removeTags)
    else PartText(parts[0], removeTags)
  }

  /** `get_message_body`. A single-part message without a charset is an error. */
  function MessageBody(c: Content, removeTags: string -> Option<string>): (r: Result<Option<string>>)
    ensures c.SinglePart? ==> (r.Err? <==> c.charset.None?)
    ensures c.SinglePart? && r.Err? ==> r.error == MissingCharset
    ensures r.Ok? && r.value.None? ==> c.Multipart?
  {
    match c
    case SinglePart(charset, payload) =>
      if charset.None? then Err(MissingCharset) else Ok(Some(Strip(payload)))
    case Multipart(parts) => ScanParts(parts, removeTags)
  }

  /** The body of a single-part message is its payload without surrounding whitespace. */
  lemma SinglePartTrimmed(charset: string, payload: string, removeTags: string -> Option<string>)
    returns (i: nat, j: nat)
    ensures i <= j <= |payload|
    ensures MessageBody(SinglePart(Some(charset), payload), removeTags) == Ok(Some(payload[i..j]))
    ensures forall k :: 0 <= k < i ==> IsSpace(payload[k])
    ensures forall k :: j <= k < |payload| ==> IsSpace(payload[k])
    ensures i < j ==> !IsSpace(payload[i]) && !IsSpace(payload[j - 1])
  {
    i, j := StripBounds(payload);
  }

  /** The first part that declares a charset decides the body, whatever its type. */
  lemma {:induction false} FirstCharsetPartDecides(parts: seq<Part>, k: nat, removeTags: string -> Option<string>)
    requires k < |parts| && parts[k].charset.Some?
    requires forall j :: 0 <= j < k ==> parts[j].charset.None?
    ensures ScanParts(parts, removeTags) == PartText(parts[k], removeTags)
  {
    if k > 0 {
      FirstCharsetPartDecides(parts[1..], k - 1, removeTags);
    }
  }

  /** No body at all exactly when no part declares a charset. */
  lemma {:induction false} NoBodyIffNoCharset(parts: seq<Part>, removeTags: string -> Option<string>)
    ensures ScanParts(parts, removeTags) == Ok(None)
            <==> forall i :: 0 <= i < |parts| ==> parts[i].charset.None?
  {
    if parts != [] && parts[0].charset.None? {
      NoBodyIffNoCharset(parts[1..], removeTags);
      assert forall i :: 1 <= i < |parts| ==> parts[i] == parts[1..][i - 1];
    }
  }

  /** Once a part with a charset has been seen, later parts are never examined. */
  lemma {:induction false} LaterPartsIgnored(parts: seq<Part>, rest: seq<Part>, removeTags: string -> Option<string>)
    requires exists i :: 0 <= i < |parts| && parts[i].charset.Some?
    ensures ScanParts(parts + rest, removeTags) == ScanParts(parts, removeTags)
  {
    assert parts != [];
    if parts[0].charset.None? {
      var i :| 0 <= i < |parts| && parts[i].charset.Some?;
      assert parts[1..][i - 1] == parts[i];
      assert (parts + rest)[1..] == parts[1..] + rest;
      LaterPartsIgnored(parts[1..], rest, removeTags);
    }
  }

  /** A part without a charset before a plain-text part is skipped, not returned as "": a part
      without charset followed by the plain text "real body" yields "real body". */
  lemma SkippedPartExample(skipped: Part, charset: string, t: string, removeTags: string -> Option<string>)
    requires skipped.charset.None?
    requires t == [] || Unpadded(t)
    ensures MessageBody(Multipart([skipped, Part(PlainType, Some(charset), t)]), removeTags) == Ok(Some(t))
  {
    var parts := [skipped, Part(PlainType, Some(charset), t)];
    FirstCharsetPartDecides(parts, 1, removeTags);
    StripUnpadded(t);
  }

  /** Two spaces on each side of an unpadded text are stripped away. */
  lemma StripTwoSpaces(t: string)
    requires Unpadded(t)
    ensures Strip(" " + (" " + (t + " ") + " ")) == t
  {
    var x := " " + (" " + (t + " ") + " ");
    var a := t + " " + " ";
    assert x == " " + (" " + a);
    LStripLeadingSpace(" " + a);
    LStripLeadingSpace(a);
    assert a[0] == t[0];
    assert LStrip(a) == a;
    RStripTrailingSpaceAny(t + " ");
    RStripTrailingSpaceAny(t);
    StripUnpadded(t);
    assert LStrip(t) == t;
    assert Strip(x) == RStrip(a);
  }

  /** A single-part message "  hello  " yields "hello". */
  lemma HelloExample(removeTags: string -> Option<string>)
    ensures MessageBody(SinglePart(Some("utf-8"), " " + (" " + ("hello" + " ") + " ")), removeTags)
            == Ok(Some("hello"))
  {
    var t := "hello";
    assert Unpadded(t);
    StripTwoSpaces(t);
  }
}
