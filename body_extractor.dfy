/**
 * `extract_email_body` of the current filter (gmail_spam_killer_backup.py):
 * a recursive walk over the MIME tree that gathers a plain-text stream and
 * an HTML stream, the rule preferring plain text, `clean_text`, and the
 * sentinel for bodies that are missing or short.
 *
 * Base64url decoding is a parameter `decode`; `None` stands for a decoding
 * exception. The HTML-to-text conversion done with BeautifulSoup is a
 * parameter `htmlToText`, which covers its fallback to the raw HTML as well.
 */
module BodyExtractor {
  import opened Wrappers
  import opened Text
  import opened Mail
  import opened Normalize

  const PlainMime := "text/plain"
  const HtmlMime := "text/html"
  const Sentinel := "[Email body could not be extracted or is very short]"
  const MinBody := 20

  /** `decode_base64_data`: a failed decode gives the empty string. */
  function DecodeBase64Data(decode: string -> Option<string>, data: string): string
  {
    match decode(data)
    case Some(text) => text
    case None => ""
  }

  /** What a single leaf adds to the stream of `mime`: its decoded data and a
      newline, when it has that MIME type and carries data. */
  function Piece(q: Part, mime: string, decode: string -> Option<string>): string
  {
    if q.Leaf? && q.mimeType == mime && q.data.Some? then DecodeBase64Data(decode, q.data.value) + "\n"
    else ""
  }

  /** The stream of `mime` that `extract_text_from_parts(parts)` returns. */
  function Stream(parts: seq<Part>, mime: string, decode: string -> Option<string>): string
  {
    if parts == [] then ""
    else Stream(parts[..|parts| - 1], mime, decode) + PartStream(parts[|parts| - 1], mime, decode)
  }

  /** A part with a `parts` key is walked into, and its own data is ignored. */
  function PartStream(p: Part, mime: string, decode: string -> Option<string>): string
  {
    match p
    case Container(_, _, kids) => Stream(kids, mime, decode)
    case Leaf(_, _) => Piece(p, mime, decode)
  }

  /** The nested loop of `extract_text_from_parts`, with its `+=` accumulators. */
  method ExtractTextFromParts(parts: seq<Part>, decode: string -> Option<string>) returns (text: string, html: string)
    ensures text == Stream(parts, PlainMime, decode)
    ensures html == Stream(parts, HtmlMime, decode)
  {
    text, html := "", "";
    var i := 0;
    while i < |parts|
      invariant i <= |parts|
      invariant text == Stream(parts[..i], PlainMime, decode)
      invariant html == Stream(parts[..i], HtmlMime, decode)
    {
      var part := parts[i];
      if part.Container? {
        var nestedText, nestedHtml := ExtractTextFromParts(part.parts, decode);
        text := text + nestedText;
        html := html + nestedHtml;
      } else if part.mimeType == PlainMime && part.data.Some? {
        var decoded := DecodeBase64Data(decode, part.data.value);
        text := text + decoded + "\n";
      } else if part.mimeType == HtmlMime && part.data.Some? {
        var decoded := DecodeBase64Data(decode, part.data.value);
        html := html + decoded + "\n";
      }
      assert parts[..i + 1][..i] == parts[..i];
      i := i + 1;
    }
    assert parts[..|parts|] == parts;
  }

  // ----- Reference definition of the streams: the leaves in document order -----

  /** The leaves of a sequence of parts, left to right, depth first. */
  function Leaves(parts: seq<Part>): (r: seq<Part>)
    ensures forall k :: 0 <= k < |r| ==> r[k].Leaf?
  {
    if parts == [] then [] else Leaves(parts[..|parts| - 1]) + PartLeaves(parts[|parts| - 1])
  }

  function PartLeaves(p: Part): (r: seq<Part>)
    ensures forall k :: 0 <= k < |r| ==> r[k].Leaf?
  {
    match p
    case Container(_, _, kids) => Leaves(kids)
    case Leaf(_, _) => [p]
  }

  /** The concatenation, from the first leaf on, of every leaf's piece. */
  function Gather(leaves: seq<Part>, mime: string, decode: string -> Option<string>): string
  {
    if leaves == [] then "" else Piece(leaves[0], mime, decode) + Gather(leaves[1..], mime, decode)
  }

  lemma {:induction false} GatherAppend(a: seq<Part>, b: seq<Part>, mime: string, decode: string -> Option<string>)
    ensures Gather(a + b, mime, decode) == Gather(a, mime, decode) + Gather(b, mime, decode)
    decreases |a|
  {
    if a != [] {
      var c := a + b;
      assert c != [] && c[0] == a[0] && c[1..] == a[1..] + b;
      GatherAppend(a[1..], b, mime, decode);
      assert Gather(c, mime, decode) == Piece(a[0], mime, decode) + Gather(a[1..] + b, mime, decode);
    } else {
      assert a + b == b;
    }
  }

  /** The stream of `mime` is the in-order concatenation of the decoded data
      of the leaves of that type that carry data, each followed by a newline;
      containers add nothing of their own. */
  lemma {:induction false} StreamIsGather(parts: seq<Part>, mime: string, decode: string -> Option<string>)
    ensures Stream(parts, mime, decode) == Gather(Leaves(parts), mime, decode)
    decreases parts
  {
    if parts != [] {
      var init, last := parts[..|parts| - 1], parts[|parts| - 1];
      StreamIsGather(init, mime, decode);
      PartStreamIsGather(last, mime, decode);
      GatherAppend(Leaves(init), PartLeaves(last), mime, decode);
    }
  }

  lemma {:induction false} PartStreamIsGather(p: Part, mime: string, decode: string -> Option<string>)
    ensures PartStream(p, mime, decode) == Gather(PartLeaves(p), mime, decode)
    decreases p
  {
    match p
    case Container(_, _, kids) =>
      StreamIsGather(kids, mime, decode);
    case Leaf(_, _) =>
      assert Gather([p][1..], mime, decode) == "";
  }

  /** A leaf of type `mime` that carries data. */
  predicate Carries(q: Part, mime: string)
  {
    q.Leaf? && q.mimeType == mime && q.data.Some?
  }

  lemma {:induction false} GatherEmpty(leaves: seq<Part>, mime: string, decode: string -> Option<string>)
    ensures Gather(leaves, mime, decode) == "" <==> forall k :: 0 <= k < |leaves| ==> !Carries(leaves[k], mime)
    decreases |leaves|
  {
    if leaves != [] {
      GatherEmpty(leaves[1..], mime, decode);
      assert forall k :: 1 <= k < |leaves| ==> leaves[1..][k - 1] == leaves[k];
    }
  }

  /** A stream is empty exactly when no leaf of its type carries data. */
  lemma StreamEmptyIff(parts: seq<Part>, mime: string, decode: string -> Option<string>)
    ensures var ls := Leaves(parts);
            Stream(parts, mime, decode) == "" <==> forall k :: 0 <= k < |ls| ==> !Carries(ls[k], mime)
  {
    StreamIsGather(parts, mime, decode);
    GatherEmpty(Leaves(parts), mime, decode);
  }

  // ----- The whole body -----

  /** The two streams of a payload: a multipart payload is walked; a
      single-part payload gives its decoded data, without a newline, to the
      stream of its own type when that is text/plain or text/html. */
  function PayloadStreams(payload: Part, decode: string -> Option<string>): (string, string)
  {
    match payload
    case Container(_, _, kids) => (Stream(kids, PlainMime, decode), Stream(kids, HtmlMime, decode))
    case Leaf(mime, data) =>
      if data.None? then ("", "")
      else if mime == PlainMime then (DecodeBase64Data(decode, data.value), "")
      else if mime == HtmlMime then ("", DecodeBase64Data(decode, data.value))
      else ("", "")
  }

  /** The text chosen before the length check: plain text if there is any,
      else the converted HTML, else nothing; either way normalised. */
  function FinalText(text: string, html: string, htmlToText: string -> string): (r: string)
    ensures Normalized(r)
    ensures text != "" ==> r == CleanText(text)
    ensures text == "" && html != "" ==> r == CleanText(htmlToText(html))
    ensures text == "" && html == "" ==> r == ""
  {
    if text != "" then CleanTextNormalized(text); CleanText(text)
    else if html != "" then CleanTextNormalized(htmlToText(html)); CleanText(htmlToText(html))
    else ""
  }

  /** The length check: an empty or short text becomes the sentinel. */
  function Finalize(t: string): (r: string)
    ensures |r| >= MinBody
    ensures |t| < MinBody ==> r == Sentinel
    ensures |t| >= MinBody ==> r == t
  {
    if t == "" || |t| < MinBody then Sentinel else t
  }

  /** What `extract_email_body(payload)` returns. */
  function Body(payload: Part, decode: string -> Option<string>, htmlToText: string -> string): (r: string)
    ensures |r| >= MinBody
    ensures r == Sentinel || Normalized(r)
  {
    var (text, html) := PayloadStreams(payload, decode);
    Finalize(FinalText(text, html, htmlToText))
  }

  method ExtractEmailBody(payload: Part, decode: string -> Option<string>, htmlToText: string -> string)
    returns (finalText: string)
    ensures finalText == Body(payload, decode, htmlToText)
  {
    var textBody, htmlBody := "", "";
    if payload.Container? {
      textBody, htmlBody := ExtractTextFromParts(payload.parts, decode);
    } else if payload.data.Some? {
      var decoded := DecodeBase64Data(decode, payload.data.value);
      if payload.mimeType == PlainMime {
        textBody := decoded;
      } else if payload.mimeType == HtmlMime {
        htmlBody := decoded;
      }
    }
    assert (textBody, htmlBody) == PayloadStreams(payload, decode);
    if textBody != "" {
      finalText := CleanText(textBody);
    } else if htmlBody != "" {
      finalText := CleanText(htmlToText(htmlBody));
    } else {
      finalText := "";
    }
    assert finalText == FinalText(textBody, htmlBody, htmlToText);
    if finalText == "" || |finalText| < MinBody {
      finalText := Sentinel;
    }
  }

  /** Once there is plain text, neither the HTML stream nor the HTML
      converter has any say in the body. */
  lemma PlainTextDecides(text: string, html1: string, html2: string, h1: string -> string, h2: string -> string)
    requires text != ""
    ensures Finalize(FinalText(text, html1, h1)) == Finalize(FinalText(text, html2, h2)) == Finalize(CleanText(text))
  {
  }

  /** In a multipart message the HTML stream is used exactly when no
      text/plain leaf carries data; otherwise the body is the cleaned plain
      stream. */
  lemma MultipartChoice(kids: seq<Part>, mime: string, data: Option<string>,
                        decode: string -> Option<string>, htmlToText: string -> string)
    ensures var ls := Leaves(kids);
            var plain := Stream(kids, PlainMime, decode);
            var html := Stream(kids, HtmlMime, decode);
            var body := Body(Container(mime, data, kids), decode, htmlToText);
            && ((forall k :: 0 <= k < |ls| ==> !Carries(ls[k], PlainMime)) ==>
                  plain == "" && body == Finalize(FinalText("", html, htmlToText)))
            && ((exists k :: 0 <= k < |ls| && Carries(ls[k], PlainMime)) ==>
                  plain != "" && body == Finalize(CleanText(plain)))
  {
    StreamEmptyIff(kids, PlainMime, decode);
  }
}
