/**
 * The first version of the filter (gmail_spam_killer.py): its simpler body
 * extractor, its archive request and its counting loop.
 *
 * Base64url decoding followed by strict UTF-8 decoding is a parameter
 * `decode`; `None` stands for the exception it raises. A missing
 * `body.data` raises a `KeyError`; both are modelled as a `None` result, which
 * `get_recent_emails` turns into an empty list (`Mail.GetRecentEmails`).
 */
module Legacy {
  import opened Wrappers
  import opened Mail

  const PlainMime := "text/plain"
  const HtmlMime := "text/html"

  /** `base64.urlsafe_b64decode(part['body']['data']).decode('utf-8')`. */
  function Decoded(p: Part, decode: string -> Option<string>): Option<string>
  {
    if p.data.None? then None else decode(p.data.value)
  }

  /** The loop over the top-level parts, continued from the current `body`:
      a text/plain part ends the scan with its decode, a text/html part
      replaces the body with its decode, other parts are passed over. */
  function Scan(parts: seq<Part>, decode: string -> Option<string>, body: string): Option<string>
    decreases |parts|
  {
    if parts == [] then Some(body)
    else if parts[0].mimeType == PlainMime then Decoded(parts[0], decode)
    else if parts[0].mimeType == HtmlMime then
      match Decoded(parts[0], decode)
      case None => None
      case Some(b) => Scan(parts[1..], decode, b)
    else Scan(parts[1..], decode, body)
  }

  /** What `extract_email_body(payload)` returns, `None` when it raises. */
  function LegacyBody(payload: Part, decode: string -> Option<string>): (r: Option<string>)
    ensures payload.Leaf? && payload.mimeType != PlainMime ==> r == Some("")
  {
    match payload
    case Container(_, _, kids) => Scan(kids, decode, "")
    case Leaf(mime, _) => if mime == PlainMime then Decoded(payload, decode) else Some("")
  }

  method ExtractEmailBody(payload: Part, decode: string -> Option<string>) returns (r: Option<string>)
    ensures r == LegacyBody(payload, decode)
  {
    var body := "";
    if payload.Container? {
      var parts := payload.parts;
      var i := 0;
      while i < |parts|
        invariant i <= |parts|
        invariant Scan(parts[i..], decode, body) == Scan(parts, decode, "")
      {
        var part := parts[i];
        assert parts[i..][1..] == parts[i + 1..];
        if part.mimeType == PlainMime {
          var decoded := Decoded(part, decode);
          if decoded.None? {
            return None;
          }
          body := decoded.value;
          assert Scan(parts, decode, "") == Some(body);
          break;
        } else if part.mimeType == HtmlMime {
          var decoded := Decoded(part, decode);
          if decoded.None? {
            return None;
          }
          body := decoded.value;
        }
        i := i + 1;
      }
      return Some(body);
    } else if payload.mimeType == PlainMime {
      return Decoded(payload, decode);
    }
    return Some(body);
  }

  // ----- What the scan finds -----

  /** No part before position `k` is text/plain. */
  predicate NoPlainBefore(parts: seq<Part>, k: nat)
    requires k <= |parts|
  {
    forall j :: 0 <= j < k ==> parts[j].mimeType != PlainMime
  }

  /** Every text/html part before position `k` decodes. */
  predicate HtmlDecodesBefore(parts: seq<Part>, k: nat, decode: string -> Option<string>)
    requires k <= |parts|
  {
    forall j :: 0 <= j < k && parts[j].mimeType == HtmlMime ==> Decoded(parts[j], decode).Some?
  }

  /** The body is the decode of the first text/plain part: the scan stops
      there, whatever follows. */
  lemma {:induction false} FirstPlainWins(parts: seq<Part>, decode: string -> Option<string>, body: string, k: nat)
    requires k < |parts| && parts[k].mimeType == PlainMime
    requires NoPlainBefore(parts, k) && HtmlDecodesBefore(parts, k, decode)
    ensures Scan(parts, decode, body) == Decoded(parts[k], decode)
    decreases k
  {
    if k > 0 {
      var rest := parts[1..];
      assert forall j :: 0 <= j < k - 1 ==> rest[j] == parts[j + 1];
      var b := if parts[0].mimeType == HtmlMime then Decoded(parts[0], decode).value else body;
      FirstPlainWins(rest, decode, b, k - 1);
    }
  }

  /** Without a text/plain part the body is the decode of the last
      text/html part. */
  lemma {:induction false} LastHtmlWins(parts: seq<Part>, decode: string -> Option<string>, body: string, k: nat)
    requires k < |parts| && parts[k].mimeType == HtmlMime
    requires forall j :: k < j < |parts| ==> parts[j].mimeType != HtmlMime
    requires NoPlainBefore(parts, |parts|) && HtmlDecodesBefore(parts, |parts|, decode)
    ensures Scan(parts, decode, body) == Decoded(parts[k], decode)
    decreases |parts|
  {
    var rest := parts[1..];
    assert forall j :: 0 <= j < |rest| ==> rest[j] == parts[j + 1];
    if k == 0 {
      NoHtmlKeepsBody(rest, decode, Decoded(parts[0], decode).value);
    } else {
      var b := if parts[0].mimeType == HtmlMime then Decoded(parts[0], decode).value else body;
      LastHtmlWins(rest, decode, b, k - 1);
    }
  }

  /** With neither a text/plain nor a text/html part the body is unchanged
      (the empty string at the top). */
  lemma {:induction false} NoHtmlKeepsBody(parts: seq<Part>, decode: string -> Option<string>, body: string)
    requires forall j :: 0 <= j < |parts| ==> parts[j].mimeType != HtmlMime && parts[j].mimeType != PlainMime
    ensures Scan(parts, decode, body) == Some(body)
    decreases |parts|
  {
    if parts != [] {
      var rest := parts[1..];
      assert forall j :: 0 <= j < |rest| ==> rest[j] == parts[j + 1];
      NoHtmlKeepsBody(rest, decode, body);
    }
  }

  /** The extractor raises exactly when a text/html or text/plain part it
      reaches (one not after the first text/plain part) fails to decode. */
  lemma {:induction false} ScanFailsIff(parts: seq<Part>, decode: string -> Option<string>, body: string)
    ensures Scan(parts, decode, body).None? <==>
      exists j :: 0 <= j < |parts| && NoPlainBefore(parts, j)
               && (parts[j].mimeType == PlainMime || parts[j].mimeType == HtmlMime)
               && Decoded(parts[j], decode).None?
    decreases |parts|
  {
    if parts != [] {
      var rest := parts[1..];
      assert forall j :: 0 <= j < |rest| ==> rest[j] == parts[j + 1];
      var p := parts[0];
      if p.mimeType == PlainMime {
        assert NoPlainBefore(parts, 0);
        assert forall j :: 0 < j < |parts| ==> !NoPlainBefore(parts, j);
      } else {
        var b := if p.mimeType == HtmlMime && Decoded(p, decode).Some? then Decoded(p, decode).value else body;
        ScanFailsIff(rest, decode, b);
        assert forall j :: 0 < j < |parts| ==> (NoPlainBefore(parts, j) <==> NoPlainBefore(rest, j - 1));
        assert NoPlainBefore(parts, 0);
      }
    }
  }

  // ----- archive_email -----

  const RemoveKey := "removeLabelIds"
  const AddKey := "addLabelIds"

  /** The request body of `archive_email`: `INBOX` is always removed, and the
      "AI Archived" label is added only when its id is set and non-empty. */
  method ArchiveRequestBody(labelId: Option<string>) returns (body: map<string, seq<string>>)
    ensures RemoveKey in body && body[RemoveKey] == [INBOX]
    ensures AddKey in body <==> labelId.Some? && labelId.value != ""
    ensures AddKey in body ==> body[AddKey] == [labelId.value]
    ensures body.Keys <= {RemoveKey, AddKey}
  {
    body := map[RemoveKey := [INBOX]];
    if labelId.Some? && labelId.value != "" {
      body := body[AddKey := [labelId.value]];
    }
  }

  // ----- run_spam_filter -----

  /** The number of emails carrying the `INBOX` label. */
  function CountInbox(emails: seq<Email>): nat
  {
    if emails == [] then 0
    else CountInbox(emails[..|emails| - 1]) + (if InInbox(emails[|emails| - 1]) then 1 else 0)
  }

  /** The number of inbox emails the classifier calls spam. */
  function CountSpam(emails: seq<Email>, classify: Email -> bool): (r: nat)
    ensures r <= CountInbox(emails)
  {
    if emails == [] then 0
    else
      var e := emails[|emails| - 1];
      CountSpam(emails[..|emails| - 1], classify) + (if InInbox(e) && classify(e) then 1 else 0)
  }

  /** The spam emails, in order, that the user agreed to archive. */
  function ToArchive(emails: seq<Email>, classify: Email -> bool, confirm: Email -> bool): (r: seq<string>)
    ensures |r| <= CountSpam(emails, classify)
  {
    if emails == [] then []
    else
      var e := emails[|emails| - 1];
      ToArchive(emails[..|emails| - 1], classify, confirm) + (if InInbox(e) && classify(e) && confirm(e) then [e.id] else [])
  }

  /** The loop of `run_spam_filter`: emails without `INBOX` are skipped;
      `classify` is the verdict of `is_spam`, `confirm` the user's answer to
      the archive prompt. Returns the counters and the ids passed to
      `archive_email`, none in a dry run. */
  method RunSpamFilter(emails: seq<Email>, classify: Email -> bool, dryRun: bool, confirm: Email -> bool)
    returns (spamCount: nat, processedCount: nat, archived: seq<string>)
    ensures processedCount == CountInbox(emails)
    ensures spamCount == CountSpam(emails, classify)
    ensures spamCount <= processedCount
    ensures archived == if dryRun then [] else ToArchive(emails, classify, confirm)
  {
    spamCount, processedCount, archived := 0, 0, [];
    var i := 0;
    while i < |emails|
      invariant i <= |emails|
      invariant processedCount == CountInbox(emails[..i])
      invariant spamCount == CountSpam(emails[..i], classify)
      invariant archived == if dryRun then [] else ToArchive(emails[..i], classify, confirm)
    {
      var email := emails[i];
      assert emails[..i + 1][..i] == emails[..i];
      i := i + 1;
      if INBOX !in email.labels {
        continue;
      }
      processedCount := processedCount + 1;
      if classify(email) {
        spamCount := spamCount + 1;
        if !dryRun && confirm(email) {
          archived := archived + [email.id];
        }
      }
    }
    assert emails[..i] == emails;
  }
}
