/**
 * The message data both spam-filter scripts work on: the Gmail payload tree,
 * message headers, and the per-message record built by `get_recent_emails`.
 */
module Mail {
  import opened Wrappers
  import opened Text

  /** One node of a Gmail `payload`. A node that carries a `parts` key is a
      Container, whatever else it carries; any other node is a Leaf. `data` is
      the `body.data` field, `None` when the node's `body` has no `data`. A
      missing `mimeType` is the empty string, as `part.get('mimeType', '')`
      reads it. */
  datatype Part =
    | Leaf(mimeType: string, data: Option<string>)
    | Container(mimeType: string, data: Option<string>, parts: seq<Part>)

  datatype Header = Header(name: string, value: string)

  /** A message as the Gmail API returns it with `format='full'`; `headers`
      are the payload's headers and `labelIds` the message's label ids. */
  datatype Message = Message(id: string, payload: Part, headers: seq<Header>, labelIds: seq<string>)

  /** The dictionary `get_recent_emails` stores for one message. */
  datatype Email = Email(id: string, subject: string, sender: string, body: string, labels: seq<string>)

  const INBOX := "INBOX"
  const MaxStoredBody := 1000

  /** `next((h['value'] for h in headers if h['name'] == name), default)`:
      the value of the first header named exactly `name`, else `default`. */
  function HeaderValue(headers: seq<Header>, name: string, default: string): (r: string)
    ensures (forall i :: 0 <= i < |headers| ==> headers[i].name != name) ==> r == default
    ensures forall i :: 0 <= i < |headers| && headers[i].name == name
                        && (forall j :: 0 <= j < i ==> headers[j].name != name)
                        ==> r == headers[i].value
  {
    if headers == [] then default
    else if headers[0].name == name then headers[0].value
    else HeaderValue(headers[1..], name, default)
  }

  function Subject(headers: seq<Header>): string
  {
    HeaderValue(headers, "Subject", "No Subject")
  }

  function Sender(headers: seq<Header>): string
  {
    HeaderValue(headers, "From", "Unknown Sender")
  }

  predicate InInbox(e: Email)
  {
    INBOX in e.labels
  }

  /** The record appended for message `m` whose extracted body is `body`. */
  function ToEmail(m: Message, body: string): (e: Email)
    ensures e.id == m.id && e.labels == m.labelIds
    ensures e.subject == Subject(m.headers) && e.sender == Sender(m.headers)
    ensures |e.body| <= MaxStoredBody && |e.body| <= |body| && e.body == body[..|e.body|]
    ensures |body| <= MaxStoredBody ==> e.body == body
  {
    Email(m.id, Subject(m.headers), Sender(m.headers), Take(body, MaxStoredBody), m.labelIds)
  }

  /** A fetched message (`None`: the API call for it raised) whose body the
      extractor in use returns without raising. */
  predicate Fetchable(m: Option<Message>, extract: Part -> Option<string>)
  {
    m.Some? && extract(m.value.payload).Some?
  }

  function EmailOf(m: Option<Message>, extract: Part -> Option<string>): Email
    requires Fetchable(m, extract)
  {
    ToEmail(m.value, extract(m.value.payload).value)
  }

  /** The records of `get_recent_emails`, one per message in order, or
      `None` when anything on the way raised. */
  function Collect(msgs: seq<Option<Message>>, extract: Part -> Option<string>): (r: Option<seq<Email>>)
    ensures r.Some? <==> forall k :: 0 <= k < |msgs| ==> Fetchable(msgs[k], extract)
    ensures r.Some? ==> |r.value| == |msgs|
    ensures r.Some? ==> forall k :: 0 <= k < |msgs| ==> Fetchable(msgs[k], extract) && r.value[k] == EmailOf(msgs[k], extract)
  {
    if msgs == [] then Some([])
    else
      var init, last := msgs[..|msgs| - 1], msgs[|msgs| - 1];
      assert forall k :: 0 <= k < |init| ==> init[k] == msgs[k];
      match Collect(init, extract)
      case None => None
      case Some(es) => if Fetchable(last, extract) then Some(es + [EmailOf(last, extract)]) else None
  }

  /** `get_recent_emails`: `listing` is the message list (`None`: the list
      call raised) and `extract` the body extractor of the script; any
      exception is caught and gives the empty list. */
  method GetRecentEmails(listing: Option<seq<Option<Message>>>, extract: Part -> Option<string>)
    returns (emails: seq<Email>)
    ensures listing.Some? && Collect(listing.value, extract).Some? ==> emails == Collect(listing.value, extract).value
    ensures listing.None? || Collect(listing.value, extract).None? ==> emails == []
  {
    if listing.None? {
      return [];
    }
    var messages := listing.value;
    emails := [];
    var i := 0;
    while i < |messages|
      invariant i <= |messages|
      invariant Collect(messages[..i], extract) == Some(emails)
    {
      var message := messages[i];
      assert messages[..i + 1][..i] == messages[..i];
      if message.None? {
        assert !Fetchable(messages[..i + 1][i], extract);
        ExtendFailure(messages, i + 1, extract);
        return [];
      }
      var body := extract(message.value.payload);
      if body.None? {
        assert !Fetchable(messages[..i + 1][i], extract);
        ExtendFailure(messages, i + 1, extract);
        return [];
      }
      emails := emails + [ToEmail(message.value, body.value)];
      i := i + 1;
    }
    assert messages[..i] == messages;
  }

  /** A failure in a prefix of the messages is a failure of the whole list. */
  lemma ExtendFailure(msgs: seq<Option<Message>>, n: nat, extract: Part -> Option<string>)
    requires n <= |msgs| && Collect(msgs[..n], extract).None?
    ensures Collect(msgs, extract).None?
  {
    var k :| 0 <= k < n && !Fetchable(msgs[..n][k], extract);
    assert msgs[..n][k] == msgs[k];
  }
}
