/**
 * `attempt_unsubscribe` of the current filter (gmail_spam_killer_backup.py):
 * for each of the first three links, a GET; on status 200 the forms of the
 * page that look like unsubscribe forms are submitted one by one until one
 * is accepted; the link counts once whatever the forms did.
 *
 * The HTTP session and the HTML parser are not modelled. `get` is the GET of
 * a link together with the parse of its page: `Raised` stands for every
 * exception on the way (network, timeout, parse), otherwise the status and
 * the forms. `submit` is the form submission: `Raised`, or its status.
 * `urljoin` resolves the form's action against the link
 * (section 5.2 of RFC 3986).
 */
module Unsubscribe {
  import opened Wrappers
  import opened Text

  /** An `<input>` or `<select>` element: its `name`, `value` and `type`
      attributes, each `None` when absent. */
  datatype Input = Input(name: Option<string>, value: Option<string>, kind: Option<string>)

  /** A `<form>`: its text, its `action` and `method` attributes (`verb`) and its inputs. */
  datatype Form = Form(text: string, action: Option<string>, verb: Option<string>, inputs: seq<Input>)

  /** What the GET of a link gives. */
  datatype Page = PageRaised | Page(status: int, forms: seq<Form>)

  /** What a form submission gives. */
  datatype Reply = ReplyRaised | Reply(status: int)

  /** A form submission: POST with the data as body, or GET with the data
      as query parameters. */
  datatype Request = Request(post: bool, target: string, data: map<string, string>)

  const MaxAttempts := 3
  const FormWords := ["unsubscribe", "remove", "opt out", "confirm"]

  function GetOr(o: Option<string>, default: string): string
  {
    if o.Some? then o.value else default
  }

  // ----- Form data -----

  /** An input that goes into the form data: a non-empty name, and a type
      other than submit, button and reset in any case (no type: the empty
      string, which is kept). */
  predicate Included(i: Input)
  {
    var kind := ToLower(GetOr(i.kind, ""));
    i.name.Some? && i.name.value != "" && !(kind == "submit" || kind == "button" || kind == "reset")
  }

  /** The form data built from `inputs`: each included input sets its name
      to its value (the empty string when it has none), later ones
      overwriting earlier ones. */
  function FormData(inputs: seq<Input>): map<string, string>
  {
    if inputs == [] then map[]
    else
      var i := inputs[|inputs| - 1];
      var data := FormData(inputs[..|inputs| - 1]);
      if Included(i) then data[i.name.value := GetOr(i.value, "")] else data
  }

  method CollectFormData(inputs: seq<Input>) returns (formData: map<string, string>)
    ensures formData == FormData(inputs)
  {
    formData := map[];
    var k := 0;
    while k < |inputs|
      invariant k <= |inputs|
      invariant formData == FormData(inputs[..k])
    {
      var inputTag := inputs[k];
      assert inputs[..k + 1][..k] == inputs[..k];
      var name := inputTag.name;
      var value := GetOr(inputTag.value, "");
      var inputType := ToLower(GetOr(inputTag.kind, ""));
      if name.Some? && name.value != "" && !(inputType == "submit" || inputType == "button" || inputType == "reset") {
        formData := formData[name.value := value];
      }
      k := k + 1;
    }
    assert inputs[..k] == inputs;
  }

  /** A name is in the form data exactly when some included input has it. */
  lemma {:induction false} FormDataKeys(inputs: seq<Input>, name: string)
    ensures name in FormData(inputs) <==>
            exists k :: 0 <= k < |inputs| && Included(inputs[k]) && inputs[k].name.value == name
    decreases |inputs|
  {
    if inputs != [] {
      var init := inputs[..|inputs| - 1];
      FormDataKeys(init, name);
      assert forall k :: 0 <= k < |init| ==> init[k] == inputs[k];
    }
  }

  /** The value of a name is that of the last included input with it. */
  lemma {:induction false} FormDataLastWins(inputs: seq<Input>, k: nat)
    requires k < |inputs| && Included(inputs[k])
    requires forall j :: k < j < |inputs| && Included(inputs[j]) ==> inputs[j].name.value != inputs[k].name.value
    ensures inputs[k].name.value in FormData(inputs)
    ensures FormData(inputs)[inputs[k].name.value] == GetOr(inputs[k].value, "")
    decreases |inputs|
  {
    if k < |inputs| - 1 {
      var init := inputs[..|inputs| - 1];
      assert forall j :: 0 <= j < |init| ==> init[j] == inputs[j];
      FormDataLastWins(init, k);
    }
  }

  // ----- One submission -----

  /** The form looks like an unsubscribe form: its lower-cased text holds a keyword. */
  predicate Matches(form: Form)
  {
    ContainsAny(ToLower(form.text), FormWords)
  }

  /** The URL a form is sent to: the action resolved against the link, or
      the link itself when the action is missing or empty. */
  function Target(url: string, action: Option<string>, urljoin: (string, string) -> string): (r: string)
    ensures action.None? || action.value == "" ==> r == url
    ensures action.Some? && action.value != "" ==> r == urljoin(url, action.value)
  {
    if action.Some? && action.value != "" then urljoin(url, action.value) else url
  }

  /** POST exactly when the lower-cased method is `post`; no method is `get`. */
  predicate IsPost(verb: Option<string>)
  {
    ToLower(GetOr(verb, "get")) == "post"
  }

  function RequestOf(url: string, form: Form, urljoin: (string, string) -> string): Request
  {
    Request(IsPost(form.verb), Target(url, form.action, urljoin), FormData(form.inputs))
  }

  predicate Accepted(r: Reply)
  {
    r.Reply? && (r.status == 200 || r.status == 302)
  }

  /** The submissions made for a page: every matching form in order, up to
      and including the first one accepted. */
  function Submissions(url: string, forms: seq<Form>, submit: Request -> Reply, urljoin: (string, string) -> string)
    : seq<Request>
  {
    if forms == [] then []
    else if !Matches(forms[0]) then Submissions(url, forms[1..], submit, urljoin)
    else
      var r := RequestOf(url, forms[0], urljoin);
      if Accepted(submit(r)) then [r] else [r] + Submissions(url, forms[1..], submit, urljoin)
  }

  /** The request is that of a matching form of `forms`. */
  predicate FromMatchingForm(r: Request, url: string, forms: seq<Form>, urljoin: (string, string) -> string)
  {
    exists k :: 0 <= k < |forms| && Matches(forms[k]) && r == RequestOf(url, forms[k], urljoin)
  }

  predicate AllFromMatchingForms(s: seq<Request>, url: string, forms: seq<Form>, urljoin: (string, string) -> string)
  {
    forall i :: 0 <= i < |s| ==> FromMatchingForm(s[i], url, forms, urljoin)
  }

  /** Every request but the last was refused. */
  predicate RefusedBeforeLast(s: seq<Request>, submit: Request -> Reply)
  {
    forall i :: 0 <= i < |s| - 1 ==> !Accepted(submit(s[i]))
  }

  lemma FromLaterForm(r: Request, url: string, forms: seq<Form>, urljoin: (string, string) -> string)
    requires forms != [] && FromMatchingForm(r, url, forms[1..], urljoin)
    ensures FromMatchingForm(r, url, forms, urljoin)
  {
    var k :| 0 <= k < |forms[1..]| && Matches(forms[1..][k]) && r == RequestOf(url, forms[1..][k], urljoin);
    assert forms[k + 1] == forms[1..][k];
  }

  /** Every submission is the request of a matching form, and every one but
      the last was refused. */
  lemma {:induction false} SubmissionsShape(url: string, forms: seq<Form>, submit: Request -> Reply,
                                            urljoin: (string, string) -> string)
    ensures AllFromMatchingForms(Submissions(url, forms, submit, urljoin), url, forms, urljoin)
    ensures RefusedBeforeLast(Submissions(url, forms, submit, urljoin), submit)
    decreases |forms|
  {
    if forms != [] {
      var rest := forms[1..];
      SubmissionsShape(url, rest, submit, urljoin);
      var s := Submissions(url, forms, submit, urljoin);
      var t := Submissions(url, rest, submit, urljoin);
      var r0 := RequestOf(url, forms[0], urljoin);
      if !Matches(forms[0]) {
        assert s == t;
        forall i | 0 <= i < |s| ensures FromMatchingForm(s[i], url, forms, urljoin) {
          FromLaterForm(s[i], url, forms, urljoin);
        }
      } else if Accepted(submit(r0)) {
        assert s == [r0];
        assert FromMatchingForm(r0, url, forms, urljoin);
      } else {
        assert s == [r0] + t;
        assert FromMatchingForm(r0, url, forms, urljoin);
        forall i | 0 <= i < |s| ensures FromMatchingForm(s[i], url, forms, urljoin) {
          if i > 0 {
            assert s[i] == t[i - 1];
            FromLaterForm(s[i], url, forms, urljoin);
          }
        }
        forall i | 0 <= i < |s| - 1 ensures !Accepted(submit(s[i])) {
          if i > 0 { assert s[i] == t[i - 1]; }
        }
      }
    }
  }

  /** Once a matching form is accepted, no later form is submitted. */
  lemma {:induction false} StopsAtAccepted(url: string, forms: seq<Form>, submit: Request -> Reply,
                                           urljoin: (string, string) -> string, k: nat)
    requires k < |forms| && Matches(forms[k]) && Accepted(submit(RequestOf(url, forms[k], urljoin)))
    ensures |Submissions(url, forms, submit, urljoin)| <= k + 1
    decreases k
  {
    if k > 0 {
      var rest := forms[1..];
      assert rest[k - 1] == forms[k];
      StopsAtAccepted(url, rest, submit, urljoin, k - 1);
    }
  }

  // ----- The loop over the links -----

  /** The number of GETs that returned exactly 200. */
  function CountOk(urls: seq<string>, get: string -> Page): (r: nat)
    ensures r <= |urls|
  {
    if urls == [] then 0
    else CountOk(urls[..|urls| - 1], get) + (if Landed(get(urls[|urls| - 1])) then 1 else 0)
  }

  predicate Landed(p: Page)
  {
    p.Page? && p.status == 200
  }

  /** The submissions made for one link: none unless its GET landed. */
  function LinkSubmissions(url: string, get: string -> Page, submit: Request -> Reply,
                           urljoin: (string, string) -> string): seq<Request>
  {
    var page := get(url);
    if Landed(page) then Submissions(url, page.forms, submit, urljoin) else []
  }

  function AllSubmissions(urls: seq<string>, get: string -> Page, submit: Request -> Reply,
                          urljoin: (string, string) -> string): seq<Request>
  {
    if urls == [] then []
    else AllSubmissions(urls[..|urls| - 1], get, submit, urljoin) + LinkSubmissions(urls[|urls| - 1], get, submit, urljoin)
  }

  /** The form loop for one landed page, with the `form_submitted` flag. */
  method SubmitForms(url: string, forms: seq<Form>, submit: Request -> Reply, urljoin: (string, string) -> string)
    returns (formSubmitted: bool, sent: seq<Request>)
    ensures sent == Submissions(url, forms, submit, urljoin)
    ensures formSubmitted <==> sent != [] && Accepted(submit(sent[|sent| - 1]))
  {
    formSubmitted, sent := false, [];
    var k := 0;
    while k < |forms|
      invariant k <= |forms|
      invariant sent + Submissions(url, forms[k..], submit, urljoin) == Submissions(url, forms, submit, urljoin)
      invariant !formSubmitted
      invariant forall i :: 0 <= i < |sent| ==> !Accepted(submit(sent[i]))
    {
      var form := forms[k];
      assert forms[k..][1..] == forms[k + 1..];
      if Matches(form) {
        var isPost := IsPost(form.verb);
        var actionUrl := Target(url, form.action, urljoin);
        var formData := CollectFormData(form.inputs);
        var request := Request(isPost, actionUrl, formData);
        var formResponse := submit(request);
        sent := sent + [request];
        if Accepted(formResponse) {
          formSubmitted := true;
          assert Submissions(url, forms[k..], submit, urljoin) == [request];
          break;
        }
      }
      k := k + 1;
    }
    if !formSubmitted {
      assert sent == Submissions(url, forms, submit, urljoin);
    }
  }

  /** `attempt_unsubscribe`: the count of the first three links whose GET
      returned 200, and the form submissions made, in order. */
  method AttemptUnsubscribe(urls: seq<string>, get: string -> Page, submit: Request -> Reply,
                            urljoin: (string, string) -> string)
    returns (successCount: nat, sent: seq<Request>)
    ensures successCount == CountOk(Take(urls, MaxAttempts), get)
    ensures successCount <= MaxAttempts && successCount <= |urls|
    ensures sent == AllSubmissions(Take(urls, MaxAttempts), get, submit, urljoin)
  {
    successCount, sent := 0, [];
    var first := Take(urls, MaxAttempts);
    var i := 0;
    while i < |first|
      invariant i <= |first|
      invariant successCount == CountOk(first[..i], get)
      invariant sent == AllSubmissions(first[..i], get, submit, urljoin)
    {
      var url := first[i];
      assert first[..i + 1][..i] == first[..i];
      var response := get(url);
      if response.Page? {
        if response.status == 200 {
          var formSubmitted, formSent := SubmitForms(url, response.forms, submit, urljoin);
          sent := sent + formSent;
          if formSubmitted {
            // the increment after an accepted form
            successCount := successCount + 1;
          }
          if !formSubmitted {
            // the GET itself is taken as enough
            successCount := successCount + 1;
          }
        }
      }
      i := i + 1;
    }
    assert first[..i] == first;
  }

  /** Each link adds one exactly when its GET landed: the forms, and whether
      any of them was accepted, never change the count. */
  lemma {:induction false} CountIgnoresForms(urls: seq<string>, get1: string -> Page, get2: string -> Page)
    requires forall k :: 0 <= k < |urls| ==> (Landed(get1(urls[k])) <==> Landed(get2(urls[k])))
    ensures CountOk(urls, get1) == CountOk(urls, get2)
  {
    if urls != [] {
      var init := urls[..|urls| - 1];
      assert forall k :: 0 <= k < |init| ==> init[k] == urls[k];
      CountIgnoresForms(init, get1, get2);
    }
  }

  /** Links after the third are never requested. */
  lemma OnlyFirstThree(urls: seq<string>, more: seq<string>, get: string -> Page)
    requires |urls| >= MaxAttempts
    ensures CountOk(Take(urls + more, MaxAttempts), get) == CountOk(Take(urls, MaxAttempts), get)
  {
    assert Take(urls + more, MaxAttempts) == Take(urls, MaxAttempts);
  }
}
