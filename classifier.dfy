/**
 * The spam verdict of both scripts: the prompt the current filter sends
 * (`_build_spam_detection_prompt`, then `str.format` in `is_spam`) and the
 * parsing of the model's reply. The chat-completion call is a parameter
 * `complete`; `Failed` stands for any exception inside the `try`.
 */
module Classifier {
  import opened Wrappers
  import opened Text
  import opened Mail

  // ----- Verdict parsing -----

  datatype Completion = Completed(content: string) | Failed

  datatype Verdict = Verdict(isSpam: bool, reason: string)

  const SpamWord := "SPAM"
  const ErrorReason := "Error occurred"

  /** `result = content.strip(); return result.startswith("SPAM"), result`,
      and `(False, "Error occurred")` when the call raised. */
  function ParseVerdict(c: Completion): (v: Verdict)
    ensures c.Failed? ==> v == Verdict(false, ErrorReason)
    ensures c.Completed? ==> v.reason == Strip(c.content)
    ensures c.Completed? ==> (v.isSpam <==> StartsWith(Strip(c.content), SpamWord))
  {
    match c
    case Failed => Verdict(false, ErrorReason)
    case Completed(content) =>
      var result := Strip(content);
      Verdict(StartsWith(result, SpamWord), result)
  }

  /** A spam verdict always carries a reason that begins with "SPAM" and has
      no surrounding whitespace. */
  lemma SpamVerdictReason(c: Completion)
    requires ParseVerdict(c).isSpam
    ensures var r := ParseVerdict(c).reason;
            |r| >= 4 && r[..4] == SpamWord && !IsSpace(r[0]) && !IsSpace(r[|r| - 1])
  {
  }

  /** "NOT_SPAM ..." is not a spam verdict, although it contains "SPAM". */
  lemma NotSpamIsNotSpam(content: string)
    requires StartsWith(Strip(content), "NOT_SPAM")
    ensures !ParseVerdict(Completed(content)).isSpam
  {
    var r := Strip(content);
    assert r[0] == 'N';
  }

  lemma {:induction false} SkipLeadingSpaces(w: string, x: string)
    requires forall k :: 0 <= k < |w| ==> IsSpace(w[k])
    ensures SkipSpaces(w + x) == SkipSpaces(x)
    decreases |w|
  {
    if w != [] {
      assert (w + x)[0] == w[0] && (w + x)[1..] == w[1..] + x;
      SkipLeadingSpaces(w[1..], x);
    } else {
      assert w + x == x;
    }
  }

  /** Whitespace the model puts before its answer changes nothing. */
  lemma LeadingWhitespaceIgnored(w: string, content: string)
    requires forall k :: 0 <= k < |w| ==> IsSpace(w[k])
    ensures ParseVerdict(Completed(w + content)) == ParseVerdict(Completed(content))
  {
    SkipLeadingSpaces(w, content);
  }

  // ----- Spam examples -----

  datatype Example = Example(subject: string, sender: string, body: string)

  const MaxExampleField := 100
  const MaxExampleBody := 1000
  const MaxExamples := 10

  /** The record `_collect_spam_examples` stores for a spam message whose
      extracted body is `body`: subject and sender cut to 100 characters,
      the body to 1000. */
  function MakeExample(m: Message, body: string): (e: Example)
    ensures |e.subject| <= MaxExampleField && |e.subject| <= |Subject(m.headers)|
    ensures e.subject == Subject(m.headers)[..|e.subject|]
    ensures |Subject(m.headers)| <= MaxExampleField ==> e.subject == Subject(m.headers)
    ensures |e.sender| <= MaxExampleField && |e.sender| <= |Sender(m.headers)|
    ensures e.sender == Sender(m.headers)[..|e.sender|]
    ensures |Sender(m.headers)| <= MaxExampleField ==> e.sender == Sender(m.headers)
    ensures |e.body| <= MaxExampleBody && |e.body| <= |body| && e.body == body[..|e.body|]
    ensures |body| <= MaxExampleBody ==> e.body == body
  {
    Example(Take(Subject(m.headers), MaxExampleField), Take(Sender(m.headers), MaxExampleField),
            Take(body, MaxExampleBody))
  }

  /** No `{` and no `}`. */
  predicate NoBraces(s: string)
  {
    forall k :: 0 <= k < |s| ==> s[k] != '{' && s[k] != '}'
  }

  lemma NoBracesConcat(a: string, b: string)
    requires NoBraces(a) && NoBraces(b)
    ensures NoBraces(a + b)
  {
    forall k | 0 <= k < |a + b| ensures (a + b)[k] != '{' && (a + b)[k] != '}' {
      if k < |a| { assert (a + b)[k] == a[k]; } else { assert (a + b)[k] == b[k - |a|]; }
    }
  }

  /** `s` with every brace blanked out, and every other character kept.
      The constant texts of the template (`ExamplesIntro`, `Head`, `Rule`,
      `Closing`, `FromTag`, `BodyTag`) are written through this function.
      Each of those literals is free of `{` and `}` (the f-string's only
      braces are the doubled ones around the three fields, written out as
      `Field` below), so this leaves them unchanged. Its result records for
      the proofs what the verifier cannot read off a long literal character
      by character. */
  function BraceFree(s: string): (r: string)
    ensures |r| == |s| && NoBraces(r)
    ensures forall i :: 0 <= i < |s| && s[i] != '{' && s[i] != '}' ==> r[i] == s[i]
    ensures NoBraces(s) ==> r == s
  {
    seq(|s|, i requires 0 <= i < |s| => if s[i] == '{' || s[i] == '}' then ' ' else s[i])
  }

  const ExamplesIntro := BraceFree("\n\nHere are examples of emails that were previously identified as spam:\n")

  /** `f"\nSpam Example {n}:\n"` */
  function BlockHeader(n: nat): string
  {
    "\nSpam Example " + NatToString(n) + ":\n"
  }

  /** `f"{tag}{value}\n"`, one line of an example block. */
  function Line(tag: string, value: string): string
  {
    tag + value + "\n"
  }

  /** The text added for the example numbered `n`. */
  function Block(e: Example, n: nat): string
  {
    BlockHeader(n) + (Line("Subject: ", e.subject) + (Line("From: ", e.sender) + Line("Body: ", e.body)))
  }

  /** The blocks of `exs`, numbered from 1 in order. */
  function Blocks(exs: seq<Example>): string
  {
    if exs == [] then "" else Blocks(exs[..|exs| - 1]) + Block(exs[|exs| - 1], |exs|)
  }

  /** `spam_examples_text`: empty without examples, otherwise the intro and
      the blocks of the first ten examples. */
  function ExamplesText(examples: seq<Example>): string
  {
    if examples == [] then "" else ExamplesIntro + Blocks(Take(examples, MaxExamples))
  }

  lemma Assoc(a: string, b: string, c: string)
    ensures (a + b) + c == a + (b + c)
  {
  }

  /** The four `+=` of one loop round append one block. */
  lemma AppendBlock(text: string, e: Example, n: nat)
    ensures text + Block(e, n)
            == text + BlockHeader(n) + Line("Subject: ", e.subject) + Line("From: ", e.sender) + Line("Body: ", e.body)
  {
    var h, s, f, b := BlockHeader(n), Line("Subject: ", e.subject), Line("From: ", e.sender), Line("Body: ", e.body);
    Assoc(text + h + s, f, b);
    Assoc(text + h, s, f + b);
    Assoc(text, h, s + (f + b));
  }

  /** The four `+=` of one example's block. */
  method AppendExample(text: string, example: Example, n: nat) returns (text': string)
    ensures text' == text + Block(example, n)
  {
    text' := text + BlockHeader(n);
    text' := text' + Line("Subject: ", example.subject);
    text' := text' + Line("From: ", example.sender);
    text' := text' + Line("Body: ", example.body);
    AppendBlock(text, example, n);
  }

  /** The `for i, example in enumerate(used, 1)` loop: the numbered blocks
      of `used`, appended to `intro`. */
  method AppendBlocks(intro: string, used: seq<Example>) returns (text: string)
    ensures text == intro + Blocks(used)
  {
    text := intro;
    var i := 0;
    while i < |used|
      invariant i <= |used|
      invariant text == intro + Blocks(used[..i])
    {
      var example := used[i];
      text := AppendExample(text, example, i + 1);
      assert used[..i + 1][..i] == used[..i];
      Assoc(intro, Blocks(used[..i]), Block(example, i + 1));
      i := i + 1;
    }
    assert used[..i] == used;
  }

  /** The examples section of `_build_spam_detection_prompt`. */
  method BuildExamplesText(examples: seq<Example>) returns (text: string)
    ensures text == ExamplesText(examples)
  {
    text := "";
    if examples != [] {
      text := AppendBlocks(ExamplesIntro, Take(examples, MaxExamples));
    }
  }


  /** Examples after the tenth are never shown to the model. */
  lemma AtMostTenExamples(examples: seq<Example>, more: seq<Example>)
    requires |examples| >= MaxExamples
    ensures ExamplesText(examples + more) == ExamplesText(examples)
  {
    assert (examples + more)[..MaxExamples] == examples[..MaxExamples];
  }

  lemma ExamplesTextEmptyIff(examples: seq<Example>)
    ensures ExamplesText(examples) == "" <==> examples == []
  {
    if examples != [] {
      var used := Take(examples, MaxExamples);
      assert |Blocks(used)| >= |Block(used[|used| - 1], |used|)| > 0;
    }
  }

  // ----- The template and str.format -----

  const UserDescription := "A 28 year old designer who lives in SF and NYC. His interests include gambling, clothes, cars."

  /** The template text before the examples. */
  const Head := BraceFree(
    "\nYou are analyzing the inbox of " + UserDescription + ".\n\n"
    + "You should classify emails as either SPAM or NOT_SPAM, dependent on whether the user wants them to appear in their main inbox. \n\n"
    + "Typically, SMAP emails include unsolicited promotional or informational content, but you should use your judgment on what a user might want to see. Keep in mind your knowedlge of the user preferences. Some examples of emails the user has classified as SPAM in the past are:\n\n")

  const Rule := BraceFree("\n\n===================================================================\nEmail to Analyze:\nSubject: ")
  const Closing := BraceFree("\n\nBased on the above criteria and spam examples, respond with only \"SPAM\" or \"NOT_SPAM\" followed by a brief reason.\n")

  const FromTag := BraceFree("\nFrom: ")
  const BodyTag := BraceFree("\nBody: ")

  /** The replacement field `{name}`. */
  function Field(name: string): string
  {
    "{" + name + "}"
  }

  /** The template text after the examples, with its three fields. */
  const Footer := Rule + (Field("subject") + (FromTag + (Field("sender") + (BodyTag + (Field("body") + Closing)))))

  /** `spam_detection_prompt_template` as the f-string builds it: the
      examples are pasted in verbatim. */
  function Template(examplesText: string): string
  {
    Head + (examplesText + Footer)
  }

  /** The keyword arguments of `format` in `is_spam`. */
  datatype Fields = Fields(subject: string, sender: string, body: string)

  function Lookup(name: string, f: Fields): Option<string>
  {
    if name == "subject" then Some(f.subject)
    else if name == "sender" then Some(f.sender)
    else if name == "body" then Some(f.body)
    else None
  }

  /** The footer with the email's fields filled in. */
  function Filled(f: Fields): string
  {
    Rule + (f.subject + (FromTag + (f.sender + (BodyTag + (f.body + Closing)))))
  }

  /** The position of the first `}` in `t`. */
  function FieldEnd(t: string): (r: Option<nat>)
    ensures r.Some? ==> r.value < |t| && t[r.value] == '}' && forall j :: 0 <= j < r.value ==> t[j] != '}'
    ensures r.None? ==> forall j :: 0 <= j < |t| ==> t[j] != '}'
  {
    if t == [] then None
    else if t[0] == '}' then Some(0)
    else match FieldEnd(t[1..])
      case None => None
      case Some(k) => Some(k + 1)
  }

  function Prepend(p: string, o: Option<string>): Option<string>
  {
    match o
    case None => None
    case Some(v) => Some(p + v)
  }

  /** `t.format(subject=…, sender=…, body=…)`, `None` when it raises:
      `{{` and `}}` stand for single braces, `{name}` is replaced by the
      argument of that name, and any other field, a `{` without its `}` or
      a single `}` raises. Only fields that are a plain name are modelled
      faithfully: a field with a conversion (`!r`), a format spec (`:>5`),
      an attribute (`.upper`) or an index (`[0]`) after one of the three
      names is read here as raising, where Python would format it. */
  function Format(t: string, f: Fields): Option<string>
    decreases |t|
  {
    if t == [] then Some("")
    else if t[0] == '{' then
      if |t| >= 2 && t[1] == '{' then Prepend("{", Format(t[2..], f))
      else
        match FieldEnd(t[1..])
        case None => None
        case Some(k) =>
          match Lookup(t[1..k + 1], f)
          case None => None
          case Some(v) => Prepend(v, Format(t[k + 2..], f))
    else if t[0] == '}' then
      if |t| >= 2 && t[1] == '}' then Prepend("}", Format(t[2..], f)) else None
    else Prepend([t[0]], Format(t[1..], f))
  }

  /** Doubling every brace, so that `format` gives the text back verbatim. */
  function Escape(s: string): (r: string)
    ensures NoBraces(s) ==> r == s
  {
    if s == [] then ""
    else (if s[0] == '{' then "{{" else if s[0] == '}' then "}}" else [s[0]]) + Escape(s[1..])
  }

  lemma PrependPrepend(a: string, b: string, o: Option<string>)
    ensures Prepend(a, Prepend(b, o)) == Prepend(a + b, o)
  {
    if o.Some? {
      Assoc(a, b, o.value);
    }
  }

  /** `format` turns escaped text back into the text itself and goes on
      with what follows. */
  lemma {:induction false} FormatEscaped(s: string, rest: string, f: Fields)
    ensures Format(Escape(s) + rest, f) == Prepend(s, Format(rest, f))
    decreases |s|
  {
    if s == [] {
      assert Escape(s) + rest == rest;
      if Format(rest, f).Some? { assert "" + Format(rest, f).value == Format(rest, f).value; }
    } else {
      var piece := if s[0] == '{' then "{{" else if s[0] == '}' then "}}" else [s[0]];
      var t := Escape(s) + rest;
      var tail := Escape(s[1..]) + rest;
      Assoc(piece, Escape(s[1..]), rest);
      FormatEscaped(s[1..], rest, f);
      if s[0] == '{' || s[0] == '}' {
        assert t[0] == s[0] && t[1] == s[0] && t[2..] == tail;
      } else {
        assert t[0] == s[0] && t[1..] == tail;
      }
      PrependPrepend([s[0]], s[1..], Format(rest, f));
      assert [s[0]] + s[1..] == s;
    }
  }

  lemma FormatPlain(s: string, rest: string, f: Fields)
    requires NoBraces(s)
    ensures Format(s + rest, f) == Prepend(s, Format(rest, f))
  {
    FormatEscaped(s, rest, f);
  }

  /** `{name}` is looked up among the arguments: replaced by the argument
      of that name, or raising when there is none. */
  lemma FormatField(name: string, rest: string, f: Fields)
    requires name != [] && NoBraces(name)
    ensures Format(Field(name) + rest, f)
            == match Lookup(name, f) case None => None case Some(v) => Prepend(v, Format(rest, f))
  {
    var t := Field(name) + rest;
    assert t[1] != '{';
    assert t[1..] == name + "}" + rest;
    assert forall j :: 0 <= j < |name| ==> t[1..][j] == name[j];
    assert t[1..][|name|] == '}';
    assert FieldEnd(t[1..]) == Some(|name|);
    assert t[1..|name| + 1] == name;
    assert t[|name| + 2..] == rest;
  }

  /** Brace-free text followed by a known field: both go to the output. */
  lemma FieldStep(text: string, name: string, rest: string, f: Fields)
    requires NoBraces(text) && name != [] && NoBraces(name) && Lookup(name, f).Some?
    ensures Format(text + (Field(name) + rest), f) == Prepend(text + Lookup(name, f).value, Format(rest, f))
  {
    FormatField(name, rest, f);
    FormatPlain(text, Field(name) + rest, f);
    PrependPrepend(text, Lookup(name, f).value, Format(rest, f));
  }

  lemma FillBody(f: Fields)
    ensures Format(BodyTag + (Field("body") + Closing), f) == Some(BodyTag + (f.body + Closing))
  {
    FormatPlain(Closing, "", f);
    assert Closing + "" == Closing;
    assert Lookup("body", f) == Some(f.body);
    FieldStep(BodyTag, "body", Closing, f);
    Assoc(BodyTag, f.body, Closing);
  }

  lemma FillSender(f: Fields)
    ensures Format(FromTag + (Field("sender") + (BodyTag + (Field("body") + Closing))), f)
            == Some(FromTag + (f.sender + (BodyTag + (f.body + Closing))))
  {
    FillBody(f);
    assert Lookup("sender", f) == Some(f.sender);
    FieldStep(FromTag, "sender", BodyTag + (Field("body") + Closing), f);
    Assoc(FromTag, f.sender, BodyTag + (f.body + Closing));
  }

  /** The footer formats to its fields filled in. */
  lemma FillFooter(f: Fields)
    ensures Format(Footer, f) == Some(Filled(f))
  {
    FillSender(f);
    assert Lookup("subject", f) == Some(f.subject);
    FieldStep(Rule, "subject", FromTag + (Field("sender") + (BodyTag + (Field("body") + Closing))), f);
    Assoc(Rule, f.subject, FromTag + (f.sender + (BodyTag + (f.body + Closing))));
  }

  /** The prompt the template is meant to give: the examples verbatim and
      the email's fields in the footer. */
  function IntendedPrompt(examplesText: string, f: Fields): string
  {
    Head + (examplesText + Filled(f))
  }

  /** The corrected template: the examples are escaped before the f-string
      pastes them in. */
  function CorrectedTemplate(examplesText: string): string
  {
    Head + (Escape(examplesText) + Footer)
  }

  /** With the correction, `format` never raises and yields the intended
      prompt, whatever the examples and the email contain. */
  lemma CorrectedTemplateFormats(examplesText: string, f: Fields)
    ensures Format(CorrectedTemplate(examplesText), f) == Some(IntendedPrompt(examplesText, f))
  {
    FillFooter(f);
    FormatEscaped(examplesText, Footer, f);
    FormatPlain(Head, Escape(examplesText) + Footer, f);
  }

  /** As written, the template formats as intended only when the examples
      hold no brace. */
  lemma TemplateFormatsWithoutBraces(examplesText: string, f: Fields)
    requires NoBraces(examplesText)
    ensures Format(Template(examplesText), f) == Some(IntendedPrompt(examplesText, f))
  {
    CorrectedTemplateFormats(examplesText, f);
  }

  lemma {:induction false} NumberNoBraces(n: nat)
    ensures NoBraces(NatToString(n))
    decreases n
  {
    if n >= 10 {
      NumberNoBraces(n / 10);
      NoBracesConcat(NatToString(n / 10), [Digit(n % 10)]);
    }
  }

  lemma HeaderNoBraces(n: nat)
    ensures NoBraces(BlockHeader(n) + "Subject: ")
  {
    assert NoBraces("\nSpam Example ") && NoBraces(":\n") && NoBraces("Subject: ");
    NumberNoBraces(n);
    NoBracesConcat("\nSpam Example ", NatToString(n));
    NoBracesConcat("\nSpam Example " + NatToString(n), ":\n");
    NoBracesConcat(BlockHeader(n), "Subject: ");
  }

  /** Brace-free text followed by an unknown field raises. */
  lemma RaisesAt(text: string, name: string, rest: string, f: Fields)
    requires NoBraces(text) && name != [] && NoBraces(name) && Lookup(name, f).None?
    ensures Format(text + (Field(name) + rest), f).None?
  {
    FormatField(name, rest, f);
    FormatPlain(text, Field(name) + rest, f);
  }

  /** The template with one example, regrouped around that example's subject. */
  lemma OneExampleTemplate(ex: Example)
    ensures Template(ExamplesText([ex]))
            == (Head + (ExamplesIntro + (BlockHeader(1) + "Subject: ")))
               + (ex.subject + ("\n" + ((Line("From: ", ex.sender) + Line("Body: ", ex.body)) + Footer)))
  {
    var h, rest := BlockHeader(1), Line("From: ", ex.sender) + Line("Body: ", ex.body);
    assert Take([ex], MaxExamples) == [ex];
    assert Blocks([ex]) == Block(ex, 1) by {
      assert [ex][..0] == [];
    }
    var w := "\n" + (rest + Footer);
    Assoc(ExamplesIntro, Block(ex, 1), Footer);
    Assoc(h, Line("Subject: ", ex.subject) + rest, Footer);
    Assoc(Line("Subject: ", ex.subject), rest, Footer);
    Assoc("Subject: " + ex.subject, "\n", rest + Footer);
    Assoc("Subject: ", ex.subject, w);
    Assoc(h, "Subject: ", ex.subject + w);
    Assoc(ExamplesIntro, h + "Subject: ", ex.subject + w);
    Assoc(Head, ExamplesIntro + (h + "Subject: "), ex.subject + w);
  }

  /** A name made of ASCII letters, digits and `_` only: no brace, and none
      of the `!`, `:`, `.` or `[` that would start a conversion, a format
      spec, an attribute or an index. */
  predicate PlainName(name: string)
  {
    forall k :: 0 <= k < |name| ==>
      ('a' <= name[k] <= 'z') || ('A' <= name[k] <= 'Z') || ('0' <= name[k] <= '9') || name[k] == '_'
  }

  /** As written, a single spam example whose subject is a replacement
      field with a plain name other than `subject`, `sender` or `body`
      (such as `{x}`) makes `format` raise, whatever the email to classify:
      `KeyError` for such a name, `IndexError` for a number. */
  lemma BraceInExampleRaises(name: string, sender: string, body: string, f: Fields)
    requires name != [] && PlainName(name) && Lookup(name, f).None?
    ensures Format(Template(ExamplesText([Example(Field(name), sender, body)])), f).None?
  {
    assert NoBraces(name);
    var ex := Example(Field(name), sender, body);
    OneExampleTemplate(ex);
    HeaderNoBraces(1);
    NoBracesConcat(ExamplesIntro, BlockHeader(1) + "Subject: ");
    NoBracesConcat(Head, ExamplesIntro + (BlockHeader(1) + "Subject: "));
    RaisesAt(Head + (ExamplesIntro + (BlockHeader(1) + "Subject: ")), name,
             "\n" + ((Line("From: ", sender) + Line("Body: ", body)) + Footer), f);
  }

  // ----- is_spam -----

  /** How a call of `is_spam` ends: it raises, or returns a verdict. */
  datatype TaskOutcome = Raised | Returned(verdict: Verdict)

  function IsSpamOutcome(template: string, f: Fields, complete: string -> Completion): TaskOutcome
  {
    match Format(template, f)
    case None => Raised
    case Some(prompt) => Returned(ParseVerdict(complete(prompt)))
  }

  /** `is_spam` as written: `format` runs outside the `try`, so its
      exception escapes; the completion's failure is caught. */
  function IsSpamAsWritten(examples: seq<Example>, e: Email, complete: string -> Completion): TaskOutcome
  {
    IsSpamOutcome(Template(ExamplesText(examples)), Fields(e.subject, e.sender, e.body), complete)
  }

  /** As written, `is_spam` works as intended while no example holds a brace. */
  lemma AsWrittenWithoutBraces(examples: seq<Example>, e: Email, complete: string -> Completion)
    requires NoBraces(ExamplesText(examples))
    ensures IsSpamAsWritten(examples, e, complete)
            == Returned(ParseVerdict(complete(IntendedPrompt(ExamplesText(examples), Fields(e.subject, e.sender, e.body)))))
  {
    TemplateFormatsWithoutBraces(ExamplesText(examples), Fields(e.subject, e.sender, e.body));
  }

  /** As written, a spam example with subject `{x}` makes every call raise. */
  lemma AsWrittenRaises(e: Email, complete: string -> Completion)
    ensures IsSpamAsWritten([Example(Field("x"), "a", "b")], e, complete) == Raised
  {
    assert PlainName("x");
    BraceInExampleRaises("x", "a", "b", Fields(e.subject, e.sender, e.body));
  }

  /** `is_spam` with the corrected template: it always returns, and the
      model sees the intended prompt. */
  function IsSpam(examples: seq<Example>, e: Email, complete: string -> Completion): (r: TaskOutcome)
    ensures r == Returned(ParseVerdict(complete(IntendedPrompt(ExamplesText(examples), Fields(e.subject, e.sender, e.body)))))
  {
    var f := Fields(e.subject, e.sender, e.body);
    CorrectedTemplateFormats(ExamplesText(examples), f);
    IsSpamOutcome(CorrectedTemplate(ExamplesText(examples)), f, complete)
  }
}
