/**
 The notification e-mail the handler sends for a validated contact-form
 submission: the HTML body, modelled as its sequence of lines, and the
 payload posted to the e-mail provider.
 */
module Email {
  import opened Optional
  import Newlines

  /** The JSON request body. Every field is an optional string; the handler
      only ever tests them for JavaScript truthiness. */
  datatype ContactForm = ContactForm(
    name: Option<string>,
    email: Option<string>,
    societyName: Option<string>,
    numberOfFlats: Option<string>,
    query: Option<string>,
    message: Option<string>)

  /** The validation the handler performs before sending anything. */
  predicate HasRequiredFields(f: ContactForm)
  {
    Truthy(f.name) && Truthy(f.email) && Truthy(f.message)
  }

  const Title: string := "New Contact Form Submission"
  const NameLabel: string := "Name"
  const EmailLabel: string := "Email"
  const SocietyLabel: string := "Society Name"
  const FlatsLabel: string := "Number of Flats"
  const QueryLabel: string := "Query Type"

  /** One line of the HTML template: the `<h2>` heading, a labelled
      `<p><strong>Label:</strong> value</p>` paragraph, the "Message:" label
      paragraph, and the paragraph holding the rendered message. */
  datatype HtmlLine =
    | Heading(text: string)
    | Field(caption: string, value: string)
    | MessageLabel
    | MessageBody(html: string)

  /** The lines an optional field contributes: one if it is truthy, none
      otherwise. */
  function OptionalLine(caption: string, o: Option<string>): seq<HtmlLine>
  {
    if Truthy(o) then [Field(caption, o.value)] else []
  }

  function Indicator(b: bool): nat
  {
    if b then 1 else 0
  }

  /** The HTML body. It always opens with the heading and the Name and Email
      lines, always closes with the Message label and the rendered message,
      and in between has one line per truthy optional field. */
  function BuildHtml(f: ContactForm): (lines: seq<HtmlLine>)
    requires HasRequiredFields(f)
    ensures |lines| == 5 + Indicator(Truthy(f.societyName)) + Indicator(Truthy(f.numberOfFlats))
                         + Indicator(Truthy(f.query))
    ensures lines[..3] == [Heading(Title), Field(NameLabel, f.name.value), Field(EmailLabel, f.email.value)]
    ensures lines[|lines| - 2..] == [MessageLabel, MessageBody(Newlines.ReplaceNewlines(f.message.value))]
    ensures Truthy(f.societyName) ==> lines[3] == Field(SocietyLabel, f.societyName.value)
    ensures Truthy(f.numberOfFlats) ==>
              lines[3 + Indicator(Truthy(f.societyName))] == Field(FlatsLabel, f.numberOfFlats.value)
    ensures Truthy(f.query) ==> lines[|lines| - 3] == Field(QueryLabel, f.query.value)
  {
    [Heading(Title), Field(NameLabel, f.name.value), Field(EmailLabel, f.email.value)]
    + OptionalLine(SocietyLabel, f.societyName)
    + OptionalLine(FlatsLabel, f.numberOfFlats)
    + OptionalLine(QueryLabel, f.query)
    + [MessageLabel, MessageBody(Newlines.ReplaceNewlines(f.message.value))]
  }

  /** An optional field is listed, with its value, exactly when it is
      truthy; a missing or empty field leaves no line behind. */
  lemma OptionalFieldsListed(f: ContactForm)
    requires HasRequiredFields(f)
    ensures forall v :: Field(SocietyLabel, v) in BuildHtml(f) <==> f.societyName == Some(v) && v != ""
    ensures forall v :: Field(FlatsLabel, v) in BuildHtml(f) <==> f.numberOfFlats == Some(v) && v != ""
    ensures forall v :: Field(QueryLabel, v) in BuildHtml(f) <==> f.query == Some(v) && v != ""
  {
    forall v ensures Field(SocietyLabel, v) in BuildHtml(f) <==> f.societyName == Some(v) && v != "" {
      FieldListedAt(f, SocietyLabel, v);
    }
    forall v ensures Field(FlatsLabel, v) in BuildHtml(f) <==> f.numberOfFlats == Some(v) && v != "" {
      FieldListedAt(f, FlatsLabel, v);
    }
    forall v ensures Field(QueryLabel, v) in BuildHtml(f) <==> f.query == Some(v) && v != "" {
      FieldListedAt(f, QueryLabel, v);
    }
  }

  lemma FieldListedAt(f: ContactForm, caption: string, v: string)
    requires HasRequiredFields(f)
    requires caption in {SocietyLabel, FlatsLabel, QueryLabel}
    ensures Field(caption, v) in BuildHtml(f)
            <==> || (caption == SocietyLabel && f.societyName == Some(v) && v != "")
                 || (caption == FlatsLabel && f.numberOfFlats == Some(v) && v != "")
                 || (caption == QueryLabel && f.query == Some(v) && v != "")
  {
    var head := [Heading(Title), Field(NameLabel, f.name.value), Field(EmailLabel, f.email.value)];
    var a := OptionalLine(SocietyLabel, f.societyName);
    var b := OptionalLine(FlatsLabel, f.numberOfFlats);
    var c := OptionalLine(QueryLabel, f.query);
    var tail := [MessageLabel, MessageBody(Newlines.ReplaceNewlines(f.message.value))];
    assert BuildHtml(f) == head + a + b + c + tail;
    assert caption != NameLabel && caption != EmailLabel by {
      assert |caption| > 5;
    }
    assert Field(caption, v) !in head;
    assert Field(caption, v) !in tail;
    assert SocietyLabel != FlatsLabel && FlatsLabel != QueryLabel && SocietyLabel != QueryLabel by {
      assert SocietyLabel[0] != FlatsLabel[0] && FlatsLabel[0] != QueryLabel[0] && QueryLabel[0] != SocietyLabel[0];
    }
  }

  /** The value of the first line carrying `caption`, if any. */
  function Lookup(lines: seq<HtmlLine>, caption: string): Option<string>
  {
    if lines == [] then None
    else if lines[0].Field? && lines[0].caption == caption then Some(lines[0].value)
    else Lookup(lines[1..], caption)
  }

  /** The rendered message, read back from the last message paragraph. */
  function RenderedMessage(lines: seq<HtmlLine>): Option<string>
  {
    if lines == [] then None
    else if lines[|lines| - 1].MessageBody? then Some(lines[|lines| - 1].html)
    else None
  }

  /** The body the reader of the e-mail sees: each field's value can be read
      back under its caption, where a falsy optional field reads as absent, and
      the message reads back with line feeds rendered as `<br>`. */
  lemma BuildHtmlReadBack(f: ContactForm)
    requires HasRequiredFields(f)
    ensures Lookup(BuildHtml(f), NameLabel) == f.name
    ensures Lookup(BuildHtml(f), EmailLabel) == f.email
    ensures Lookup(BuildHtml(f), SocietyLabel) == Present(f.societyName)
    ensures Lookup(BuildHtml(f), FlatsLabel) == Present(f.numberOfFlats)
    ensures Lookup(BuildHtml(f), QueryLabel) == Present(f.query)
    ensures RenderedMessage(BuildHtml(f)) == Some(Newlines.ReplaceNewlines(f.message.value))
  {
    HeadLookup(f.name.value, f.email.value);
    OptionalLinesLookup(f);
    LinesLookupAt(f, NameLabel);
    LinesLookupAt(f, EmailLabel);
    LinesLookupAt(f, SocietyLabel);
    LinesLookupAt(f, FlatsLabel);
    LinesLookupAt(f, QueryLabel);
    var lines := BuildHtml(f);
    assert lines[|lines| - 1] == MessageBody(Newlines.ReplaceNewlines(f.message.value)) by {
      assert lines[|lines| - 2..][1] == lines[|lines| - 1];
    }
  }

  /** The body is looked up in its fixed head, then its optional lines. */
  lemma LinesLookupAt(f: ContactForm, caption: string)
    requires HasRequiredFields(f)
    ensures var head := [Heading(Title), Field(NameLabel, f.name.value), Field(EmailLabel, f.email.value)];
            var opt := OptionalLine(SocietyLabel, f.societyName)
                       + OptionalLine(FlatsLabel, f.numberOfFlats)
                       + OptionalLine(QueryLabel, f.query);
            Lookup(BuildHtml(f), caption)
            == if Lookup(head, caption).Some? then Lookup(head, caption) else Lookup(opt, caption)
  {
    var head := [Heading(Title), Field(NameLabel, f.name.value), Field(EmailLabel, f.email.value)];
    var opt := OptionalLine(SocietyLabel, f.societyName)
               + OptionalLine(FlatsLabel, f.numberOfFlats)
               + OptionalLine(QueryLabel, f.query);
    var tail := [MessageLabel, MessageBody(Newlines.ReplaceNewlines(f.message.value))];
    assert BuildHtml(f) == head + (opt + tail);
    TailLookup(Newlines.ReplaceNewlines(f.message.value), caption);
    LookupAppend(head, opt + tail, caption);
    LookupAppend(opt, tail, caption);
  }

  /** Looking up in a sequence with a known first line. */
  lemma LookupCons(line: HtmlLine, rest: seq<HtmlLine>, caption: string)
    ensures Lookup([line] + rest, caption)
            == if line.Field? && line.caption == caption then Some(line.value) else Lookup(rest, caption)
  {
    assert ([line] + rest)[0] == line;
    assert ([line] + rest)[1..] == rest;
  }

  lemma HeadLookupAt(name: string, email: string, caption: string)
    ensures Lookup([Heading(Title), Field(NameLabel, name), Field(EmailLabel, email)], caption)
            == if caption == NameLabel then Some(name)
               else if caption == EmailLabel then Some(email)
               else None
  {
    var e: seq<HtmlLine> := [];
    assert [Heading(Title), Field(NameLabel, name), Field(EmailLabel, email)]
        == [Heading(Title)] + ([Field(NameLabel, name)] + ([Field(EmailLabel, email)] + e));
    LookupCons(Heading(Title), [Field(NameLabel, name)] + ([Field(EmailLabel, email)] + e), caption);
    LookupCons(Field(NameLabel, name), [Field(EmailLabel, email)] + e, caption);
    LookupCons(Field(EmailLabel, email), e, caption);
  }

  lemma HeadLookup(name: string, email: string)
    ensures var head := [Heading(Title), Field(NameLabel, name), Field(EmailLabel, email)];
            && Lookup(head, NameLabel) == Some(name)
            && Lookup(head, EmailLabel) == Some(email)
            && Lookup(head, SocietyLabel).None?
            && Lookup(head, FlatsLabel).None?
            && Lookup(head, QueryLabel).None?
  {
    assert NameLabel != EmailLabel by { assert NameLabel[0] != EmailLabel[0]; }
    assert SocietyLabel != NameLabel && SocietyLabel != EmailLabel by { assert |SocietyLabel| > 5; }
    assert FlatsLabel != NameLabel && FlatsLabel != EmailLabel by { assert |FlatsLabel| > 5; }
    assert QueryLabel != NameLabel && QueryLabel != EmailLabel by { assert |QueryLabel| > 5; }
    HeadLookupAt(name, email, NameLabel);
    HeadLookupAt(name, email, EmailLabel);
    HeadLookupAt(name, email, SocietyLabel);
    HeadLookupAt(name, email, FlatsLabel);
    HeadLookupAt(name, email, QueryLabel);
  }

  lemma TailLookup(html: string, caption: string)
    ensures Lookup([MessageLabel, MessageBody(html)], caption).None?
  {
    var e: seq<HtmlLine> := [];
    assert [MessageLabel, MessageBody(html)] == [MessageLabel] + ([MessageBody(html)] + e);
    LookupCons(MessageLabel, [MessageBody(html)] + e, caption);
    LookupCons(MessageBody(html), e, caption);
  }

  lemma OptionalLinesLookup(f: ContactForm)
    ensures var opt := OptionalLine(SocietyLabel, f.societyName)
                       + OptionalLine(FlatsLabel, f.numberOfFlats)
                       + OptionalLine(QueryLabel, f.query);
            && Lookup(opt, SocietyLabel) == Present(f.societyName)
            && Lookup(opt, FlatsLabel) == Present(f.numberOfFlats)
            && Lookup(opt, QueryLabel) == Present(f.query)
  {
    var a := OptionalLine(SocietyLabel, f.societyName);
    var b := OptionalLine(FlatsLabel, f.numberOfFlats);
    var c := OptionalLine(QueryLabel, f.query);
    LookupAppend(a, b + c, SocietyLabel);
    LookupAppend(a, b + c, FlatsLabel);
    LookupAppend(a, b + c, QueryLabel);
    LookupAppend(b, c, SocietyLabel);
    LookupAppend(b, c, FlatsLabel);
    LookupAppend(b, c, QueryLabel);
    assert a + b + c == a + (b + c);
  }

  /** Looking up in a concatenation looks in the first part, then the second. */
  lemma {:induction false} LookupAppend(a: seq<HtmlLine>, b: seq<HtmlLine>, caption: string)
    ensures Lookup(a + b, caption) == if Lookup(a, caption).Some? then Lookup(a, caption) else Lookup(b, caption)
  {
    if a == [] {
      assert a + b == b;
    } else {
      assert (a + b)[0] == a[0];
      assert (a + b)[1..] == a[1..] + b;
      LookupAppend(a[1..], b, caption);
    }
  }

  const Sender: string := "contact@mydoorkeeper.com"
  const Recipient: string := "knock@mydoorkeeper.com"
  const SubjectPrefix: string := "New Contact Form Submission from "

  /** The JSON object posted to the provider. */
  datatype Payload = Payload(from: string, to: seq<string>, subject: string, html: seq<HtmlLine>, replyTo: string)

  /** The provider payload: fixed sender and single fixed recipient, a
      subject naming the visitor, replies going to the visitor's address,
      and the HTML body above. */
  function BuildPayload(f: ContactForm): (p: Payload)
    requires HasRequiredFields(f)
    ensures p.from == Sender && p.to == [Recipient]
    ensures SubjectPrefix <= p.subject && p.subject[|SubjectPrefix|..] == f.name.value
    ensures p.replyTo == f.email.value
    ensures Lookup(p.html, NameLabel) == f.name && Lookup(p.html, EmailLabel) == f.email
    ensures Lookup(p.html, SocietyLabel) == Present(f.societyName)
    ensures Lookup(p.html, FlatsLabel) == Present(f.numberOfFlats)
    ensures Lookup(p.html, QueryLabel) == Present(f.query)
    ensures RenderedMessage(p.html) == Some(Newlines.ReplaceNewlines(f.message.value))
  {
    BuildHtmlReadBack(f);
    Payload(Sender, [Recipient], SubjectPrefix + f.name.value, BuildHtml(f), f.email.value)
  }
}
