/**
 Two concrete submissions, worked through the whole handler.
 */
module Scenarios {
  import opened Optional
  import opened Email
  import opened Handler
  import Newlines

  function Form(name: string, email: string, message: string): ContactForm
  {
    ContactForm(Some(name), Some(email), None, None, None, Some(message))
  }

  /** A complete submission whose message spans two lines is sent and
      answered with 200 carrying the provider's id; the e-mail names the
      visitor, carries the address, and shows the message with one `<br>`
      between the lines. */
  lemma TwoLineMessageIsSent(name: string, email: string, a: string, b: string, key: string, id: string)
    requires name != "" && email != "" && key != ""
    requires '\n' !in a && '\n' !in b
    ensures var inv := Invocation(Request("POST", Some(Form(name, email, a + ("\n" + b)))),
                                  Some(key), Reply(true, Some(ReplyBody(Some(id), None))));
            var x := Handle(inv);
            && x.response.status == 200
            && x.response.body == Some(Sent(Some(id)))
            && x.dispatched.Some?
            && Field(NameLabel, name) in x.dispatched.value.payload.html
            && Field(EmailLabel, email) in x.dispatched.value.payload.html
            && MessageBody(a + (Newlines.Break + b)) in x.dispatched.value.payload.html
            && x.dispatched.value.payload.subject == SubjectPrefix + name
  {
    var f := Form(name, email, a + ("\n" + b));
    assert HasRequiredFields(f) by {
      assert |a + ("\n" + b)| > 0;
    }
    HtmlOfForm(f);
    Newlines.ReplaceSingleNewline(a, b);
  }

  /** The worked example: Asha's two-line message. */
  lemma AshaIsSent(key: string, id: string)
    requires key != ""
    ensures var inv := Invocation(Request("POST", Some(Form("Asha", "asha@x.com", "Hello\nWorld"))),
                                  Some(key), Reply(true, Some(ReplyBody(Some(id), None))));
            var x := Handle(inv);
            && x.response.status == 200
            && x.response.body == Some(Sent(Some(id)))
            && x.dispatched.Some?
            && Field(NameLabel, "Asha") in x.dispatched.value.payload.html
            && Field(EmailLabel, "asha@x.com") in x.dispatched.value.payload.html
            && MessageBody("Hello<br>World") in x.dispatched.value.payload.html
  {
    assert "Hello\nWorld" == "Hello" + ("\n" + "World");
    assert "Hello<br>World" == "Hello" + (Newlines.Break + "World");
    TwoLineMessageIsSent("Asha", "asha@x.com", "Hello", "World", key, id);
  }

  /** The body always holds the name and e-mail lines and the rendered
      message paragraph. */
  lemma HtmlOfForm(f: ContactForm)
    requires HasRequiredFields(f)
    ensures Field(NameLabel, f.name.value) in BuildHtml(f)
    ensures Field(EmailLabel, f.email.value) in BuildHtml(f)
    ensures MessageBody(Newlines.ReplaceNewlines(f.message.value)) in BuildHtml(f)
  {
    var lines := BuildHtml(f);
    assert lines[..3][1] == lines[1];
    assert lines[..3][2] == lines[2];
    assert lines[|lines| - 2..][1] == lines[|lines| - 1];
  }

  /** An empty name is a missing required field: 400, and nothing is sent,
      whatever the provider would have answered. */
  lemma EmptyNameIsRejected(key: string, p: ProviderOutcome)
    ensures var x := Handle(Invocation(Request("POST", Some(Form("", "a@b.com", "hi"))), Some(key), p));
            && (x.response.status == 400 || x.response.status == 500)
            && x.response.body.Some? && !x.response.body.value.Success()
            && x.dispatched.None?
    ensures key != "" ==> Handle(Invocation(Request("POST", Some(Form("", "a@b.com", "hi"))), Some(key), p)).response
                          == Fail(400, MissingRequiredFields)
  {
  }
}
