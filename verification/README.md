# Contact-form handler, modelled in Dafny

The repository is a landing page for a visitor-management product plus one
serverless function, `send-contact-form`, that relays a visitor's inquiry to
the Resend e-mail API. This project models that function as pure logic:

- **Optional** — `Option`, `Result`, and JavaScript truthiness of an optional
  string field (`!x` holds for a missing field and for `""`).
- **Newlines** — the rendering of the visitor's message, where every line feed
  becomes `<br>`. It comes with an independent reference definition (split on
  line feeds, join with `<br>`) and a count of `<br>` markers.
- **Email** — the contact form, the HTML body as a sequence of lines, and the
  payload posted to the provider.
- **Handler** — the per-request decision procedure. The checks run in order:
  pre-flight, API key, body parse, required fields, then the provider call.
  The procedure also maps the provider's outcome to the HTTP response. It
  returns the response and the provider request it issued, if any, so
  "nothing was sent" can be stated.
- **Lifecycle** — the request life cycle as a separate state machine
  (START → CONFIG_CHECK → PARSE → VALIDATE → SEND → five terminal states).
  It is proved to agree with the handler.
- **Scenarios** — two worked submissions: a two-line message that is sent,
  and an empty name that is rejected.

The environment lookup, the JSON parse of the request body, and the provider
call are inputs to the model. `Invocation` carries the API key as an optional
string, the body parse result as `Option<ContactForm>` (`None` when parsing
throws), and the provider outcome. That outcome is either a thrown transport
failure or a reply with its `ok` flag and an optional parsed body.

The model follows the code in these points:

- the success body carries the provider's identifier as `id`, next to
  `message: "Email sent successfully"`;
- `reply_to` is always set to the visitor's address;
- an empty API key counts as missing;
- every method other than `OPTIONS` takes the submission path;
- an `ok` provider reply whose body does not parse succeeds with no `id`;
- every response, the empty pre-flight one included, carries the same three
  headers: two CORS headers and `Content-Type: application/json`.

## Model

| member | source | states |
|---|---|---|
| `Newlines.ReplaceNewlines` | supabase/functions/send-contact-form/index.ts:92 | the rendered message contains no line feed, and its length is the input length plus 3 per line feed |
| `Newlines.ReplaceNewlinesIdentity` | supabase/functions/send-contact-form/index.ts:92 | rendering leaves the message unchanged if and only if it has no line feed |
| `Newlines.ReplaceNewlinesAppend` | supabase/functions/send-contact-form/index.ts:92 | the global replace works character by character: rendering a concatenation is concatenating the renderings |
| `Newlines.ReplaceSingleNewline` | supabase/functions/send-contact-form/index.ts:92 | two newline-free lines joined by one line feed render as the same lines joined by one `<br>` |
| `Newlines.SplitLines` | supabase/functions/send-contact-form/index.ts:92 | reference split of the message: one more piece than line feeds, no piece holds a line feed |
| `Newlines.JoinSplitLines` | supabase/functions/send-contact-form/index.ts:92 | joining the split pieces with a line feed restores the message |
| `Newlines.SplitJoinLines` | supabase/functions/send-contact-form/index.ts:92 | splitting newline-free pieces joined by line feeds restores the pieces |
| `Newlines.ReplaceNewlinesIsSplitJoin` | supabase/functions/send-contact-form/index.ts:92 | the replace equals the reference: split on line feeds, join with `<br>` |
| `Newlines.BreakCount` | supabase/functions/send-contact-form/index.ts:92 | the rendered message has one `<br>` marker per line feed plus the markers already in the message, and no others |
| `Newlines.BreakMarkersMatchNewlines` | supabase/functions/send-contact-form/index.ts:92 | a message with no literal `<br>` renders with exactly as many markers as line feeds |
| `Email.BuildHtml` | supabase/functions/send-contact-form/index.ts:84-93 | the body opens with the heading and the Name and Email lines, ends with the Message label and the rendered message, and has one extra line per truthy optional field |
| `Email.OptionalFieldsListed` | supabase/functions/send-contact-form/index.ts:88-90 | a Society Name, Number of Flats or Query Type line with value v is present if and only if that field is present with value v and v is non-empty |
| `Email.BuildHtmlReadBack` | supabase/functions/send-contact-form/index.ts:84-93 | each field reads back from the body under its label, a falsy optional field reads back as absent, and the message reads back rendered |
| `Email.BuildPayload` | supabase/functions/send-contact-form/index.ts:96-102 | fixed sender, single fixed recipient, subject = "New Contact Form Submission from " + name, reply_to = email, and a body carrying name, email and rendered message |
| `Handler.InterpretReply` | supabase/functions/send-contact-form/index.ts:124-167 | status 200 if and only if the provider answered ok with no in-band error, carrying the parsed id (none for an unparsable body); otherwise 500 with `success: false`; the HTTP status is checked before the in-band error |
| `Handler.CheckForm` | supabase/functions/send-contact-form/index.ts:55-78 | a body passes if and only if it parsed and has truthy name, email and message; a parse failure is "Invalid request format", otherwise a failure is the required-fields error |
| `Handler.Handle` | supabase/functions/send-contact-form/index.ts:34-167 | OPTIONS gives an empty 204; otherwise a missing key gives 500, a parse failure 400, a missing field 400, all with nothing sent; a request is sent if and only if all checks pass, with bearer key and built payload, and the provider outcome decides the response; `success` holds exactly at 200 and every response has the CORS headers |
| `Handler.PreflightIgnoresEverything` | supabase/functions/send-contact-form/index.ts:34-37 | any two OPTIONS requests get the same empty 204, whatever the key, body or provider |
| `Handler.MissingKeyIgnoresBody` | supabase/functions/send-contact-form/index.ts:40-53 | without an API key, any two non-OPTIONS requests get the same 500 whatever their bodies: the body is never consulted |
| `Handler.ProviderOnlyConsultedWhenSent` | supabase/functions/send-contact-form/index.ts:68-114 | when nothing is sent, changing the provider's behaviour changes nothing |
| `Handler.MissingFieldRejected` | supabase/functions/send-contact-form/index.ts:68-78 | a parsed body lacking any of name, email, message gets 400 with `success: false` and nothing is sent |
| `Lifecycle.HandleFollowsLifecycle` | supabase/functions/send-contact-form/index.ts:34-167 | the life-cycle machine stops within five transitions, the handler's status is that of the machine's terminal state, and `success` holds exactly in SUCCESS |
| `Lifecycle.SendsExactlyInSendPhase` | supabase/functions/send-contact-form/index.ts:68-114 | the handler sends if and only if the machine passes SEND, and then for the form the machine validated |
| `Scenarios.TwoLineMessageIsSent` | supabase/functions/send-contact-form/index.ts:84-155 | a complete submission with a two-line message gets 200 with the provider id, and the e-mail holds the name, the address and the lines joined by `<br>` |
| `Scenarios.AshaIsSent` | supabase/functions/send-contact-form/index.ts:84-155 | Asha / asha@x.com / "Hello\nWorld" is sent with 200 and the body shows `Hello<br>World` |
| `Scenarios.EmptyNameIsRejected` | supabase/functions/send-contact-form/index.ts:69-78 | an empty name is never sent and never succeeds; with a key configured it gets 400 with the required-fields error |

## Left out

- The `fetch` to the Resend API, `response.text()`, `req.json()` and `JSON.parse` are network and library calls. Their outcomes are inputs.
- `Deno.env.get("RESEND_API_KEY")` is an environment read; the key is an input.
- All `console.log` / `console.error` calls are logging with no effect on the response.
- `Handler.ErrorText`: the three provider failures carry only the fixed prefix of their message. The status code, the raw reply text, the serialised `error` value and the thrown message appended in the source are not modelled.
- The outer `catch` (index.ts:169-180) is not modelled. It answers a run-time type error raised before the send block, such as a JSON body of `null` failing at the field check (index.ts:69). The model assumes string-typed fields. A truthy non-string `message` would pass validation and then fail at `replace` (index.ts:92), inside the send block; that is caught at index.ts:156 as a send failure (500, "Failed to send email: …") with no provider call, which the model does not represent.
- `Email.BuildHtml`: field values are inserted into the template without HTML escaping (index.ts:86-92); only line feeds in the message are rewritten. A value holding markup, such as a name of `x</p><p><strong>Society Name:</strong> y`, adds lines that a mail client would display. The model keeps each value as one opaque `Field`, so `Email.BuildHtml`, `Email.OptionalFieldsListed` and `Email.BuildHtmlReadBack` describe the structure of the template, not the markup a mail client parses.
- The exact HTML bytes, whitespace and indentation of the template are not modelled. The body is the sequence of its lines, and an omitted optional field contributes no line where the source leaves a blank one.
- A provider reply whose `error` is present but falsy (`""`, `0`, `false`, `null`) behaves as "no error" in the source. It is folded into an absent `error`, and `id` is taken to be a string.
- HTTP status codes of the provider reply other than its `ok` flag are not modelled, nor are response header contents beyond the fixed CORS set.
- There is no timeout and no retry on the provider call in the source, and concurrency between invocations is not modelled; each invocation is a pure function of its inputs.
- `src/pages/Index.tsx` (the React page, which posts with `no-cors` to a placeholder URL and shows toasts) and `src/main.tsx` (DOM bootstrap) are user interface and are not part of this model.
