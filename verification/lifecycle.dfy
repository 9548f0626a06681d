/**
 The per-request life cycle of the handler as a state machine, written
 independently of the handler's code: a request moves from START through the
 configuration check, the body parse, the field validation and the send, and
 stops in one of five terminal states, each with its own HTTP status. The
 agreement lemma shows the handler reaches the terminal state the machine
 reaches, and calls the provider exactly when the machine passes SEND.
 */
module Lifecycle {
  import opened Optional
  import opened Email
  import opened Handler

  datatype Phase =
    | Start
    | ConfigCheck
    | Parse
    | Validate(form: ContactForm)
    | Send(form: ContactForm)
    | PreflightOk
    | ConfigError
    | BadRequest
    | SendFailed
    | Succeeded

  predicate Terminal(p: Phase)
  {
    p.PreflightOk? || p.ConfigError? || p.BadRequest? || p.SendFailed? || p.Succeeded?
  }

  /** The HTTP status each terminal state answers with. */
  function StatusOf(p: Phase): int
    requires Terminal(p)
  {
    match p
    case PreflightOk => 204
    case ConfigError => 500
    case BadRequest => 400
    case SendFailed => 500
    case Succeeded => 200
  }

  /** The provider delivered: it answered, with an ok status, and without an
      error in its parsed body. */
  predicate Delivered(p: ProviderOutcome)
  {
    match p
    case TransportFailure => false
    case Reply(ok, body) => ok && (body.None? || body.value.error.None?)
  }

  /** One transition; terminal states are absorbing. */
  function Next(p: Phase, inv: Invocation): Phase
  {
    match p
    case Start => if inv.request.httpMethod == "OPTIONS" then PreflightOk else ConfigCheck
    case ConfigCheck => if inv.apiKey.None? || inv.apiKey.value == "" then ConfigError else Parse
    case Parse => if inv.request.body.None? then BadRequest else Validate(inv.request.body.value)
    case Validate(f) =>
      if f.name.None? || f.name.value == "" || f.email.None? || f.email.value == ""
         || f.message.None? || f.message.value == "" then BadRequest
      else Send(f)
    case Send(_) => if Delivered(inv.provider) then Succeeded else SendFailed
    case _ => p
  }

  /** The phases visited from `p` in at most `n` transitions, stopping at the
      first terminal state. */
  function Trace(p: Phase, inv: Invocation, n: nat): (t: seq<Phase>)
    ensures |t| > 0 && t[0] == p
    decreases n
  {
    if n == 0 || Terminal(p) then [p] else [p] + Trace(Next(p, inv), inv, n - 1)
  }

  /** Where the machine stands after at most five transitions from START. */
  function Run(inv: Invocation): Phase
  {
    var t := Trace(Start, inv, 5);
    t[|t| - 1]
  }

  /** The path the machine takes for each kind of invocation. */
  lemma TraceOf(inv: Invocation)
    ensures inv.request.httpMethod == "OPTIONS" ==> Trace(Start, inv, 5) == [Start, PreflightOk]
    ensures inv.request.httpMethod != "OPTIONS" && !Truthy(inv.apiKey)
            ==> Trace(Start, inv, 5) == [Start, ConfigCheck, ConfigError]
    ensures inv.request.httpMethod != "OPTIONS" && Truthy(inv.apiKey) && inv.request.body.None?
            ==> Trace(Start, inv, 5) == [Start, ConfigCheck, Parse, BadRequest]
    ensures inv.request.httpMethod != "OPTIONS" && Truthy(inv.apiKey) && inv.request.body.Some?
            && !HasRequiredFields(inv.request.body.value)
            ==> Trace(Start, inv, 5) == [Start, ConfigCheck, Parse, Validate(inv.request.body.value), BadRequest]
    ensures Sends(inv)
            ==> Trace(Start, inv, 5) == [Start, ConfigCheck, Parse, Validate(inv.request.body.value),
                                         Send(inv.request.body.value),
                                         if Delivered(inv.provider) then Succeeded else SendFailed]
  {
    if inv.request.httpMethod != "OPTIONS" {
      TraceStep(Start, inv, 5);
      TraceAfterStart(inv);
      TraceAfterConfig(inv);
    } else {
      TraceStep(Start, inv, 5);
      TraceStop(PreflightOk, inv, 4);
    }
  }

  lemma TraceAfterStart(inv: Invocation)
    requires inv.request.httpMethod != "OPTIONS"
    ensures !Truthy(inv.apiKey) ==> Trace(ConfigCheck, inv, 4) == [ConfigCheck, ConfigError]
    ensures Truthy(inv.apiKey) ==> Trace(ConfigCheck, inv, 4) == [ConfigCheck] + Trace(Parse, inv, 3)
  {
    TraceStep(ConfigCheck, inv, 4);
    if !Truthy(inv.apiKey) {
      TraceStop(ConfigError, inv, 3);
    }
  }

  lemma TraceAfterConfig(inv: Invocation)
    ensures inv.request.body.None? ==> Trace(Parse, inv, 3) == [Parse, BadRequest]
    ensures inv.request.body.Some? && !HasRequiredFields(inv.request.body.value)
            ==> Trace(Parse, inv, 3) == [Parse, Validate(inv.request.body.value), BadRequest]
    ensures inv.request.body.Some? && HasRequiredFields(inv.request.body.value)
            ==> Trace(Parse, inv, 3) == [Parse, Validate(inv.request.body.value), Send(inv.request.body.value),
                                         if Delivered(inv.provider) then Succeeded else SendFailed]
  {
    TraceStep(Parse, inv, 3);
    if inv.request.body.None? {
      TraceStop(BadRequest, inv, 2);
    } else {
      var f := inv.request.body.value;
      TraceStep(Validate(f), inv, 2);
      if !HasRequiredFields(f) {
        TraceStop(BadRequest, inv, 1);
      } else {
        TraceStep(Send(f), inv, 1);
        TraceStop(if Delivered(inv.provider) then Succeeded else SendFailed, inv, 0);
      }
    }
  }

  lemma TraceStep(p: Phase, inv: Invocation, n: nat)
    requires n > 0 && !Terminal(p)
    ensures Trace(p, inv, n) == [p] + Trace(Next(p, inv), inv, n - 1)
  {
  }

  lemma TraceStop(p: Phase, inv: Invocation, n: nat)
    requires Terminal(p) || n == 0
    ensures Trace(p, inv, n) == [p]
  {
  }

  /** The handler implements the life cycle: the machine always stops within
      five transitions, the handler's status is the status of the machine's
      terminal state, and the JSON body reports success exactly in SUCCESS. */
  lemma HandleFollowsLifecycle(inv: Invocation)
    ensures Terminal(Run(inv))
    ensures Handle(inv).response.status == StatusOf(Run(inv))
    ensures (Handle(inv).response.body.Some? && Handle(inv).response.body.value.Success()) <==> Run(inv) == Succeeded
  {
    TraceOf(inv);
    var x := Handle(inv);
    if Sends(inv) {
      assert x.response == InterpretReply(inv.provider);
    }
  }

  /** The handler calls the provider exactly when the machine passes through
      SEND, and then with the form the machine validated. */
  lemma SendsExactlyInSendPhase(inv: Invocation)
    ensures Handle(inv).dispatched.Some? <==> exists q :: q in Trace(Start, inv, 5) && q.Send?
    ensures forall f :: Send(f) in Trace(Start, inv, 5) ==> Sends(inv) && inv.request.body == Some(f)
  {
    TraceOf(inv);
    var t := Trace(Start, inv, 5);
    if Sends(inv) {
      var f := inv.request.body.value;
      assert t[4] == Send(f);
      assert forall q :: q in t && q.Send? ==> q == Send(f);
    } else {
      NoSendPhase(inv);
    }
  }

  lemma NoSendPhase(inv: Invocation)
    requires !Sends(inv)
    ensures forall q :: q in Trace(Start, inv, 5) ==> !q.Send?
  {
    TraceOf(inv);
  }
}
