/** The webhook handler of main.py: one request in, a status out, and the
    messages it sends through the gateway recorded in an outbox. */
module Handler {
  import opened Values
  import opened PyText
  import opened Intake
  import opened Routing

  /** Sent to the customer when a human is asked for. */
  const HANDOFF_ACK: string := "Tudo bem 🌺! Já chamei nossa atendente pra falar com você!"

  /** The reply used whenever the completion backend fails. */
  const APOLOGY: string := "Desculpa 🌊, tive um probleminha técnico. Pode repetir sua mensagem?"

  /** Sent to the authorized number when a customer asks for a human; the
      sender is formatted with `str()`. */
  function HandoffNotice(phone: Json, text: string, render: Json -> string): string
  {
    "⚠️ Cliente " + Show(phone, render) + " pediu atendimento humano: '" + text + "'"
  }

  /** What the completion request ends in: the generated content, or any
      failure (transport error, error status, unexpected body). */
  datatype Completion = Answered(content: string) | Failed

  /** The JSON object the handler returns. */
  datatype Response = Invalid | Ignored | HumanModeTriggered | Ok(reply: string)

  /** One call of `send_message(to, text)`. */
  datatype Message = Message(to: Json, text: string)

  datatype Outcome = Outcome(response: Response, sends: seq<Message>)

  /** The value of the response's `status` field. */
  function Status(r: Response): string
  {
    match r
    case Invalid => "invalid"
    case Ignored => "ignored"
    case HumanModeTriggered => "human_mode_triggered"
    case Ok(_) => "ok"
  }

  /** The reply of the try/except around the completion request. */
  function Reply(backend: Completion): string
  {
    match backend
    case Answered(content) => content
    case Failed => APOLOGY
  }

  /** What the handler does once it holds the sender and the stripped text
      (main.py:34-78): the response and, in order, the messages sent. The
      backend outcome matters only on the answering path. */
  function Respond(phone: Json, text: string, authorized: string, render: Json -> string,
                   backend: Completion): Outcome
  {
    match Route(phone, text, authorized)
    case Malformed => Outcome(Invalid, [])
    case Unauthorized => Outcome(Ignored, [])
    case HumanHandoff =>
      Outcome(HumanModeTriggered,
              [Message(phone, HANDOFF_ACK), Message(Str(authorized), HandoffNotice(phone, text, render))])
    case AutoReply => Outcome(Ok(Reply(backend)), [Message(phone, Reply(backend))])
  }

  /** Everything one request does, from the decoded payload. */
  function Handle(data: map<string, Json>, authorized: string, render: Json -> string,
                  backend: Completion): Outcome
  {
    Respond(Get(data, "phone", Null), ExtractText(data, render), authorized, render, backend)
  }

  /** The messaging gateway, seen as the list of messages handed to it. */
  class Gateway {
    var sent: seq<Message>

    constructor ()
      ensures sent == []
    {
      sent := [];
    }

    /** `send_message(to, text)`: delivery itself is not modelled. */
    method SendMessage(to: Json, text: string)
      modifies this
      ensures sent == old(sent) + [Message(to, text)]
    {
      sent := sent + [Message(to, text)];
    }
  }

  /** The handler, step by step as main.py runs it: extraction, then the
      early returns, the handoff sends, and the reply with its fallback. */
  method Webhook(data: map<string, Json>, authorized: string, render: Json -> string,
                 backend: Completion, gateway: Gateway) returns (response: Response)
    modifies gateway
    ensures response == Handle(data, authorized, render, backend).response
    ensures gateway.sent == old(gateway.sent) + Handle(data, authorized, render, backend).sends
  {
    var phone := Get(data, "phone", Null);
    var text := ExtractText(data, render);
    response := Dispatch(phone, text, authorized, render, backend, gateway);
  }

  /** main.py:34-78 for a given sender and stripped text. */
  method Dispatch(phone: Json, text: string, authorized: string, render: Json -> string,
                  backend: Completion, gateway: Gateway) returns (response: Response)
    modifies gateway
    ensures response == Respond(phone, text, authorized, render, backend).response
    ensures gateway.sent == old(gateway.sent) + Respond(phone, text, authorized, render, backend).sends
  {
    if !Truthy(phone) || text == "" {
      return Invalid;
    }

    if !Admitted(phone, authorized) {
      return Ignored;
    }

    if MentionsHuman(text) {
      gateway.SendMessage(phone, HANDOFF_ACK);
      gateway.SendMessage(Str(authorized), HandoffNotice(phone, text, render));
      return HumanModeTriggered;
    }

    var reply: string;
    match backend {
      case Answered(content) => reply := content;
      case Failed => reply := APOLOGY;
    }
    gateway.SendMessage(phone, reply);
    return Ok(reply);
  }

  // ---------------------------------------------------------------------
  // Properties of one request.
  // ---------------------------------------------------------------------

  /** The number of messages each status comes with. */
  function SendCount(r: Response): nat
  {
    match r
    case Invalid => 0
    case Ignored => 0
    case HumanModeTriggered => 2
    case Ok(_) => 1
  }

  /** The four statuses are told apart by their `status` field alone. */
  lemma StatusesDistinct(r1: Response, r2: Response)
    requires Status(r1) == Status(r2)
    ensures r1.Invalid? == r2.Invalid? && r1.Ignored? == r2.Ignored?
    ensures r1.HumanModeTriggered? == r2.HumanModeTriggered? && r1.Ok? == r2.Ok?
  {
    assert "invalid"[0] == 'i' && "ignored"[1] == 'g' && "invalid"[1] == 'n';
  }

  /** Each status goes with a fixed number of messages. */
  lemma SendsPerStatus(phone: Json, text: string, authorized: string, render: Json -> string, backend: Completion)
    ensures var o := Respond(phone, text, authorized, render, backend);
            |o.sends| == SendCount(o.response)
  {
  }

  /** `invalid` exactly when the sender is missing or falsy or the text is
      empty, handoff words or not; then nothing is sent. */
  lemma InvalidIff(phone: Json, text: string, authorized: string, render: Json -> string, backend: Completion)
    ensures var o := Respond(phone, text, authorized, render, backend);
            (o.response == Invalid <==> !Truthy(phone) || text == "")
            && (o.response == Invalid ==> o.sends == [])
  {
  }

  /** `ignored` exactly when a valid request comes from a sender other than a
      configured authorized number; then nothing is sent. With no authorized
      number, nobody is ignored. */
  lemma IgnoredIff(phone: Json, text: string, authorized: string, render: Json -> string, backend: Completion)
    ensures var o := Respond(phone, text, authorized, render, backend);
            (o.response == Ignored <==>
               Truthy(phone) && text != "" && authorized != "" && phone != Str(authorized))
            && (o.response == Ignored ==> o.sends == [])
  {
  }

  /** The handoff happens exactly for an admitted, valid request whose text
      holds a handoff word. It sends the acknowledgement to the sender first,
      then a notice to the authorized number (even an empty one) naming the
      sender and quoting the text. */
  lemma HandoffSends(phone: Json, text: string, authorized: string, render: Json -> string, backend: Completion)
    ensures var o := Respond(phone, text, authorized, render, backend);
            o.response == HumanModeTriggered <==>
              Truthy(phone) && text != "" && Admitted(phone, authorized) && MentionsHuman(text)
    ensures var o := Respond(phone, text, authorized, render, backend);
            o.response == HumanModeTriggered ==>
              && |o.sends| == 2
              && o.sends[0] == Message(phone, HANDOFF_ACK)
              && o.sends[1].to == Str(authorized)
              && Contains(o.sends[1].text, Show(phone, render))
              && Contains(o.sends[1].text, text)
  {
    var shown := Show(phone, render);
    var head := "⚠️ Cliente ";
    var middle := " pediu atendimento humano: '";
    var notice := HandoffNotice(phone, text, render);
    assert notice == head + shown + (middle + text + "'");
    ContainsMiddle(head, shown, middle + text + "'");
    assert notice == (head + shown + middle) + text + "'";
    ContainsMiddle(head + shown + middle, text, "'");
  }

  /** The answering path: taken exactly by an admitted, valid request without
      handoff words; one message to the sender, carrying the backend's content
      or, on any failure, the apology; the response reports that same text. */
  lemma OkSendsReply(phone: Json, text: string, authorized: string, render: Json -> string, backend: Completion)
    ensures var o := Respond(phone, text, authorized, render, backend);
            o.response.Ok? <==>
              Truthy(phone) && text != "" && Admitted(phone, authorized) && !MentionsHuman(text)
    ensures var o := Respond(phone, text, authorized, render, backend);
            o.response.Ok? ==>
              && o.sends == [Message(phone, o.response.reply)]
              && o.response.reply == (if backend.Answered? then backend.content else APOLOGY)
  {
  }

  /** The backend is not consulted off the answering path: whatever it would
      have answered, every other request ends the same way. */
  lemma BackendOnlyWhenAnswering(phone: Json, text: string, authorized: string, render: Json -> string,
                                 b1: Completion, b2: Completion)
    requires !Respond(phone, text, authorized, render, b1).response.Ok?
    ensures Respond(phone, text, authorized, render, b1) == Respond(phone, text, authorized, render, b2)
  {
  }

  /** Every message goes either to the sender or, on a handoff, to the
      authorized number. */
  lemma RecipientsAreKnown(phone: Json, text: string, authorized: string, render: Json -> string, backend: Completion)
    ensures var o := Respond(phone, text, authorized, render, backend);
            forall i :: 0 <= i < |o.sends| ==>
              o.sends[i].to == phone
              || (o.response == HumanModeTriggered && o.sends[i].to == Str(authorized))
  {
  }

  /** An unknown sender asking for a human is ignored, and nothing is sent:
      the authorization check comes before the handoff words. */
  lemma UnauthorizedHandoffIgnored(other: string, before: string, after: string, authorized: string,
                                   render: Json -> string, backend: Completion)
    requires authorized != "" && other != "" && other != authorized
    ensures Respond(Str(other), before + "atendente" + after, authorized, render, backend) == Outcome(Ignored, [])
  {
    assert |before + "atendente" + after| >= 9;
  }

  // ---------------------------------------------------------------------
  // Payload shapes that main.py does not read.
  // ---------------------------------------------------------------------

  /** A top-level string `message` is not the text: with no top-level `text`
      the request is `invalid`, whatever the string says. */
  lemma StringMessageIsInvalid(phone: string, words: string, authorized: string,
                               render: Json -> string, backend: Completion)
    ensures Handle(map["phone" := Str(phone), "message" := Str(words)], authorized, render, backend)
            == Outcome(Invalid, [])
  {
    var data := map["phone" := Str(phone), "message" := Str(words)];
    assert "text" !in data && data["message"] == Str(words);
    TopLevelTextFallback(data, render);
    assert ExtractText(data, render) == "";
  }

  /** A `text` object carrying `message` is not read either: with no `message`
      key the extracted text is empty and the request is `invalid`. */
  lemma TextObjectIsInvalid(phone: string, words: string, authorized: string,
                            render: Json -> string, backend: Completion)
    ensures Handle(map["phone" := Str(phone), "text" := Obj(map["message" := Str(words)])],
                   authorized, render, backend)
            == Outcome(Invalid, [])
  {
    var data := map["phone" := Str(phone), "text" := Obj(map["message" := Str(words)])];
    assert "message" !in data;
    AbsentMessageIsEmpty(data, render);
    assert ExtractText(data, render) == "";
  }

  /** A top-level `body` is not read either: with no `message` key the
      extracted text is empty and the request is `invalid`. */
  lemma BodyIsInvalid(phone: string, words: string, authorized: string,
                      render: Json -> string, backend: Completion)
    ensures Handle(map["phone" := Str(phone), "body" := Str(words)], authorized, render, backend)
            == Outcome(Invalid, [])
  {
    var data := map["phone" := Str(phone), "body" := Str(words)];
    assert "message" !in data;
    AbsentMessageIsEmpty(data, render);
    assert ExtractText(data, render) == "";
  }

  // ---------------------------------------------------------------------
  // Whole requests.
  // ---------------------------------------------------------------------

  /** At payload level: an admitted request with a non-empty text and no
      handoff word gets the backend's reply, sent once to the sender. */
  lemma AnsweredWhenAdmitted(data: map<string, Json>, authorized: string, render: Json -> string,
                             backend: Completion)
    requires Truthy(Get(data, "phone", Null)) && Admitted(Get(data, "phone", Null), authorized)
    requires ExtractText(data, render) != "" && !MentionsHuman(ExtractText(data, render))
    ensures Handle(data, authorized, render, backend)
            == Outcome(Ok(Reply(backend)), [Message(Get(data, "phone", Null), Reply(backend))])
  {
  }

  /** An admitted sender whose text holds a handoff word is handed over. */
  lemma HandoffOutcome(phone: Json, text: string, authorized: string, render: Json -> string,
                       backend: Completion)
    requires Truthy(phone) && Admitted(phone, authorized) && MentionsHuman(text)
    ensures Respond(phone, text, authorized, render, backend)
            == Outcome(HumanModeTriggered,
                       [Message(phone, HANDOFF_ACK), Message(Str(authorized), HandoffNotice(phone, text, render))])
  {
    if |text| < 6 {
      ShortTextNoHandoff(text);
    }
  }

  /** At payload level: an admitted request whose text holds a handoff word is
      handed over, with the acknowledgement first and the notice second. */
  lemma HandedOffWhenAsked(data: map<string, Json>, authorized: string, render: Json -> string,
                           backend: Completion)
    requires Truthy(Get(data, "phone", Null)) && Admitted(Get(data, "phone", Null), authorized)
    requires MentionsHuman(ExtractText(data, render))
    ensures var phone := Get(data, "phone", Null);
            Handle(data, authorized, render, backend)
            == Outcome(HumanModeTriggered,
                       [Message(phone, HANDOFF_ACK),
                        Message(Str(authorized), HandoffNotice(phone, ExtractText(data, render), render))])
  {
    HandoffOutcome(Get(data, "phone", Null), ExtractText(data, render), authorized, render, backend);
  }

  /** The payload shape `{"phone": phone, "message": {"text": text}}`. */
  function MessageTextPayload(phone: string, text: string): map<string, Json>
  {
    map["phone" := Str(phone), "message" := Obj(map["text" := Str(text)])]
  }

  /** `message.text` surrounded by whitespace is read back without it. */
  lemma PaddedMessageText(phone: string, text: string, pad: string, render: Json -> string)
    requires Trimmed(text) && AllSpace(pad)
    ensures Get(MessageTextPayload(phone, pad + text + pad), "phone", Null) == Str(phone)
    ensures ExtractText(MessageTextPayload(phone, pad + text + pad), render) == text
  {
    var data := MessageTextPayload(phone, pad + text + pad);
    assert data["message"] == Obj(map["text" := Str(pad + text + pad)]);
    PaddedTextStripped(data, render, pad, text);
  }

  /** A short greeting such as "oi" in `message.text`, padded with whitespace,
      from any sender when no authorized number is set: it is stripped, takes
      the answering path, and the one message back carries the backend's
      content or the apology. */
  lemma GreetingIsAnswered(phone: string, greeting: string, pad: string,
                           render: Json -> string, backend: Completion)
    requires phone != "" && greeting != "" && |greeting| < 6 && Trimmed(greeting)
    requires AllSpace(pad)
    ensures Handle(MessageTextPayload(phone, pad + greeting + pad), "", render, backend)
            == Outcome(Ok(Reply(backend)), [Message(Str(phone), Reply(backend))])
  {
    PaddedMessageText(phone, greeting, pad, render);
    ShortTextNoHandoff(greeting);
    AnsweredWhenAdmitted(MessageTextPayload(phone, pad + greeting + pad), "", render, backend);
  }

  /** A request for an attendant, in any ASCII case and anywhere in the text,
      from the authorized number: the acknowledgement to the sender, then the
      notice to the same number. */
  lemma AttendantRequestHandedOff(phone: string, before: string, word: string, after: string,
                                  render: Json -> string, backend: Completion)
    requires phone != "" && Lower(word) == "atendente"
    requires Trimmed(before + word + after)
    ensures var text := before + word + after;
            Handle(MessageTextPayload(phone, text), phone, render, backend)
            == Outcome(HumanModeTriggered,
                       [Message(Str(phone), HANDOFF_ACK),
                        Message(Str(phone), HandoffNotice(Str(phone), text, render))])
  {
    var text := before + word + after;
    assert [] + text + [] == text;
    PaddedMessageText(phone, text, [], render);
    MentionsHumanAnywhere(before, word, after, 0);
    HandedOffWhenAsked(MessageTextPayload(phone, text), phone, render, backend);
  }
}
