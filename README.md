# bot-island webhook, modelled in Dafny

`main.py` of bot-island is a single FastAPI handler, `webhook`. It sits between a
WhatsApp-style messaging gateway and a chat-completion backend (Groq). For each
inbound request it does four things:

1. It reduces the decoded JSON payload to a sender (`phone`) and one stripped
   message text. A short chain of shape checks decides where the text comes from.
2. It rejects the request as `invalid` when the sender or the text is empty.
3. It answers `ignored` when an authorized number is configured and the sender is
   someone else.
4. When the lower-cased text contains `atendente`, `pessoa` or `humano`, it hands
   the conversation to a human (`human_mode_triggered`). Otherwise it asks the
   backend for a reply, sends that reply (or a fixed apology when the backend
   fails) and returns `ok`.

The model has five modules, one file each:

- `values.dfy` (`Values`): the decoded JSON value `Json`, Python truthiness,
  `dict.get`, and `str()`. For a non-string value, `str()` is a parameter
  `render: Json -> string`.
- `pytext.dfy` (`PyText`): `str.strip()` over Python's exact whitespace set,
  `str.lower()` on ASCII letters, and the substring test `w in s`. Each comes
  with its characterisation: `strip` keeps exactly the trimmed core, and `in`
  holds exactly when there is an occurrence.
- `intake.dfy` (`Intake`): text extraction (`RawText`, `ExtractText`), checked
  against an independent rule list. That list names the payload locations, judges
  each one on its own, and lets the first one that applies win (`Probe`,
  `FirstMatch`).
- `routing.dfy` (`Routing`): the first-match decision `Route` and the handoff-word
  test `MentionsHuman`.
- `handler.dfy` (`Handler`): the whole request as a function `Handle`, which
  returns the response and the ordered list of messages sent. It also holds an
  imperative `Webhook` method over a `Gateway` object, whose outbox `sent` grows
  with each `send_message`. `Webhook` is proved to send exactly what `Handle` says.

The backend call is an abstract outcome, `Answered(content) | Failed`. Sending is
recorded as a `Message(to, text)` appended to the outbox.

Other revisions of this bot read more payload shapes: `text.message`, a top-level
string `message`, and `body`. They also drop the bot's own echoed messages.
`main.py` does none of this, and the model follows `main.py`. Three lemmas,
`StringMessageIsInvalid`, `TextObjectIsInvalid` and `BodyIsInvalid`, prove that
payloads of those three shapes come out `invalid`. The echo guard simply is not
there: every message is routed the same way whoever sent it. Because `data.get("message", {})` gives an empty dict when
`message` is absent, the top-level `text` is read only when `message` is present
and is not an object (`AbsentMessageIsEmpty`, `TopLevelTextFallback`).

## Model

| member | source | states |
|---|---|---|
| `PyText.Strip` | main.py:29 | the stripped text never starts or ends with whitespace, and is no longer than its input |
| `PyText.TrimStart` | main.py:29 | the result is a suffix of the input, everything dropped in front is whitespace, and the result does not start with whitespace |
| `PyText.TrimEnd` | main.py:29 | the result is a prefix of the input, everything dropped at the end is whitespace, and the result does not end with whitespace |
| `PyText.StripUnique` | main.py:29 | a trimmed string surrounded by whitespace on both sides is exactly what `strip()` returns |
| `PyText.StripSplits` | main.py:29 | every input is leading whitespace, then the stripped text, then trailing whitespace |
| `PyText.StripIdempotent` | main.py:29 | stripping twice is the same as stripping once |
| `PyText.Contains` | main.py:44 | `w in s` holds exactly when `w` occurs at some index of `s` |
| `PyText.ContainsMiddle` | main.py:44 | a string occurs in any text built around it |
| `PyText.LowerIdempotent` | main.py:44 | lower-casing twice is the same as lower-casing once |
| `Intake.ExtractText` | main.py:7-29 | the extracted text, after `str()` coercion and `strip()`, never has leading or trailing whitespace |
| `Intake.RawTextIsFirstMatch` | main.py:8-25 | the handler's nested checks equal the ordered rule list `message.text`, then `message.content.body`, then `message.message`, then the top-level `text` (empty string when none applies) |
| `Intake.FirstMatchPicksFirst` | main.py:10-25 | the first location that applies decides the text, whatever later locations hold |
| `Intake.FirstMatchDefault` | main.py:7 | when no location applies, the text is the initial empty string |
| `Intake.MessageTextWins` | main.py:10-13 | with `message` an object holding `text`, the result is that value coerced and stripped, whatever other keys there are |
| `Intake.PaddedTextStripped` | main.py:10-29 | a trimmed `message.text` surrounded by whitespace is read back exactly, without the whitespace |
| `Intake.NonStringTextKept` | main.py:28-29 | when `str()` of a non-string value is non-empty and unpadded, as Python's is, a non-string text value (such as `null`) becomes its rendering and never leaves the text empty |
| `Intake.ContentBodyNext` | main.py:15-17 | without `message.text`, an object `message.content` gives its `body` coerced and stripped, or empty text when `body` is missing |
| `Intake.NestedMessageNext` | main.py:19-21 | next, a string `message.message` gives the text, stripped |
| `Intake.UnmatchedObjectIsEmpty` | main.py:10-21 | a `message` object matching none of its three shapes gives empty text, even when a top-level `text` exists |
| `Intake.AbsentMessageIsEmpty` | main.py:8 | with no `message` key the text is empty: the top-level `text` is never consulted |
| `Intake.TopLevelTextFallback` | main.py:23-25 | a present, non-object `message` hands over to the top-level `text` (coerced and stripped), or to empty text when there is none |
| `Intake.NonObjectMessageIgnored` | main.py:23-25 | the value of a non-object `message` (for example a plain string) never affects the text |
| `Routing.OnlyAdmittedGetThrough` | main.py:34-41 | a request reaches the handoff or reply step exactly when sender and text are non-empty and the sender is admitted; with no authorized number, nobody is refused |
| `Routing.HandoffIffWords` | main.py:44-47 | among admitted, well-formed requests, handoff happens exactly when a handoff word is present, and the reply path is taken otherwise |
| `Routing.MentionsHumanIgnoresCase` | main.py:44 | the handoff-word test gives the same answer on the lower-cased text |
| `Routing.MentionsHumanAnywhere` | main.py:44 | a handoff word in any ASCII case, anywhere in the text and even glued to other letters, triggers the handoff |
| `Routing.ShortTextNoHandoff` | main.py:44 | a text shorter than six characters never triggers the handoff |
| `Routing.HumanoidTriggers` | main.py:44 | "Sou um HUMANOide" triggers the handoff (substring match, not word match) |
| `Handler.StatusesDistinct` | main.py:36-78 | the four `status` strings are pairwise different, so the status field alone identifies the outcome |
| `Handler.SendsPerStatus` | main.py:34-78 | `invalid` and `ignored` send nothing, `human_mode_triggered` sends two messages, `ok` sends one |
| `Handler.InvalidIff` | main.py:34-36 | `invalid` exactly when the sender is missing or falsy or the text is empty, handoff words or not; nothing is sent |
| `Handler.IgnoredIff` | main.py:39-41 | `ignored` exactly when a valid request comes from a sender other than a configured authorized number; nothing is sent |
| `Handler.HandoffSends` | main.py:44-47 | handoff exactly for admitted, valid requests with a handoff word; then exactly two messages: first the acknowledgement to the sender, then a notice to the authorized number (even when it is empty) that contains the sender and the text |
| `Handler.OkSendsReply` | main.py:63-78 | the `ok` path is taken exactly by admitted, valid requests without handoff words; then exactly one message goes to the sender, it carries the backend's content (or the apology on failure), and the response's `reply` is that same text |
| `Handler.BackendOnlyWhenAnswering` | main.py:34-78 | off the `ok` path the backend's outcome changes nothing: the response and the sends are the same whatever it would have answered |
| `Handler.RecipientsAreKnown` | main.py:45-46 | every message goes to the sender, except the handoff notice, which goes to the authorized number |
| `Handler.UnauthorizedHandoffIgnored` | main.py:39-47 | an unauthorized sender whose text contains "atendente" is still `ignored` and nothing is sent: authorization is checked before the handoff words |
| `Handler.AnsweredWhenAdmitted` | main.py:4-78 | for any payload with an admitted sender, a non-empty text and no handoff word: status `ok` with the backend reply, sent once to the sender |
| `Handler.HandoffOutcome` | main.py:44-47 | an admitted, truthy sender whose text holds a handoff word gets `human_mode_triggered`, the acknowledgement to the sender and then the notice to the authorized number |
| `Handler.HandedOffWhenAsked` | main.py:4-47 | for any payload with an admitted sender whose text holds a handoff word: status `human_mode_triggered`, with the acknowledgement sent first and the notice second |
| `Handler.PaddedMessageText` | main.py:10-29 | a trimmed `message.text` padded with whitespace is read back without the padding, and `phone` is read as the sender |
| `Handler.GreetingIsAnswered` | main.py:4-78 | a short greeting in `message.text`, with no authorized number set, is answered with one message to the sender |
| `Handler.AttendantRequestHandedOff` | main.py:4-47 | a request for an "atendente", in any ASCII case, from the authorized number gets the acknowledgement and then the notice to that same number |
| `Handler.StringMessageIsInvalid` | main.py:8-25 | a top-level string `message` with no top-level `text` gives `invalid` and no sends, whatever the string says |
| `Handler.TextObjectIsInvalid` | main.py:8-25 | a `{"text": {"message": ...}}` payload without `message` gives `invalid` and no sends |
| `Handler.BodyIsInvalid` | main.py:8-25 | a top-level `body` without `message` gives `invalid` and no sends |
| `Handler.Webhook` | main.py:1-78 | the imperative handler returns the response `Handle` describes and appends exactly `Handle`'s messages, in order, to the gateway's outbox |
| `Handler.Dispatch` | main.py:34-78 | the early returns, the handoff sends and the reply with its fallback return `Respond`'s response and append exactly its messages, in order |
| `Handler.Gateway.SendMessage` | main.py:45-46 | one `send_message` appends one message to the outbox and changes nothing else |

## Left out

- FastAPI routing, `async`, and the decoding of the request body (main.py:1-3). The model takes the decoded body. It must be a JSON object (`map<string, Json>`): any other body makes `data.get` raise, so the request fails before anything is sent.
- The `print` logging (main.py:32, 35, 40, 72, 74).
- The Groq request itself (main.py:50-71): headers, payload, `requests.post`, the 30-second timeout, `raise_for_status`, and indexing into the response. The model has only its outcome, `Answered(content)` or `Failed`. A failure covers every exception the `except` catches. Content that is not a string is not modelled.
- `send_message` is not part of this model. A send is recorded as an outbox entry, and delivery and its failures are not modelled.
- Python's `str()` of non-string values (main.py:28, and the sender in the notice at main.py:46) is the parameter `render`. The model does not fix its output in general. `Intake.RendersLikePython` states what Python guarantees (non-empty, no whitespace at either end), and `Intake.NonStringTextKept` assumes it. The other lemmas hold for every `render`.
- `PyText.Lower` only lowers the ASCII letters, while Python's `str.lower()` also lowers other letters. This should not change the handoff decision: all three keywords are lower-case ASCII, and (as far as we know Unicode's case mappings) no non-ASCII character lowercases to one of their letters. This argument is not proved.
- `AUTHORIZED_NUMBER` comes from the process environment. It is modelled as a string, with the empty string meaning "unset". A Python `None` would behave the same in the check, but would be a different recipient for the notice.
- JSON floats are modelled as exact reals, so NaN and infinities are not modelled. Object key order is lost; only `str()` could observe it.
- Concurrency between requests: the handler keeps no state across requests.
