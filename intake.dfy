/** Reduction of the webhook payload to one trimmed message text
    (main.py:7-29). */
module Intake {
  import opened Values
  import opened PyText

  /** The value left in `text` by the chain of shape checks, before it is
      coerced to a string. `data.get("message", {})` makes an absent
      `message` look like an empty object, so the top-level `text` is read
      only when `message` is present and is not an object. */
  function RawText(data: map<string, Json>): Json
  {
    var message := Get(data, "message", Obj(map[]));
    if message.Obj? then
      var m := message.fields;
      if "text" in m then m["text"]
      else if "content" in m && m["content"].Obj? then Get(m["content"].fields, "body", Str(""))
      else if "message" in m && m["message"].Str? then m["message"]
      else Str("")
    else if "text" in data then data["text"]
    else Str("")
  }

  /** The message text: the raw value, passed through `str()` when it is not
      a string, then stripped. It never starts or ends with whitespace. */
  function ExtractText(data: map<string, Json>, render: Json -> string): (text: string)
    ensures Trimmed(text)
  {
    Strip(Show(RawText(data), render))
  }

  /** What Python's `str()` gives for a value that is not a string (`None`,
      `True`, `42`, a list, a dict): a non-empty text with no whitespace at
      either end. */
  ghost predicate RendersLikePython(render: Json -> string)
  {
    forall j: Json :: !j.Str? ==> render(j) != "" && Trimmed(render(j))
  }

  /** With such a rendering, a non-string value at the chosen location is kept
      as its rendering, so it never leaves the text empty (for example
      `{"message": {"text": null}}` gives "None"). */
  lemma NonStringTextKept(data: map<string, Json>, render: Json -> string)
    requires RendersLikePython(render)
    requires !RawText(data).Str?
    ensures ExtractText(data, render) == render(RawText(data))
    ensures ExtractText(data, render) != ""
  {
    var r := render(RawText(data));
    assert [] + r + [] == r;
    StripUnique([], r, []);
  }

  // ---------------------------------------------------------------------
  // An independent reading of the same rules: a list of payload locations,
  // each judged on its own, tried in order, the first that applies wins.
  // ---------------------------------------------------------------------

  datatype Option<T> = None | Some(value: T)

  /** The places the handler looks for the text. */
  datatype Location =
    | MessageText          // {"message": {"text": v}}
    | MessageContentBody   // {"message": {"content": {"body": v}}}, body defaulting to ""
    | MessageMessage       // {"message": {"message": "v"}}
    | TopLevelText         // {"message": <not an object>, "text": v}

  /** What one location yields for `data`, regardless of the others. */
  function Probe(loc: Location, data: map<string, Json>): Option<Json>
  {
    match loc
    case MessageText =>
      if "message" !in data then None
      else if data["message"].Obj? && "text" in data["message"].fields then Some(data["message"].fields["text"])
      else None
    case MessageContentBody =>
      if "message" !in data || !data["message"].Obj? then None
      else if "content" in data["message"].fields && data["message"].fields["content"].Obj? then
        Some(Get(data["message"].fields["content"].fields, "body", Str("")))
      else None
    case MessageMessage =>
      if "message" !in data || !data["message"].Obj? then None
      else if "message" in data["message"].fields && data["message"].fields["message"].Str? then
        Some(data["message"].fields["message"])
      else None
    case TopLevelText =>
      if "message" in data && !data["message"].Obj? && "text" in data then Some(data["text"]) else None
  }

  /** The order the handler tries the locations in. */
  const PRECEDENCE: seq<Location> := [MessageText, MessageContentBody, MessageMessage, TopLevelText]

  /** The value of the first location that applies, or the empty string. */
  function FirstMatch(locs: seq<Location>, data: map<string, Json>): Json
  {
    if locs == [] then Str("")
    else match Probe(locs[0], data)
      case Some(v) => v
      case None => FirstMatch(locs[1..], data)
  }

  /** First match wins: the location at index `k` decides when it applies and
      no earlier one does. */
  lemma {:induction false} FirstMatchPicksFirst(locs: seq<Location>, data: map<string, Json>, k: nat)
    requires k < |locs| && Probe(locs[k], data).Some?
    requires forall j :: 0 <= j < k ==> Probe(locs[j], data).None?
    ensures FirstMatch(locs, data) == Probe(locs[k], data).value
  {
    if k > 0 {
      assert Probe(locs[0], data).None?;
      FirstMatchPicksFirst(locs[1..], data, k - 1);
    }
  }

  /** When no location applies the text is empty. */
  lemma {:induction false} FirstMatchDefault(locs: seq<Location>, data: map<string, Json>)
    requires forall j :: 0 <= j < |locs| ==> Probe(locs[j], data).None?
    ensures FirstMatch(locs, data) == Str("")
  {
    if locs != [] {
      assert Probe(locs[0], data).None?;
      FirstMatchDefault(locs[1..], data);
    }
  }

  /** The nested conditionals of the handler and the ordered location list
      agree on every payload. */
  lemma RawTextIsFirstMatch(data: map<string, Json>)
    ensures RawText(data) == FirstMatch(PRECEDENCE, data)
  {
    var p := PRECEDENCE;
    if Probe(p[0], data).Some? {
      FirstMatchPicksFirst(p, data, 0);
    } else if Probe(p[1], data).Some? {
      FirstMatchPicksFirst(p, data, 1);
    } else if Probe(p[2], data).Some? {
      FirstMatchPicksFirst(p, data, 2);
    } else if Probe(p[3], data).Some? {
      FirstMatchPicksFirst(p, data, 3);
    } else {
      FirstMatchDefault(p, data);
    }
  }

  // ---------------------------------------------------------------------
  // The precedence, case by case.
  // ---------------------------------------------------------------------

  /** `message.text` wins whatever else the message object holds. */
  lemma MessageTextWins(data: map<string, Json>, render: Json -> string)
    requires "message" in data && data["message"].Obj?
    requires "text" in data["message"].fields
    ensures ExtractText(data, render) == Strip(Show(data["message"].fields["text"], render))
  {
  }

  /** A trimmed `message.text` padded with whitespace is read back without
      the padding. */
  lemma PaddedTextStripped(data: map<string, Json>, render: Json -> string, pad: string, text: string)
    requires "message" in data && data["message"].Obj?
    requires "text" in data["message"].fields && data["message"].fields["text"] == Str(pad + text + pad)
    requires Trimmed(text) && AllSpace(pad)
    ensures ExtractText(data, render) == text
  {
    MessageTextWins(data, render);
    StripUnique(pad, text, pad);
  }

  /** Without `message.text`, an object `message.content` gives its `body`,
      or the empty string when it has none. */
  lemma ContentBodyNext(data: map<string, Json>, render: Json -> string)
    requires "message" in data && data["message"].Obj?
    requires "text" !in data["message"].fields
    requires "content" in data["message"].fields && data["message"].fields["content"].Obj?
    ensures var content := data["message"].fields["content"].fields;
            ExtractText(data, render) ==
              if "body" in content then Strip(Show(content["body"], render)) else ""
  {
  }

  /** Next comes `message.message`, and only when it is a string. */
  lemma NestedMessageNext(data: map<string, Json>, render: Json -> string)
    requires "message" in data && data["message"].Obj?
    requires "text" !in data["message"].fields
    requires !("content" in data["message"].fields && data["message"].fields["content"].Obj?)
    requires "message" in data["message"].fields && data["message"].fields["message"].Str?
    ensures ExtractText(data, render) == Strip(data["message"].fields["message"].s)
  {
  }

  /** A message object that matches none of its three shapes gives empty text,
      even when the payload has a top-level `text`. */
  lemma UnmatchedObjectIsEmpty(data: map<string, Json>, render: Json -> string)
    requires "message" in data && data["message"].Obj?
    requires "text" !in data["message"].fields
    requires !("content" in data["message"].fields && data["message"].fields["content"].Obj?)
    requires !("message" in data["message"].fields && data["message"].fields["message"].Str?)
    ensures ExtractText(data, render) == ""
  {
  }

  /** Without a `message` key the text is empty: the top-level `text` is never
      consulted in that case. */
  lemma AbsentMessageIsEmpty(data: map<string, Json>, render: Json -> string)
    requires "message" !in data
    ensures ExtractText(data, render) == ""
  {
  }

  /** A `message` that is present but not an object hands over to the
      top-level `text`; the value of `message` itself is never the text. */
  lemma TopLevelTextFallback(data: map<string, Json>, render: Json -> string)
    requires "message" in data && !data["message"].Obj?
    ensures ExtractText(data, render) == if "text" in data then Strip(Show(data["text"], render)) else ""
  {
  }

  /** Replacing one non-object `message` by another leaves the text unchanged. */
  lemma NonObjectMessageIgnored(data: map<string, Json>, m1: Json, m2: Json, render: Json -> string)
    requires !m1.Obj? && !m2.Obj?
    ensures ExtractText(data["message" := m1], render) == ExtractText(data["message" := m2], render)
  {
  }
}
