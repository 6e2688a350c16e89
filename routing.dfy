/** The decision the handler takes once it has a sender and a text
    (main.py:34-47): first match wins. */
module Routing {
  import opened Values
  import opened PyText

  /** Words that ask for a human attendant, matched as substrings of the
      lower-cased text. */
  const HANDOFF_WORDS: seq<string> := ["atendente", "pessoa", "humano"]

  /** `any(word in text.lower() for word in HANDOFF_WORDS)`. */
  predicate MentionsHuman(text: string)
  {
    exists k | 0 <= k < |HANDOFF_WORDS| :: Contains(Lower(text), HANDOFF_WORDS[k])
  }

  /** An unset authorized number (the empty string) lets every sender in;
      otherwise only the sender equal to it. A sender that is not a JSON
      string never equals the configured number. */
  predicate Admitted(phone: Json, authorized: string)
  {
    authorized == "" || phone == Str(authorized)
  }

  datatype Decision = Malformed | Unauthorized | HumanHandoff | AutoReply

  function Route(phone: Json, text: string, authorized: string): Decision
  {
    if !Truthy(phone) || text == "" then Malformed
    else if !Admitted(phone, authorized) then Unauthorized
    else if MentionsHuman(text) then HumanHandoff
    else AutoReply
  }

  /** Every request that reaches the handoff check or the backend comes from an
      admitted sender with a non-empty sender and text; with no authorized
      number configured nobody is refused. */
  lemma OnlyAdmittedGetThrough(phone: Json, text: string, authorized: string)
    ensures Route(phone, text, authorized) in {HumanHandoff, AutoReply} <==>
              Truthy(phone) && text != "" && Admitted(phone, authorized)
    ensures authorized == "" ==> Route(phone, text, authorized) != Unauthorized
  {
  }

  /** Among admitted, well-formed requests the handoff words alone decide
      between handing over and answering. */
  lemma HandoffIffWords(phone: Json, text: string, authorized: string)
    requires Truthy(phone) && text != "" && Admitted(phone, authorized)
    ensures Route(phone, text, authorized) == HumanHandoff <==> MentionsHuman(text)
    ensures Route(phone, text, authorized) == AutoReply <==> !MentionsHuman(text)
  {
  }

  /** The match ignores case. */
  lemma MentionsHumanIgnoresCase(text: string)
    ensures MentionsHuman(Lower(text)) == MentionsHuman(text)
  {
    LowerIdempotent(text);
  }

  /** The match is on substrings, not words: any text holding a handoff word,
      in any mix of ASCII case and glued to other letters, triggers it. */
  lemma MentionsHumanAnywhere(before: string, word: string, after: string, k: nat)
    requires k < |HANDOFF_WORDS| && Lower(word) == HANDOFF_WORDS[k]
    ensures MentionsHuman(before + word + after)
  {
    LowerConcat(before + word, after);
    LowerConcat(before, word);
    ContainsMiddle(Lower(before), HANDOFF_WORDS[k], Lower(after));
  }

  /** A text shorter than the shortest handoff word ("pessoa", "humano") never
      triggers the handoff. */
  lemma ShortTextNoHandoff(text: string)
    requires |text| < 6
    ensures !MentionsHuman(text)
  {
    forall k | 0 <= k < |HANDOFF_WORDS|
      ensures !Contains(Lower(text), HANDOFF_WORDS[k])
    {
      assert |HANDOFF_WORDS[k]| >= 6;
    }
  }

  /** "humanoid" triggers the handoff too, since the test is on substrings. */
  lemma HumanoidTriggers()
    ensures MentionsHuman("Sou um HUMANOide")
  {
    assert "Sou um HUMANOide" == "Sou um " + "HUMANO" + "ide";
    assert Lower("HUMANO") == "humano";
    MentionsHumanAnywhere("Sou um ", "HUMANO", "ide", 2);
  }
}
