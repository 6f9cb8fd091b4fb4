/** The prompt: a fixed instruction template with two slots, the retrieved
    context and the user's question, stripped after substitution. */
module Prompt {
  import opened Text

  /** The fixed refusal answer (`DEFAULT_NOINFO`). */
  const NoInfo: string := "Não tenho informações necessárias para responder sua pergunta."

  /** Template text between its opening newline and the `{contexto}` slot. */
  const Head: string := "CONTEXTO:\n"

  /** Template text from the `{contexto}` slot up to the quoted refusal in the rules. */
  const RulesLead: string :=
    "\n\nREGRAS:\n"
    + "- Responda somente com base no CONTEXTO.\n"
    + "- Se a informação não estiver explicitamente no CONTEXTO, responda:\n"
    + "  \""

  /** Template text after the first quoted refusal up to the `{pergunta}` slot. */
  const RulesRest: string :=
    "\"\n"
    + "- Nunca invente ou use conhecimento externo.\n"
    + "- Nunca produza opiniões ou interpretações além do que está escrito.\n"
    + "\n"
    + "EXEMPLOS DE PERGUNTAS FORA DO CONTEXTO:\n"
    + "Pergunta: \"Qual é a capital da França?\"\n"
    + "Resposta: \"" + NoInfo + "\"\n"
    + "\n"
    + "Pergunta: \"Quantos clientes temos em 2024?\"\n"
    + "Resposta: \"" + NoInfo + "\"\n"
    + "\n"
    + "Pergunta: \"Você acha isso bom ou ruim?\"\n"
    + "Resposta: \"" + NoInfo + "\"\n"
    + "\n"
    + "PERGUNTA DO USUÁRIO:\n"

  /** Template text between the two slots. */
  const BetweenSlots: string := RulesLead + NoInfo + RulesRest

  /** The closing instruction. */
  const Closing: string := "RESPONDA A \"PERGUNTA DO USUÁRIO\""

  /** Template text from the `{pergunta}` slot up to its closing newline. */
  const Tail: string := "\n\n" + Closing

  /** The template with both slots filled, between its opening and closing
      newline. */
  function Body(context: string, question: string): string {
    Head + context + BetweenSlots + question + Tail
  }

  /** `PROMPT_TEMPLATE.format(contexto=context, pergunta=question)`: the
      template starts and ends with a newline, and the substitution is a single
      pass, so braces inside either argument are left alone. */
  function Fill(context: string, question: string): string {
    "\n" + Body(context, question) + "\n"
  }

  /** The prompt sent to the model: the filled template, stripped. */
  function BuildPrompt(context: string, question: string): string {
    Strip(Fill(context, question))
  }

  /** Where the pieces of a five-piece concatenation sit. */
  lemma FivePieces(h: string, c: string, m: string, q: string, t: string)
    requires 0 < |h| && 0 < |t|
    ensures
      var s := h + c + m + q + t;
      && |s| == |h| + |c| + |m| + |q| + |t|
      && s[0] == h[0]
      && s[|s| - 1] == t[|t| - 1]
      && s[..|h|] == h
      && s[|h|..|h| + |c|] == c
      && s[|h| + |c|..|h| + |c| + |m|] == m
      && s[|h| + |c| + |m|..|h| + |c| + |m| + |q|] == q
      && s[|s| - |t|..] == t
  {
    var s := h + c + m + q + t;
    assert forall i :: 0 <= i < |m| ==> s[|h| + |c| + i] == m[i];
  }

  /** The middle piece of a three-piece middle, at its offset. */
  lemma MiddleOfMiddle(h: string, c: string, l: string, n: string, r: string, q: string, t: string)
    ensures
      var s := h + c + (l + n + r) + q + t;
      var at := |h| + |c| + |l|;
      at + |n| <= |s| && s[at..at + |n|] == n
  {
    var s := h + c + (l + n + r) + q + t;
    var at := |h| + |c| + |l|;
    assert forall i :: 0 <= i < |n| ==> s[at + i] == n[i];
  }

  /** Stripping removes only the template's own leading and trailing newline:
      the prompt begins with `CONTEXTO:`, carries the context and the question
      verbatim, and ends with the closing instruction, whatever the context
      and question hold. */
  lemma BuildPromptShape(context: string, question: string)
    ensures BuildPrompt(context, question) == Head + context + BetweenSlots + question + Tail
  {
    var body := Body(context, question);
    FivePieces(Head, context, BetweenSlots, question, Tail);
    assert Head[0] == 'C';
    assert Tail[|Tail| - 1] == '"';
    StripSurrounded("\n", body, "\n");
  }

  /** The prompt quotes the refusal answer verbatim in its rules, right after
      the context, so the model is told the exact text to give. */
  lemma PromptQuotesRefusal(context: string, question: string)
    ensures
      var p := BuildPrompt(context, question);
      var at := |Head| + |context| + |RulesLead|;
      at + |NoInfo| <= |p| && p[at..at + |NoInfo|] == NoInfo
  {
    BuildPromptShape(context, question);
    MiddleOfMiddle(Head, context, RulesLead, NoInfo, RulesRest, question, Tail);
  }

  /** The context sits right after `CONTEXTO:\n` and the question right
      after the rules and examples, which are the same for every prompt. */
  lemma PromptHoldsContextAndQuestion(context: string, question: string)
    ensures
      var p := BuildPrompt(context, question);
      var q0 := |Head| + |context| + |BetweenSlots|;
      && q0 + |question| + |Tail| == |p|
      && p[|Head|..|Head| + |context|] == context
      && p[|Head| + |context|..q0] == BetweenSlots
      && p[q0..q0 + |question|] == question
  {
    BuildPromptShape(context, question);
    FivePieces(Head, context, BetweenSlots, question, Tail);
  }

  /** The first and last pieces of a concatenation ending in a blank line
      and a closing piece. */
  lemma FirstAndLast(s: string, h: string, c: string, m: string, q: string, cl: string)
    requires s == h + c + m + q + ("\n\n" + cl)
    ensures |h| + |cl| <= |s|
    ensures s[..|h|] == h
    ensures s[|s| - |cl|..] == cl
  {
    assert forall i :: 0 <= i < |cl| ==> s[|s| - |cl| + i] == cl[i];
  }

  /** The prompt begins with `CONTEXTO:` and ends with the closing instruction. */
  lemma PromptEnds(context: string, question: string)
    ensures
      var p := BuildPrompt(context, question);
      && |Head| + |Closing| <= |p|
      && p[..|Head|] == Head
      && p[|p| - |Closing|..] == Closing
  {
    BuildPromptShape(context, question);
    FirstAndLast(BuildPrompt(context, question), Head, context, BetweenSlots, question, Closing);
  }
}
