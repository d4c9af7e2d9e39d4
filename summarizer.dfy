/** The prompt-building half of `summarize_text`: template table, selection and filling. */
module Summarizer {
  import opened Text

  /** The one insertion point of every template. */
  const Slot: string := "{text}"

  /**
   * The verbosity labels mapped to their prompt templates. Each template is the
   * source's string, written as concatenated pieces short enough for the verifier
   * to inspect character by character.
   */
  const PromptTemplates: map<string, string> := map[
    "Very Short" := "Summarize this financial news " + "article in 1 sentence:\n{text}",
    "Short" := "Summarize this financial news " + "article briefly in 2-3 sentences:\n{text}",
    "Medium" := "Provide a concise summary of this " + "financial news article in 4-5 " + "sentences:\n{text}",
    "Long" := "Write a detailed summary of this " + "financial news article:\n{text}"
  ]

  /** The verbosity used when the caller gives none. */
  const DefaultLabel: string := "Short"

  /**
   * Formatting a template: each occurrence of `{text}` is replaced by `value`,
   * scanning left to right; the inserted value itself is not scanned again.
   */
  function Fill(template: string, value: string): string
    decreases |template|
  {
    if |template| < |Slot| then template
    else if template[..|Slot|] == Slot then value + Fill(template[|Slot|..], value)
    else [template[0]] + Fill(template[1..], value)
  }

  /** A string without an opening brace; such text passes through formatting unchanged. */
  predicate Plain(s: string) {
    '{' !in s
  }

  /** `template` is an instruction without `{`, then a newline, then the slot. */
  predicate SlotLast(template: string) {
    && |template| > |Slot|
    && template[|template| - |Slot| - 1..] == "\n" + Slot
    && Plain(template[..|template| - |Slot| - 1])
  }

  /** The fixed instruction of a template: everything before its final newline and slot. */
  function Instruction(lengthLabel: string): (instruction: string)
    requires lengthLabel in PromptTemplates
    ensures PromptTemplates[lengthLabel] == instruction + "\n" + Slot
    ensures Plain(instruction)
  {
    TemplateShape(lengthLabel);
    var t := PromptTemplates[lengthLabel];
    assert t == t[..|t| - |Slot| - 1] + t[|t| - |Slot| - 1..];
    t[..|t| - |Slot| - 1]
  }

  /**
   * The prompt handed to the language model for `text` at the given verbosity.
   * An unknown label raises `KeyError` in the source; here it is excluded by the
   * precondition, as the label only ever comes from the four-option selector.
   */
  function SummaryPrompt(text: string, lengthLabel: string := DefaultLabel): (prompt: string)
    requires lengthLabel in PromptTemplates
    ensures prompt == Instruction(lengthLabel) + "\n" + text
  {
    FillPlainPrefix(Instruction(lengthLabel) + "\n", Slot, text);
    FillSlot(text);
    Fill(PromptTemplates[lengthLabel], text)
  }

  /** A prefix without `{` is copied verbatim and formatting continues after it. */
  lemma {:induction false} FillPlainPrefix(p: string, rest: string, value: string)
    requires Plain(p)
    ensures Fill(p + rest, value) == p + Fill(rest, value)
    decreases |p|
  {
    if p == [] {
      assert p + rest == rest;
    } else {
      var t := p + rest;
      assert t[0] == p[0] && p[0] != '{';
      assert t[1..] == p[1..] + rest;
      FillPlainPrefix(p[1..], rest, value);
      if |t| >= |Slot| {
        assert t[..|Slot|] != Slot by { assert t[..|Slot|][0] == t[0]; }
        assert Fill(t, value) == [p[0]] + Fill(t[1..], value);
      } else {
        assert |rest| < |Slot|;
        assert Fill(t, value) == t;
      }
      assert [p[0]] + p[1..] == p;
    }
  }

  /** The slot on its own formats to the value. */
  lemma FillSlot(value: string)
    ensures Fill(Slot, value) == value
  {
    assert Slot[..|Slot|] == Slot;
    assert Slot[|Slot|..] == [];
  }

  /** A string without `{` contains no slot. */
  lemma {:induction false} PlainHasNoSlot(p: string)
    requires Plain(p)
    ensures Occurrences(p, Slot) == 0
    decreases |p|
  {
    if p != [] {
      assert p[0] != Slot[0];
      PlainHasNoSlot(p[1..]);
    }
  }

  /** A prefix without `{` adds no occurrences of the slot. */
  lemma {:induction false} OccurrencesAfterPlain(p: string, rest: string)
    requires Plain(p)
    ensures Occurrences(p + rest, Slot) == Occurrences(rest, Slot)
    decreases |p|
  {
    if p != [] {
      assert (p + rest)[0] != Slot[0];
      assert (p + rest)[1..] == p[1..] + rest;
      OccurrencesAfterPlain(p[1..], rest);
    } else {
      assert p + rest == rest;
    }
  }

  /** An instruction without `{`, in two pieces, a newline and the slot form a well-shaped template. */
  lemma {:induction false} SlotLastOf(a: string, b: string)
    requires Plain(a) && Plain(b)
    ensures SlotLast(a + b + "\n" + Slot)
  {
    var t := a + b + "\n" + Slot;
    assert t[..|t| - |Slot| - 1] == a + b;
    assert t[|t| - |Slot| - 1..] == "\n" + Slot;
  }

  /** Every template ends in a newline and the slot, after an instruction without `{`. */
  lemma TemplateShape(lengthLabel: string)
    requires lengthLabel in PromptTemplates
    ensures SlotLast(PromptTemplates[lengthLabel])
  {
    if lengthLabel == "Very Short" {
      VeryShortShape();
    } else if lengthLabel == "Short" {
      ShortShape();
    } else if lengthLabel == "Medium" {
      MediumShape();
    } else {
      LongShape();
    }
  }

  /** The "Very Short" template split into pieces without `{`. */
  lemma VeryShortShape()
    ensures SlotLast(PromptTemplates["Very Short"])
  {
    var a, b := "Summarize this financial news ", "article in 1 sentence:";
    assert "article in 1 sentence:\n{text}" == b + "\n" + Slot;
    assert PromptTemplates["Very Short"] == a + b + "\n" + Slot;
    SlotLastOf(a, b);
  }

  /** The "Short" template split into pieces without `{`. */
  lemma ShortShape()
    ensures SlotLast(PromptTemplates["Short"])
  {
    var a, b := "Summarize this financial news ", "article briefly in 2-3 sentences:";
    assert "article briefly in 2-3 sentences:\n{text}" == b + "\n" + Slot;
    assert PromptTemplates["Short"] == a + b + "\n" + Slot;
    SlotLastOf(a, b);
  }

  /** The "Medium" template split into pieces without `{`. */
  lemma MediumShape()
    ensures SlotLast(PromptTemplates["Medium"])
  {
    var a, b, c := "Provide a concise summary of this ", "financial news article in 4-5 ", "sentences:";
    assert "sentences:\n{text}" == c + "\n" + Slot;
    assert PromptTemplates["Medium"] == a + (b + c) + "\n" + Slot;
    assert Plain(b + c);
    SlotLastOf(a, b + c);
  }

  /** The "Long" template split into pieces without `{`. */
  lemma LongShape()
    ensures SlotLast(PromptTemplates["Long"])
  {
    var a, b := "Write a detailed summary of this ", "financial news article:";
    assert "financial news article:\n{text}" == b + "\n" + Slot;
    assert PromptTemplates["Long"] == a + b + "\n" + Slot;
    SlotLastOf(a, b);
  }

  /** The table covers exactly the four verbosity labels; the default is one of them. */
  lemma TableDomain()
    ensures PromptTemplates.Keys == {"Very Short", "Short", "Medium", "Long"}
    ensures DefaultLabel in PromptTemplates
  {
  }

  /** No two labels share a template. */
  lemma TemplatesDistinct(a: string, b: string)
    requires a in PromptTemplates && b in PromptTemplates && a != b
    ensures PromptTemplates[a] != PromptTemplates[b]
  {
  }

  /** Every template holds the `{text}` slot exactly once. */
  lemma SlotExactlyOnce(lengthLabel: string)
    requires lengthLabel in PromptTemplates
    ensures Occurrences(PromptTemplates[lengthLabel], Slot) == 1
  {
    var p := Instruction(lengthLabel) + "\n";
    OccurrencesAfterPlain(p, Slot);
    assert PromptTemplates[lengthLabel] == p + Slot;
    assert Slot[..|Slot|] == Slot;
    assert Slot[1..] == "text}";
    PlainHasNoSlot("text}");
  }

  /** The article text ends the prompt verbatim, even when it contains braces or a slot. */
  lemma PromptEndsWithText(text: string, lengthLabel: string)
    requires lengthLabel in PromptTemplates
    ensures |SummaryPrompt(text, lengthLabel)| > |text|
    ensures SummaryPrompt(text, lengthLabel)[|SummaryPrompt(text, lengthLabel)| - |text|..] == text
  {
  }
}
