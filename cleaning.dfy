/**
 * `nlp/cleaning.py`: a `TextCleaner` runs its cleaning functions one after
 * another over a page's text; a function that raises leaves the text as it
 * was and leaves a message behind. The eleven functions come from a module
 * that is not part of this model, so each is a parameter that returns the
 * cleaned text or the message of the exception it raised.
 */
module Cleaning {
  import opened Wrappers
  import opened Text

  /** A cleaning function and its `__name__`. */
  datatype CleaningStep = CleaningStep(name: string, run: string -> Result<string>)

  /** `CleaningStats` without `processing_time`. */
  datatype CleaningStats = CleaningStats(
    originalLength: int,
    cleanedLength: int,
    removedChars: int,
    removedLines: int,
    errors: seq<string>)

  datatype Cleaned = Cleaned(text: string, stats: CleaningStats)

  /** The text after a run of steps, and the messages of the steps that raised. */
  datatype Outcome = Outcome(text: string, errors: seq<string>)

  function StepError(step: CleaningStep, message: string): string {
    "Error in " + step.name + ": " + message
  }

  /** The steps applied in order, each to the previous one's output; a step that raises is passed over. */
  function Run(steps: seq<CleaningStep>, text: string): (r: Outcome)
    ensures |r.errors| <= |steps|
  {
    if steps == [] then Outcome(text, [])
    else
      var prev := Run(steps[..|steps| - 1], text);
      var last := steps[|steps| - 1];
      match last.run(prev.text)
      case Ok(t) => Outcome(t, prev.errors)
      case Err(e) => Outcome(prev.text, prev.errors + [StepError(last, e)])
  }

  /** `text.replace("\x00", "").strip()`. */
  function Prepared(text: string): (r: string)
    ensures '\0' !in r
    ensures |r| <= |text|
  {
    Strip(Remove(text, "\0"))
  }

  /** `_clean_text_with_stats`. */
  function CleanWithStats(steps: seq<CleaningStep>, text: string): (r: Cleaned)
    ensures Prepared(text) == [] ==> r == Cleaned("", CleaningStats(0, 0, 0, 0, []))
    ensures Prepared(text) != [] ==>
      && r.stats.originalLength == |text|
      && r.stats.cleanedLength == |r.text|
      && r.stats.removedChars == r.stats.originalLength - r.stats.cleanedLength
      && r.stats.removedLines == LineCount(text) - LineCount(r.text)
      && Outcome(r.text, r.stats.errors) == Run(steps, Prepared(text))
  {
    var prepared := Prepared(text);
    if prepared == [] then Cleaned("", CleaningStats(0, 0, 0, 0, []))
    else
      var out := Run(steps, prepared);
      Cleaned(out.text, CleaningStats(|text|, |out.text|, |text| - |out.text|,
                                      LineCount(text) - LineCount(out.text), out.errors))
  }

  method CleanTextWithStats(steps: seq<CleaningStep>, originalText: string) returns (r: Cleaned)
    ensures r == CleanWithStats(steps, originalText)
  {
    var text := Strip(Remove(originalText, "\0"));
    var errors: seq<string> := [];
    if text == [] {
      return Cleaned("", CleaningStats(0, 0, 0, 0, errors));
    }
    for i := 0 to |steps|
      invariant Outcome(text, errors) == Run(steps[..i], Prepared(originalText))
    {
      var step := steps[i];
      var result := step.run(text);
      if result.Ok? {
        text := result.value;
      } else {
        errors := errors + [StepError(step, result.error)];
      }
      assert steps[..i + 1][..i] == steps[..i];
    }
    assert steps[..|steps|] == steps;
    var originalLength := |originalText|;
    var cleanedLength := |text|;
    return Cleaned(text, CleaningStats(originalLength, cleanedLength, originalLength - cleanedLength,
                                       LineCount(originalText) - LineCount(text), errors));
  }

  /** `clean_text`: the text alone. */
  method CleanText(steps: seq<CleaningStep>, text: string) returns (r: string)
    ensures r == CleanWithStats(steps, text).text
  {
    var cleaned := CleanTextWithStats(steps, text);
    r := cleaned.text;
  }

  // ---------------------------------------------------------------- properties of the fold

  /** Running two lists of steps one after the other is running their concatenation. */
  lemma {:induction false} RunAppend(a: seq<CleaningStep>, b: seq<CleaningStep>, text: string)
    ensures Run(a + b, text) == Outcome(Run(b, Run(a, text).text).text, Run(a, text).errors + Run(b, Run(a, text).text).errors)
    decreases |b|
  {
    if b == [] {
      assert a + b == a;
    } else {
      var init := b[..|b| - 1];
      RunAppend(a, init, text);
      assert (a + b)[..|a + b| - 1] == a + init;
      assert (a + b)[|a + b| - 1] == b[|b| - 1];
    }
  }

  ghost predicate NeverFails(step: CleaningStep) {
    forall t :: step.run(t).Ok?
  }

  ghost predicate AlwaysFails(step: CleaningStep) {
    forall t :: step.run(t).Err?
  }

  /** Steps that never raise leave no error behind. */
  lemma {:induction false} NoFailureNoErrors(steps: seq<CleaningStep>, text: string)
    requires forall i :: 0 <= i < |steps| ==> NeverFails(steps[i])
    ensures Run(steps, text).errors == []
    decreases |steps|
  {
    if steps != [] {
      NoFailureNoErrors(steps[..|steps| - 1], text);
      assert NeverFails(steps[|steps| - 1]);
    }
  }

  /**
   * Steps that all raise leave the text as it was, and each leaves exactly one
   * message naming it, in step order.
   */
  lemma {:induction false} AllFailuresKeepText(steps: seq<CleaningStep>, text: string)
    requires forall i :: 0 <= i < |steps| ==> AlwaysFails(steps[i])
    ensures Run(steps, text).text == text
    ensures |Run(steps, text).errors| == |steps|
    ensures forall i :: 0 <= i < |steps| ==>
      steps[i].run(text).Err? && Run(steps, text).errors[i] == StepError(steps[i], steps[i].run(text).error)
    decreases |steps|
  {
    if steps != [] {
      var init := steps[..|steps| - 1];
      AllFailuresKeepText(init, text);
      assert AlwaysFails(steps[|steps| - 1]);
    }
  }

  /** Input that is only NULs and whitespace cleans to nothing, every count zero. */
  lemma BlankInputZeroStats(steps: seq<CleaningStep>, text: string)
    requires forall k :: 0 <= k < |text| ==> text[k] == '\0' || IsSpace(text[k])
    ensures CleanWithStats(steps, text) == Cleaned("", CleaningStats(0, 0, 0, 0, []))
  {
    var removed := Remove(text, "\0");
    forall k | 0 <= k < |removed| ensures IsSpace(removed[k]) {
      assert removed[k] in removed;
    }
  }

  // ---------------------------------------------------------------- pages

  /** A page's content as `clean_content` may find it: a string, a list of strings, or anything else. */
  datatype PageContent = Text(s: string) | Lines(parts: seq<string>) | Other

  const InvalidContent := "Invalid content type"

  /** Empty content and content that is neither a string nor a list is rejected. */
  predicate Invalid(p: PageContent) {
    p == Text("") || p == Lines([]) || p.Other?
  }

  /** One page of `clean_content`: a rejected page cleans to `""`; a list is joined with spaces first. */
  function CleanPage(steps: seq<CleaningStep>, p: PageContent): (r: Cleaned)
    ensures Invalid(p) ==> r == Cleaned("", CleaningStats(0, 0, 0, 0, [InvalidContent]))
    ensures p.Lines? && p.parts != [] ==> r == CleanWithStats(steps, Join(p.parts, " "))
    ensures p.Text? && p.s != [] ==> r == CleanWithStats(steps, p.s)
  {
    if Invalid(p) then Cleaned("", CleaningStats(0, 0, 0, 0, [InvalidContent]))
    else CleanWithStats(steps, if p.Lines? then Join(p.parts, " ") else p.s)
  }

  /**
   * `clean_content`: every page cleaned on its own; the cleaned texts and the
   * statistics, keyed as the input. `order` is the dictionary's iteration
   * order: each of its keys, once.
   */
  method CleanContent(steps: seq<CleaningStep>, content: map<int, PageContent>, order: seq<int>)
    returns (cleaned: map<int, string>, stats: map<int, CleaningStats>)
    requires forall page :: page in content <==> page in order
    ensures cleaned.Keys == content.Keys && stats.Keys == content.Keys
    ensures forall page :: page in content ==>
      cleaned[page] == CleanPage(steps, content[page]).text && stats[page] == CleanPage(steps, content[page]).stats
  {
    cleaned, stats := map[], map[];
    for i := 0 to |order|
      invariant forall q :: q in cleaned <==> q in order[..i]
      invariant forall q :: q in stats <==> q in order[..i]
      invariant forall q :: q in cleaned ==> (q in content
        && cleaned[q] == CleanPage(steps, content[q]).text && stats[q] == CleanPage(steps, content[q]).stats)
    {
      var page := order[i];
      var pageContent := content[page];
      if Invalid(pageContent) {
        cleaned := cleaned[page := ""];
        stats := stats[page := CleaningStats(0, 0, 0, 0, [InvalidContent])];
      } else {
        var text := if pageContent.Lines? then Join(pageContent.parts, " ") else pageContent.s;
        var result := CleanTextWithStats(steps, text);
        cleaned := cleaned[page := result.text];
        stats := stats[page := result.stats];
      }
      assert order[..i + 1] == order[..i] + [page];
    }
    assert order[..|order|] == order;
    assert forall q :: q in cleaned.Keys <==> q in content.Keys;
    assert forall q :: q in stats.Keys <==> q in content.Keys;
  }
}
