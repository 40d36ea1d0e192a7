/** Concrete inputs for the clean-up of `process_file`.

    Each example takes its input as a parameter fixed by `requires s == "..."`
    rather than writing `Sanitize("...")` in the `ensures`: the verifier unfolds
    a recursive function applied to a literal without bound, which makes the
    proof slow and unstable. For the same reason, each fact that a
    concatenation of the markers equals the literal is a lemma of its own. */
module SanitizerExamples {
  import opened Text
  import opened Sanitizer

  /** A span is removed together with its markers. */
  lemma {:induction false} HiddenSpanRemoved(s: string)
    requires s == "A<think>hidden</think>B"
    ensures Sanitize(s) == "AB"
  {
    HiddenLiteral();
    HiddenScan();
    assert s[0] == 'A' && s[|s| - 1] == 'B';
    TrimKeeps(s);
    TrimKeeps("AB");
  }

  lemma {:induction false} HiddenLiteral()
    ensures "A" + Open + "hidden" + Close + "B" == "A<think>hidden</think>B"
  {
  }

  lemma {:induction false} HiddenScan()
    ensures RemoveSpans("A" + Open + "hidden" + Close + "B") == "AB"
  {
    SpanRemoved("A", "hidden", "B");
    NoOpenKept("B");
  }

  /** A span may cross line breaks. */
  lemma {:induction false} MultiLineSpanRemoved(s: string)
    requires s == "<think>a\nb</think>\nSummary"
    ensures Sanitize(s) == "Summary"
  {
    MultiLineLiteral();
    LeadingSpanDropped("a\nb", "\nSummary");
    assert s[0] == '<' && s[|s| - 1] == 'y';
    TrimKeeps(s);
    NewlineTrim();
  }

  lemma {:induction false} NewlineTrim()
    ensures Trim("\nSummary") == "Summary"
  {
    assert IsSpace('\n');
    assert "\nSummary"[1..] == "Summary";
    TrimKeeps("Summary");
  }

  /** Reasoning before the answer is dropped. */
  lemma {:induction false} ReasoningDropped(s: string)
    requires s == "<think>why</think>Hi"
    ensures Sanitize(s) == "Hi"
  {
    ReasoningLiteral();
    LeadingSpanDropped("why", "Hi");
    assert s[0] == '<' && s[|s| - 1] == 'i';
    TrimKeeps(s);
    TrimKeeps("Hi");
  }

  /** A `<think>` without a closing marker is left in place. */
  lemma {:induction false} UnclosedLeftInPlace(s: string)
    requires s == "A<think>open"
    ensures Sanitize(s) == s
  {
    UnclosedLiteral();
    UnclosedKept("A", "open");
    assert s[0] == 'A' && s[|s| - 1] == 'n';
    TrimKeeps(s);
  }

  /** One pass of the substitution is not idempotent: removing an inner span
      can join the pieces around it into a new `<think>`, which a second pass
      then removes. */
  lemma {:induction false} SanitizeNotIdempotent(s: string)
    requires s == "<thi<think>x</think>nk>y</think>"
    ensures Sanitize(s) == "<think>y</think>"
    ensures Sanitize(Sanitize(s)) == ""
  {
    FirstPassSanitized(s);
    SecondPass(Sanitize(s));
  }

  lemma {:induction false} FirstPassSanitized(s: string)
    requires s == "<thi<think>x</think>nk>y</think>"
    ensures Sanitize(s) == "<think>y</think>"
  {
    FirstPassLiteral();
    FirstPass();
    assert s[0] == '<' && s[|s| - 1] == '>';
    TrimKeeps(s);
    TrimKeeps("<think>y</think>");
  }

  lemma {:induction false} SecondPass(once: string)
    requires once == "<think>y</think>"
    ensures Sanitize(once) == ""
  {
    SecondPassLiteral();
    assert once[0] == '<' && once[|once| - 1] == '>';
    TrimKeeps(once);
    SecondPassScan();
    assert RemoveSpans(once) == [];
    TrimEmptyIff([]);
  }

  lemma {:induction false} SecondPassScan()
    ensures RemoveSpans("" + Open + "y" + Close + "") == []
  {
    SpanRemoved("", "y", "");
    assert RemoveSpans([]) == [];
  }

  lemma {:induction false} FirstPass()
    ensures RemoveSpans("<thi" + Open + "x" + Close + "nk>y</think>") == "<think>y</think>"
  {
    FirstPassFacts();
    SpanRemoved("<thi", "x", "nk>y</think>");
    FirstPassTail();
    FirstPassJoin();
  }

  lemma {:induction false} FirstPassFacts()
    ensures forall j :: 0 <= j < 4 ==> !OpenAt("<thi" + Open, j)
    ensures forall j :: 0 <= j < 1 ==> !CloseAt("x" + Close, j)
  {
  }

  lemma {:induction false} FirstPassTail()
    ensures RemoveSpans("nk>y</think>") == "nk>y</think>"
  {
    assert forall j :: 0 <= j < 12 ==> !OpenAt("nk>y</think>", j);
    NoOpenKept("nk>y</think>");
  }

  lemma {:induction false} FirstPassJoin()
    ensures "<thi" + "nk>y</think>" == "<think>y</think>"
  {
  }
  lemma {:induction false} MultiLineLiteral()
    ensures Open + "a\nb" + Close + "\nSummary" == "<think>a\nb</think>\nSummary"
  {
  }

  lemma {:induction false} ReasoningLiteral()
    ensures Open + "why" + Close + "Hi" == "<think>why</think>Hi"
  {
  }

  lemma {:induction false} UnclosedLiteral()
    ensures "A" + Open + "open" == "A<think>open"
  {
  }

  lemma {:induction false} FirstPassLiteral()
    ensures "<thi" + Open + "x" + Close + "nk>y</think>" == "<thi<think>x</think>nk>y</think>"
  {
  }

  lemma {:induction false} SecondPassLiteral()
    ensures "" + Open + "y" + Close + "" == "<think>y</think>"
  {
  }
}
