/**
 * FAQ matcher (exact, case- and whitespace-insensitive, first match wins)
 * and the FAQ context that the fallback path sends to the model.
 */
module FaqMatcher {
  import opened Common
  import opened Text

  datatype FaqEntry = FaqEntry(q: string, a: string)

  /** The entry's question and the input agree after `lower().strip()`. */
  predicate Matches(e: FaqEntry, question: string) {
    Normalize(e.q) == Normalize(question)
  }

  /** The answer of the first matching entry, scanning in sequence order. */
  function FaqAnswer(faq: seq<FaqEntry>, question: string): Option<string> {
    if faq == [] then None
    else if Matches(faq[0], question) then Some(faq[0].a)
    else FaqAnswer(faq[1..], question)
  }

  /** `find_in_faq`: the linear scan with early return. */
  method FindInFaq(faq: seq<FaqEntry>, question: string) returns (answer: Option<string>)
    ensures answer == FaqAnswer(faq, question)
  {
    var i := 0;
    while i < |faq|
      invariant 0 <= i <= |faq|
      invariant FaqAnswer(faq[i..], question) == FaqAnswer(faq, question)
    {
      assert faq[i..][1..] == faq[i + 1..];
      if Normalize(question) == Normalize(faq[i].q) {
        return Some(faq[i].a);
      }
      i := i + 1;
    }
    return None;
  }

  /**
   * `FaqAnswer` finds an answer exactly when some entry matches, and then it
   * is the answer of the first matching entry.
   */
  lemma {:induction false} FaqAnswerIsFirstMatch(faq: seq<FaqEntry>, question: string, i: nat)
    requires i < |faq| && Matches(faq[i], question)
    requires forall j :: 0 <= j < i ==> !Matches(faq[j], question)
    ensures FaqAnswer(faq, question) == Some(faq[i].a)
  {
    if i > 0 {
      assert !Matches(faq[0], question);
      FaqAnswerIsFirstMatch(faq[1..], question, i - 1);
    }
  }

  lemma {:induction false} FaqAnswerNoneIffNoMatch(faq: seq<FaqEntry>, question: string)
    ensures FaqAnswer(faq, question).None? <==> forall j :: 0 <= j < |faq| ==> !Matches(faq[j], question)
  {
    if faq != [] {
      var tail := faq[1..];
      FaqAnswerNoneIffNoMatch(tail, question);
      if FaqAnswer(faq, question).None? {
        forall j | 0 <= j < |faq| ensures !Matches(faq[j], question) {
          if j > 0 { assert faq[j] == tail[j - 1]; }
        }
      } else if !Matches(faq[0], question) {
        var k :| 0 <= k < |tail| && Matches(tail[k], question);
        assert faq[k + 1] == tail[k];
      }
    }
  }

  /** The result depends on the input only through its matching key. */
  lemma {:induction false} FaqAnswerDependsOnKey(faq: seq<FaqEntry>, s: string, t: string)
    requires Normalize(s) == Normalize(t)
    ensures FaqAnswer(faq, s) == FaqAnswer(faq, t)
  {
    if faq != [] {
      FaqAnswerDependsOnKey(faq[1..], s, t);
    }
  }

  /** Surrounding whitespace and a change of letter case leave the result unchanged. */
  lemma FaqAnswerIgnoresCaseAndPadding(faq: seq<FaqEntry>, s: string, t: string, w1: string, w2: string)
    requires AllSpace(w1) && AllSpace(w2) && Lower(t) == Lower(s)
    ensures FaqAnswer(faq, w1 + t + w2) == FaqAnswer(faq, s)
  {
    NormalizeIgnoresPadding(w1, t, w2);
    FaqAnswerDependsOnKey(faq, w1 + t + w2, s);
  }

  /**
   * A stored question, asked with any padding and in any case, returns its
   * own stored answer unless an earlier entry has the same matching key.
   */
  lemma FaqFindsStoredQuestion(faq: seq<FaqEntry>, i: nat, t: string, w1: string, w2: string)
    requires i < |faq|
    requires forall j :: 0 <= j < i ==> Normalize(faq[j].q) != Normalize(faq[i].q)
    requires AllSpace(w1) && AllSpace(w2) && Lower(t) == Lower(faq[i].q)
    ensures FaqAnswer(faq, w1 + t + w2) == Some(faq[i].a)
  {
    FaqAnswerIsFirstMatch(faq, faq[i].q, i);
    FaqAnswerIgnoresCaseAndPadding(faq, faq[i].q, t, w1, w2);
  }

  // -------------------------------------------------- context and prompt

  /** One FAQ pair as the model sees it. */
  function Block(e: FaqEntry): string {
    "Вопрос: " + e.q + "\nОтвет: " + e.a
  }

  /** Every block, in order, joined with newlines. */
  function Context(faq: seq<FaqEntry>): string {
    if faq == [] then ""
    else if |faq| == 1 then Block(faq[0])
    else Block(faq[0]) + "\n" + Context(faq[1..])
  }

  /** Where block `i` starts inside `Context(faq)`. */
  function Offset(faq: seq<FaqEntry>, i: nat): nat
    requires i < |faq|
  {
    if i == 0 then 0 else |Block(faq[0])| + 1 + Offset(faq[1..], i - 1)
  }

  const PromptHead: string :=
    "Используя следующий контекст из FAQ, ответь на вопрос пользователя.\n--- Контекст FAQ ---\n"
  const PromptTail: string := "\n--- Конец контекста ---\n\nВопрос пользователя: "

  /** The augmented input sent to the model on the fallback path. */
  function Prompt(faq: seq<FaqEntry>, question: string): string {
    PromptHead + Context(faq) + PromptTail + question
  }

  /**
   * Block `i` ends where the context ends when it is the last one, and is
   * followed by a newline otherwise.
   */
  lemma {:induction false} ContextAfterBlock(faq: seq<FaqEntry>, i: nat)
    requires i < |faq|
    ensures i + 1 < |faq| ==> ContainsAt(Context(faq), "\n", Offset(faq, i) + |Block(faq[i])|)
    ensures i + 1 == |faq| ==> |Context(faq)| == Offset(faq, i) + |Block(faq[i])|
  {
    if |faq| > 1 {
      var b := Block(faq[0]);
      var tail := faq[1..];
      var c := Context(tail);
      assert Context(faq) == b + ("\n" + c);
      if i == 0 {
        SliceAfter(b, "\n" + c, 0, 1);
      } else {
        assert faq[i] == tail[i - 1];
        ContextAfterBlock(tail, i - 1);
        if i + 1 < |faq| {
          assert Context(faq) == (b + "\n") + c;
          SliceAfter(b + "\n", c, Offset(tail, i - 1) + |Block(faq[i])|, 1);
        }
      }
    }
  }

  /** Block `i` sits at `Offset(faq, i)`, and the next block starts after it and a newline. */
  lemma {:induction false} BlockAtOffset(faq: seq<FaqEntry>, i: nat)
    requires i < |faq|
    ensures ContainsAt(Context(faq), Block(faq[i]), Offset(faq, i))
    ensures i + 1 < |faq| ==> Offset(faq, i) + |Block(faq[i])| + 1 == Offset(faq, i + 1)
  {
    var b := Block(faq[0]);
    if |faq| == 1 {
      SliceBefore(b, "");
    } else {
      var tail := faq[1..];
      var c := Context(tail);
      assert Context(faq) == (b + "\n") + c;
      if i == 0 {
        SliceBefore(b, "\n" + c);
        assert Context(faq) == b + ("\n" + c);
      } else {
        assert faq[i] == tail[i - 1];
        BlockAtOffset(tail, i - 1);
        SliceAfter(b + "\n", c, Offset(tail, i - 1), |Block(faq[i])|);
        if i + 1 < |faq| {
          assert faq[i + 1] == tail[i];
        }
      }
    }
  }

  /**
   * The context is the blocks in sequence order, each followed by a newline
   * except the last, which closes the context.
   */
  lemma ContextHoldsEveryBlock(faq: seq<FaqEntry>, i: nat)
    requires i < |faq|
    ensures ContainsAt(Context(faq), Block(faq[i]), Offset(faq, i))
    ensures i + 1 < |faq| ==> Offset(faq, i) + |Block(faq[i])| + 1 == Offset(faq, i + 1)
    ensures i + 1 < |faq| ==> ContainsAt(Context(faq), "\n", Offset(faq, i) + |Block(faq[i])|)
    ensures i + 1 == |faq| ==> |Context(faq)| == Offset(faq, i) + |Block(faq[i])|
  {
    BlockAtOffset(faq, i);
    ContextAfterBlock(faq, i);
  }

  /**
   * The prompt opens with the fixed banner, then holds the whole context
   * (every FAQ block in order), then the closing banner, and ends with the
   * user's question.
   */
  lemma PromptLayout(faq: seq<FaqEntry>, question: string, i: nat)
    ensures StartsWith(Prompt(faq, question), PromptHead)
    ensures Prompt(faq, question)[|PromptHead|..|PromptHead| + |Context(faq)|] == Context(faq)
    ensures i < |faq| ==> ContainsAt(Prompt(faq, question), Block(faq[i]), |PromptHead| + Offset(faq, i))
    ensures var p := Prompt(faq, question); p[|p| - |question|..] == question
    ensures var p := Prompt(faq, question); p[|p| - |question| - |PromptTail|..|p| - |question|] == PromptTail
  {
    var c := Context(faq);
    FourParts(PromptHead, c, PromptTail, question);
    if i < |faq| {
      ContextHoldsEveryBlock(faq, i);
      ContainsInSecond(PromptHead, c, PromptTail, question, Block(faq[i]), Offset(faq, i));
    }
  }
}
