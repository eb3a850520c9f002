/** The client frames a reply with a loop and then parses it by recursion: the two agree on where a
    value ends, whatever the nesting. */
module FramerProof {
  import opened Basics
  import opened Decimal
  import opened Resp
  import opened Client
  import Utf8

  // ---------- The stack invariant

  ghost predicate Positive(stack: seq<int>) {
    forall i :: 0 <= i < |stack| ==> stack[i] > 0
  }

  /** The number of values still due. */
  function Due(stack: seq<int>): int {
    if stack == [] then 0 else Due(stack[..|stack| - 1]) + stack[|stack| - 1]
  }

  lemma {:induction false} DueIsPositive(stack: seq<int>)
    requires Positive(stack)
    ensures Due(stack) >= 0 && (Due(stack) == 0 <==> stack == [])
  {
    if stack != [] {
      DueIsPositive(stack[..|stack| - 1]);
    }
  }

  lemma ConsumeItemDue(stack: seq<int>)
    requires Positive(stack) && stack != []
    ensures Positive(ConsumeItem(stack)) && Due(ConsumeItem(stack)) == Due(stack) - 1
  {
    var rest, top := stack[..|stack| - 1], stack[|stack| - 1] - 1;
    var s := rest + [top];
    assert s[..|s| - 1] == rest;
    if top == 0 {
      assert PopZeros(s) == PopZeros(rest) == rest;
    }
  }

  lemma PushDue(stack: seq<int>, k: nat)
    requires Positive(stack)
    ensures var s := stack + (if k > 0 then [k] else []);
            Positive(s) && Due(s) == Due(stack) + k
  {
    if k > 0 {
      assert (stack + [k])[..|stack|] == stack;
    } else {
      assert stack + [] == stack;
    }
  }

  /** No reachable turn of the loop breaks the invariant: every counter stays positive. */
  lemma FrameStepKeepsPositive(b: Bytes, i: nat, stack: seq<int>)
    requires i <= |b| && Positive(stack) && FrameStep(b, i, stack).Got?
    ensures Positive(FrameStep(b, i, stack).value)
  {
    if stack != [] {
      ConsumeItemDue(stack);
    }
    if b[i] == STAR {
      var k := CheckedArrayLen(ParseLength(b[i + 1..LineEnd(b, i)]).value).value;
      if k.Some? {
        PushDue(ConsumeItem(stack), k.value);
      }
    }
  }

  // ---------- Lines: the parser cuts the CRLF off, the framer trims it

  lemma {:induction false} TrimKeeps(s: Bytes)
    requires s != [] ==> s[|s| - 1] != CR && s[|s| - 1] != LF
    ensures TrimLineEnd(s) == s
  {
  }

  lemma ParseLengthIgnoresCrlf(line: Bytes)
    requires ParseLength(line).Some?
    ensures ParseLength(line + CRLF) == ParseLength(line)
  {
    Utf8.AsciiIsValid(CRLF);
    Utf8.ValidConcat(line, CRLF);
    var x := line + CRLF;
    var y := x[..|x| - 1];
    assert x[|x| - 1] == LF && y == line + [CR] && y[..|y| - 1] == line;
    assert TrimLineEnd(x) == TrimLineEnd(y) == TrimLineEnd(line);
  }

  lemma ReadLengthAtLineEnd(b: Bytes, i: nat)
    requires i < |b| && b[i] != LF && ReadLength(b, i + 1).Got?
    ensures ReadLength(b, i + 1).next == LineEnd(b, i)
    ensures ParseLength(b[i + 1..LineEnd(b, i)]) == Some(ReadLength(b, i + 1).value)
  {
    var e := FindLf(b, i);
    assert FindLf(b, i + 1) == e;
    var line := b[i + 1..e - 1];
    assert [b[e - 1], b[e]] == CRLF;
    assert b[i + 1..e + 1] == line + [b[e - 1], b[e]];
    ParseLengthIgnoresCrlf(line);
  }

  // ---------- One value

  lemma StepOnScalar(b: Bytes, i: nat, stack: seq<int>)
    requires i < |b| && b[i] != STAR && ParseValue(b, i).Got?
    ensures FrameStep(b, i, stack) == Got(ConsumeItem(stack), ParseValue(b, i).next)
  {
    assert FindLf(b, i) == FindLf(b, i + 1);
    if b[i] == DOLLAR {
      ReadLengthAtLineEnd(b, i);
    }
  }

  lemma {:induction false} ItemsAppend(b: Bytes, i: nat, m: nat, n: nat)
    requires ParseItems(b, i, m).Got? && ParseItems(b, ParseItems(b, i, m).next, n).Got?
    ensures var r := ParseItems(b, ParseItems(b, i, m).next, n);
            ParseItems(b, i, m + n) == Got(ParseItems(b, i, m).value + r.value, r.next)
    decreases m
  {
    hide ParseValue;
    var first := ParseItems(b, i, m);
    var r := ParseItems(b, first.next, n);
    if m == 0 {
      assert first.value + r.value == r.value;
    } else {
      var v := ParseValue(b, i);
      ItemsAppend(b, v.next, m - 1, n);
      assert ParseItems(b, v.next, m + n - 1) == Got(ParseItems(b, v.next, m - 1).value + r.value, r.next);
      assert first.value + r.value == [v.value] + (ParseItems(b, v.next, m - 1).value + r.value);
    }
  }

  lemma ItemsSplit(b: Bytes, i: nat, due: nat)
    requires due > 0 && ParseItems(b, i, due).Got?
    ensures ParseValue(b, i).Got?
    ensures var rest := ParseItems(b, ParseValue(b, i).next, due - 1);
            rest.Got? && rest.next == ParseItems(b, i, due).next
  {
    hide ParseValue;
  }

  /** An array header announces `k` items, which parser and framer both find behind the same line;
      the null array announces none. */
  lemma StepOnArrayHeader(b: Bytes, i: nat, stack: seq<int>) returns (k: nat)
    requires i < |b| && b[i] == STAR && ParseValue(b, i).Got?
    ensures var e := LineEnd(b, i);
            && FrameStep(b, i, stack) == Got(ConsumeItem(stack) + (if k > 0 then [k] else []), e)
            && ParseItems(b, e, k).Got? && ParseItems(b, e, k).next == ParseValue(b, i).next
  {
    ReadLengthAtLineEnd(b, i);
    var count := CheckedArrayLen(ReadLength(b, i + 1).value).value;
    k := if count.Some? then count.value else 0;
    assert ConsumeItem(stack) + [] == ConsumeItem(stack);
  }

  /** One turn on an array header: the header's items and what was due behind them are due now. */
  lemma StepOnArray(b: Bytes, i: nat, stack: seq<int>, due: nat)
    requires i < |b| && b[i] == STAR && Positive(stack) && Due(stack) == due + 1
    requires ParseItems(b, i, due + 1).Got?
    ensures var step := FrameStep(b, i, stack);
            && step.Got? && Positive(step.value) && Due(step.value) >= 0
            && var rest := ParseItems(b, step.next, Due(step.value));
               rest.Got? && rest.next == ParseItems(b, i, due + 1).next
  {
    hide ParseValue, ParseItems, FrameStep;
    ItemsSplit(b, i, due + 1);
    ConsumeItemDue(stack);
    var k := StepOnArrayHeader(b, i, stack);
    PushDue(ConsumeItem(stack), k);
    ItemsAppend(b, LineEnd(b, i), k, due);
  }

  /** One turn at the head of the values due: the stack that is left owes exactly what is unread. */
  lemma StepOwesTheRest(b: Bytes, i: nat, stack: seq<int>)
    requires i <= |b| && Positive(stack) && stack != []
    requires Due(stack) >= 0 && ParseItems(b, i, Due(stack)).Got?
    ensures var step := FrameStep(b, i, stack);
            && step.Got? && Positive(step.value) && Due(step.value) >= 0
            && var rest := ParseItems(b, step.next, Due(step.value));
               rest.Got? && rest.next == ParseItems(b, i, Due(stack)).next
  {
    hide ParseValue, ParseItems, FrameStep;
    DueIsPositive(stack);
    ItemsSplit(b, i, Due(stack));
    if b[i] == STAR {
      StepOnArray(b, i, stack, Due(stack) - 1);
    } else {
      ConsumeItemDue(stack);
      StepOnScalar(b, i, stack);
    }
  }

  /** From any loop state: if the values still due parse, the framer stops where they end. */
  lemma {:induction false} FrameFollowsItems(b: Bytes, i: nat, stack: seq<int>)
    requires i <= |b| && Positive(stack) && stack != []
    requires Due(stack) >= 0 && ParseItems(b, i, Due(stack)).Got?
    ensures FrameLoop(b, i, stack) == Got((), ParseItems(b, i, Due(stack)).next)
    decreases |b| - i
  {
    StepOwesTheRest(b, i, stack);
    var step := FrameStep(b, i, stack);
    DueIsPositive(step.value);
    if step.value != [] {
      FrameFollowsItems(b, step.next, step.value);
    }
  }

  /** A fresh loop behaves as one that owes a single value. */
  lemma FreshStackOwesOne(b: Bytes, i: nat)
    requires i <= |b|
    ensures FrameLoop(b, i, []) == FrameLoop(b, i, [1])
    ensures Due([1]) == 1
  {
    assert ConsumeItem([1]) == PopZeros([0]) == PopZeros([]) == [] by {
      assert [1][..0] + [0] == [0] && [0][..0] == [];
    }
    assert FrameStep(b, i, []) == FrameStep(b, i, [1]);
  }

  /** The framer, started afresh, returns exactly the bytes of the value the parser accepts. */
  lemma FramerAgreesWithParser(b: Bytes, i: nat)
    requires i <= |b| && ParseValue(b, i).Got?
    ensures ReadFrame(b, i) == Got(b[i..ParseValue(b, i).next], ParseValue(b, i).next)
  {
    hide ParseValue, FrameLoop;
    FreshStackOwesOne(b, i);
    var v := ParseValue(b, i);
    assert ParseItems(b, i, 1) == Got([v.value] + [], v.next);
    FrameFollowsItems(b, i, [1]);
  }
}
