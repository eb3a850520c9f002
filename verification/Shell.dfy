/** How the client splits a typed line into arguments and how it quotes a string
    (`split_args` and `format_string` of src/bin/litredis-cli.rs). */
module Shell {
  import opened Basics

  datatype Split = Args(args: seq<string>) | Unterminated

  const QUOTE: char := '"'
  const ESCAPE: char := '\\'

  /** `char::is_whitespace`: the Unicode property White_Space. */
  predicate IsWhitespace(c: char) {
    var n := c as int;
    || 9 <= n <= 13 || n == 0x20 || n == 0x85 || n == 0xA0 || n == 0x1680
    || 0x2000 <= n <= 0x200A || n == 0x2028 || n == 0x2029 || n == 0x202F || n == 0x205F || n == 0x3000
  }

  /** Behind an opening quote: the text up to the closing quote, and what follows it. */
  function Quoted(s: string): (r: Option<(string, string)>)
    ensures r.Some? ==> |r.value.1| < |s|
  {
    if s == [] then None
    else if s[0] == QUOTE then Some(([], s[1..]))
    else if s[0] == ESCAPE then
      if |s| == 1 then None else Push(s[1], Quoted(s[2..]))
    else Push(s[0], Quoted(s[1..]))
  }

  function Push(c: char, r: Option<(string, string)>): Option<(string, string)> {
    match r
    case Some((text, rest)) => Some(([c] + text, rest))
    case None => None
  }

  /** The length of the word at the head of `s`. */
  function WordLen(s: string): (n: nat)
    ensures n <= |s|
    ensures forall k :: 0 <= k < n ==> !IsWhitespace(s[k])
    ensures n < |s| ==> IsWhitespace(s[n])
  {
    if s == [] || IsWhitespace(s[0]) then 0 else 1 + WordLen(s[1..])
  }

  function Prepend(arg: string, r: Split): Split {
    match r
    case Args(args) => Args([arg] + args)
    case Unterminated => Unterminated
  }

  function SplitArgs(s: string): Split
    decreases |s|
  {
    if s == [] then Args([])
    else if IsWhitespace(s[0]) then SplitArgs(s[1..])
    else if s[0] == QUOTE then
      match Quoted(s[1..])
      case Some((text, rest)) => Prepend(text, SplitArgs(rest))
      case None => Unterminated
    else
      var n := WordLen(s);
      Prepend(s[..n], SplitArgs(s[n..]))
  }

  /** The blanks of a keyboard separate arguments, as many of them as there may be. */
  lemma BlanksAreSkipped(c: char, s: string)
    requires c == ' ' || c == '\t' || c == '\n' || c == '\r'
    ensures IsWhitespace(c) && SplitArgs([c] + s) == SplitArgs(s)
  {
    assert ([c] + s)[1..] == s;
  }

  /** `format_string`: two replacements, one after the other, and a pair of quotes. */
  function FormatString(s: string, inArray: bool): string {
    if !inArray then s
    else [QUOTE] + Replace(Replace(s, ESCAPE, [ESCAPE, ESCAPE]), QUOTE, [ESCAPE, QUOTE]) + [QUOTE]
  }

  // ---------- The loops

  /** The inner loop behind an opening quote; `i` is where it stands. */
  method ReadQuoted(input: string, begin: nat) returns (r: Option<(string, nat)>)
    requires begin <= |input|
    ensures r.Some? ==> r.value.1 <= |input|
    ensures Quoted(input[begin..]) == if r.Some? then Some((r.value.0, input[r.value.1..])) else None
  {
    hide Onto, Push;
    var buf: string := [];
    var i := begin;
    OntoIdentity(buf, Quoted(input[begin..]), []);
    while i < |input|
      invariant begin <= i <= |input|
      invariant Quoted(input[begin..]) == Onto(buf, Quoted(input[i..]))
    {
      var ch := input[i];
      ghost var s := input[i..];
      assert s[0] == ch && s[1..] == input[i + 1..];
      OntoIdentity(buf, None, input[i + 1..]);
      if ch == QUOTE {
        return Some((buf, i + 1));
      }
      if ch == ESCAPE {
        i := i + 1;
        if i == |input| {
          return None;
        }
        assert s[1] == input[i] && s[2..] == input[i + 1..];
      }
      OntoPush(buf, input[i], Quoted(input[i + 1..]));
      buf := buf + [input[i]];
      i := i + 1;
    }
    OntoIdentity(buf, None, []);
    return None;
  }

  method ReadWord(input: string, begin: nat) returns (buf: string, i: nat)
    requires begin <= |input|
    ensures i == begin + WordLen(input[begin..]) && buf == input[begin..i]
  {
    buf, i := [], begin;
    while i < |input| && !IsWhitespace(input[i])
      invariant begin <= i <= |input| && buf == input[begin..i]
      invariant WordLen(input[begin..]) == (i - begin) + WordLen(input[i..])
    {
      assert input[i..][1..] == input[i + 1..];
      buf := buf + [input[i]];
      i := i + 1;
    }
  }

  method SplitLine(input: string) returns (r: Split)
    ensures r == SplitArgs(input)
  {
    hide Quoted, WordLen, Behind, Prepend;
    var args: seq<string> := [];
    var i: nat := 0;
    assert input[0..] == input;
    BehindIdentity(args, SplitArgs(input));
    while i < |input|
      invariant i <= |input|
      invariant SplitArgs(input) == Behind(args, SplitArgs(input[i..]))
      decreases |input| - i
    {
      ghost var s := input[i..];
      assert s[0] == input[i] && s[1..] == input[i + 1..];
      if IsWhitespace(input[i]) {
        i := i + 1;
        continue;
      }
      var buf: string;
      if input[i] == QUOTE {
        var text := ReadQuoted(input, i + 1);
        if text.None? {
          BehindIdentity(args, Unterminated);
          return Unterminated;
        }
        buf, i := text.value.0, text.value.1;
      } else {
        ghost var begin := i;
        buf, i := ReadWord(input, i);
        WordNotEmpty(s);
        assert s[..i - begin] == buf && s[i - begin..] == input[i..];
      }
      BehindPrepend(args, buf, SplitArgs(input[i..]));
      args := args + [buf];
    }
    assert input[i..] == [];
    BehindIdentity(args, Args([]));
    return Args(args);
  }

  lemma WordNotEmpty(s: string)
    requires s != [] && !IsWhitespace(s[0])
    ensures WordLen(s) > 0
  {
  }

  function Behind(args: seq<string>, r: Split): Split {
    match r
    case Args(more) => Args(args + more)
    case Unterminated => Unterminated
  }

  lemma BehindIdentity(args: seq<string>, r: Split)
    ensures Behind([], r) == r && Behind(args, Args([])) == Args(args) && Behind(args, Unterminated) == Unterminated
  {
    assert args + [] == args;
    assert r.Args? ==> [] + r.args == r.args;
  }

  lemma BehindPrepend(args: seq<string>, arg: string, r: Split)
    ensures Behind(args, Prepend(arg, r)) == Behind(args + [arg], r)
  {
    if r.Args? {
      assert args + ([arg] + r.args) == args + [arg] + r.args;
    }
  }

  function Onto(buf: string, r: Option<(string, string)>): Option<(string, string)> {
    match r
    case Some((text, rest)) => Some((buf + text, rest))
    case None => None
  }

  lemma OntoIdentity(buf: string, r: Option<(string, string)>, rest: string)
    ensures Onto([], r) == r && Onto(buf, Some(([], rest))) == Some((buf, rest)) && Onto(buf, None) == None
  {
    assert buf + [] == buf;
    assert r.Some? ==> [] + r.value.0 == r.value.0;
  }

  lemma OntoPush(buf: string, c: char, r: Option<(string, string)>)
    ensures Onto(buf, Push(c, r)) == Onto(buf + [c], r)
  {
    if r.Some? {
      assert buf + ([c] + r.value.0) == buf + [c] + r.value.0;
    }
  }

  // ---------- Quoting is undone by splitting

  function EscapeChar(c: char): string { if c == '\\' || c == '"' then ['\\', c] else [c] }

  function EscapeAll(s: string): string {
    if s == [] then [] else EscapeChar(s[0]) + EscapeAll(s[1..])
  }

  /** The two replacements in a row are one escape per character: the second never touches what the
      first wrote. */
  lemma {:induction false} ReplacesAreOneEscape(s: string)
    ensures Replace(Replace(s, ESCAPE, [ESCAPE, ESCAPE]), QUOTE, [ESCAPE, QUOTE]) == EscapeAll(s)
  {
    if s != [] {
      var head := if s[0] == ESCAPE then [ESCAPE, ESCAPE] else [s[0]];
      ReplaceConcat(head, Replace(s[1..], ESCAPE, [ESCAPE, ESCAPE]), QUOTE, [ESCAPE, QUOTE]);
      assert Replace(head, QUOTE, [ESCAPE, QUOTE]) == EscapeChar(s[0]) by {
        assert head[1..] == if s[0] == ESCAPE then [ESCAPE] else [];
        assert [ESCAPE][1..] == [];
      }
      ReplacesAreOneEscape(s[1..]);
    }
  }

  lemma {:induction false} QuotedEscaped(s: string, rest: string)
    ensures Quoted(EscapeAll(s) + [QUOTE] + rest) == Some((s, rest))
  {
    var tail := [QUOTE] + rest;
    assert EscapeAll(s) + [QUOTE] + rest == EscapeAll(s) + tail;
    if s == [] {
      assert [] + tail == tail && tail[1..] == rest;
    } else {
      QuotedEscaped(s[1..], rest);
      var behind := EscapeAll(s[1..]) + [QUOTE] + rest;
      var all := EscapeAll(s) + tail;
      assert all == EscapeChar(s[0]) + behind;
      if s[0] == ESCAPE || s[0] == QUOTE {
        assert all[1] == s[0] && all[2..] == behind;
      } else {
        assert all[1..] == behind;
      }
      assert [s[0]] + s[1..] == s;
    }
  }

  /** A text that can be typed without quotes. */
  predicate IsWord(s: string) {
    s != [] && s[0] != QUOTE && forall k :: 0 <= k < |s| ==> !IsWhitespace(s[k])
  }

  datatype Shown = Shown(text: string, quoted: bool)

  predicate Typable(items: seq<Shown>) {
    forall k :: 0 <= k < |items| ==> items[k].quoted || IsWord(items[k].text)
  }

  function TextsOf(items: seq<Shown>): seq<string> {
    seq(|items|, k requires 0 <= k < |items| => items[k].text)
  }

  /** The items shown and joined by single spaces. */
  function Join(items: seq<Shown>): string {
    if items == [] then []
    else FormatString(items[0].text, items[0].quoted)
         + (if |items| == 1 then [] else [' '] + Join(items[1..]))
  }

  lemma SplitShown(item: Shown, rest: string)
    requires item.quoted || IsWord(item.text)
    requires rest == [] || IsWhitespace(rest[0])
    ensures SplitArgs(FormatString(item.text, item.quoted) + rest) == Prepend(item.text, SplitArgs(rest))
  {
    if item.quoted {
      SplitQuoted(item.text, rest);
    } else {
      SplitWord(item.text, rest);
    }
  }

  lemma SplitQuoted(s: string, rest: string)
    requires rest == [] || IsWhitespace(rest[0])
    ensures SplitArgs(FormatString(s, true) + rest) == Prepend(s, SplitArgs(rest))
  {
    hide Prepend, Replace, Quoted;
    ReplacesAreOneEscape(s);
    QuotedEscaped(s, rest);
    var all := FormatString(s, true) + rest;
    assert all[0] == QUOTE && all[1..] == EscapeAll(s) + [QUOTE] + rest;
  }

  lemma SplitWord(s: string, rest: string)
    requires IsWord(s) && (rest == [] || IsWhitespace(rest[0]))
    ensures SplitArgs(FormatString(s, false) + rest) == Prepend(s, SplitArgs(rest))
  {
    hide Prepend, Replace;
    WordLenOf(s, rest);
    var all := FormatString(s, false) + rest;
    assert all[..|s|] == s && all[|s|..] == rest && all[0] == s[0];
  }

  lemma {:induction false} WordLenOf(s: string, rest: string)
    requires forall k :: 0 <= k < |s| ==> !IsWhitespace(s[k])
    requires rest == [] || IsWhitespace(rest[0])
    ensures WordLen(s + rest) == |s|
  {
    if s == [] {
      assert s + rest == rest;
    } else {
      assert (s + rest)[1..] == s[1..] + rest;
      WordLenOf(s[1..], rest);
    }
  }

  /** Any list of arguments, each quoted or plain enough not to need it, survives being typed. */
  lemma {:induction false} SplitUndoesQuoting(items: seq<Shown>)
    requires Typable(items)
    ensures SplitArgs(Join(items)) == Args(TextsOf(items))
    decreases |items|
  {
    hide FormatString, Quoted, WordLen, IsWord;
    if items != [] {
      var tail := items[1..];
      var rest := if |items| == 1 then [] else [' '] + Join(tail);
      SplitShown(items[0], rest);
      SplitUndoesQuoting(tail);
      if |items| > 1 {
        assert rest[1..] == Join(tail);
      }
      assert TextsOf(items) == [items[0].text] + TextsOf(tail);
    }
  }
}
