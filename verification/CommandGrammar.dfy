/** Which argument lists are which command, and why the others are refused: the grammar that
    `parse_command_args` of src/protocol/resp.rs reads. */
module CommandGrammar {
  import opened Basics
  import opened Decimal
  import opened Protocol

  /** `b` is the capital letter `c` or its small letter. */
  predicate SameLetter(b: byte, c: char) { b == c as int || b == c as int + 32 }

  /** `s` is the word in any mixture of capital and small letters. */
  predicate Word(s: Bytes, word: string) {
    |s| == |word| && forall i :: 0 <= i < |s| ==> SameLetter(s[i], word[i])
  }

  /** The argument lists that stand for the command. */
  ghost predicate Writes(args: seq<Bytes>, c: Command) {
    args != [] &&
    match c
    case Auth(p) => Word(args[0], "AUTH") && args[1..] == [p]
    case Session(Subscribe(cs)) => Word(args[0], "SUBSCRIBE") && args[1..] == cs && cs != []
    case Session(Unsubscribe(cs)) => Word(args[0], "UNSUBSCRIBE") && args[1..] == cs
    case Session(Quit) => Word(args[0], "QUIT") && args[1..] == []
    case Session(Reset) => Word(args[0], "RESET") && args[1..] == []
    case Normal(n) => WritesNormal(args, n)
  }

  ghost predicate WritesNormal(args: seq<Bytes>, c: NormalCommand)
    requires args != []
  {
    match c
    case Ping(None) => Word(args[0], "PING") && args[1..] == []
    case Ping(Some(m)) => Word(args[0], "PING") && args[1..] == [m]
    case Echo(t) => Word(args[0], "ECHO") && args[1..] == [t]
    case Get(k) => Word(args[0], "GET") && args[1..] == [k]
    case Set(k, v, None) => Word(args[0], "SET") && args[1..] == [k, v]
    case Set(k, v, Some(n)) =>
      Word(args[0], "SET") && |args| == 5 && args[1..3] == [k, v] && Word(args[3], "EX") && Unsigned(args[4], n)
    case Del(ks) => Word(args[0], "DEL") && args[1..] == ks && ks != []
    case Exists(k) => Word(args[0], "EXISTS") && args[1..] == [k]
    case Incr(k) => Word(args[0], "INCR") && args[1..] == [k]
    case Decr(k) => Word(args[0], "DECR") && args[1..] == [k]
    case IncrBy(k, d) => Word(args[0], "INCRBY") && |args| == 3 && args[1] == k && Numeral(args[2], d)
    case DecrBy(k, d) => Word(args[0], "DECRBY") && |args| == 3 && args[1] == k && Numeral(args[2], d)
    case Expire(k, n) => Word(args[0], "EXPIRE") && |args| == 3 && args[1] == k && Unsigned(args[2], n)
    case Ttl(k) => Word(args[0], "TTL") && args[1..] == [k]
    case Persist(k) => Word(args[0], "PERSIST") && args[1..] == [k]
    case Publish(ch, m) => Word(args[0], "PUBLISH") && args[1..] == [ch, m]
    case Copy(s, t, false) => Word(args[0], "COPY") && args[1..] == [s, t]
    case Copy(s, t, true) => Word(args[0], "COPY") && |args| == 4 && args[1..3] == [s, t] && Word(args[3], "REPLACE")
  }

  /** A command with a number in its place that does not parse. */
  ghost predicate BadNumber(args: seq<Bytes>) {
    || (|args| == 5 && Word(args[0], "SET") && Word(args[3], "EX") && forall n :: !Unsigned(args[4], n))
    || (|args| == 3 && Word(args[0], "EXPIRE") && forall n :: !Unsigned(args[2], n))
    || (|args| == 3 && (Word(args[0], "INCRBY") || Word(args[0], "DECRBY")) && forall n :: !Numeral(args[2], n))
  }

  /** `t` is `s` with its small letters made capitals. */
  predicate Capitals(t: Bytes, s: Bytes) {
    |t| == |s| &&
    forall i :: 0 <= i < |s| ==> t[i] == if 'a' as int <= s[i] <= 'z' as int then s[i] - 32 else s[i]
  }

  // ---------- Words

  /** A keyword is its own upper case; its letters tell it from the other keywords. */
  predicate IsKeyword(word: string) {
    && Upper(Ascii(word)) == Ascii(word) && |Ascii(word)| == |word|
    && (|word| > 2 ==> Ascii(word)[0] == word[0] as int && Ascii(word)[1] == word[1] as int && Ascii(word)[2] == word[2] as int)
  }

  lemma Keyword(word: string)
    requires forall i :: 0 <= i < |word| ==> 'A' <= word[i] <= 'Z'
    ensures IsKeyword(word)
  {
  }

  lemma WordIff(s: Bytes, word: string)
    requires forall i :: 0 <= i < |word| ==> 'A' <= word[i] <= 'Z'
    ensures Word(s, word) <==> Upper(s) == Ascii(word)
  {
    if Upper(s) == Ascii(word) {
      forall i | 0 <= i < |s|
        ensures SameLetter(s[i], word[i])
      {
        assert Upper(s)[i] == Ascii(word)[i];
      }
    }
  }

  lemma StoreKeywords()
    ensures IsKeyword("GET")
    ensures IsKeyword("SET")
    ensures IsKeyword("DEL")
    ensures IsKeyword("EXISTS")
    ensures IsKeyword("INCR")
    ensures IsKeyword("DECR")
    ensures IsKeyword("INCRBY")
    ensures IsKeyword("DECRBY")
  {
    hide IsKeyword;
    Keyword("GET");
    Keyword("SET");
    Keyword("DEL");
    Keyword("EXISTS");
    Keyword("INCR");
    Keyword("DECR");
    Keyword("INCRBY");
    Keyword("DECRBY");
  }

  lemma TtlKeywords()
    ensures IsKeyword("EXPIRE")
    ensures IsKeyword("TTL")
    ensures IsKeyword("PERSIST")
    ensures IsKeyword("COPY")
    ensures IsKeyword("EX")
    ensures IsKeyword("REPLACE")
    ensures IsKeyword("PING")
    ensures IsKeyword("ECHO")
  {
    hide IsKeyword;
    Keyword("EXPIRE");
    Keyword("TTL");
    Keyword("PERSIST");
    Keyword("COPY");
    Keyword("EX");
    Keyword("REPLACE");
    Keyword("PING");
    Keyword("ECHO");
  }

  lemma SessionKeywords()
    ensures IsKeyword("SUBSCRIBE")
    ensures IsKeyword("UNSUBSCRIBE")
    ensures IsKeyword("PUBLISH")
    ensures IsKeyword("AUTH")
    ensures IsKeyword("QUIT")
    ensures IsKeyword("RESET")
  {
    hide IsKeyword;
    Keyword("SUBSCRIBE");
    Keyword("UNSUBSCRIBE");
    Keyword("PUBLISH");
    Keyword("AUTH");
    Keyword("QUIT");
    Keyword("RESET");
  }

  lemma StoreWords(s: Bytes)
    ensures Word(s, "GET") <==> Upper(s) == Ascii("GET")
    ensures Word(s, "SET") <==> Upper(s) == Ascii("SET")
    ensures Word(s, "DEL") <==> Upper(s) == Ascii("DEL")
    ensures Word(s, "EXISTS") <==> Upper(s) == Ascii("EXISTS")
    ensures Word(s, "INCR") <==> Upper(s) == Ascii("INCR")
    ensures Word(s, "DECR") <==> Upper(s) == Ascii("DECR")
    ensures Word(s, "INCRBY") <==> Upper(s) == Ascii("INCRBY")
    ensures Word(s, "DECRBY") <==> Upper(s) == Ascii("DECRBY")
  {
    hide Word, Upper, Ascii;
    WordIff(s, "GET");
    WordIff(s, "SET");
    WordIff(s, "DEL");
    WordIff(s, "EXISTS");
    WordIff(s, "INCR");
    WordIff(s, "DECR");
    WordIff(s, "INCRBY");
    WordIff(s, "DECRBY");
  }

  lemma TtlWords(s: Bytes)
    ensures Word(s, "EXPIRE") <==> Upper(s) == Ascii("EXPIRE")
    ensures Word(s, "TTL") <==> Upper(s) == Ascii("TTL")
    ensures Word(s, "PERSIST") <==> Upper(s) == Ascii("PERSIST")
    ensures Word(s, "COPY") <==> Upper(s) == Ascii("COPY")
    ensures Word(s, "EX") <==> Upper(s) == Ascii("EX")
    ensures Word(s, "REPLACE") <==> Upper(s) == Ascii("REPLACE")
    ensures Word(s, "PING") <==> Upper(s) == Ascii("PING")
    ensures Word(s, "ECHO") <==> Upper(s) == Ascii("ECHO")
  {
    hide Word, Upper, Ascii;
    WordIff(s, "EXPIRE");
    WordIff(s, "TTL");
    WordIff(s, "PERSIST");
    WordIff(s, "COPY");
    WordIff(s, "EX");
    WordIff(s, "REPLACE");
    WordIff(s, "PING");
    WordIff(s, "ECHO");
  }

  lemma SessionWords(s: Bytes)
    ensures Word(s, "SUBSCRIBE") <==> Upper(s) == Ascii("SUBSCRIBE")
    ensures Word(s, "UNSUBSCRIBE") <==> Upper(s) == Ascii("UNSUBSCRIBE")
    ensures Word(s, "PUBLISH") <==> Upper(s) == Ascii("PUBLISH")
    ensures Word(s, "AUTH") <==> Upper(s) == Ascii("AUTH")
    ensures Word(s, "QUIT") <==> Upper(s) == Ascii("QUIT")
    ensures Word(s, "RESET") <==> Upper(s) == Ascii("RESET")
  {
    hide Word, Upper, Ascii;
    WordIff(s, "SUBSCRIBE");
    WordIff(s, "UNSUBSCRIBE");
    WordIff(s, "PUBLISH");
    WordIff(s, "AUTH");
    WordIff(s, "QUIT");
    WordIff(s, "RESET");
  }

  lemma AllWords(s: Bytes)
    ensures IsKeyword("EX") && IsKeyword("REPLACE")
    ensures Word(s, "GET") <==> Upper(s) == Ascii("GET")
    ensures Word(s, "SET") <==> Upper(s) == Ascii("SET")
    ensures Word(s, "DEL") <==> Upper(s) == Ascii("DEL")
    ensures Word(s, "EXISTS") <==> Upper(s) == Ascii("EXISTS")
    ensures Word(s, "INCR") <==> Upper(s) == Ascii("INCR")
    ensures Word(s, "DECR") <==> Upper(s) == Ascii("DECR")
    ensures Word(s, "INCRBY") <==> Upper(s) == Ascii("INCRBY")
    ensures Word(s, "DECRBY") <==> Upper(s) == Ascii("DECRBY")
    ensures Word(s, "EXPIRE") <==> Upper(s) == Ascii("EXPIRE")
    ensures Word(s, "TTL") <==> Upper(s) == Ascii("TTL")
    ensures Word(s, "PERSIST") <==> Upper(s) == Ascii("PERSIST")
    ensures Word(s, "COPY") <==> Upper(s) == Ascii("COPY")
    ensures Word(s, "PING") <==> Upper(s) == Ascii("PING")
    ensures Word(s, "ECHO") <==> Upper(s) == Ascii("ECHO")
    ensures Word(s, "SUBSCRIBE") <==> Upper(s) == Ascii("SUBSCRIBE")
    ensures Word(s, "UNSUBSCRIBE") <==> Upper(s) == Ascii("UNSUBSCRIBE")
    ensures Word(s, "PUBLISH") <==> Upper(s) == Ascii("PUBLISH")
    ensures Word(s, "AUTH") <==> Upper(s) == Ascii("AUTH")
    ensures Word(s, "QUIT") <==> Upper(s) == Ascii("QUIT")
    ensures Word(s, "RESET") <==> Upper(s) == Ascii("RESET")
  {
    hide Word, Upper, Ascii, IsKeyword;
    StoreWords(s);
    TtlWords(s);
    SessionWords(s);
    TtlKeywords();
  }

  lemma UpperIsCapitals(t: Bytes, s: Bytes)
    ensures t == Upper(s) <==> Capitals(t, s)
  {
  }

  lemma NumbersIff(t: Bytes)
    ensures forall n :: Unsigned(t, n) <==> ParseU64(t) == Some(n)
    ensures forall n :: Numeral(t, n) <==> ParseI64(t) == Some(n)
  {
    hide Unsigned, Numeral, ParseU64, ParseI64;
    forall n
      ensures Unsigned(t, n) <==> ParseU64(t) == Some(n)
      ensures Numeral(t, n) <==> ParseI64(t) == Some(n)
    {
      ParseU64Iff(t, n);
      ParseI64Iff(t, n);
    }
  }

  // ---------- The parser reads this grammar

  lemma WrittenSessionIsParsed(args: seq<Bytes>, c: Command)
    requires Writes(args, c) && !c.Normal?
    ensures ParseCommandArgs(args) == Command(c)
  {
    hide Word, Upper, Ascii, ParseU64, ParseI64, Unsigned, Numeral;
    StoreKeywords();
    TtlKeywords();
    SessionKeywords();
    SessionWords(args[0]);
  }

  predicate TakesNumber(c: NormalCommand) { (c.Set? && c.ttl.Some?) || c.Expire? || c.IncrBy? || c.DecrBy? }

  predicate OnOneKey(c: NormalCommand) { c.Get? || c.Exists? || c.Incr? || c.Decr? || c.Ttl? || c.Persist? }

  lemma WrittenNumberIsParsed(args: seq<Bytes>, c: NormalCommand)
    requires args != [] && WritesNormal(args, c) && TakesNumber(c)
    ensures ParseCommandArgs(args) == Command(Normal(c))
  {
    hide Word, Upper, Ascii, ParseU64, ParseI64, Unsigned, Numeral;
    StoreKeywords();
    TtlKeywords();
    StoreWords(args[0]);
    TtlWords(args[0]);
    NumbersIff(args[|args| - 1]);
    if c.Set? {
      TtlWords(args[3]);
      assert args[1] == args[1..3][0] && args[2] == args[1..3][1];
    }
  }

  lemma WrittenKeyIsParsed(args: seq<Bytes>, c: NormalCommand)
    requires args != [] && WritesNormal(args, c) && OnOneKey(c)
    ensures ParseCommandArgs(args) == Command(Normal(c))
  {
    hide Word, Upper, Ascii, ParseU64, ParseI64, Unsigned, Numeral;
    StoreKeywords();
    TtlKeywords();
    StoreWords(args[0]);
    TtlWords(args[0]);
    assert args[1] == args[1..][0];
  }

  lemma WrittenPlainIsParsed(args: seq<Bytes>, c: NormalCommand)
    requires args != [] && WritesNormal(args, c) && !TakesNumber(c) && !OnOneKey(c)
    ensures ParseCommandArgs(args) == Command(Normal(c))
  {
    hide Word, Upper, Ascii, ParseU64, ParseI64, Unsigned, Numeral;
    StoreKeywords();
    TtlKeywords();
    SessionKeywords();
    StoreWords(args[0]);
    TtlWords(args[0]);
    SessionWords(args[0]);
    assert |args| > 1 ==> args[1] == args[1..][0];
    assert |args| > 2 ==> args[2] == args[1..][1];
    if c.Copy? && c.replace {
      TtlWords(args[3]);
      assert args[1] == args[1..3][0] && args[2] == args[1..3][1];
    }
  }

  lemma ParsedSessionWasWritten(args: seq<Bytes>)
    requires ParseCommandArgs(args).Command? && !ParseCommandArgs(args).command.Normal?
    ensures Writes(args, ParseCommandArgs(args).command)
  {
    hide Word, Upper, Ascii, ParseU64, ParseI64, Unsigned, Numeral;
    AllWords(args[0]);
  }

  lemma ParsedNumberWasWritten(args: seq<Bytes>)
    requires ParseCommandArgs(args).Command? && ParseCommandArgs(args).command.Normal?
    requires TakesNumber(ParseCommandArgs(args).command.normal)
    ensures Writes(args, ParseCommandArgs(args).command)
  {
    hide Word, Upper, Ascii, ParseU64, ParseI64, Unsigned, Numeral;
    AllWords(args[0]);
    NumbersIff(args[|args| - 1]);
    if |args| > 3 {
      TtlWords(args[3]);
    }
  }

  lemma ParsedPlainWasWritten(args: seq<Bytes>)
    requires ParseCommandArgs(args).Command? && ParseCommandArgs(args).command.Normal?
    requires !TakesNumber(ParseCommandArgs(args).command.normal)
    ensures Writes(args, ParseCommandArgs(args).command)
  {
    hide Word, Upper, Ascii, ParseU64, ParseI64, Unsigned, Numeral;
    AllWords(args[0]);
    if |args| > 3 {
      TtlWords(args[3]);
    }
  }

  /** An argument list parses to a command exactly when it writes it: the keyword and the options in any
      letter case, the right number of arguments, numbers within 64 bits. */
  lemma ParsesIff(args: seq<Bytes>, c: Command)
    ensures ParseCommandArgs(args) == Command(c) <==> Writes(args, c)
  {
    hide ParseCommandArgs, WritesNormal, Word, TakesNumber, OnOneKey;
    if Writes(args, c) {
      match c
      case Normal(n) =>
        if TakesNumber(n) {
          WrittenNumberIsParsed(args, n);
        } else if OnOneKey(n) {
          WrittenKeyIsParsed(args, n);
        } else {
          WrittenPlainIsParsed(args, n);
        }
      case _ => WrittenSessionIsParsed(args, c);
    }
    if ParseCommandArgs(args) == Command(c) {
      if !c.Normal? {
        ParsedSessionWasWritten(args);
      } else if TakesNumber(c.normal) {
        ParsedNumberWasWritten(args);
      } else {
        ParsedPlainWasWritten(args);
      }
    }
  }

  lemma BadNumberIsRefused(args: seq<Bytes>)
    requires BadNumber(args)
    ensures ParseCommandArgs(args) == Refused(InvalidArgument)
  {
    hide Word, Upper, Ascii, ParseU64, ParseI64, Unsigned, Numeral;
    StoreKeywords();
    TtlKeywords();
    StoreWords(args[0]);
    TtlWords(args[0]);
    NumbersIff(args[|args| - 1]);
    if |args| > 3 {
      TtlWords(args[3]);
    }
  }

  lemma OtherRefusals(args: seq<Bytes>)
    requires args != [] && ParseCommandArgs(args).Refused? && !BadNumber(args)
    ensures ParseCommandArgs(args) == Refused(UnknownCommand(Upper(args[0])))
  {
    hide Word, Upper, Ascii, ParseU64, ParseI64, Unsigned, Numeral;
    AllWords(args[0]);
    NumbersIff(args[|args| - 1]);
    if |args| > 3 {
      TtlWords(args[3]);
    }
  }

  /** Every other list is refused, and for which reason: no argument at all, a number that does not
      parse, or else the first argument in capitals as an unknown command. */
  lemma RefusedIff(args: seq<Bytes>)
    ensures ParseCommandArgs(args) == Refused(EmptyCommand) <==> args == []
    ensures ParseCommandArgs(args) == Refused(InvalidArgument) <==> BadNumber(args)
    ensures forall name :: ParseCommandArgs(args) == Refused(UnknownCommand(name)) <==>
              args != [] && Capitals(name, args[0]) && !BadNumber(args) && forall c :: !Writes(args, c)
    ensures forall r :: ParseCommandArgs(args) != Refused(InvalidFrame(r))
  {
    hide Word, Upper, Capitals, Writes;
    if args != [] {
      forall c
        ensures ParseCommandArgs(args) == Command(c) <==> Writes(args, c)
      {
        ParsesIff(args, c);
      }
      forall name
        ensures name == Upper(args[0]) <==> Capitals(name, args[0])
      {
        UpperIsCapitals(name, args[0]);
      }
      hide ParseCommandArgs;
      if BadNumber(args) {
        BadNumberIsRefused(args);
      } else if ParseCommandArgs(args).Refused? {
        OtherRefusals(args);
      }
      assert ParseCommandArgs(args).Command? ==> Writes(args, ParseCommandArgs(args).command);
    }
  }

  // ---------- Every command can be written

  /** The commands the grammar can express. */
  predicate Expressible(c: Command) {
    match c
    case Normal(Set(_, _, Some(secs))) => secs <= U64_MAX
    case Normal(Expire(_, secs)) => secs <= U64_MAX
    case Normal(Del(keys)) => keys != []
    case Session(Subscribe(channels)) => channels != []
    case _ => true
  }

  /** A plain way to write each command. */
  function ArgsOf(c: Command): seq<Bytes> {
    match c
    case Auth(p) => [Ascii("AUTH"), p]
    case Session(Subscribe(cs)) => [Ascii("SUBSCRIBE")] + cs
    case Session(Unsubscribe(cs)) => [Ascii("UNSUBSCRIBE")] + cs
    case Session(Quit) => [Ascii("QUIT")]
    case Session(Reset) => [Ascii("RESET")]
    case Normal(Ping(None)) => [Ascii("PING")]
    case Normal(Ping(Some(m))) => [Ascii("PING"), m]
    case Normal(Echo(t)) => [Ascii("ECHO"), t]
    case Normal(Get(k)) => [Ascii("GET"), k]
    case Normal(Set(k, v, None)) => [Ascii("SET"), k, v]
    case Normal(Set(k, v, Some(secs))) => [Ascii("SET"), k, v, Ascii("EX"), PrintNat(secs)]
    case Normal(Del(ks)) => [Ascii("DEL")] + ks
    case Normal(Exists(k)) => [Ascii("EXISTS"), k]
    case Normal(Incr(k)) => [Ascii("INCR"), k]
    case Normal(Decr(k)) => [Ascii("DECR"), k]
    case Normal(Expire(k, secs)) => [Ascii("EXPIRE"), k, PrintNat(secs)]
    case Normal(Ttl(k)) => [Ascii("TTL"), k]
    case Normal(Publish(ch, m)) => [Ascii("PUBLISH"), ch, m]
    case Normal(IncrBy(k, d)) => [Ascii("INCRBY"), k, PrintI64(d)]
    case Normal(DecrBy(k, d)) => [Ascii("DECRBY"), k, PrintI64(d)]
    case Normal(Persist(k)) => [Ascii("PERSIST"), k]
    case Normal(Copy(s, d, false)) => [Ascii("COPY"), s, d]
    case Normal(Copy(s, d, true)) => [Ascii("COPY"), s, d, Ascii("REPLACE")]
  }

  lemma CapitalsAreAWord(word: string)
    requires forall i :: 0 <= i < |word| ==> 'A' <= word[i] <= 'Z'
    ensures Word(Ascii(word), word)
  {
  }

  lemma ArgsWrite(c: Command)
    requires Expressible(c)
    ensures Writes(ArgsOf(c), c)
  {
    hide Upper, Ascii, Word, ParseU64, ParseI64, PrintI64, PrintNat, Unsigned, Numeral;
    match c
    case Auth(_) => CapitalsAreAWord("AUTH");
    case Session(s) =>
      CapitalsAreAWord("SUBSCRIBE");
      CapitalsAreAWord("UNSUBSCRIBE");
      CapitalsAreAWord("QUIT");
      CapitalsAreAWord("RESET");
    case Normal(n) =>
      if TakesNumber(n) {
        NumberArgsWrite(n);
      } else {
        PlainArgsWrite(n);
      }
  }

  lemma NumberArgsWrite(c: NormalCommand)
    requires Expressible(Normal(c)) && TakesNumber(c)
    ensures Writes(ArgsOf(Normal(c)), Normal(c))
  {
    hide Upper, Ascii, Word, ParseU64, ParseI64, PrintI64, PrintNat, Unsigned, Numeral;
    CapitalsAreAWord("SET");
    CapitalsAreAWord("EX");
    CapitalsAreAWord("EXPIRE");
    CapitalsAreAWord("INCRBY");
    CapitalsAreAWord("DECRBY");
    match c
    case Set(_, _, Some(n)) => PrintedIsUnsigned(n);
    case Expire(_, n) => PrintedIsUnsigned(n);
    case IncrBy(_, d) => PrintedIsNumeral(d);
    case DecrBy(_, d) => PrintedIsNumeral(d);
  }

  lemma PlainArgsWrite(c: NormalCommand)
    requires Expressible(Normal(c)) && !TakesNumber(c)
    ensures Writes(ArgsOf(Normal(c)), Normal(c))
  {
    hide Upper, Ascii, Word, ParseU64, ParseI64, PrintI64, PrintNat, Unsigned, Numeral;
    match c
    case Ping(_) => CapitalsAreAWord("PING");
    case Echo(_) => CapitalsAreAWord("ECHO");
    case Get(_) => CapitalsAreAWord("GET");
    case Set(_, _, _) => CapitalsAreAWord("SET");
    case Del(_) => CapitalsAreAWord("DEL");
    case Exists(_) => CapitalsAreAWord("EXISTS");
    case Incr(_) => CapitalsAreAWord("INCR");
    case Decr(_) => CapitalsAreAWord("DECR");
    case Ttl(_) => CapitalsAreAWord("TTL");
    case Publish(_, _) => CapitalsAreAWord("PUBLISH");
    case Persist(_) => CapitalsAreAWord("PERSIST");
    case Copy(_, _, _) =>
      CapitalsAreAWord("COPY");
      CapitalsAreAWord("REPLACE");
    case _ =>
  }

  lemma PrintedIsUnsigned(n: nat)
    requires n <= U64_MAX
    ensures Unsigned(PrintNat(n), n)
  {
    ParsePrintU64(n);
    ParseU64Iff(PrintNat(n), n);
  }

  lemma PrintedIsNumeral(n: i64)
    ensures Numeral(PrintI64(n), n)
  {
    ParsePrintI64(n);
    ParseI64Iff(PrintI64(n), n);
  }

  /** No command is out of reach: each has an argument list that parses to it. */
  lemma ParseWritten(c: Command)
    requires Expressible(c)
    ensures ParseCommandArgs(ArgsOf(c)) == Command(c)
  {
    hide ParseCommandArgs, ArgsOf, Writes;
    ArgsWrite(c);
    ParsesIff(ArgsOf(c), c);
  }
}
