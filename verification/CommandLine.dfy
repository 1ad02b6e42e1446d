/**
 The splitter that turns the configured upstream command into a program and its arguments.

 `SplitCommandLine` is the loop of the source. What it computes is stated against a grammar:
 a command is read as a list of tokens (gaps, bare characters, escapes, quoted pieces) followed
 by a tail that may be unfinished. Every command has such a reading, and the reading alone
 decides the outcome.
 */
module CommandLine {
  import opened Text
  import opened Wrappers

  datatype SplitError = UnterminatedEscape | UnterminatedQuote

  // ---------------------------------------------------------------- the grammar

  datatype QuotedChar = Plain(c: char) | Backslashed(c: char)

  datatype Token =
    | Gap(c: char)
    | Bare(c: char)
    | Escaped(c: char)
    | Single(text: string)
    | Double(items: seq<QuotedChar>)

  /** What is left over after the last complete token. */
  datatype Tail =
    | Closed
    | OpenEscape
    | OpenSingle(text: string)
    | OpenDouble(items: seq<QuotedChar>)
    | OpenDoubleEscape(items: seq<QuotedChar>)

  ghost predicate ItemsOk(items: seq<QuotedChar>) {
    forall i | i in items :: i.Plain? ==> i.c != '"' && i.c != '\\'
  }

  ghost predicate TokenOk(t: Token) {
    match t
    case Gap(c) => IsSpace(c)
    case Bare(c) => !IsSpace(c) && c != '\\' && c != '\'' && c != '"'
    case Escaped(_) => true
    case Single(text) => '\'' !in text
    case Double(items) => ItemsOk(items)
  }

  ghost predicate TailOk(tail: Tail) {
    match tail
    case Closed => true
    case OpenEscape => true
    case OpenSingle(text) => '\'' !in text
    case OpenDouble(items) => ItemsOk(items)
    case OpenDoubleEscape(items) => ItemsOk(items)
  }

  ghost predicate ReadingOk(ts: seq<Token>, tail: Tail) {
    (forall t | t in ts :: TokenOk(t)) && TailOk(tail)
  }

  ghost function RenderItems(items: seq<QuotedChar>): string {
    if items == [] then ""
    else
      var last := items[|items| - 1];
      RenderItems(items[..|items| - 1]) + (if last.Plain? then [last.c] else ['\\', last.c])
  }

  ghost function RenderToken(t: Token): string {
    match t
    case Gap(c) => [c]
    case Bare(c) => [c]
    case Escaped(c) => ['\\', c]
    case Single(text) => "'" + text + "'"
    case Double(items) => "\"" + RenderItems(items) + "\""
  }

  ghost function RenderTail(tail: Tail): string {
    match tail
    case Closed => ""
    case OpenEscape => "\\"
    case OpenSingle(text) => "'" + text
    case OpenDouble(items) => "\"" + RenderItems(items)
    case OpenDoubleEscape(items) => "\"" + RenderItems(items) + "\\"
  }

  ghost function Render(ts: seq<Token>): string {
    if ts == [] then "" else Render(ts[..|ts| - 1]) + RenderToken(ts[|ts| - 1])
  }

  ghost function ItemsText(items: seq<QuotedChar>): string {
    if items == [] then "" else ItemsText(items[..|items| - 1]) + [items[|items| - 1].c]
  }

  /** The characters that a token contributes to its word. */
  ghost function TokenText(t: Token): string
    requires !t.Gap?
  {
    match t
    case Bare(c) => [c]
    case Escaped(c) => [c]
    case Single(text) => text
    case Double(items) => ItemsText(items)
  }

  /** The finished words of a token list and the text of the word still being written. */
  ghost function Gather(ts: seq<Token>): (seq<string>, string) {
    if ts == [] then ([], "")
    else
      var (words, current) := Gather(ts[..|ts| - 1]);
      var last := ts[|ts| - 1];
      if !last.Gap? then (words, current + TokenText(last))
      else if current == "" then (words, "")
      else (words + [current], "")
  }

  ghost function Words(ts: seq<Token>): seq<string> {
    var (words, current) := Gather(ts);
    if current == "" then words else words + [current]
  }

  /** What a reading means: its words, or the error its unfinished tail calls for. */
  ghost function Outcome(ts: seq<Token>, tail: Tail): Result<seq<string>, SplitError> {
    match tail
    case Closed => Ok(Words(ts))
    case OpenEscape => Err(UnterminatedEscape)
    case OpenDoubleEscape(_) => Err(UnterminatedEscape)
    case OpenSingle(_) => Err(UnterminatedQuote)
    case OpenDouble(_) => Err(UnterminatedQuote)
  }

  // ---------------------------------------------------------------- the scanner

  datatype Scanner = Scanner(words: seq<string>, current: string, inSingle: bool, inDouble: bool, escape: bool)

  /** One turn of the source's switch. */
  function Step(s: Scanner, r: char): Scanner {
    if s.escape then s.(current := s.current + [r], escape := false)
    else if r == '\\' then
      if s.inSingle then s.(current := s.current + [r]) else s.(escape := true)
    else if r == '\'' && !s.inDouble then s.(inSingle := !s.inSingle)
    else if r == '"' && !s.inSingle then s.(inDouble := !s.inDouble)
    else if IsSpace(r) && !s.inSingle && !s.inDouble then
      if |s.current| > 0 then s.(words := s.words + [s.current], current := "") else s
    else s.(current := s.current + [r])
  }

  function Scan(command: string): Scanner {
    if command == "" then Scanner([], "", false, false, false)
    else Step(Scan(command[..|command| - 1]), command[|command| - 1])
  }

  /** What the end of the command makes of the scanner. */
  function Finish(s: Scanner): Result<seq<string>, SplitError> {
    if s.escape then Err(UnterminatedEscape)
    else if s.inSingle || s.inDouble then Err(UnterminatedQuote)
    else if |s.current| > 0 then Ok(s.words + [s.current])
    else Ok(s.words)
  }

  function Split(command: string): Result<seq<string>, SplitError> {
    Finish(Scan(command))
  }

  method SplitCommandLine(command: string) returns (r: Result<seq<string>, SplitError>)
    ensures r == Split(command)
  {
    var words: seq<string>, current := [], "";
    var inSingle, inDouble, escape := false, false, false;
    for i := 0 to |command|
      invariant Scanner(words, current, inSingle, inDouble, escape) == Scan(command[..i])
    {
      assert command[..i + 1][..i] == command[..i];
      var c := command[i];
      if escape {
        current := current + [c];
        escape := false;
      } else if c == '\\' {
        if inSingle {
          current := current + [c];
          continue;
        }
        escape := true;
      } else if c == '\'' && !inDouble {
        inSingle := !inSingle;
      } else if c == '"' && !inSingle {
        inDouble := !inDouble;
      } else if IsSpace(c) && !inSingle && !inDouble {
        if |current| > 0 {
          words := words + [current];
          current := "";
        }
      } else {
        current := current + [c];
      }
    }
    assert command[..|command|] == command;
    if escape {
      return Err(UnterminatedEscape);
    }
    if inSingle || inDouble {
      return Err(UnterminatedQuote);
    }
    if |current| > 0 {
      words := words + [current];
    }
    return Ok(words);
  }

  // ---------------------------------------------------------------- scanner = grammar

  /** Where the scanner stands after a reading. */
  ghost function ScannerAfter(ts: seq<Token>, tail: Tail): Scanner {
    var (words, current) := Gather(ts);
    match tail
    case Closed => Scanner(words, current, false, false, false)
    case OpenEscape => Scanner(words, current, false, false, true)
    case OpenSingle(text) => Scanner(words, current + text, true, false, false)
    case OpenDouble(items) => Scanner(words, current + ItemsText(items), false, true, false)
    case OpenDoubleEscape(items) => Scanner(words, current + ItemsText(items), false, true, true)
  }

  ghost function Whole(ts: seq<Token>, tail: Tail): string {
    Render(ts) + RenderTail(tail)
  }

  /** A non-empty reading with its last character taken away: a shorter reading and that character. */
  ghost function Shorten(ts: seq<Token>, tail: Tail): (seq<Token>, Tail, char)
    requires ts != [] || tail != Closed
  {
    match tail
    case Closed =>
      var init := ts[..|ts| - 1];
      (match ts[|ts| - 1]
       case Gap(c) => (init, Closed, c)
       case Bare(c) => (init, Closed, c)
       case Escaped(c) => (init, OpenEscape, c)
       case Single(text) => (init, OpenSingle(text), '\'')
       case Double(items) => (init, OpenDouble(items), '"'))
    case OpenEscape => (ts, Closed, '\\')
    case OpenSingle(text) =>
      if text == "" then (ts, Closed, '\'') else (ts, OpenSingle(text[..|text| - 1]), text[|text| - 1])
    case OpenDouble(items) =>
      if items == [] then (ts, Closed, '"')
      else
        var init, last := items[..|items| - 1], items[|items| - 1];
        (ts, if last.Plain? then OpenDouble(init) else OpenDoubleEscape(init), last.c)
    case OpenDoubleEscape(items) => (ts, OpenDouble(items), '\\')
  }

  lemma ShortenReadingOk(ts: seq<Token>, tail: Tail)
    requires ts != [] || tail != Closed
    requires ReadingOk(ts, tail)
    ensures var (ts', tail', _) := Shorten(ts, tail); ReadingOk(ts', tail')
  {
    if tail == Closed { assert ts[|ts| - 1] in ts; }
  }

  lemma TokenShortens(ts: seq<Token>)
    requires ts != []
    ensures var (_, tail', r) := Shorten(ts, Closed); RenderToken(ts[|ts| - 1]) == RenderTail(tail') + [r]
  {
    match ts[|ts| - 1]
    case Single(text) => assert RenderToken(Single(text)) == RenderTail(OpenSingle(text)) + ['\''];
    case Double(items) => assert RenderToken(Double(items)) == RenderTail(OpenDouble(items)) + ['"'];
    case _ =>
  }

  lemma ItemsShorten(items: seq<QuotedChar>)
    requires items != []
    ensures var init, last := items[..|items| - 1], items[|items| - 1];
            RenderTail(OpenDouble(items))
              == RenderTail(if last.Plain? then OpenDouble(init) else OpenDoubleEscape(init)) + [last.c]
  {
  }

  lemma TailShortens(ts: seq<Token>, tail: Tail)
    requires tail != Closed
    ensures var (_, tail', r) := Shorten(ts, tail); RenderTail(tail) == RenderTail(tail') + [r]
  {
    match tail
    case OpenSingle(text) =>
      if text != "" {
        assert text == text[..|text| - 1] + [text[|text| - 1]];
      }
    case OpenDouble(items) =>
      if items != [] {
        ItemsShorten(items);
      }
    case _ =>
  }

  lemma Associative(a: string, b: string, c: string)
    ensures a + (b + c) == a + b + c
  {
  }

  lemma ShortenRenders(ts: seq<Token>, tail: Tail)
    requires ts != [] || tail != Closed
    ensures var (ts', tail', r) := Shorten(ts, tail); Whole(ts, tail) == Whole(ts', tail') + [r]
  {
    var (ts', tail', r) := Shorten(ts, tail);
    if tail == Closed {
      TokenShortens(ts);
      Associative(Render(ts'), RenderTail(tail'), [r]);
      assert Whole(ts, tail) == Render(ts);
    } else {
      TailShortens(ts, tail);
      Associative(Render(ts'), RenderTail(tail'), [r]);
    }
  }

  /** The scanner advances over that character exactly from the shorter reading to the longer one. */
  lemma ShortenSteps(ts: seq<Token>, tail: Tail)
    requires ts != [] || tail != Closed
    requires ReadingOk(ts, tail)
    ensures var (ts', tail', r) := Shorten(ts, tail);
            Step(ScannerAfter(ts', tail'), r) == ScannerAfter(ts, tail)
  {
    var current := Gather(ts).1;
    match tail
    case Closed => assert ts[|ts| - 1] in ts;
    case OpenSingle(text) =>
      assert current + "" == current;
      if text != "" {
        var n := |text| - 1;
        assert text[n] in text;
        assert current + text[..n] + [text[n]] == current + text;
      }
    case OpenDouble(items) =>
      assert current + "" == current;
      if items != [] {
        var n := |items| - 1;
        assert items[n] in items;
        assert current + ItemsText(items[..n]) + [items[n].c] == current + ItemsText(items);
      }
    case _ =>
  }

  lemma {:induction false} ScanReading(ts: seq<Token>, tail: Tail)
    requires ReadingOk(ts, tail)
    ensures Scan(Whole(ts, tail)) == ScannerAfter(ts, tail)
    decreases |Whole(ts, tail)|
  {
    if ts != [] || tail != Closed {
      var (ts', tail', r) := Shorten(ts, tail);
      ShortenReadingOk(ts, tail);
      ShortenRenders(ts, tail);
      ShortenSteps(ts, tail);
      ScanReading(ts', tail');
      var w := Whole(ts, tail);
      assert w[..|w| - 1] == Whole(ts', tail');
    }
  }

  /** Soundness: a command means what any of its readings says. */
  lemma SplitMeansReading(ts: seq<Token>, tail: Tail)
    requires ReadingOk(ts, tail)
    ensures Split(Whole(ts, tail)) == Outcome(ts, tail)
  {
    ScanReading(ts, tail);
  }

  /** A reading with one character more: the inverse of `Shorten`. */
  ghost function Extend(ts: seq<Token>, tail: Tail, r: char): (seq<Token>, Tail) {
    match tail
    case Closed =>
      if r == '\\' then (ts, OpenEscape)
      else if r == '\'' then (ts, OpenSingle(""))
      else if r == '"' then (ts, OpenDouble([]))
      else (ts + [if IsSpace(r) then Gap(r) else Bare(r)], Closed)
    case OpenEscape => (ts + [Escaped(r)], Closed)
    case OpenSingle(text) => if r == '\'' then (ts + [Single(text)], Closed) else (ts, OpenSingle(text + [r]))
    case OpenDouble(items) =>
      if r == '"' then (ts + [Double(items)], Closed)
      else if r == '\\' then (ts, OpenDoubleEscape(items))
      else (ts, OpenDouble(items + [Plain(r)]))
    case OpenDoubleEscape(items) => (ts, OpenDouble(items + [Backslashed(r)]))
  }

  lemma ExtendThenShorten(ts: seq<Token>, tail: Tail, r: char)
    requires ReadingOk(ts, tail)
    ensures var (ts', tail') := Extend(ts, tail, r);
            && ReadingOk(ts', tail')
            && (ts' != [] || tail' != Closed)
            && Shorten(ts', tail') == (ts, tail, r)
  {
  }

  /** Completeness: every command has a reading. */
  lemma {:induction false} EveryCommandHasAReading(command: string) returns (ts: seq<Token>, tail: Tail)
    ensures ReadingOk(ts, tail)
    ensures Whole(ts, tail) == command
  {
    if command == "" {
      return [], Closed;
    }
    var n := |command| - 1;
    assert command == command[..n] + [command[n]];
    var before, beforeTail := EveryCommandHasAReading(command[..n]);
    ExtendThenShorten(before, beforeTail, command[n]);
    var longer := Extend(before, beforeTail, command[n]);
    ts, tail := longer.0, longer.1;
    ShortenRenders(ts, tail);
  }

  ghost predicate ReadsAs(command: string, ts: seq<Token>, tail: Tail) {
    ReadingOk(ts, tail) && Whole(ts, tail) == command
  }

  /** Splitting gives a result exactly when the command has a reading with that outcome. */
  lemma SplitIsTheGrammar(command: string, r: Result<seq<string>, SplitError>)
    ensures Split(command) == r <==>
            exists ts, tail :: ReadsAs(command, ts, tail) && Outcome(ts, tail) == r
  {
    if Split(command) == r {
      var ts, tail := EveryCommandHasAReading(command);
      SplitMeansReading(ts, tail);
      assert ReadsAs(command, ts, tail);
    }
    forall ts, tail | ReadsAs(command, ts, tail) && Outcome(ts, tail) == r
      ensures Split(command) == r
    {
      SplitMeansReading(ts, tail);
    }
  }

  /** A command splits exactly when it has a reading with nothing left open. */
  lemma SplitSucceedsExactly(command: string)
    ensures Split(command).Ok? <==> exists ts :: ReadsAs(command, ts, Closed)
  {
    var ts, tail := EveryCommandHasAReading(command);
    SplitMeansReading(ts, tail);
    if tail == Closed {
      assert ReadsAs(command, ts, Closed);
    }
    forall ts' | ReadsAs(command, ts', Closed)
      ensures Split(command).Ok?
    {
      SplitMeansReading(ts', Closed);
    }
  }

  // ---------------------------------------------------------------- invariants of the scan

  ghost function Concat(words: seq<string>): string {
    if words == [] then "" else Concat(words[..|words| - 1]) + words[|words| - 1]
  }

  /** `a` can be had from `b` by striking out characters. */
  ghost predicate Subsequence(a: string, b: string)
    decreases |b|
  {
    || a == ""
    || (b != ""
        && (|| (a[|a| - 1] == b[|b| - 1] && Subsequence(a[..|a| - 1], b[..|b| - 1]))
            || Subsequence(a, b[..|b| - 1])))
  }

  /** No step leaves both quotes open, escapes inside single quotes, or finishes an empty word. */
  lemma {:induction false} ScanInvariant(command: string)
    ensures var s := Scan(command);
            !(s.inSingle && s.inDouble) && !(s.escape && s.inSingle) && forall w | w in s.words :: w != ""
  {
    if command != "" {
      ScanInvariant(command[..|command| - 1]);
    }
  }

  lemma StepText(s: Scanner, c: char)
    ensures var s', was := Step(s, c), Concat(s.words) + s.current;
            Concat(s'.words) + s'.current == was || Concat(s'.words) + s'.current == was + [c]
  {
    var s' := Step(s, c);
    if s'.words != s.words {
      assert s'.words[..|s.words|] == s.words;
    } else {
      assert Concat(s.words) + (s.current + [c]) == Concat(s.words) + s.current + [c];
    }
  }

  lemma {:induction false} ScanText(command: string)
    ensures var s := Scan(command); Subsequence(Concat(s.words) + s.current, command)
  {
    if command != "" {
      var n := |command| - 1;
      ScanText(command[..n]);
      var s := Scan(command[..n]);
      StepText(s, command[n]);
      var was := Concat(s.words) + s.current;
      assert (was + [command[n]])[..|was|] == was;
    }
  }

  /** No word is empty, and no word holds a character that the command did not have, in order. */
  lemma WordsComeFromTheCommand(command: string)
    requires Split(command).Ok?
    ensures forall w | w in Split(command).value :: w != ""
    ensures Subsequence(Concat(Split(command).value), command)
  {
    ScanInvariant(command);
    ScanText(command);
    var s := Scan(command);
    if s.current != "" {
      assert (s.words + [s.current])[..|s.words|] == s.words;
    } else {
      assert Concat(s.words) + s.current == Concat(s.words);
    }
  }

  // ---------------------------------------------------------------- homomorphism

  /** The scan of a text from a scanner that has already read something. */
  function ScanFrom(s: Scanner, text: string): Scanner
    decreases |text|
  {
    if text == "" then s else ScanFrom(Step(s, text[0]), text[1..])
  }

  lemma {:induction false} ScanAppend(a: string, b: string)
    ensures Scan(a + b) == ScanFrom(Scan(a), b)
    decreases |b|
  {
    if b == "" {
      assert a + b == a;
    } else {
      var next := a + [b[0]];
      assert next[..|a|] == a;
      ScanAppend(next, b[1..]);
      assert next + b[1..] == a + b;
    }
  }

  lemma ScanIsScanFrom(text: string)
    ensures Scan(text) == ScanFrom(Scan(""), text)
  {
    ScanAppend("", text);
    assert "" + text == text;
  }

  /** Words already finished are only carried along. */
  lemma {:induction false} ScanFromKeepsWords(words: seq<string>, s: Scanner, text: string)
    ensures var done := ScanFrom(s, text);
            ScanFrom(s.(words := words + s.words), text) == done.(words := words + done.words)
    decreases |text|
  {
    if text != "" {
      var s1 := Step(s, text[0]);
      assert words + (s.words + [s.current]) == words + s.words + [s.current];
      assert Step(s.(words := words + s.words), text[0]) == s1.(words := words + s1.words);
      ScanFromKeepsWords(words, s1, text[1..]);
    }
  }

  /** White space outside quotes finishes the word being written. */
  lemma {:induction false} ScanFromGap(s: Scanner, gap: string)
    requires gap != "" && AllSpace(gap)
    requires !s.inSingle && !s.inDouble && !s.escape
    ensures ScanFrom(s, gap)
         == Scanner(if s.current == "" then s.words else s.words + [s.current], "", false, false, false)
    decreases |gap|
  {
    assert IsSpace(gap[0]);
    if |gap| > 1 {
      assert AllSpace(gap[1..]);
      ScanFromGap(Step(s, gap[0]), gap[1..]);
    }
  }

  lemma FinishAfterWords(words: seq<string>, s: Scanner)
    requires Finish(s).Ok?
    ensures Finish(s.(words := words + s.words)) == Ok(words + Finish(s).value)
  {
    assert words + (s.words + [s.current]) == words + s.words + [s.current];
  }

  lemma ScanAfterGap(a: string, gap: string, b: string)
    requires gap != "" && AllSpace(gap) && Split(a).Ok?
    ensures Scan(a + gap + b) == ScanFrom(Scan("").(words := Split(a).value), b)
  {
    ScanAppend(a, gap);
    ScanFromGap(Scan(a), gap);
    ScanAppend(a + gap, b);
  }

  /** White space between two complete commands keeps their words apart and in order. */
  lemma SplitIsAHomomorphism(a: string, gap: string, b: string)
    requires gap != "" && AllSpace(gap)
    requires Split(a).Ok? && Split(b).Ok?
    ensures Split(a + gap + b) == Ok(Split(a).value + Split(b).value)
  {
    var words, start := Split(a).value, Scan("");
    ScanAfterGap(a, gap, b);
    ScanIsScanFrom(b);
    assert words + start.words == words;
    ScanFromKeepsWords(words, start, b);
    FinishAfterWords(words, Scan(b));
  }

  // ---------------------------------------------------------------- quoting

  datatype Style = SingleQuotes | Backslashes

  /** After an opening single quote: the word with each inner quote written '\'' and the quote closed. */
  function SingleQuoteRest(word: string): string {
    if word == "" then "'"
    else (if word[0] == '\'' then "'\\''" else [word[0]]) + SingleQuoteRest(word[1..])
  }

  function Backslash(word: string): string {
    if word == "" then "" else ['\\', word[0]] + Backslash(word[1..])
  }

  function Quote(style: Style, word: string): string {
    match style
    case SingleQuotes => "'" + SingleQuoteRest(word)
    case Backslashes => Backslash(word)
  }

  lemma ScanFromCons(s: Scanner, c: char, rest: string)
    ensures ScanFrom(s, [c] + rest) == ScanFrom(Step(s, c), rest)
  {
    assert ([c] + rest)[1..] == rest;
  }

  /** A quote inside single quotes takes four characters: it ends the quotes, escapes a quote and starts them again. */
  lemma ScanInnerQuote(s: Scanner, rest: string)
    requires s.inSingle && !s.inDouble && !s.escape
    ensures ScanFrom(s, "'\\''" + rest) == ScanFrom(s.(current := s.current + ['\'']), rest)
  {
    assert "'\\''" + rest == ['\''] + (['\\'] + (['\''] + (['\''] + rest)));
    ScanFromCons(s, '\'', ['\\'] + (['\''] + (['\''] + rest)));
    ScanFromCons(s.(inSingle := false), '\\', ['\''] + (['\''] + rest));
    ScanFromCons(s.(inSingle := false, escape := true), '\'', ['\''] + rest);
    ScanFromCons(s.(inSingle := false, current := s.current + ['\'']), '\'', rest);
  }

  lemma {:induction false} ScanSingleQuoteRest(s: Scanner, word: string)
    requires s.inSingle && !s.inDouble && !s.escape
    ensures ScanFrom(s, SingleQuoteRest(word)) == s.(current := s.current + word, inSingle := false)
    decreases |word|
  {
    if word == "" {
      assert s.current + word == s.current;
      ScanFromCons(s, '\'', "");
    } else {
      var rest, next := SingleQuoteRest(word[1..]), s.(current := s.current + [word[0]]);
      if word[0] == '\'' {
        ScanInnerQuote(s, rest);
      } else {
        ScanFromCons(s, word[0], rest);
      }
      ScanSingleQuoteRest(next, word[1..]);
      assert next.current + word[1..] == s.current + word;
    }
  }

  lemma {:induction false} ScanBackslash(s: Scanner, word: string)
    requires !s.inSingle && !s.escape
    ensures ScanFrom(s, Backslash(word)) == s.(current := s.current + word)
    decreases |word|
  {
    if word == "" {
      assert s.current + word == s.current;
    } else {
      var rest, next := Backslash(word[1..]), s.(current := s.current + [word[0]]);
      assert Backslash(word) == ['\\'] + ([word[0]] + rest);
      ScanFromCons(s, '\\', [word[0]] + rest);
      ScanFromCons(s.(escape := true), word[0], rest);
      ScanBackslash(next, word[1..]);
      assert next.current + word[1..] == s.current + word;
    }
  }

  lemma ScanQuoted(s: Scanner, style: Style, word: string)
    requires !s.inSingle && !s.inDouble && !s.escape
    ensures ScanFrom(s, Quote(style, word)) == s.(current := s.current + word)
  {
    match style
    case SingleQuotes =>
      ScanFromCons(s, '\'', SingleQuoteRest(word));
      ScanSingleQuoteRest(s.(inSingle := true), word);
    case Backslashes =>
      ScanBackslash(s, word);
  }

  lemma SplitQuotedWord(style: Style, word: string)
    requires word != ""
    ensures Split(Quote(style, word)) == Ok([word])
  {
    ScanIsScanFrom(Quote(style, word));
    ScanQuoted(Scan(""), style, word);
    var empty: seq<string> := [];
    assert "" + word == word && empty + [word] == [word];
  }

  /** A word, the way it is quoted, and the white space written after it. */
  datatype Written = Written(word: string, style: Style, gap: string)

  function Line(items: seq<Written>): string {
    if items == [] then ""
    else if |items| == 1 then Quote(items[0].style, items[0].word)
    else Quote(items[0].style, items[0].word) + items[0].gap + Line(items[1..])
  }

  ghost function WordsOf(items: seq<Written>): seq<string> {
    seq(|items|, i requires 0 <= i < |items| => items[i].word)
  }

  ghost predicate WrittenOk(items: seq<Written>) {
    forall w | w in items :: w.word != "" && w.gap != "" && AllSpace(w.gap)
  }

  /** Quoting words, in any mix of styles and with any white space between them, is undone by splitting. */
  lemma {:induction false} SplitUndoesQuoting(items: seq<Written>)
    requires WrittenOk(items)
    ensures Split(Line(items)) == Ok(WordsOf(items))
  {
    if items != [] {
      var first := items[0];
      SplitQuotedWord(first.style, first.word);
      if |items| == 1 {
        assert WordsOf(items) == [first.word];
      } else {
        SplitUndoesQuoting(items[1..]);
        SplitIsAHomomorphism(Quote(first.style, first.word), first.gap, Line(items[1..]));
        assert WordsOf(items) == [first.word] + WordsOf(items[1..]);
      }
    }
  }

  /** And that is exactly when no word is empty: an empty word leaves no trace, however it is quoted. */
  lemma QuotingIsUndoneExactly(items: seq<Written>)
    requires forall w | w in items :: w.gap != "" && AllSpace(w.gap)
    ensures Split(Line(items)) == Ok(WordsOf(items)) <==> forall w | w in items :: w.word != ""
  {
    if forall w | w in items :: w.word != "" {
      SplitUndoesQuoting(items);
    } else if Split(Line(items)) == Ok(WordsOf(items)) {
      WordsComeFromTheCommand(Line(items));
      forall i | 0 <= i < |items|
        ensures items[i].word != ""
      {
        assert WordsOf(items)[i] in WordsOf(items);
      }
    }
  }

  /** So splitting, quoting the words and splitting again changes nothing. */
  lemma SplitIsStable(command: string, style: Style, gap: string)
    requires Split(command).Ok?
    requires gap != "" && AllSpace(gap)
    ensures var words := Split(command).value;
            Split(Line(seq(|words|, i requires 0 <= i < |words| => Written(words[i], style, gap)))) == Split(command)
  {
    var words := Split(command).value;
    WordsComeFromTheCommand(command);
    var items := seq(|words|, i requires 0 <= i < |words| => Written(words[i], style, gap));
    forall w | w in items
      ensures w.word != "" && w.gap != "" && AllSpace(w.gap)
    {
      var i :| 0 <= i < |items| && items[i] == w;
      assert words[i] in words;
    }
    SplitUndoesQuoting(items);
    assert WordsOf(items) == words;
  }

  // ---------------------------------------------------------------- normalizeCommand

  datatype CommandError = EmptyCommand | Unsplittable(error: SplitError)

  datatype Command = Command(base: string, args: seq<string>)

  function Normalized(words: seq<string>, extraArgs: seq<string>): Result<Command, CommandError> {
    if words == [] then Err(EmptyCommand) else Ok(Command(words[0], words[1..] + extraArgs))
  }

  method NormalizeCommand(command: string, extraArgs: seq<string>) returns (r: Result<Command, CommandError>)
    ensures Split(command).Err? ==> r == Err(Unsplittable(Split(command).error))
    ensures Split(command).Ok? ==> r == Normalized(Split(command).value, extraArgs)
    ensures Split(command) == Ok([]) ==> r == Err(EmptyCommand)
    ensures Split(command).Ok? && Split(command).value != [] ==>
              r.Ok? && [r.value.base] + r.value.args == Split(command).value + extraArgs
  {
    var parts := SplitCommandLine(command);
    if parts.Err? {
      return Err(Unsplittable(parts.error));
    }
    var words := parts.value;
    if |words| == 0 {
      return Err(EmptyCommand);
    }
    var args: seq<string> := [];
    if |words| > 1 {
      args := args + words[1..];
    }
    args := args + extraArgs;
    assert args == words[1..] + extraArgs;
    return Ok(Command(words[0], args));
  }

  /** Arguments written into the command line and arguments configured beside it are the same thing. */
  lemma ExtraArgsCanBeWritten(command: string, gap: string, items: seq<Written>)
    requires gap != "" && AllSpace(gap) && WrittenOk(items)
    requires Split(command).Ok? && Split(command).value != []
    ensures Split(command + gap + Line(items)).Ok?
    ensures Normalized(Split(command + gap + Line(items)).value, [])
         == Normalized(Split(command).value, WordsOf(items))
  {
    SplitUndoesQuoting(items);
    SplitIsAHomomorphism(command, gap, Line(items));
    var words := Split(command).value;
    assert (words + WordsOf(items))[1..] + [] == words[1..] + WordsOf(items);
  }
}
