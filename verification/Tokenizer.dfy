/** The command-line tokenizers of the two clients (cmd/client/main.py and cmd/client/main.go). */
module Tokenizer {

  datatype Tokens = Parts(parts: seq<string>) | UnmatchedQuotes | NoCommand

  /** The variables of the tokenizer loop. */
  datatype Lexer = Lexer(parts: seq<string>, current: string, inQuotes: bool)

  const START: Lexer := Lexer([], "", false)

  datatype Client = Python | Go

  function Emit(l: Lexer): Lexer {
    l.(parts := l.parts + [l.current], current := "")
  }

  /** One character. The Go loop has no use for a space inside quotes and drops it. */
  function Step(client: Client, l: Lexer, c: char): Lexer {
    if c == '\"' then
      var toggled := l.(inQuotes := !l.inQuotes);
      if toggled.inQuotes then toggled else Emit(toggled)
    else if c == ' ' && !l.inQuotes then
      if l.current != "" then Emit(l) else l
    else if c == ' ' && client.Go? then l
    else l.(current := l.current + [c])
  }

  function Scan(client: Client, l: Lexer, input: string): Lexer {
    if input == "" then l else Step(client, Scan(client, l, input[..|input| - 1]), input[|input| - 1])
  }

  function Finish(l: Lexer): Tokens {
    var parts := if l.current != "" then l.parts + [l.current] else l.parts;
    if l.inQuotes then UnmatchedQuotes
    else if parts == [] then NoCommand
    else Parts(parts)
  }

  function Tokenize(client: Client, input: string): Tokens {
    Finish(Scan(client, START, input))
  }

  /** The loop of arg_parser in the Python client. */
  method ParsePython(input: string) returns (r: Tokens)
    ensures r == Tokenize(Python, input)
  {
    var parts: seq<string>, current, inQuotes := [], "", false;
    for i := 0 to |input|
      invariant Lexer(parts, current, inQuotes) == Scan(Python, START, input[..i])
    {
      assert input[..i + 1][..i] == input[..i];
      var c := input[i];
      if c == '\"' {
        inQuotes := !inQuotes;
        if !inQuotes {
          parts := parts + [current];
          current := "";
        }
      } else if c == ' ' && !inQuotes {
        if current != "" {
          parts := parts + [current];
          current := "";
        }
      } else {
        current := current + [c];
      }
    }
    assert input[..|input|] == input;
    if current != "" {
      parts := parts + [current];
    }
    if inQuotes {
      return UnmatchedQuotes;
    }
    if parts == [] {
      return NoCommand;
    }
    return Parts(parts);
  }

  /** The loop of argParser in the Go client. */
  method ParseGo(input: string) returns (r: Tokens)
    ensures r == Tokenize(Go, input)
  {
    var parts: seq<string>, current, inQuotes := [], "", false;
    for i := 0 to |input|
      invariant Lexer(parts, current, inQuotes) == Scan(Go, START, input[..i])
    {
      assert input[..i + 1][..i] == input[..i];
      match input[i] {
        case '\"' =>
          inQuotes := !inQuotes;
          if !inQuotes {
            parts := parts + [current];
            current := "";
          }
        case ' ' =>
          if !inQuotes && current != "" {
            parts := parts + [current];
            current := "";
          }
        case c =>
          current := current + [c];
      }
    }
    assert input[..|input|] == input;
    if current != "" {
      parts := parts + [current];
    }
    if inQuotes {
      return UnmatchedQuotes;
    }
    if |parts| == 0 {
      return NoCommand;
    }
    return Parts(parts);
  }

  // ------------------------------------------------------------------ quoting

  function Quote(t: string): string {
    ['\"'] + t + ['\"']
  }

  /** The tokens, quoted and separated by one space. */
  function Line(ts: seq<string>): string {
    if ts == [] then ""
    else if |ts| == 1 then Quote(ts[0])
    else Line(ts[..|ts| - 1]) + [' '] + Quote(ts[|ts| - 1])
  }

  /** What a client can carry inside quotes. */
  predicate Quotable(client: Client, t: string) {
    forall i :: 0 <= i < |t| ==> t[i] != '\"' && (client.Go? ==> t[i] != ' ')
  }

  predicate AllQuotable(client: Client, ts: seq<string>) {
    forall i :: 0 <= i < |ts| ==> Quotable(client, ts[i])
  }

  lemma {:induction false} ScanAppend(client: Client, l: Lexer, a: string, b: string)
    ensures Scan(client, l, a + b) == Scan(client, Scan(client, l, a), b)
  {
    hide Step;
    if b == "" {
      assert a + b == a;
    } else {
      var n := |b| - 1;
      ScanAppend(client, l, a, b[..n]);
      assert (a + b)[..|a + b| - 1] == a + b[..n];
    }
  }

  lemma ScanOne(client: Client, l: Lexer, c: char)
    ensures Scan(client, l, [c]) == Step(client, l, c)
  {
    hide Step;
    assert [c][..0] == "";
  }

  lemma {:induction false} ScanQuotable(client: Client, l: Lexer, t: string)
    requires l.inQuotes && Quotable(client, t)
    ensures Scan(client, l, t) == l.(current := l.current + t)
  {
    if t == "" {
      assert l.current + t == l.current;
    } else {
      var n := |t| - 1;
      ScanQuotable(client, l, t[..n]);
      assert l.current + t == l.current + t[..n] + [t[n]];
    }
  }

  /** Between tokens, a quoted token is one more part. */
  lemma ScanQuote(client: Client, l: Lexer, t: string)
    requires !l.inQuotes && l.current == "" && Quotable(client, t)
    ensures Scan(client, l, Quote(t)) == l.(parts := l.parts + [t])
  {
    var open := l.(inQuotes := true);
    ScanOne(client, l, '\"');
    ScanQuotable(client, open, t);
    assert open.current + t == t;
    ScanOne(client, open.(current := t), '\"');
    hide Scan;
    ScanAppend(client, l, ['\"'], t);
    ScanAppend(client, l, ['\"'] + t, ['\"']);
  }

  /** After a quoted line, a space and a quoted token are one more part. */
  lemma ScanMore(client: Client, input: string, ts: seq<string>, t: string)
    requires Scan(client, START, input) == Lexer(ts, "", false) && Quotable(client, t)
    ensures Scan(client, START, input + [' '] + Quote(t)) == Lexer(ts + [t], "", false)
  {
    var l := Lexer(ts, "", false);
    hide Scan, Quote;
    ScanOne(client, l, ' ');
    ScanQuote(client, l, t);
    ScanAppend(client, START, input, [' ']);
    ScanAppend(client, START, input + [' '], Quote(t));
  }

  lemma LineMore(ts: seq<string>)
    requires |ts| > 1
    ensures Line(ts) == Line(ts[..|ts| - 1]) + [' '] + Quote(ts[|ts| - 1])
  {
    hide Quote;
  }

  lemma ScanFirst(client: Client, t: string)
    requires Quotable(client, t)
    ensures Scan(client, START, Line([t])) == Lexer([t], "", false)
  {
    ScanQuote(client, START, t);
    hide Scan, Quote;
    assert START.parts + [t] == [t];
  }

  lemma {:induction false} ScanLine(client: Client, ts: seq<string>)
    requires AllQuotable(client, ts)
    ensures Scan(client, START, Line(ts)) == Lexer(ts, "", false)
  {
    if ts != [] {
      hide Scan, Line, Quote, Quotable;
      var init, last := ts[..|ts| - 1], ts[|ts| - 1];
      assert init + [last] == ts;
      if init == [] {
        ScanFirst(client, last);
      } else {
        LineMore(ts);
        ScanLine(client, init);
        ScanMore(client, Line(init), init, last);
      }
    }
  }

  /** Nothing a client cannot quote ever ends up in a part. */
  lemma {:induction false} PartsAreQuotable(client: Client, input: string)
    ensures var l := Scan(client, START, input);
            AllQuotable(client, l.parts) && Quotable(client, l.current)
  {
    if input != "" {
      PartsAreQuotable(client, input[..|input| - 1]);
    }
  }

  /** Tokenizing inverts quoting exactly for non-empty token lists without double quotes and, in
      the Go client, without spaces: there, multi-word strings lose their spaces. */
  lemma TokenizerInvertsQuoting(client: Client, ts: seq<string>)
    ensures Tokenize(client, Line(ts)) == Parts(ts) <==> ts != [] && AllQuotable(client, ts)
  {
    if AllQuotable(client, ts) {
      ScanLine(client, ts);
    } else {
      PartsAreQuotable(client, Line(ts));
      var l := Scan(client, START, Line(ts));
      assert AllQuotable(client, l.parts + [l.current]);
    }
  }

  // ------------------------------------------------------------------ lines as they are typed

  /** A token as a user writes it. */
  datatype Word = Bare(text: string) | Quoted(text: string)

  predicate Writable(w: Word) {
    (forall i :: 0 <= i < |w.text| ==> w.text[i] != '\"') &&
    (w.Bare? ==> w.text != "" && forall i :: 0 <= i < |w.text| ==> w.text[i] != ' ')
  }

  function Despaced(t: string): string {
    if t == "" then ""
    else Despaced(t[..|t| - 1]) + if t[|t| - 1] == ' ' then "" else [t[|t| - 1]]
  }

  /** What the client takes the word for. */
  function Meant(client: Client, w: Word): string {
    if client.Go? && w.Quoted? then Despaced(w.text) else w.text
  }

  function Written(w: Word): string {
    if w.Bare? then w.text else Quote(w.text)
  }

  function Spaces(n: nat): string {
    seq(n, _ => ' ')
  }

  /** The words in order, each after its gap. */
  function Typed(gaps: seq<nat>, words: seq<Word>): string
    requires |gaps| == |words|
  {
    if words == [] then ""
    else
      var n := |words| - 1;
      Typed(gaps[..n], words[..n]) + Spaces(gaps[n]) + Written(words[n])
  }

  /** A gap may be empty only at the start of the line or after a quoted word. */
  predicate Separated(gaps: seq<nat>, words: seq<Word>)
    requires |gaps| == |words|
  {
    forall i :: 0 < i < |words| ==> gaps[i] > 0 || words[i - 1].Quoted?
  }

  predicate AllWritable(words: seq<Word>) {
    forall i :: 0 <= i < |words| ==> Writable(words[i])
  }

  function AllMeant(client: Client, words: seq<Word>): (ts: seq<string>)
    ensures |ts| == |words|
  {
    seq(|words|, i requires 0 <= i < |words| => Meant(client, words[i]))
  }

  function Flushed(l: Lexer): Lexer {
    if l.current != "" then Emit(l) else l
  }

  lemma {:induction false} ScanSpaces(client: Client, l: Lexer, n: nat)
    requires !l.inQuotes
    ensures Scan(client, l, Spaces(n)) == if n == 0 then l else Flushed(l)
  {
    if n > 0 {
      ScanSpaces(client, l, n - 1);
      assert Spaces(n)[..n - 1] == Spaces(n - 1);
    }
  }

  lemma {:induction false} ScanBare(client: Client, l: Lexer, t: string)
    requires !l.inQuotes && forall i :: 0 <= i < |t| ==> t[i] != '\"' && t[i] != ' '
    ensures Scan(client, l, t) == l.(current := l.current + t)
  {
    if t == "" {
      assert l.current + t == l.current;
    } else {
      var n := |t| - 1;
      ScanBare(client, l, t[..n]);
      assert l.current + t == l.current + t[..n] + [t[n]];
    }
  }

  lemma {:induction false} ScanInside(client: Client, l: Lexer, t: string)
    requires l.inQuotes && forall i :: 0 <= i < |t| ==> t[i] != '\"'
    ensures Scan(client, l, t) == l.(current := l.current + Meant(client, Quoted(t)))
  {
    if t == "" {
      assert l.current + t == l.current;
    } else {
      var n := |t| - 1;
      ScanInside(client, l, t[..n]);
      assert l.current + t == l.current + t[..n] + [t[n]];
      assert client.Go? && t[n] != ' ' ==>
        l.current + Despaced(t) == l.current + Despaced(t[..n]) + [t[n]];
      assert client.Go? && t[n] == ' ' ==> Despaced(t) == Despaced(t[..n]);
    }
  }

  lemma ScanQuoted(client: Client, l: Lexer, t: string)
    requires !l.inQuotes && l.current == "" && forall i :: 0 <= i < |t| ==> t[i] != '\"'
    ensures Scan(client, l, Quote(t)) == l.(parts := l.parts + [Meant(client, Quoted(t))])
  {
    var open, text := l.(inQuotes := true), Meant(client, Quoted(t));
    ScanOne(client, l, '\"');
    ScanInside(client, open, t);
    assert open.current + text == text;
    ScanOne(client, open.(current := text), '\"');
    hide Scan, Meant;
    ScanAppend(client, l, ['\"'], t);
    ScanAppend(client, l, ['\"'] + t, ['\"']);
  }

  /** Where the scan stands after these words: a bare one is not finished yet. */
  function Reached(client: Client, words: seq<Word>): Lexer {
    var n, all := |words|, AllMeant(client, words);
    if n > 0 && words[n - 1].Bare? then Lexer(all[..n - 1], words[n - 1].text, false) else Lexer(all, "", false)
  }

  lemma ReachedFlushed(client: Client, words: seq<Word>)
    requires AllWritable(words)
    ensures Flushed(Reached(client, words)) == Lexer(AllMeant(client, words), "", false)
    ensures words == [] || words[|words| - 1].Quoted? ==> Reached(client, words) == Flushed(Reached(client, words))
  {
    var n, all := |words|, AllMeant(client, words);
    if n > 0 && words[n - 1].Bare? {
      assert Writable(words[n - 1]);
      assert all[..n - 1] + [words[n - 1].text] == all;
    }
    hide AllMeant, Meant;
  }

  lemma ScanWord(client: Client, words: seq<Word>, w: Word)
    requires Writable(w)
    ensures Scan(client, Lexer(AllMeant(client, words), "", false), Written(w)) == Reached(client, words + [w])
  {
    var l := Lexer(AllMeant(client, words), "", false);
    assert AllMeant(client, words + [w]) == AllMeant(client, words) + [Meant(client, w)];
    if w.Bare? {
      ScanBare(client, l, w.text);
      assert "" + w.text == w.text;
      assert AllMeant(client, words + [w])[..|words|] == AllMeant(client, words);
    } else {
      ScanQuoted(client, l, w.text);
    }
    hide Scan, AllMeant, Meant;
  }

  /** One more word after its gap. */
  lemma ScanNextWord(client: Client, before: string, words: seq<Word>, gap: nat, w: Word)
    requires AllWritable(words) && Writable(w) && (gap > 0 || words == [] || words[|words| - 1].Quoted?)
    requires Scan(client, START, before) == Reached(client, words)
    ensures Scan(client, START, before + Spaces(gap) + Written(w)) == Reached(client, words + [w])
  {
    var l := Reached(client, words);
    assert !l.inQuotes;
    hide Scan, Written, Spaces, Writable, AllWritable, Reached, Flushed, AllMeant;
    ReachedFlushed(client, words);
    ScanSpaces(client, l, gap);
    ScanWord(client, words, w);
    ScanAppend(client, START, before, Spaces(gap));
    ScanAppend(client, START, before + Spaces(gap), Written(w));
  }

  lemma TypedLast(gaps: seq<nat>, words: seq<Word>)
    requires |gaps| == |words| && words != [] && AllWritable(words) && Separated(gaps, words)
    ensures var n := |words| - 1;
            Typed(gaps, words) == Typed(gaps[..n], words[..n]) + Spaces(gaps[n]) + Written(words[n]) &&
            AllWritable(words[..n]) && Writable(words[n]) && Separated(gaps[..n], words[..n]) &&
            (gaps[n] > 0 || words[..n] == [] || words[..n][|words[..n]| - 1].Quoted?)
    ensures words[..|words| - 1] + [words[|words| - 1]] == words
  {
    hide Written, Spaces, Writable;
  }

  lemma {:induction false} ScanTyped(client: Client, gaps: seq<nat>, words: seq<Word>)
    requires |gaps| == |words| && AllWritable(words) && Separated(gaps, words)
    ensures Scan(client, START, Typed(gaps, words)) == Reached(client, words)
  {
    if words == [] {
      assert AllMeant(client, words) == [];
    } else {
      hide *;
      var n := |words| - 1;
      TypedLast(gaps, words);
      ScanTyped(client, gaps[..n], words[..n]);
      ScanNextWord(client, Typed(gaps[..n], words[..n]), words[..n], gaps[n], words[n]);
    }
  }

  /** Tokenizing inverts typing: words written bare or in quotes, with any spaces before, between and
      after them, come back as they are; only the Go client takes the spaces out of quoted ones. */
  lemma TokenizerInvertsTyping(client: Client, gaps: seq<nat>, words: seq<Word>, tail: nat)
    requires |gaps| == |words| && words != [] && AllWritable(words) && Separated(gaps, words)
    ensures Tokenize(client, Typed(gaps, words) + Spaces(tail)) == Parts(AllMeant(client, words))
  {
    ScanTyped(client, gaps, words);
    ReachedFlushed(client, words);
    ScanAppend(client, START, Typed(gaps, words), Spaces(tail));
    ScanSpaces(client, Reached(client, words), tail);
    FinishFlushed(Reached(client, words));
    hide Scan, Typed, Spaces, AllMeant, Writable;
  }

  lemma FinishFlushed(l: Lexer)
    ensures Finish(Flushed(l)) == Finish(l)
  {
  }

  // ------------------------------------------------------------------ the two clients

  function Quotes(input: string): nat {
    if input == "" then 0
    else Quotes(input[..|input| - 1]) + if input[|input| - 1] == '\"' then 1 else 0
  }

  /** The positions of spaces that stand after an odd number of double quotes. */
  function InnerSpaces(input: string): nat {
    if input == "" then 0
    else
      var init := input[..|input| - 1];
      InnerSpaces(init) + if input[|input| - 1] == ' ' && Odd(Quotes(init)) then 1 else 0
  }

  function Chars(parts: seq<string>): nat {
    if parts == [] then 0 else Chars(parts[..|parts| - 1]) + |parts[|parts| - 1]|
  }

  lemma CharsAppend(parts: seq<string>, t: string)
    ensures Chars(parts + [t]) == Chars(parts) + |t|
  {
    assert (parts + [t])[..|parts|] == parts;
  }

  function Held(l: Lexer): nat {
    Chars(l.parts) + |l.current|
  }

  lemma StepHeld(client: Client, l: Lexer, c: char)
    ensures Held(Step(client, l, c))
         == Held(l) + if c == '\"' || (c == ' ' && (client.Go? || !l.inQuotes)) then 0 else 1
    ensures Step(client, l, c).inQuotes == if c == '\"' then !l.inQuotes else l.inQuotes
  {
    CharsAppend(l.parts, l.current);
    hide Chars;
  }

  lemma StepSame(l: Lexer, c: char)
    requires c != ' ' || !l.inQuotes
    ensures Step(Python, l, c) == Step(Go, l, c)
  {
  }

  predicate Odd(n: nat) {
    n % 2 == 1
  }

  lemma OddStep(n: nat)
    ensures Odd(n + 1) <==> !Odd(n)
  {
  }

  /** The two scans are always on the same side of the quotes; the Go scan holds one character
      less for every inner space so far, and is otherwise the same. */
  lemma {:induction false} ScansCompared(input: string)
    ensures var p, g := Scan(Python, START, input), Scan(Go, START, input);
            p.inQuotes == g.inQuotes == Odd(Quotes(input)) &&
            Held(p) == Held(g) + InnerSpaces(input) &&
            (InnerSpaces(input) == 0 ==> p == g)
  {
    if input != "" {
      var init, c := input[..|input| - 1], input[|input| - 1];
      var p, g := Scan(Python, START, init), Scan(Go, START, init);
      ScansCompared(init);
      hide Held, Step, Odd;
      OddStep(Quotes(init));
      StepHeld(Python, p, c);
      StepHeld(Go, g, c);
      if c != ' ' || !p.inQuotes {
        StepSame(p, c);
      }
    }
  }

  lemma FinishHeld(l: Lexer)
    ensures Finish(l).Parts? ==> Chars(Finish(l).parts) == Held(l)
    ensures !l.inQuotes && Held(l) > 0 ==> Finish(l).Parts?
  {
    CharsAppend(l.parts, l.current);
  }

  /** The Go client reads a line as the Python client does exactly when no space stands inside
      quotes, or the quotes are unmatched so that both refuse it. */
  lemma ClientsAgreeIff(input: string)
    ensures Tokenize(Go, input) == Tokenize(Python, input) <==> InnerSpaces(input) == 0 || Odd(Quotes(input))
  {
    ScansCompared(input);
    FinishHeld(Scan(Python, START, input));
    FinishHeld(Scan(Go, START, input));
    hide Held, Chars;
  }

  predicate OnlySpaces(input: string) {
    forall i :: 0 <= i < |input| ==> input[i] == ' '
  }

  lemma {:induction false} NothingFoundIff(client: Client, input: string)
    ensures Scan(client, START, input) == START <==> OnlySpaces(input)
  {
    if input != "" {
      NothingFoundIff(client, input[..|input| - 1]);
    }
  }

  /** The two errors: an odd number of double quotes, and a line of nothing but spaces. */
  lemma ErrorsIff(client: Client, input: string)
    ensures Tokenize(client, input) == UnmatchedQuotes <==> Odd(Quotes(input))
    ensures Tokenize(client, input) == NoCommand <==> OnlySpaces(input)
  {
    ScansCompared(input);
    NothingFoundIff(client, input);
    hide Odd, OnlySpaces, Quotes, InnerSpaces, Held;
  }
}
