/**
 The line lexer of .flow files: comment stripping and word splitting share one
 quoting discipline, so a stripped line always splits.
 */
module Lexer {
  import opened Wrappers
  import opened Workflow

  datatype LexError = UnterminatedQuote

  // ----- The quoting state machine

  /** Outside quotes, inside a quote, or just after a backslash inside a quote. */
  datatype Quoting = Plain | Quoted(q: char) | Escaped(q: char)

  predicate IsQuote(c: char) {
    c == '"' || c == '\''
  }

  function Next(s: Quoting, c: char): Quoting {
    match s
    case Escaped(q) => Quoted(q)
    case Quoted(q) => if c == '\\' then Escaped(q) else if c == q then Plain else s
    case Plain => if IsQuote(c) then Quoted(c) else Plain
  }

  /** The state after reading a text. */
  function After(s: Quoting, text: string): Quoting {
    if text == "" then s else Next(After(s, text[..|text| - 1]), text[|text| - 1])
  }

  lemma {:induction false} AfterConcat(s: Quoting, a: string, b: string)
    ensures After(s, a + b) == After(After(s, a), b)
  {
    if b == "" {
      assert a + b == a;
    } else {
      AfterConcat(s, a, b[..|b| - 1]);
      assert (a + b)[..|a + b| - 1] == a + b[..|b| - 1];
    }
  }

  // ----- Comment stripping

  /** Length of the part of `raw` before its first unquoted '#', or its whole length. */
  function CommentStart(s: Quoting, raw: string): (n: nat)
    ensures n <= |raw|
    decreases |raw|
  {
    if raw == "" || (s.Plain? && raw[0] == '#') then 0
    else 1 + CommentStart(Next(s, raw[0]), raw[1..])
  }

  /** Drops whitespace at both ends. */
  function Trim(s: string): (r: string)
    ensures |r| <= |s|
  {
    if s == "" then s
    else if IsWhitespace(s[0]) then Trim(s[1..])
    else if IsWhitespace(s[|s| - 1]) then Trim(s[..|s| - 1])
    else s
  }

  function StripSpec(raw: string): Result<Option<string>, LexError> {
    var kept := raw[..CommentStart(Plain, raw)];
    if !After(Plain, kept).Plain? then Err(UnterminatedQuote)
    else if Trim(kept) == "" then Ok(None)
    else Ok(Some(Trim(kept)))
  }

  method StripComment(raw: string) returns (r: Result<Option<string>, LexError>)
    ensures r == StripSpec(raw)
  {
    var out: string := "";
    var quote: Option<char> := None;
    var escaped := false;
    var i := 0;
    while i < |raw|
      invariant i <= |raw| && out == raw[..i]
      invariant escaped ==> quote.Some?
      invariant After(Plain, out) == StateOf(quote, escaped)
      invariant CommentStart(Plain, raw) == i + CommentStart(StateOf(quote, escaped), raw[i..])
    {
      var ch := raw[i];
      assert raw[i..][0] == ch && raw[i..][1..] == raw[i + 1..];
      assert (out + [ch])[..|out|] == out;
      if !escaped && quote.None? && ch == '#' {
        break;
      }
      out := out + [ch];
      i := i + 1;
      if escaped {
        escaped := false;
      } else if ch == '\\' && quote.Some? {
        escaped := true;
      } else if quote.Some? {
        if ch == quote.value {
          quote := None;
        }
      } else if IsQuote(ch) {
        quote := Some(ch);
      }
    }
    assert out == raw[..CommentStart(Plain, raw)];
    if quote.Some? {
      return Err(UnterminatedQuote);
    }
    var trimmed := Trim(out);
    r := Ok(if trimmed == "" then None else Some(trimmed));
  }

  function StateOf(quote: Option<char>, escaped: bool): Quoting
    requires escaped ==> quote.Some?
  {
    if quote.None? then Plain else if escaped then Escaped(quote.value) else Quoted(quote.value)
  }

  // ----- Word splitting

  /** Words completed so far, the word being read, and the quoting state. */
  datatype Split = Split(words: seq<string>, current: string, state: Quoting)

  function Flush(s: Split): Split {
    if s.current == "" then s else s.(words := s.words + [s.current], current := "")
  }

  function SplitStep(s: Split, c: char): Split {
    match s.state
    case Escaped(q) => Split(s.words, s.current + [c], Quoted(q))
    case Quoted(q) =>
      if c == '\\' then s.(state := Escaped(q))
      else if c == q then s.(state := Plain)
      else s.(current := s.current + [c])
    case Plain =>
      if IsQuote(c) then s.(state := Quoted(c))
      else if IsWhitespace(c) then Flush(s)
      else s.(current := s.current + [c])
  }

  function SplitFrom(s: Split, text: string): Split
    decreases |text|
  {
    if text == "" then s else SplitFrom(SplitStep(s, text[0]), text[1..])
  }

  function SplitSpec(line: string): Result<seq<string>, LexError> {
    var s := SplitFrom(Split([], "", Plain), line);
    if !s.state.Plain? then Err(UnterminatedQuote) else Ok(Flush(s).words)
  }

  method SplitWords(line: string) returns (r: Result<seq<string>, LexError>)
    ensures r == SplitSpec(line)
  {
    var words: seq<string> := [];
    var current: string := "";
    var quote: Option<char> := None;
    var escaped := false;
    for i := 0 to |line|
      invariant escaped ==> quote.Some?
      invariant SplitFrom(Split([], "", Plain), line)
                == SplitFrom(Split(words, current, StateOf(quote, escaped)), line[i..])
    {
      var ch := line[i];
      assert line[i..][0] == ch && line[i..][1..] == line[i + 1..];
      if escaped {
        current := current + [ch];
        escaped := false;
      } else if ch == '\\' && quote.Some? {
        escaped := true;
      } else if quote.Some? {
        if ch == quote.value {
          quote := None;
        } else {
          current := current + [ch];
        }
      } else if IsQuote(ch) {
        quote := Some(ch);
      } else if IsWhitespace(ch) {
        if current != "" {
          words := words + [current];
          current := "";
        }
      } else {
        current := current + [ch];
      }
    }
    if quote.Some? {
      return Err(UnterminatedQuote);
    }
    if current != "" {
      words := words + [current];
    }
    r := Ok(words);
  }

  // ----- A stripped line always splits

  lemma {:induction false} SplitState(s: Split, text: string)
    ensures SplitFrom(s, text).state == After(s.state, text)
    decreases |text|
  {
    if text != "" {
      SplitState(SplitStep(s, text[0]), text[1..]);
      AfterConcat(s.state, text[..1], text[1..]);
      assert text[..1] + text[1..] == text && text[..1][..0] == "";
    }
  }

  /** An open quote is a quote character. */
  lemma {:induction false} QuoteKept(text: string)
    ensures After(Plain, text).Plain? || IsQuote(After(Plain, text).q)
  {
    if text != "" {
      QuoteKept(text[..|text| - 1]);
    }
  }

  /** Trimming a text that ends outside quotes removes unquoted blanks only. */
  lemma {:induction false} TrimState(kept: string)
    requires After(Plain, kept).Plain?
    ensures After(Plain, Trim(kept)).Plain?
    decreases |kept|
  {
    if kept != "" {
      if IsWhitespace(kept[0]) {
        AfterConcat(Plain, kept[..1], kept[1..]);
        assert kept[..1] + kept[1..] == kept && kept[..1][..0] == "";
        TrimState(kept[1..]);
      } else if IsWhitespace(kept[|kept| - 1]) {
        QuoteKept(kept[..|kept| - 1]);
        TrimState(kept[..|kept| - 1]);
      }
    }
  }

  /** Whatever comment stripping yields, word splitting accepts. */
  lemma StrippedSplits(raw: string)
    requires StripSpec(raw).Ok? && StripSpec(raw).value.Some?
    ensures SplitSpec(StripSpec(raw).value.value).Ok?
  {
    var kept := raw[..CommentStart(Plain, raw)];
    TrimState(kept);
    SplitState(Split([], "", Plain), Trim(kept));
  }

  // ----- Comments do not change a line

  lemma {:induction false} CommentConcat(s: Quoting, a: string, b: string)
    ensures CommentStart(s, a + b)
            == if CommentStart(s, a) < |a| then CommentStart(s, a) else |a| + CommentStart(After(s, a), b)
    decreases |a|
  {
    if a == "" {
      assert a + b == b;
    } else {
      assert (a + b)[0] == a[0] && (a + b)[1..] == a[1..] + b;
      if !(s.Plain? && a[0] == '#') {
        CommentConcat(Next(s, a[0]), a[1..], b);
        AfterConcat(s, a[..1], a[1..]);
        assert a[..1] + a[1..] == a && a[..1][..0] == "";
      }
    }
  }

  /** Appending a comment to a line that lexes leaves the stripped line as it was. */
  lemma CommentIgnored(raw: string, comment: string)
    requires StripSpec(raw).Ok?
    ensures StripSpec(raw + ("#" + comment)) == StripSpec(raw)
  {
    var tail := "#" + comment;
    CommentConcat(Plain, raw, tail);
    var n := CommentStart(Plain, raw);
    assert (raw + tail)[..n] == raw[..n];
    if n == |raw| {
      assert raw[..n] == raw && tail[0] == '#';
    }
  }

  // ----- Round trip

  function EscapeWord(w: string): string {
    if w == "" then ""
    else (if w[0] == '"' || w[0] == '\\' then ['\\', w[0]] else [w[0]]) + EscapeWord(w[1..])
  }

  function QuoteWord(w: string): string {
    "\"" + EscapeWord(w) + "\""
  }

  /** Words in double quotes, escaped, joined by single spaces. */
  function Render(words: seq<string>): string {
    if words == [] then ""
    else if |words| == 1 then QuoteWord(words[0])
    else QuoteWord(words[0]) + (" " + Render(words[1..]))
  }

  function NonEmpty(words: seq<string>): seq<string> {
    if words == [] then []
    else (if words[0] == "" then [] else [words[0]]) + NonEmpty(words[1..])
  }

  lemma {:induction false} SplitConcat(s: Split, a: string, b: string)
    ensures SplitFrom(s, a + b) == SplitFrom(SplitFrom(s, a), b)
    decreases |a|
  {
    if a == "" {
      assert a + b == b;
    } else {
      assert (a + b)[0] == a[0] && (a + b)[1..] == a[1..] + b;
      SplitConcat(SplitStep(s, a[0]), a[1..], b);
    }
  }

  lemma SplitOne(s: Split, c: char)
    ensures SplitFrom(s, [c]) == SplitStep(s, c)
  {
    assert [c][1..] == "";
  }

  /** Reading an escaped word inside double quotes appends the word. */
  lemma {:induction false} SplitEscaped(words: seq<string>, current: string, w: string)
    ensures SplitFrom(Split(words, current, Quoted('"')), EscapeWord(w)) == Split(words, current + w, Quoted('"'))
    decreases |w|
  {
    var s := Split(words, current, Quoted('"'));
    if w == "" {
      assert current + w == current;
    } else {
      var head := if w[0] == '"' || w[0] == '\\' then ['\\', w[0]] else [w[0]];
      SplitConcat(s, head, EscapeWord(w[1..]));
      var mid := Split(words, current + [w[0]], Quoted('"'));
      assert SplitFrom(s, head) == mid by {
        if |head| == 2 {
          assert head[1..] == [w[0]];
          SplitOne(SplitStep(s, '\\'), w[0]);
        } else {
          SplitOne(s, w[0]);
        }
      }
      SplitEscaped(words, current + [w[0]], w[1..]);
      assert current + [w[0]] + w[1..] == current + w;
    }
  }

  lemma SplitQuoted(words: seq<string>, current: string, w: string)
    ensures SplitFrom(Split(words, current, Plain), QuoteWord(w)) == Split(words, current + w, Plain)
  {
    var s := Split(words, current, Plain);
    SplitConcat(s, "\"", EscapeWord(w));
    SplitConcat(s, "\"" + EscapeWord(w), "\"");
    SplitOne(s, '"');
    SplitEscaped(words, current, w);
    SplitOne(Split(words, current + w, Quoted('"')), '"');
  }

  lemma SplitThenSpace(words: seq<string>, w: string, rest: string)
    ensures SplitFrom(Split(words, "", Plain), QuoteWord(w) + (" " + rest))
            == SplitFrom(Flush(Split(words, w, Plain)), rest)
  {
    var s, mid := Split(words, "", Plain), Split(words, w, Plain);
    SplitQuoted(words, "", w);
    assert "" + w == w;
    SplitConcat(s, QuoteWord(w), " " + rest);
    SplitConcat(mid, " ", rest);
    SplitOne(mid, ' ');
  }

  lemma Joined(words: seq<string>, w: string, rest: seq<string>)
    ensures (words + [w]) + rest == words + ([w] + rest)
    ensures words + ([] + rest) == words + rest
  {
    assert [] + rest == rest;
  }

  lemma FlushedWord(words: seq<string>, rest: seq<string>)
    requires rest != []
    ensures var s := Flush(Split(words, rest[0], Plain));
            s == Split(s.words, "", Plain) && s.words + NonEmpty(rest[1..]) == words + NonEmpty(rest)
  {
    Joined(words, rest[0], NonEmpty(rest[1..]));
  }

  /** Splitting a rendering adds its nonempty words. */
  lemma {:induction false} SplitRendered(words: seq<string>, rest: seq<string>)
    ensures var s := SplitFrom(Split(words, "", Plain), Render(rest));
            s.state.Plain? && Flush(s).words == words + NonEmpty(rest)
    decreases |rest|
  {
    if rest == [] {
      assert words + NonEmpty(rest) == words;
    } else {
      FlushedWord(words, rest);
      if |rest| == 1 {
        SplitQuoted(words, "", rest[0]);
        assert "" + rest[0] == rest[0] && rest[1..] == [];
      } else {
        SplitThenSpace(words, rest[0], Render(rest[1..]));
        SplitRendered(Flush(Split(words, rest[0], Plain)).words, rest[1..]);
      }
    }
  }

  /** Escaped words hold no closing quote and no comment. */
  lemma {:induction false} EscapedInert(w: string)
    ensures After(Quoted('"'), EscapeWord(w)) == Quoted('"')
    ensures CommentStart(Quoted('"'), EscapeWord(w)) == |EscapeWord(w)|
    decreases |w|
  {
    if w != "" {
      var q := Quoted('"');
      var head := if w[0] == '"' || w[0] == '\\' then ['\\', w[0]] else [w[0]];
      EscapedInert(w[1..]);
      AfterConcat(q, head, EscapeWord(w[1..]));
      CommentConcat(q, head, EscapeWord(w[1..]));
      assert head[..|head| - 1] == (if |head| == 2 then ['\\'] else "");
      assert After(q, head) == q by {
        if |head| == 2 {
          assert ['\\'][..0] == "" && After(q, ['\\']) == Escaped('"');
        }
      }
      assert head[1..] == (if |head| == 2 then [w[0]] else "");
    }
  }

  lemma QuotedInert(w: string)
    ensures After(Plain, QuoteWord(w)).Plain? && CommentStart(Plain, QuoteWord(w)) == |QuoteWord(w)|
    ensures QuoteWord(w)[0] == '"' && QuoteWord(w)[|QuoteWord(w)| - 1] == '"'
  {
    var e := EscapeWord(w);
    EscapedInert(w);
    AfterConcat(Plain, "\"", e);
    AfterConcat(Plain, "\"" + e, "\"");
    CommentConcat(Plain, "\"", e);
    CommentConcat(Plain, "\"" + e, "\"");
    assert "\""[..0] == "" && "\""[1..] == "";
    assert After(Plain, "\"") == Quoted('"') && After(Quoted('"'), "\"") == Plain;
  }

  lemma {:induction false} RenderInert(words: seq<string>)
    ensures After(Plain, Render(words)).Plain? && CommentStart(Plain, Render(words)) == |Render(words)|
    ensures words != [] ==> Render(words) != "" && Render(words)[0] == '"' && Render(words)[|Render(words)| - 1] == '"'
  {
    if words != [] {
      QuotedInert(words[0]);
      if |words| > 1 {
        var rest := Render(words[1..]);
        RenderInert(words[1..]);
        AfterConcat(Plain, QuoteWord(words[0]), " " + rest);
        AfterConcat(Plain, " ", rest);
        CommentConcat(Plain, QuoteWord(words[0]), " " + rest);
        CommentConcat(Plain, " ", rest);
        assert " "[..0] == "" && " "[1..] == "" && After(Plain, " ") == Plain;
      }
    }
  }

  lemma RenderStrips(words: seq<string>)
    requires words != []
    ensures StripSpec(Render(words)) == Ok(Some(Render(words)))
  {
    var text := Render(words);
    RenderInert(words);
    assert text[..|text|] == text;
  }

  lemma RenderSplits(words: seq<string>)
    ensures SplitSpec(Render(words)) == Ok(NonEmpty(words))
  {
    SplitRendered([], words);
    assert [] + NonEmpty(words) == NonEmpty(words);
  }

  /** A rendered word list passes comment stripping unchanged and splits into its nonempty words;
      it comes back exactly when no word is empty. */
  lemma RenderRoundTrip(words: seq<string>)
    requires words != []
    ensures StripSpec(Render(words)) == Ok(Some(Render(words)))
    ensures SplitSpec(Render(words)) == Ok(NonEmpty(words))
    ensures SplitSpec(Render(words)) == Ok(words) <==> "" !in words
  {
    RenderStrips(words);
    RenderSplits(words);
    NonEmptyAll(words);
  }

  lemma {:induction false} NonEmptyAll(words: seq<string>)
    ensures |NonEmpty(words)| <= |words|
    ensures NonEmpty(words) == words <==> "" !in words
  {
    if words != [] {
      NonEmptyAll(words[1..]);
      assert words == [words[0]] + words[1..];
    }
  }
}
