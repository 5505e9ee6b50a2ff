/**
 * How bash splits the command text the CLI hands to WSL into words: blanks
 * separate words, single quotes keep everything literally, double quotes keep
 * everything but `\`-escapes of `$`, `` ` ``, `"`, `\` and newline, an
 * unquoted `\` escapes the next character, and an unquoted `#` at the start
 * of a word begins a comment. A text that reaches an unquoted operator or
 * expansion character has no plain reading here (`None`); nor has an
 * unterminated quote.
 */
module ShellWords {
  import opened TextOps

  datatype Mode = Plain | Single | Double

  predicate IsBlankChar(c: char)
  {
    c == ' ' || c == '\t' || c == '\n'
  }

  /** Unquoted, these start an operator, an expansion or a glob. */
  predicate IsOperatorChar(c: char)
  {
    || c == '|' || c == '&' || c == ';' || c == '<' || c == '>' || c == '(' || c == ')'
    || c == '$' || c == '`' || c == '*' || c == '?' || c == '[' || c == ']' || c == '{' || c == '}'
    || c == '~'
  }

  /** Escapable inside double quotes. */
  predicate IsDoubleEscapable(c: char)
  {
    c == '$' || c == '`' || c == '"' || c == '\\' || c == '\n'
  }

  /** The word being built, or nothing outside a word. */
  function Current(cur: Option<string>): string
  {
    if cur.Some? then cur.value else ""
  }

  function Flush(acc: seq<string>, cur: Option<string>): seq<string>
  {
    if cur.Some? then acc + [cur.value] else acc
  }

  /** The text from the first newline on: what follows a comment. */
  function SkipLine(s: string): (r: string)
    ensures |r| <= |s|
  {
    if s == [] || s[0] == '\n' then s else SkipLine(s[1..])
  }

  function Lex(s: string, mode: Mode, cur: Option<string>, acc: seq<string>): Option<seq<string>>
    decreases |s|
  {
    if s == [] then
      if mode == Plain then Some(Flush(acc, cur)) else None
    else
      var c := s[0];
      match mode
      case Single =>
        if c == '\'' then Lex(s[1..], Plain, cur, acc)
        else Lex(s[1..], Single, Some(Current(cur) + [c]), acc)
      case Double =>
        if c == '"' then Lex(s[1..], Plain, cur, acc)
        else if c == '$' || c == '`' then None
        else if c == '\\' && |s| > 1 && IsDoubleEscapable(s[1]) then
          if s[1] == '\n' then Lex(s[2..], Double, cur, acc)
          else Lex(s[2..], Double, Some(Current(cur) + [s[1]]), acc)
        else Lex(s[1..], Double, Some(Current(cur) + [c]), acc)
      case Plain =>
        if IsBlankChar(c) then Lex(s[1..], Plain, None, Flush(acc, cur))
        else if c == '\'' then Lex(s[1..], Single, Some(Current(cur)), acc)
        else if c == '"' then Lex(s[1..], Double, Some(Current(cur)), acc)
        else if c == '\\' then
          if |s| == 1 then Lex(s[1..], Plain, Some(Current(cur) + [c]), acc)
          else if s[1] == '\n' then Lex(s[2..], Plain, cur, acc)
          else Lex(s[2..], Plain, Some(Current(cur) + [s[1]]), acc)
        else if c == '#' && cur.None? then Lex(SkipLine(s[1..]), Plain, None, acc)
        else if IsOperatorChar(c) then None
        else Lex(s[1..], Plain, Some(Current(cur) + [c]), acc)
  }

  /** The words of a command text. */
  function Words(s: string): Option<seq<string>>
  {
    Lex(s, Plain, None, [])
  }

  // ---------------------------------------------------------------------------
  // Single-quote encoding

  /** The inside of a single-quoted word: each `'` closes the quote, adds `"'"` and reopens. */
  function QuoteBody(a: string): string
  {
    if a == [] then ""
    else (if a[0] == '\'' then "'\"'\"'" else [a[0]]) + QuoteBody(a[1..])
  }

  /** The quoted form adds the two quotes and four characters per `'`. */
  function SingleQuote(a: string): (q: string)
    ensures |q| >= |a| + 2
  {
    QuoteBodyLength(a);
    "'" + QuoteBody(a) + "'"
  }

  lemma {:induction false} QuoteBodyLength(a: string)
    ensures |QuoteBody(a)| >= |a|
    decreases |a|
  {
    if a != [] {
      QuoteBodyLength(a[1..]);
    }
  }

  /** `'"'"'` read inside a single quote: close, a double-quoted `'`, reopen. */
  lemma EscapedQuoteLex(tail: string, w: string, acc: seq<string>)
    ensures Lex("'\"'\"'" + tail, Single, Some(w), acc) == Lex(tail, Single, Some(w + "'"), acc)
  {
    var s := "'\"'\"'" + tail;
    var s1 := s[1..];
    assert s1 == "\"'\"'" + tail;
    var s2 := s1[1..];
    assert s2 == "'\"'" + tail;
    var s3 := s2[1..];
    assert s3 == "\"'" + tail;
    var s4 := s3[1..];
    assert s4 == "'" + tail;
    assert s4[1..] == tail;
    assert Lex(s4, Plain, Some(w + "'"), acc) == Lex(tail, Single, Some(w + "'"), acc);
    assert Lex(s3, Double, Some(w + "'"), acc) == Lex(s4, Plain, Some(w + "'"), acc);
    assert Lex(s2, Double, Some(w), acc) == Lex(s3, Double, Some(w + "'"), acc);
    assert Lex(s1, Plain, Some(w), acc) == Lex(s2, Double, Some(w), acc);
  }

  /** Inside a single quote any other character is kept. */
  lemma SingleStep(c: char, tail: string, w: string, acc: seq<string>)
    requires c != '\''
    ensures Lex([c] + tail, Single, Some(w), acc) == Lex(tail, Single, Some(w + [c]), acc)
  {
    assert ([c] + tail)[1..] == tail;
  }

  /** Reading a quoted body from inside the quote appends exactly `a` to the word. */
  lemma {:induction false} QuoteBodyLex(a: string, rest: string, w: string, acc: seq<string>)
    ensures Lex(QuoteBody(a) + "'" + rest, Single, Some(w), acc) == Lex(rest, Plain, Some(w + a), acc)
    decreases |a|
  {
    var s := QuoteBody(a) + "'" + rest;
    if a == [] {
      assert s == "'" + rest;
      assert s[1..] == rest;
      assert w + a == w;
    } else {
      var tail := QuoteBody(a[1..]) + "'" + rest;
      QuoteBodyLex(a[1..], rest, w + [a[0]], acc);
      assert w + [a[0]] + a[1..] == w + a;
      if a[0] == '\'' {
        assert s == "'\"'\"'" + tail;
        EscapedQuoteLex(tail, w, acc);
      } else {
        assert s == [a[0]] + tail;
        SingleStep(a[0], tail, w, acc);
      }
    }
  }

  /** A single-quoted word read from outside any word gives the word `a`, whatever follows. */
  lemma SingleQuoteLex(a: string, rest: string, acc: seq<string>)
    ensures Lex(SingleQuote(a) + rest, Plain, None, acc) == Lex(rest, Plain, Some(a), acc)
  {
    var s := SingleQuote(a) + rest;
    assert s == "'" + (QuoteBody(a) + "'" + rest);
    assert s[1..] == QuoteBody(a) + "'" + rest;
    QuoteBodyLex(a, rest, "", acc);
    assert "" + a == a;
  }

  // ---------------------------------------------------------------------------
  // Unquoted words

  /** Read unquoted, these characters stand for themselves and continue the word. */
  predicate IsSafeChar(c: char)
  {
    || ('a' <= c <= 'z') || ('A' <= c <= 'Z') || ('0' <= c <= '9')
    || c == '@' || c == '%' || c == '+' || c == '=' || c == ':' || c == ',' || c == '.' || c == '/'
    || c == '-' || c == '_'
  }

  predicate AllSafe(a: string)
  {
    forall i :: 0 <= i < |a| ==> IsSafeChar(a[i])
  }

  /** One safe character extends the current word. */
  lemma SafeStep(s: string, cur: Option<string>, acc: seq<string>)
    requires s != [] && IsSafeChar(s[0])
    ensures Lex(s, Plain, cur, acc) == Lex(s[1..], Plain, Some(Current(cur) + [s[0]]), acc)
  {
  }

  /** A run of safe characters extends the current word by itself. */
  lemma {:induction false} SafeLex(a: string, rest: string, cur: Option<string>, acc: seq<string>)
    requires a != [] && AllSafe(a)
    ensures Lex(a + rest, Plain, cur, acc) == Lex(rest, Plain, Some(Current(cur) + a), acc)
    decreases |a|
  {
    var s := a + rest;
    assert s[0] == a[0] && s[1..] == a[1..] + rest;
    SafeStep(s, cur, acc);
    if |a| == 1 {
      assert a[1..] + rest == rest;
      assert a == [a[0]];
    } else {
      SafeLex(a[1..], rest, Some(Current(cur) + [a[0]]), acc);
      assert Current(cur) + [a[0]] + a[1..] == Current(cur) + a;
    }
  }

  /** A blank ends the current word. */
  lemma BlankLex(rest: string, cur: Option<string>, acc: seq<string>)
    ensures Lex(" " + rest, Plain, cur, acc) == Lex(rest, Plain, None, Flush(acc, cur))
  {
    assert (" " + rest)[1..] == rest;
  }
}
