// Writing an argument in quotes (sdscatrepr and sdsneedsrepr of sds.c), and reading it back with sdssplitargs.
module SdsRepr {
  import opened Sds
  import opened Options

  const DIGITS: string := "0123456789abcdef"

  predicate IsByte(c: char) { c < 256 as char }

  predicate IsBytes(s: string) { forall i | 0 <= i < |s| :: IsByte(s[i]) }

  // isprint
  predicate IsPrint(c: char) { ' ' <= c <= '~' }

  // "\\x%02x"
  function HexEscape(c: char): string
    requires IsByte(c)
  {
    ['\\', 'x', DIGITS[c as int / 16], DIGITS[c as int % 16]]
  }

  function ReprChar(c: char): string
    requires IsByte(c)
  {
    if c == '\\' || c == '"' then ['\\', c]
    else if c == '\n' then "\\n"
    else if c == '\r' then "\\r"
    else if c == '\t' then "\\t"
    else if c == 7 as char then "\\a"
    else if c == 8 as char then "\\b"
    else if IsPrint(c) then [c]
    else HexEscape(c)
  }

  function Escaped(s: string): string
    requires IsBytes(s)
  {
    if s == [] then [] else Escaped(s[..|s| - 1]) + ReprChar(s[|s| - 1])
  }

  function Repr(s: string): string
    requires IsBytes(s)
  {
    "\"" + Escaped(s) + "\""
  }

  // sdscatrepr
  method CatRepr(s: string, p: string) returns (r: string)
    requires IsBytes(p)
    ensures r == s + Repr(p)
  {
    hide ReprChar;
    r := s + "\"";
    var k := 0;
    while k < |p|
      invariant k <= |p|
      invariant r == s + ("\"" + Escaped(p[..k]))
    {
      assert p[..k + 1][..k] == p[..k];
      r := r + ReprChar(p[k]);
      k := k + 1;
    }
    assert p[..k] == p;
    r := r + "\"";
  }

  // What sdsneedsrepr looks for.
  predicate NeedsEscape(c: char) { c == '\\' || c == '"' || !IsPrint(c) || IsSpace(c) }

  predicate NeedsRepr(s: string) { exists i | 0 <= i < |s| :: NeedsEscape(s[i]) }

  // sdsneedsrepr
  method FindNeed(s: string) returns (r: bool)
    ensures r <==> NeedsRepr(s)
  {
    for k := 0 to |s|
      invariant forall i | 0 <= i < k :: !NeedsEscape(s[i])
    {
      if s[k] == '\\' || s[k] == '"' || s[k] == '\n' || s[k] == '\r' || s[k] == '\t' || s[k] == 7 as char ||
         s[k] == 8 as char || !IsPrint(s[k]) || IsSpace(s[k])
      {
        return true;
      }
    }
    return false;
  }

  // ---------- reading it back ----------

  // The hexadecimal digits, in both cases, and what they stand for.
  lemma HexDigits(v: nat, c: char)
    requires v < 16
    ensures IsHex(DIGITS[v]) && HexValue(DIGITS[v]) == v
    ensures IsHex(c) <==> c in "0123456789abcdefABCDEF"
    ensures 'A' <= c <= 'F' ==> HexValue(c) == 10 + (c as int - 'A' as int)
  {}

  // One step of the loop inside double quotes.
  lemma PlainStep(c: char, rest: string, current: string)
    requires c != '\\' && c != '"'
    ensures Token([c] + rest, current, Double) == Token(rest, current + [c], Double)
  {
    var s := [c] + rest;
    assert s[0] == c && s[1..] == rest;
  }

  lemma LetterStep(c: char, rest: string, current: string)
    requires c != 'x'
    ensures Token(['\\', c] + rest, current, Double) == Token(rest, current + [Unescaped(c)], Double)
  {
    var s := ['\\', c] + rest;
    assert s[0] == '\\' && s[1] == c && s[2..] == rest;
  }

  lemma HexStep(h: char, l: char, rest: string, current: string)
    requires IsHex(h) && IsHex(l)
    ensures Token(['\\', 'x', h, l] + rest, current, Double) ==
            Token(rest, current + [(HexValue(h) * 16 + HexValue(l)) as char], Double)
  {
    var s := ['\\', 'x', h, l] + rest;
    assert s[0] == '\\' && s[1] == 'x' && s[2] == h && s[3] == l && s[4..] == rest;
  }

  // The three ways in which a character is written.
  lemma ReprShape(c: char)
    requires IsByte(c)
    ensures var e := ReprChar(c);
            || (e == [c] && c != '\\' && c != '"')
            || (|e| == 2 && e == ['\\', e[1]] && e[1] != 'x' && Unescaped(e[1]) == c)
            || e == HexEscape(c)
  {}

  lemma HexReads(c: char, rest: string, current: string)
    requires IsByte(c)
    ensures Token(HexEscape(c) + rest, current, Double) == Token(rest, current + [c], Double)
  {
    hide Token;
    var (h, l) := (c as int / 16, c as int % 16);
    HexDigits(h, c);
    HexDigits(l, c);
    HexStep(DIGITS[h], DIGITS[l], rest, current);
    assert HexValue(DIGITS[h]) * 16 + HexValue(DIGITS[l]) == c as int;
  }

  // One escaped character inside double quotes.
  lemma TokenEscape(c: char, rest: string, current: string)
    requires IsByte(c)
    ensures Token(ReprChar(c) + rest, current, Double) == Token(rest, current + [c], Double)
  {
    hide Token, ReprChar, HexEscape, Unescaped;
    ReprShape(c);
    var e := ReprChar(c);
    if e == [c] && c != '\\' && c != '"' {
      PlainStep(c, rest, current);
    } else if e == HexEscape(c) {
      HexReads(c, rest, current);
    } else {
      LetterStep(e[1], rest, current);
    }
  }

  lemma {:induction false} TokenEscaped(p: string, rest: string, current: string)
    requires IsBytes(p)
    ensures Token(Escaped(p) + rest, current, Double) == Token(rest, current + p, Double)
    decreases |p|
  {
    hide ReprChar, Token;
    if p == [] {
      assert Escaped(p) + rest == rest && current + p == current;
    } else {
      var (front, c) := (p[..|p| - 1], p[|p| - 1]);
      assert Escaped(p) + rest == Escaped(front) + (ReprChar(c) + rest);
      TokenEscaped(front, ReprChar(c) + rest, current);
      TokenEscape(c, rest, current + front);
      assert current + front + [c] == current + p;
    }
  }

  // In front of a blank or at the end of the line, what was written in quotes is read back, whatever bytes it holds.
  lemma SplitRepr(p: string, rest: string)
    requires IsBytes(p) && (rest == [] || IsSpace(rest[0]))
    ensures SplitArgs(Repr(p) + rest) == if SplitArgs(rest).None? then None else Some([p] + SplitArgs(rest).value)
  {
    var line := Repr(p) + rest;
    ReprLine(p, rest);
    TokenEscaped(p, "\"" + rest, []);
    TokenClosed(p, rest);
    OpensQuote(line);
    hide Repr, Escaped, Token, SplitArgs;
    assert [] + p == p;
  }

  lemma ReprLine(p: string, rest: string)
    requires IsBytes(p)
    ensures var line := Repr(p) + rest; line != [] && line[0] == '"' && line[1..] == Escaped(p) + ("\"" + rest)
  {
    hide Escaped;
  }

  lemma TokenClosed(p: string, rest: string)
    requires rest == [] || IsSpace(rest[0])
    ensures Token("\"" + rest, p, Double) == Some((p, rest))
  {
    var s := "\"" + rest;
    assert s[0] == '"' && s[1..] == rest && (|s| > 1 ==> s[1] == rest[0]);
  }

  lemma OpensQuote(line: string)
    requires line != [] && line[0] == '"'
    ensures Token(line, [], Bare) == Token(line[1..], [], Double)
    ensures SplitArgs(line) ==
            match Token(line[1..], [], Double)
            case None => None
            case Some((token, rest)) =>
              if SplitArgs(rest).None? then None else Some([token] + SplitArgs(rest).value)
  {}

  // ---------- what separates arguments ----------

  // A blank, a line feed, a carriage return or a tab ends a plain word; a vertical tab and a form feed do not.
  lemma WordEnds(w: string, c: char, rest: string)
    requires Plain(w) && c in " \n\r\t"
    ensures SplitArgs(w + [c] + rest) == if SplitArgs(rest).None? then None else Some([w] + SplitArgs(rest).value)
  {
    var line := w + [c] + rest;
    TokenPlain(w, [c] + rest, []);
    assert [] + w == w;
    assert w + ([c] + rest) == line && ([c] + rest)[1..] == rest;
    assert line[0] == w[0] && Token(line, [], Bare) == Some((w, rest));
    hide Token;
  }

  lemma WordGoesOn(w: string, c: char)
    requires Plain(w) && (c == 11 as char || c == 12 as char)
    ensures SplitArgs(w + [c] + w) == Some([w + [c] + w])
  {
    SplitOne(w + [c] + w);
  }

  // In front of an argument all six are skipped.
  lemma BlanksSkipped(c: char, rest: string)
    requires c in " \n\r\t" || c == 11 as char || c == 12 as char
    ensures SplitArgs([c] + rest) == SplitArgs(rest)
  {
    assert ([c] + rest)[1..] == rest;
  }

  // ---------- words with and without quotes ----------

  // A word as it is put into a line: in quotes where sdsneedsrepr asks for it.
  function Put(w: string): string
    requires IsBytes(w)
  {
    if NeedsRepr(w) then Repr(w) else w
  }

  // One word reads back as it was if and only if it is quoted, or neither empty nor with a single quote in it: for
  // those two sdsneedsrepr does not ask for quotes.
  lemma PutExactly(w: string)
    requires IsBytes(w)
    ensures SplitArgs(Put(w)) == Some([w]) <==> NeedsRepr(w) || (w != [] && '\'' !in w)
  {
    if NeedsRepr(w) {
      SplitRepr(w, []);
      assert Repr(w) + [] == Repr(w) && [w] + [] == [w];
      assert SplitArgs([]) == Some([]);
    } else if w == [] {
      assert SplitArgs([]) == Some([]);
    } else {
      hide SplitArgs, NeedsRepr;
      NoNeed(w);
      SplitsBack([w]);
      assert Join([w]) == w;
    }
  }

  lemma NoNeed(w: string)
    requires w != [] && !NeedsRepr(w)
    ensures !IsSpace(w[0]) && (Plain(w) <==> '\'' !in w)
  {
    assert forall i | 0 <= i < |w| :: !NeedsEscape(w[i]);
    assert forall i | 0 <= i < |w| :: !IsEnd(w[i]) && w[i] != '"';
  }

  // A word that reads back.
  predicate Readable(w: string) { NeedsRepr(w) || (w != [] && '\'' !in w) }

  function Line(words: seq<string>): string
    requires forall i | 0 <= i < |words| :: IsBytes(words[i])
  {
    if words == [] then []
    else if |words| == 1 then Put(words[0])
    else Put(words[0]) + " " + Line(words[1..])
  }

  // So does a line of such words.
  lemma {:induction false} LineSplits(words: seq<string>)
    requires forall i | 0 <= i < |words| :: IsBytes(words[i]) && Readable(words[i])
    ensures SplitArgs(Line(words)) == Some(words)
    decreases |words|
  {
    if words == [] {
      return;
    }
    hide SplitArgs, NeedsRepr, Repr;
    var w := words[0];
    if |words| == 1 {
      PutExactly(w);
      assert words == [w];
    } else {
      var rest := Line(words[1..]);
      LineSplits(words[1..]);
      assert [w] + words[1..] == words;
      if NeedsRepr(w) {
        BlanksSkipped(' ', rest);
        SplitRepr(w, " " + rest);
        assert [' '] + rest == " " + rest;
        assert Repr(w) + (" " + rest) == Repr(w) + " " + rest;
      } else {
        NoNeed(w);
        SplitWord(w, rest);
      }
    }
  }

  // Nothing that opens double quotes or escapes a character.
  predicate NoEscapes(s: string) { '\\' !in s && '"' !in s }

  // Then no argument has a quote in it, ...
  lemma {:induction false} TokenNoQuote(s: string, current: string, mode: Mode)
    requires NoEscapes(s) && '\'' !in current && mode != Double && Token(s, current, mode).Some?
    ensures var (token, rest) := Token(s, current, mode).value; '\'' !in token && NoEscapes(rest)
    decreases |s|
  {
    if s != [] {
      assert NoEscapes(s[1..]);
      if mode == Bare {
        if IsEnd(s[0]) {
        } else if s[0] == '\'' {
          TokenNoQuote(s[1..], current, Single);
        } else {
          TokenNoQuote(s[1..], current + [s[0]], Bare);
        }
      } else if s[0] != '\'' {
        TokenNoQuote(s[1..], current + [s[0]], Single);
      }
    }
  }

  lemma {:induction false} ArgsNoQuote(s: string)
    requires NoEscapes(s) && SplitArgs(s).Some?
    ensures forall k | 0 <= k < |SplitArgs(s).value| :: '\'' !in SplitArgs(s).value[k]
    decreases |s|
  {
    if s != [] {
      if IsSpace(s[0]) {
        ArgsNoQuote(s[1..]);
      } else {
        TokenNoQuote(s, [], Bare);
        ArgsNoQuote(Token(s, [], Bare).value.1);
      }
    }
  }

  // ... and without single quotes either, none is empty.
  lemma {:induction false} TokenGrows(s: string, current: string)
    requires NoEscapes(s) && '\'' !in s && (current != [] || (s != [] && !IsEnd(s[0])))
    ensures Token(s, current, Bare).Some?
    ensures var (token, rest) := Token(s, current, Bare).value; token != [] && NoEscapes(rest) && '\'' !in rest
    decreases |s|
  {
    if s != [] && !IsEnd(s[0]) {
      TokenGrows(s[1..], current + [s[0]]);
    }
  }

  lemma {:induction false} ArgsFull(s: string)
    requires NoEscapes(s) && '\'' !in s
    ensures SplitArgs(s).Some? && forall k | 0 <= k < |SplitArgs(s).value| :: SplitArgs(s).value[k] != []
    decreases |s|
  {
    if s != [] {
      if IsSpace(s[0]) {
        ArgsFull(s[1..]);
      } else {
        TokenGrows(s, []);
        ArgsFull(Token(s, [], Bare).value.1);
      }
    }
  }

  lemma {:induction false} LineNoEscapes(words: seq<string>)
    requires forall i | 0 <= i < |words| :: IsBytes(words[i]) && !NeedsRepr(words[i])
    ensures NoEscapes(Line(words))
    ensures (forall i | 0 <= i < |words| :: '\'' !in words[i]) ==> '\'' !in Line(words)
    decreases |words|
  {
    if words != [] {
      assert forall i | 0 <= i < |words[0]| :: !NeedsEscape(words[0][i]);
      LineNoEscapes(words[1..]);
    }
  }

  // A line of words that do not ask for quotes reads back as those words if and only if none of them is empty or has a
  // single quote in it.
  lemma LineExactly(words: seq<string>)
    requires forall i | 0 <= i < |words| :: IsBytes(words[i]) && !NeedsRepr(words[i])
    ensures SplitArgs(Line(words)) == Some(words) <==> forall i | 0 <= i < |words| :: Readable(words[i])
  {
    hide SplitArgs, NeedsRepr, Line;
    if forall i | 0 <= i < |words| :: Readable(words[i]) {
      LineSplits(words);
    } else {
      LineNoEscapes(words);
      if forall i | 0 <= i < |words| :: '\'' !in words[i] {
        ArgsFull(Line(words));
      } else if SplitArgs(Line(words)).Some? {
        ArgsNoQuote(Line(words));
      }
    }
  }

  // ---------- single quotes ----------

  // In single quotes a backslash only stands before a single quote.
  function SingleEscaped(s: string): string
  {
    if s == [] then [] else (if s[0] == '\'' then ['\\', '\''] else [s[0]]) + SingleEscaped(s[1..])
  }

  lemma {:induction false} TokenSingle(s: string, current: string)
    ensures Token(SingleEscaped(s) + "'", current, Single) ==
            if s != [] && s[|s| - 1] == '\\' then None else Some((current + s, []))
    decreases |s|
  {
    var line := SingleEscaped(s) + "'";
    if s == [] {
      assert line == "'" && current + s == current;
    } else {
      var rest := SingleEscaped(s[1..]) + "'";
      TokenSingle(s[1..], current + [s[0]]);
      assert current + [s[0]] + s[1..] == current + s;
      if s[0] == '\'' {
        assert line == ['\\', '\''] + rest && line[2..] == rest;
      } else {
        assert line == [s[0]] + rest && line[1..] == rest;
        SingleNext(s);
      }
    }
  }

  lemma SingleNext(s: string)
    requires s != [] && s[0] != '\''
    ensures var rest := SingleEscaped(s[1..]) + "'"; rest[0] == '\'' <==> |s| == 1
  {}

  // Text in single quotes reads back if and only if it does not end in a backslash.
  lemma SingleExactly(s: string)
    ensures SplitArgs("'" + SingleEscaped(s) + "'") == Some([s]) <==> !(s != [] && s[|s| - 1] == '\\')
  {
    var line := "'" + SingleEscaped(s) + "'";
    TokenSingle(s, []);
    SingleLine(s);
    OpensSingle(line);
    NothingSplit();
    hide Token, SingleEscaped, SplitArgs;
    assert [] + s == s && [s] + [] == [s];
  }

  lemma SingleLine(s: string)
    ensures var line := "'" + SingleEscaped(s) + "'";
            line != [] && line[0] == '\'' && line[1..] == SingleEscaped(s) + "'"
  {
    hide SingleEscaped;
  }

  lemma NothingSplit()
    ensures SplitArgs([]) == Some([])
  {}

  lemma OpensSingle(line: string)
    requires line != [] && line[0] == '\''
    ensures SplitArgs(line) ==
            match Token(line[1..], [], Single)
            case None => None
            case Some((token, rest)) =>
              if SplitArgs(rest).None? then None else Some([token] + SplitArgs(rest).value)
  {}
}
