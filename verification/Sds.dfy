// sdssplitargs of sds.c: splitting a line into arguments, with double and single quotes. The line holds no zero byte.
module Sds {
  import opened Options

  datatype Mode = Bare | Double | Single

  // isspace
  predicate IsSpace(c: char) { c == ' ' || '\t' <= c <= '\r' }

  // What ends an argument outside quotes.
  predicate IsEnd(c: char) { c == ' ' || c == '\n' || c == '\r' || c == '\t' }

  predicate IsHex(c: char) { '0' <= c <= '9' || 'a' <= c <= 'f' || 'A' <= c <= 'F' }

  function HexValue(c: char): (v: nat)
    requires IsHex(c)
    ensures v < 16
  {
    if c <= '9' then (c - '0') as nat else if 'a' <= c then (c - 'a') as nat + 10 else (c - 'A') as nat + 10
  }

  function Unescaped(c: char): char
  {
    if c == 'n' then '\n'
    else if c == 'r' then '\r'
    else if c == 't' then '\t'
    else if c == 'b' then 8 as char
    else if c == 'a' then 7 as char
    else c
  }

  // One argument: what it is and what is left of the line; None for unbalanced quotes.
  function Token(s: string, current: string, mode: Mode): (r: Option<(string, string)>)
    ensures r.Some? ==> |r.value.1| <= |s| && (mode == Bare && s != [] ==> |r.value.1| < |s|)
    decreases |s|
  {
    match mode
    case Bare =>
      if s == [] then Some((current, []))
      else if IsEnd(s[0]) then Some((current, s[1..]))
      else if s[0] == '"' then Token(s[1..], current, Double)
      else if s[0] == '\'' then Token(s[1..], current, Single)
      else Token(s[1..], current + [s[0]], Bare)
    case Double =>
      if |s| >= 4 && s[0] == '\\' && s[1] == 'x' && IsHex(s[2]) && IsHex(s[3]) then
        Token(s[4..], current + [(HexValue(s[2]) * 16 + HexValue(s[3])) as char], Double)
      else if |s| >= 2 && s[0] == '\\' then Token(s[2..], current + [Unescaped(s[1])], Double)
      else if s == [] then None
      else if s[0] == '"' then if |s| > 1 && !IsSpace(s[1]) then None else Some((current, s[1..]))
      else Token(s[1..], current + [s[0]], Double)
    case Single =>
      if |s| >= 2 && s[0] == '\\' && s[1] == '\'' then Token(s[2..], current + ['\''], Single)
      else if s == [] then None
      else if s[0] == '\'' then if |s| > 1 && !IsSpace(s[1]) then None else Some((current, s[1..]))
      else Token(s[1..], current + [s[0]], Single)
  }

  function SplitArgs(s: string): Option<seq<string>>
    decreases |s|
  {
    if s == [] then Some([])
    else if IsSpace(s[0]) then SplitArgs(s[1..])
    else
      match Token(s, [], Bare)
      case None => None
      case Some((token, rest)) =>
        match SplitArgs(rest)
        case None => None
        case Some(tokens) => Some([token] + tokens)
  }

  // ---------- the loop ----------

  function Behind(vector: seq<string>, rest: Option<seq<string>>): Option<seq<string>>
  {
    if rest.None? then None else Some(vector + rest.value)
  }

  lemma BehindNothing(rest: Option<seq<string>>)
    ensures Behind([], rest) == rest
  {
    if rest.Some? {
      assert [] + rest.value == rest.value;
    }
  }

  // An argument at the front of what is left.
  lemma TakeToken(vector: seq<string>, s: string)
    requires s != [] && !IsSpace(s[0])
    ensures var t := Token(s, [], Bare);
            Behind(vector, SplitArgs(s)) ==
            if t.None? then None else Behind(vector + [t.value.0], SplitArgs(t.value.1))
  {
    var t := Token(s, [], Bare);
    hide Token;
    if t.Some? && SplitArgs(t.value.1).Some? {
      var tokens := SplitArgs(t.value.1).value;
      assert vector + ([t.value.0] + tokens) == vector + [t.value.0] + tokens;
    }
  }

  lemma SkipSpace(s: string)
    requires s != [] && IsSpace(s[0])
    ensures SplitArgs(s) == SplitArgs(s[1..])
  {}

  function ModeOf(inq: bool, insq: bool): Mode { if inq then Double else if insq then Single else Bare }

  // One argument from `p0` on; the loop ends where the argument does, or on unbalanced quotes.
  method ReadToken(line: string, p0: nat) returns (token: Option<string>, p: nat)
    requires p0 < |line|
    ensures p0 <= p <= |line|
    ensures Token(line[p0..], [], Bare) == if token.None? then None else Some((token.value, line[p..]))
  {
    hide IsHex, HexValue, Unescaped, IsEnd, IsSpace;
    var current, inq, insq, done := "", false, false, false;
    p := p0;
    while !done
      invariant p0 <= p <= |line| && !(inq && insq)
      invariant Token(line[p0..], [], Bare) ==
                if done then Some((current, line[p..])) else Token(line[p..], current, ModeOf(inq, insq))
      decreases |line| - p, if done then 0 else 1
    {
      Slices(line, p);
      if inq {
        if p + 3 < |line| && line[p] == '\\' && line[p + 1] == 'x' && IsHex(line[p + 2]) && IsHex(line[p + 3]) {
          current := current + [(HexValue(line[p + 2]) * 16 + HexValue(line[p + 3])) as char];
          p := p + 3;
        } else if p + 1 < |line| && line[p] == '\\' {
          p := p + 1;
          current := current + [Unescaped(line[p])];
        } else if p < |line| && line[p] == '"' {
          if p + 1 < |line| && !IsSpace(line[p + 1]) {
            return None, p;
          }
          done := true;
        } else if p == |line| {
          return None, p;
        } else {
          current := current + [line[p]];
        }
      } else if insq {
        if p + 1 < |line| && line[p] == '\\' && line[p + 1] == '\'' {
          p := p + 1;
          current := current + ['\''];
        } else if p < |line| && line[p] == '\'' {
          if p + 1 < |line| && !IsSpace(line[p + 1]) {
            return None, p;
          }
          done := true;
        } else if p == |line| {
          return None, p;
        } else {
          current := current + [line[p]];
        }
      } else {
        if p == |line| || IsEnd(line[p]) {
          done := true;
        } else if line[p] == '"' {
          inq := true;
        } else if line[p] == '\'' {
          insq := true;
        } else {
          current := current + [line[p]];
        }
      }
      if p < |line| {
        p := p + 1;
      }
    }
    token := Some(current);
  }

  lemma Slices(line: string, p: nat)
    requires p <= |line|
    ensures var s := line[p..];
            && |s| == |line| - p && (forall k | 0 <= k < |s| :: s[k] == line[p + k])
            && (|s| >= 1 ==> s[1..] == line[p + 1..]) && (|s| >= 2 ==> s[2..] == line[p + 2..])
            && (|s| >= 4 ==> s[4..] == line[p + 4..]) && (|s| == 0 ==> s == [])
  {}

  // sdssplitargs
  method SplitLine(line: string) returns (argv: Option<seq<string>>)
    ensures argv == SplitArgs(line)
  {
    hide SplitArgs, Token;
    var vector, p := [], 0;
    assert line[0..] == line;
    BehindNothing(SplitArgs(line));
    while true
      invariant 0 <= p <= |line| && SplitArgs(line) == Behind(vector, SplitArgs(line[p..]))
      decreases |line| - p
    {
      while p < |line| && IsSpace(line[p])
        invariant 0 <= p <= |line| && SplitArgs(line) == Behind(vector, SplitArgs(line[p..]))
      {
        Slices(line, p);
        SkipSpace(line[p..]);
        p := p + 1;
      }
      if p == |line| {
        NothingLeft();
        assert vector + [] == vector && line[p..] == [];
        return Some(vector);
      }
      Slices(line, p);
      TakeToken(vector, line[p..]);
      ghost var was := p;
      var token;
      token, p := ReadToken(line, p);
      if token.None? {
        return None;
      }
      TokenMoves(line[was..]);
      vector := vector + [token.value];
    }
  }

  lemma NothingLeft()
    ensures SplitArgs([]) == Some([])
  {}

  lemma TokenMoves(s: string)
    requires s != []
    ensures Token(s, [], Bare).Some? ==> |Token(s, [], Bare).value.1| < |s|
  {}

  // A byte that stands for itself outside quotes.
  predicate PlainChar(c: char) { !IsEnd(c) && c != '"' && c != '\'' }

  predicate PlainText(s: string) { forall i | 0 <= i < |s| :: PlainChar(s[i]) }

  // A word that is one argument, read as it is written.
  predicate Plain(s: string) { s != [] && !IsSpace(s[0]) && PlainText(s) }

  lemma {:induction false} TokenPlain(w: string, rest: string, current: string)
    requires PlainText(w) && (rest == [] || IsEnd(rest[0]))
    ensures Token(w + rest, current, Bare) == Some((current + w, if rest == [] then [] else rest[1..]))
    decreases |w|
  {
    if w == [] {
      assert w + rest == rest && current + w == current;
    } else {
      assert (w + rest)[0] == w[0] && (w + rest)[1..] == w[1..] + rest;
      TokenPlain(w[1..], rest, current + [w[0]]);
      assert current + [w[0]] + w[1..] == current + w;
    }
  }

  // An argument is never longer than the text it was read from, and as long only when the text was plain.
  lemma {:induction false} TokenShort(s: string, current: string, mode: Mode)
    requires Token(s, current, mode).Some?
    ensures var (token, rest) := Token(s, current, mode).value;
            && |token| + |rest| <= |current| + |s|
            && (mode != Bare ==> |token| + |rest| < |current| + |s|)
            && (|token| == |current| + |s| ==> PlainText(s))
    decreases |s|
  {
    match mode
    case Bare =>
      if s != [] && !IsEnd(s[0]) {
        if s[0] == '"' {
          TokenShort(s[1..], current, Double);
        } else if s[0] == '\'' {
          TokenShort(s[1..], current, Single);
        } else {
          TokenShort(s[1..], current + [s[0]], Bare);
          assert PlainText(s[1..]) ==> PlainText(s) by { assert s == [s[0]] + s[1..]; }
        }
      }
    case Double =>
      if |s| >= 4 && s[0] == '\\' && s[1] == 'x' && IsHex(s[2]) && IsHex(s[3]) {
        TokenShort(s[4..], current + [(HexValue(s[2]) * 16 + HexValue(s[3])) as char], Double);
      } else if |s| >= 2 && s[0] == '\\' {
        TokenShort(s[2..], current + [Unescaped(s[1])], Double);
      } else if s[0] != '"' {
        TokenShort(s[1..], current + [s[0]], Double);
      }
    case Single =>
      if |s| >= 2 && s[0] == '\\' && s[1] == '\'' {
        TokenShort(s[2..], current + ['\''], Single);
      } else if s[0] != '\'' {
        TokenShort(s[1..], current + [s[0]], Single);
      }
  }

  lemma {:induction false} ArgsShort(s: string, k: nat)
    requires SplitArgs(s).Some? && k < |SplitArgs(s).value|
    ensures |SplitArgs(s).value[k]| <= |s|
    ensures |SplitArgs(s).value[k]| == |s| ==> PlainText(s)
    decreases |s|
  {
    if IsSpace(s[0]) {
      ArgsShort(s[1..], k);
    } else {
      TokenShort(s, [], Bare);
      if k > 0 {
        ArgsShort(Token(s, [], Bare).value.1, k - 1);
      }
    }
  }

  // Words with single blanks between them.
  function Join(words: seq<string>): string
  {
    if words == [] then [] else if |words| == 1 then words[0] else words[0] + " " + Join(words[1..])
  }

  lemma SplitOne(w: string)
    requires Plain(w)
    ensures SplitArgs(w) == Some([w])
  {
    TokenPlain(w, [], []);
    assert w + [] == w && [] + w == w;
    assert Token(w, [], Bare) == Some((w, []));
    hide Token;
    assert SplitArgs([]) == Some([]);
    assert [w] + [] == [w];
  }

  // A plain word in front of a line is its first argument.
  lemma SplitWord(w: string, rest: string)
    requires Plain(w)
    ensures SplitArgs(w + " " + rest) ==
            if SplitArgs(rest).None? then None else Some([w] + SplitArgs(rest).value)
  {
    var line := w + " " + rest;
    TokenPlain(w, " " + rest, []);
    assert [] + w == w;
    assert w + (" " + rest) == line && (" " + rest)[1..] == rest;
    assert line[0] == w[0] && Token(line, [], Bare) == Some((w, rest));
    hide Token;
  }

  lemma {:induction false} SplitJoin(words: seq<string>)
    requires forall i | 0 <= i < |words| :: Plain(words[i])
    ensures SplitArgs(Join(words)) == Some(words)
    decreases |words|
  {
    if words == [] {
      return;
    }
    hide Plain, SplitArgs;
    if |words| == 1 {
      SplitOne(words[0]);
      assert words == [words[0]];
    } else {
      SplitWord(words[0], Join(words[1..]));
      SplitJoin(words[1..]);
      assert [words[0]] + words[1..] == words;
    }
  }

  lemma {:induction false} JoinConcat(a: seq<string>, b: seq<string>)
    requires a != [] && b != []
    ensures Join(a + b) == Join(a) + " " + Join(b)
    decreases |a|
  {
    if |a| == 1 {
      assert (a + b)[1..] == b;
    } else {
      assert (a + b)[1..] == a[1..] + b;
      JoinConcat(a[1..], b);
      assert Join(a) == a[0] + " " + Join(a[1..]);
      assert a[0] + " " + (Join(a[1..]) + " " + Join(b)) == a[0] + " " + Join(a[1..]) + " " + Join(b);
    }
  }

  // After plain words, a line goes on being split as if it stood alone.
  lemma {:induction false} SplitAfter(words: seq<string>, rest: string)
    requires words != [] && forall i | 0 <= i < |words| :: Plain(words[i])
    ensures SplitArgs(Join(words) + " " + rest) ==
            if SplitArgs(rest).None? then None else Some(words + SplitArgs(rest).value)
    decreases |words|
  {
    hide Plain, SplitArgs;
    if |words| == 1 {
      SplitWord(words[0], rest);
      assert words == [words[0]];
    } else {
      SplitWord(words[0], Join(words[1..]) + " " + rest);
      SplitAfter(words[1..], rest);
      assert Join(words) == words[0] + " " + Join(words[1..]);
      assert words[0] + " " + (Join(words[1..]) + " " + rest) == Join(words) + " " + rest;
      var tail := SplitArgs(rest);
      if tail.Some? {
        assert [words[0]] + (words[1..] + tail.value) == words + tail.value;
      }
    }
  }

  // A line of words reads back as those words exactly when each of them is plain.
  lemma SplitsBack(words: seq<string>)
    requires words != [] && forall i | 0 <= i < |words| - 1 :: Plain(words[i])
    requires words[|words| - 1] != [] && !IsSpace(words[|words| - 1][0])
    ensures SplitArgs(Join(words)) == Some(words) <==> Plain(words[|words| - 1])
  {
    var n := |words| - 1;
    var last := words[n];
    hide SplitArgs, Join, PlainText;
    if Plain(last) {
      SplitJoin(words);
    } else if SplitArgs(Join(words)).Some? {
      LastShort(words);
    }
  }

  // If the last word is not plain, no argument read from it is the word itself.
  lemma LastShort(words: seq<string>)
    requires words != [] && forall i | 0 <= i < |words| - 1 :: Plain(words[i])
    requires var last := words[|words| - 1]; last != [] && !IsSpace(last[0]) && !Plain(last)
    requires SplitArgs(Join(words)).Some?
    ensures var n := |words| - 1;
            var args := SplitArgs(Join(words)).value;
            && n <= |args| && args[..n] == words[..n]
            && args != words && forall k | n <= k < |args| :: |args[k]| < |words[n]|
  {
    var n := |words| - 1;
    var (front, last) := (words[..n], words[n]);
    assert words == front + [last];
    var tail := SplitArgs(last);
    hide SplitArgs;
    if n == 0 {
      assert Join(words) == last;
      assert front + tail.value == tail.value;
    } else {
      JoinConcat(front, [last]);
      assert Join([last]) == last;
      SplitAfter(front, last);
    }
    assert SplitArgs(Join(words)) == Some(front + tail.value);
    forall k | 0 <= k < |tail.value|
      ensures |tail.value[k]| < |last|
    {
      ArgsShort(last, k);
    }
  }
}
