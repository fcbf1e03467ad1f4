// The lines of the manifest as text: what is printed, in quotes if need be, and which of it reads back.
module AofManifestText {
  import opened AofLog
  import opened AofManifest
  import opened Options
  import Sds
  import Q = SdsRepr
  import AclRules

  function Chars(s: Bytes): (r: string)
    ensures |r| == |s| && Q.IsBytes(r)
  {
    seq(|s|, i requires 0 <= i < |s| => s[i] as int as char)
  }

  function Texts(ts: seq<Bytes>): seq<string> { seq(|ts|, i requires 0 <= i < |ts| => Chars(ts[i])) }

  lemma CharsConcat(a: Bytes, b: Bytes)
    ensures Chars(a + b) == Chars(a) + Chars(b)
  {}

  // ---------- what a line looks like ----------

  lemma Keywords()
    ensures Chars(FILE) == "file" && Chars(SEQ) == "seq" && Chars(TYPE) == "type"
    ensures Chars([BASE]) == "b" && Chars([HIST]) == "h" && Chars([INCR]) == "i"
  {}

  // The line of a name that asks for no quotes.
  lemma LineText(ai: Info)
    ensures Chars(Line(ai)) ==
            "file" + " " + Chars(ai.name) + " " + "seq" + " " + Chars(Signed(ai.seqNo)) + " " + "type" + " " +
            Chars([ai.kind]) + "\n"
  {
    Keywords();
    assert Chars([SPACE]) == " " && Chars([LF]) == "\n";
    hide Chars, Signed;
    var head := FILE + [SPACE] + ai.name;
    CharsConcat(FILE, [SPACE]);
    CharsConcat(FILE + [SPACE], ai.name);
    var middle := head + [SPACE] + SEQ + [SPACE] + Signed(ai.seqNo);
    CharsConcat(head, [SPACE]);
    CharsConcat(head + [SPACE], SEQ);
    CharsConcat(head + [SPACE] + SEQ, [SPACE]);
    CharsConcat(head + [SPACE] + SEQ + [SPACE], Signed(ai.seqNo));
    CharsConcat(middle, [SPACE]);
    CharsConcat(middle + [SPACE], TYPE);
    CharsConcat(middle + [SPACE] + TYPE, [SPACE]);
    CharsConcat(middle + [SPACE] + TYPE + [SPACE], [ai.kind]);
    CharsConcat(middle + [SPACE] + TYPE + [SPACE] + [ai.kind], [LF]);
  }

  // A keyword is recognised in any case.
  lemma KeywordCase(s: Bytes, keyword: Bytes)
    requires forall i | 0 <= i < |keyword| :: 'a' <= keyword[i] as int as char <= 'z'
    ensures SameWord(s, keyword) <==> AclRules.Lower(Chars(s)) == Chars(keyword)
  {
    if |s| == |keyword| {
      var (low, key) := (AclRules.Lower(Chars(s)), Chars(keyword));
      assert forall i | 0 <= i < |s| :: low[i] == key[i] <==> Lower(s[i]) == keyword[i];
      if low != key {
        var i :| 0 <= i < |s| && low[i] != key[i];
      }
    }
  }

  // pathIsBaseName
  lemma BaseName(s: Bytes)
    ensures IsBaseName(s) <==> '/' !in Chars(s) && '\\' !in Chars(s)
  {
    assert forall i | 0 <= i < |s| :: Chars(s)[i] == '/' <==> s[i] == 47;
    assert forall i | 0 <= i < |s| :: Chars(s)[i] == '\\' <==> s[i] == 92;
    if !IsBaseName(s) {
      var i :| 0 <= i < |s| && (s[i] == 47 || s[i] == 92);
      assert Chars(s)[i] in Chars(s);
    }
  }

  // ---------- splitting ----------

  predicate NoQuotes(s: Bytes) { forall i | 0 <= i < |s| :: s[i] != 34 && s[i] != 39 }

  lemma {:induction false} WordEnd(s: Bytes)
    ensures var n := |Word(s)|; (n < |s| ==> Trimmed(s[n])) && forall i | 0 <= i < n :: !Trimmed(s[i])
    decreases |s|
  {
    if s != [] && !Trimmed(s[0]) {
      WordEnd(s[1..]);
    }
  }

  lemma SkipBlank(s: Bytes)
    requires s != [] && IsSpace(s[0])
    ensures Chars(s)[1..] == Chars(s[1..])
    ensures Sds.SplitArgs(Chars(s)) == Sds.SplitArgs(Chars(s[1..])) && Split(s) == Split(s[1..])
  {
    hide Sds.Token;
  }

  // What is left of a line behind its first word, one blank being gone.
  function Behind(rest: Bytes): string { if rest == [] then [] else Chars(rest[1..]) }

  lemma ArgsOpen(line: string)
    requires line != [] && !Sds.IsSpace(line[0])
    ensures Sds.SplitArgs(line) ==
            match Sds.Token(line, [], Sds.Bare)
            case None => None
            case Some((token, rest)) =>
              if Sds.SplitArgs(rest).None? then None else Some([token] + Sds.SplitArgs(rest).value)
  {
    hide Sds.Token;
  }

  lemma WordIs(s: Bytes)
    requires NoQuotes(s)
    ensures var (w, rest) := (Word(s), s[|Word(s)|..]);
            && s == w + rest && NoQuotes(rest) && (rest != [] ==> Trimmed(rest[0]))
            && Sds.Token(Chars(s), [], Sds.Bare) == Some((Chars(w), Behind(rest)))
  {
    hide Sds.Token, Word;
    var (w, rest) := (Word(s), s[|Word(s)|..]);
    WordEnd(s);
    assert s == w + rest;
    FirstToken(w, rest);
    BehindIs(rest);
  }

  lemma BehindIs(rest: Bytes)
    ensures Behind(rest) == if rest == [] then [] else Chars(rest)[1..]
  {}

  lemma TakeWord(s: Bytes)
    requires NoQuotes(s) && s != [] && !IsSpace(s[0])
    ensures var (w, rest) := (Word(s), s[|Word(s)|..]);
            var args := Sds.SplitArgs(Behind(rest));
            && |rest| < |s| && NoQuotes(rest) && Split(s) == [w] + Split(rest) && (rest != [] ==> IsSpace(rest[0]))
            && Sds.SplitArgs(Chars(s)) == if args.None? then None else Some([Chars(w)] + args.value)
  {
    WordIs(s);
    ArgsOpen(Chars(s));
    hide Sds.Token, Sds.SplitArgs, NoQuotes, Behind;
  }

  lemma NothingSplit()
    ensures Sds.SplitArgs(Chars([])) == Some(Texts(Split([]))) && Behind([]) == Chars([])
  {
    assert Chars([]) == [] && Texts([]) == [];
  }

  // A line without quotes is split as sdssplitargs does.
  lemma {:induction false} SplitIsSplitArgs(s: Bytes)
    requires NoQuotes(s)
    ensures Sds.SplitArgs(Chars(s)) == Some(Texts(Split(s)))
    decreases |s|
  {
    hide Sds.Token, Sds.SplitArgs, Split, Word, IsSpace;
    NothingSplit();
    if s != [] && IsSpace(s[0]) {
      SkipBlank(s);
      SplitIsSplitArgs(s[1..]);
    } else if s != [] {
      var (w, rest) := (Word(s), s[|Word(s)|..]);
      TakeWord(s);
      SplitIsSplitArgs(rest);
      if rest != [] {
        SkipBlank(rest);
      }
      assert Texts([w] + Split(rest)) == [Chars(w)] + Texts(Split(rest));
    }
  }

  lemma FirstToken(w: Bytes, rest: Bytes)
    requires NoQuotes(w) && (forall i | 0 <= i < |w| :: !Trimmed(w[i])) && (rest != [] ==> Trimmed(rest[0]))
    ensures Sds.Token(Chars(w + rest), [], Sds.Bare) ==
            Some((Chars(w), if rest == [] then [] else Chars(rest)[1..]))
  {
    CharsConcat(w, rest);
    assert forall i | 0 <= i < |w| :: Sds.PlainChar(Chars(w)[i]);
    Sds.TokenPlain(Chars(w), Chars(rest), []);
    assert [] + Chars(w) == Chars(w);
  }

  // ---------- names in quotes ----------

  // A text that is written as it is.
  predicate Simple(s: string) { s != [] && Q.IsBytes(s) && !Q.NeedsRepr(s) && '\'' !in s }

  // A line as aofInfoFormat prints it, the name in quotes where that is asked for.
  function Printed(name: string, seqNo: string, kind: string): string
    requires Q.IsBytes(name) && Simple(seqNo) && Simple(kind)
  {
    Q.Line(["file", name, "seq", seqNo, "type", kind])
  }

  lemma WordsSimple()
    ensures Simple("file") && Simple("seq") && Simple("type")
  {}

  // It reads back if and only if the name is one for which quotes are asked, or has no single quote in it; a file name
  // is never empty.
  lemma PrintedExactly(name: string, seqNo: string, kind: string)
    requires Q.IsBytes(name) && Simple(seqNo) && Simple(kind) && name != []
    ensures Sds.SplitArgs(Printed(name, seqNo, kind)) == Some(["file", name, "seq", seqNo, "type", kind]) <==>
            Q.NeedsRepr(name) || '\'' !in name
  {
    WordsSimple();
    hide Sds.SplitArgs, Q.NeedsRepr, Q.Line;
    var words := ["file", name, "seq", seqNo, "type", kind];
    if Q.NeedsRepr(name) {
      Q.LineSplits(words);
    } else {
      Q.LineExactly(words);
      assert words[1] == name;
    }
  }

  // The names, numbers and types that are taken to be written as they are, are.
  lemma PlainIsSimple(s: Bytes)
    requires PlainName(s)
    ensures Simple(Chars(s)) && NoQuotes(s)
  {
    assert forall i | 0 <= i < |s| :: Plain(s[i]) && Chars(s)[i] as int == s[i] as int;
  }

  lemma {:induction false} DecimalPlain(n: nat)
    ensures PlainName(Decimal(n))
  {
    if n >= 10 {
      DecimalPlain(n / 10);
    }
  }

  // So for them the line is what aofInfoFormat prints.
  lemma LineIsPrinted(ai: Info)
    requires Printable(ai)
    ensures Simple(Chars(Signed(ai.seqNo))) && Simple(Chars([ai.kind]))
    ensures Chars(Line(ai)) == Printed(Chars(ai.name), Chars(Signed(ai.seqNo)), Chars([ai.kind])) + "\n"
  {
    DecimalPlain(ai.seqNo);
    PlainIsSimple(ai.name);
    PlainIsSimple(Signed(ai.seqNo));
    PlainIsSimple([ai.kind]);
    WordsSimple();
    LineText(ai);
    hide Simple, Chars, Q.NeedsRepr, Signed, Line;
    SixWords("file", Chars(ai.name), "seq", Chars(Signed(ai.seqNo)), "type", Chars([ai.kind]));
  }

  lemma LineCons(w: string, rest: seq<string>)
    requires Simple(w) && rest != [] && forall i | 0 <= i < |rest| :: Q.IsBytes(rest[i])
    ensures Q.Line([w] + rest) == w + " " + Q.Line(rest)
  {
    hide Q.NeedsRepr, Q.Repr;
    assert ([w] + rest)[1..] == rest;
  }

  lemma Regroup(a: string, b: string, rest: string)
    ensures a + " " + (b + " " + rest) == a + " " + b + " " + rest
  {}

  lemma SixWords(a: string, b: string, c: string, d: string, e: string, f: string)
    requires Simple(a) && Simple(b) && Simple(c) && Simple(d) && Simple(e) && Simple(f)
    ensures Q.Line([a, b, c, d, e, f]) == a + " " + b + " " + c + " " + d + " " + e + " " + f
  {
    assert Q.Line([f]) == f;
    hide Q.Line, Q.NeedsRepr;
    LineCons(e, [f]);
    LineCons(d, [e, f]);
    LineCons(c, [d, e, f]);
    LineCons(b, [c, d, e, f]);
    LineCons(a, [b, c, d, e, f]);
    assert [e] + [f] == [e, f] && [d] + [e, f] == [d, e, f] && [c] + [d, e, f] == [c, d, e, f];
    assert [b] + [c, d, e, f] == [b, c, d, e, f] && [a] + [b, c, d, e, f] == [a, b, c, d, e, f];
    Regroup(a, b, c + " " + (d + " " + (e + " " + f)));
    Regroup(a + " " + b, c, d + " " + (e + " " + f));
    Regroup(a + " " + b + " " + c, d, e + " " + f);
    Regroup(a + " " + b + " " + c + " " + d, e, f);
  }

  // So a server whose files are named with a single quote, and nothing else that asks for quotes, prints a manifest
  // that it cannot read.
  lemma QuoteExample()
    ensures Simple("1") && Simple("b")
    ensures Sds.SplitArgs(Printed("it's", "1", "b")) != Some(["file", "it's", "seq", "1", "type", "b"])
  {
    SimpleExample();
    hide Simple, Sds.SplitArgs, Printed, Q.NeedsRepr, Q.IsBytes;
    PrintedExactly("it's", "1", "b");
  }

  lemma SimpleExample()
    ensures Simple("1") && Simple("b") && Q.IsBytes("it's") && !Q.NeedsRepr("it's") && '\'' in "it's"
  {
    assert "it's"[2] == '\'';
  }
}
