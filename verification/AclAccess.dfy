// What the operations of an ACL selector mean for keys and channels: which patterns a sequence of operations leaves,
// read off the text of the operations.
module AclAccess {
  import opened Sds
  import opened AclRules
  import opened AclKeys
  import opened AclSelector

  // ---------- what an operation asks for ----------

  predicate AllKeysOp(op: string) { Lower(op) == "allkeys" || op == "~*" }

  predicate ResetKeysOp(op: string) { Lower(op) == "resetkeys" }

  predicate AllChannelsOp(op: string) { Lower(op) == "allchannels" || op == "&*" }

  predicate ResetChannelsOp(op: string) { Lower(op) == "resetchannels" }

  // After these no pattern is left.
  predicate ClearsKeys(op: string) { AllKeysOp(op) || ResetKeysOp(op) }

  predicate ClearsChannels(op: string) { AllChannelsOp(op) || ResetChannelsOp(op) }

  predicate Reads(letters: string) { 'R' in letters || 'r' in letters }

  predicate Writes(letters: string) { 'W' in letters || 'w' in letters }

  // One or two letters, not the same one twice.
  predicate LettersOk(letters: string)
  {
    && 1 <= |letters| <= 2 && (forall i | 0 <= i < |letters| :: letters[i] in "RrWw")
    && (|letters| == 2 ==> Reads(letters) && Writes(letters))
  }

  // The letters of a percent operation, and its pattern: what stands before and after the first tilde. Without a tilde
  // the pattern is empty.
  function Letters(op: string): string
    requires op != []
  {
    op[1..Find(op, '~', 1)]
  }

  function PercentPattern(op: string): string
    requires op != []
  {
    var i := Find(op, '~', 1);
    if i == |op| then [] else op[i + 1..]
  }

  // The operation asks for reading, or for writing, the keys that match `pattern`.
  predicate Asks(op: string, pattern: string, write: bool)
  {
    && op != [] && op != "~*"
    && (|| op == "~" + pattern
        || (&& op[0] == '%' && pattern == PercentPattern(op)
            && (if write then Writes(Letters(op)) else Reads(Letters(op)))))
  }

  predicate AsksChannel(op: string, channel: string) { op == "&" + channel && channel != "*" }

  // ---------- letters ----------

  lemma PermissionsEnd(op: string, i: nat, read: bool, write: bool)
    requires i <= |op| && (i < |op| ==> op[i] == '~')
    ensures Permissions(op, i, read, write) ==
            if read || write then Ok((read, write, if i == |op| then i else i + 1)) else Err(Invalid)
  {}

  lemma PermissionsNext(op: string, i: nat, read: bool, write: bool)
    requires i < |op| && op[i] != '~'
    ensures var r, w := op[i] == 'R' || op[i] == 'r', op[i] == 'W' || op[i] == 'w';
            Permissions(op, i, read, write) ==
            if r && !read then Permissions(op, i + 1, true, write)
            else if w && !write then Permissions(op, i + 1, read, true)
            else Err(Invalid)
  {}

  // A percent operation is well formed if and only if its letters are, and means what they say.
  lemma PermissionsExactly(op: string)
    requires op != []
    ensures Permissions(op, 1, false, false) ==
            if LettersOk(Letters(op)) then
              Ok((Reads(Letters(op)), Writes(Letters(op)), |op| - |PercentPattern(op)|))
            else Err(Invalid)
  {
    hide Permissions;
    var i := Find(op, '~', 1);
    var letters := Letters(op);
    if i == 1 {
      PermissionsEnd(op, 1, false, false);
    } else {
      assert op[1] == letters[0];
      PermissionsNext(op, 1, false, false);
      var (r, w) := (op[1] in "Rr", op[1] in "Ww");
      if r || w {
        PermissionsSecond(op, i, r, w);
      }
    }
  }

  lemma PermissionsSecond(op: string, i: nat, r: bool, w: bool)
    requires |op| > 1 && i == Find(op, '~', 1) && i > 1 && r == (op[1] in "Rr") && w == (op[1] in "Ww")
    requires r || w
    ensures Permissions(op, 2, r, w) ==
            if LettersOk(Letters(op)) then
              Ok((Reads(Letters(op)), Writes(Letters(op)), |op| - |PercentPattern(op)|))
            else Err(Invalid)
  {
    hide Permissions;
    var letters := Letters(op);
    assert letters[0] == op[1];
    if i == 2 {
      PermissionsEnd(op, 2, r, w);
      assert letters == [op[1]];
    } else {
      assert letters[1] == op[2];
      PermissionsNext(op, 2, r, w);
      if i == 3 {
        assert letters == [op[1], op[2]];
        PermissionsEnd(op, 3, true, true);
      } else {
        PermissionsNext(op, 3, true, true);
      }
    }
  }

  // ---------- one operation ----------

  // Some pattern of the list is `pattern` and permits writing, or reading.
  predicate Access(patterns: seq<KeyPattern>, pattern: string, write: bool)
  {
    exists i | 0 <= i < |patterns| ::
      patterns[i].pattern == pattern && if write then patterns[i].write else patterns[i].read
  }

  lemma {:induction false} AddAccess(patterns: seq<KeyPattern>, p: KeyPattern, x: string, write: bool)
    ensures Access(AddPattern(patterns, p), x, write) <==>
            Access(patterns, x, write) || (x == p.pattern && if write then p.write else p.read)
    decreases |patterns|
  {
    var l := AddPattern(patterns, p);
    if patterns == [] {
      assert l[0] == p;
    } else if patterns[0].pattern == p.pattern {
      var q := KeyPattern(p.pattern, patterns[0].read || p.read, patterns[0].write || p.write);
      assert patterns == [patterns[0]] + patterns[1..];
      ConsAccess(q, patterns[1..], x, write);
      ConsAccess(patterns[0], patterns[1..], x, write);
    } else {
      AddAccess(patterns[1..], p, x, write);
      assert patterns == [patterns[0]] + patterns[1..];
      ConsAccess(patterns[0], patterns[1..], x, write);
      ConsAccess(patterns[0], AddPattern(patterns[1..], p), x, write);
    }
  }

  lemma ConsAccess(p: KeyPattern, tail: seq<KeyPattern>, x: string, write: bool)
    ensures Access([p] + tail, x, write) <==>
            Access(tail, x, write) || (x == p.pattern && if write then p.write else p.read)
  {
    var l := [p] + tail;
    assert l[0] == p && forall i | 0 <= i < |tail| :: l[i + 1] == tail[i];
    if Access(tail, x, write) {
      var i :| 0 <= i < |tail| && tail[i].pattern == x && if write then tail[i].write else tail[i].read;
      assert l[i + 1].pattern == x;
    }
  }

  // A blank of any kind, or a zero byte.
  predicate Blank(c: char) { c in " \t\n\r" || c == 11 as char || c == 12 as char || c == 0 as char }

  predicate HasBlank(s: string) { exists i | 0 <= i < |s| :: Blank(s[i]) }

  lemma SpacesAre(s: string)
    ensures HasSpaces(s) <==> HasBlank(s)
  {
    assert forall c: char :: Blank(c) <==> IsSpace(c) || c == 0 as char;
    if HasSpaces(s) {
      var i :| 0 <= i < |s| && (IsSpace(s[i]) || s[i] == 0 as char);
      assert Blank(s[i]);
    }
  }

  // Why an operation about keys or channels is refused, if it is.
  function Refusal(k: KeyRules, op: string): Result<()>
    requires IsPatternOp(op)
  {
    if ClearsKeys(op) || ClearsChannels(op) then Ok(())
    else if op[0] == '&' then
      if k.allChannels then Err(IsDir) else if HasBlank(op[1..]) then Err(Invalid) else Ok(())
    else if k.allKeys then Err(Exists)
    else if op[0] == '%' && !LettersOk(Letters(op)) then Err(Invalid)
    else if HasBlank(if op[0] == '%' then PercentPattern(op) else op[1..]) then Err(Invalid)
    else Ok(())
  }

  // What an accepted operation does to `k`: to what is allowed altogether, ...
  predicate FlagsAfter(k: KeyRules, op: string, t: KeyRules)
  {
    && (t.allKeys <==> AllKeysOp(op) || (k.allKeys && !ResetKeysOp(op)))
    && (t.allChannels <==> AllChannelsOp(op) || (k.allChannels && !ResetChannelsOp(op)))
  }

  // ... to each key pattern and to each channel.
  predicate AccessAfter(k: KeyRules, op: string, t: KeyRules, x: string, write: bool)
  {
    Access(t.patterns, x, write) <==> !ClearsKeys(op) && (Access(k.patterns, x, write) || Asks(op, x, write))
  }

  predicate ChannelAfter(k: KeyRules, op: string, t: KeyRules, x: string)
  {
    x in t.channels <==> !ClearsChannels(op) && (x in k.channels || AsksChannel(op, x))
  }

  lemma SetKeysMeans(k: KeyRules, op: string, x: string, write: bool)
    requires IsPatternOp(op)
    ensures match Refusal(k, op)
            case Err(error) => SetKeys(k, op) == Err(error)
            case Ok(_) =>
              && SetKeys(k, op).Ok?
              && var t := SetKeys(k, op).value;
                 FlagsAfter(k, op, t) && AccessAfter(k, op, t, x, write) && ChannelAfter(k, op, t, x)
  {
    hide HasSpaces, HasBlank;
    if ClearsKeys(op) || ClearsChannels(op) {
      NamedApart(op);
      AsksNothing(op, x, write);
      hide SetPattern, SetChannel, Lower, Asks, AsksChannel;
    } else if op[0] == '&' {
      assert op == "&" + op[1..];
      assert AsksChannel(op, x) <==> x == op[1..] && x != "*";
      assert !Asks(op, x, write);
      SpacesAre(op[1..]);
      hide Lower, SetPattern, Access;
    } else {
      assert !AsksChannel(op, x);
      PatternMeans(k, op, x, write);
      SpacesAre(if op[0] == '%' then PercentPattern(op) else op[1..]);
      hide SetPattern, Lower, Access, Asks, AsksChannel, LettersOk, PercentPattern, Letters;
    }
  }

  lemma NamedApart(op: string)
    requires ClearsKeys(op) || ClearsChannels(op)
    ensures !(ClearsKeys(op) && ClearsChannels(op)) && !(AllKeysOp(op) && ResetKeysOp(op))
    ensures !(AllChannelsOp(op) && ResetChannelsOp(op))
  {
    assert |Lower(op)| == |op|;
    assert |"allkeys"| == 7 && |"resetkeys"| == 9 && |"allchannels"| == 11 && |"resetchannels"| == 13;
    hide Lower;
  }

  lemma AsksNothing(op: string, x: string, write: bool)
    requires ClearsKeys(op) || ClearsChannels(op)
    ensures !Asks(op, x, write) && !AsksChannel(op, x)
  {
    if op != [] && (op[0] == '~' || op[0] == '%' || op[0] == '&') {
      NotNamed(op);
      assert "&*"[1..] == "*" && ("&" + x)[1..] == x;
    }
  }

  lemma AsksApart(op: string, x: string, write: bool)
    ensures (Asks(op, x, write) ==> !ClearsKeys(op)) && (AsksChannel(op, x) ==> !ClearsChannels(op))
  {
    if ClearsKeys(op) || ClearsChannels(op) {
      AsksNothing(op, x, write);
    }
  }

  lemma PatternMeans(k: KeyRules, op: string, x: string, write: bool)
    requires op != [] && (op[0] == '~' || op[0] == '%') && op != "~*"
    ensures var bad := || (op[0] == '%' && !LettersOk(Letters(op)))
                       || HasSpaces(if op[0] == '%' then PercentPattern(op) else op[1..]);
            match SetPattern(k, op)
            case Err(error) => error == (if k.allKeys then Exists else Invalid) && (k.allKeys || bad)
            case Ok(t) =>
              && !k.allKeys && !bad && t == k.(patterns := t.patterns)
              && (Access(t.patterns, x, write) <==> Access(k.patterns, x, write) || Asks(op, x, write))
  {
    hide HasSpaces, Permissions, AddPattern, Access, LettersOk;
    var percent := op[0] == '%';
    if percent {
      PermissionsExactly(op);
      var i := Find(op, '~', 1);
      assert op[|op| - |PercentPattern(op)|..] == PercentPattern(op);
      AddAccess(k.patterns, KeyPattern(PercentPattern(op), Reads(Letters(op)), Writes(Letters(op))), x, write);
    } else {
      assert op == "~" + op[1..];
      AddAccess(k.patterns, KeyPattern(op[1..], true, true), x, write);
    }
  }

  // ---------- sequences of operations ----------

  // What one operation does to the patterns of a selector; a refused one, or one about commands, does nothing.
  lemma StepKeys(e: Env, s: State, op: string)
    ensures var t := AclSelector.After(e, s, op);
            if IsPatternOp(op) && Refusal(s.keys, op).Ok? then Ok(t.keys) == SetKeys(s.keys, op) else t.keys == s.keys
  {
    if IsPatternOp(op) {
      SetKeysMeans(s.keys, op, "", false);
    }
    hide SetKeys, Refusal, Parse, IsPatternOp, ChangePerm, CategoryPerm, AddArg, PruneText;
    if IsPatternOp(op) {
      PatternParses(e, op);
    } else if Parse(e, op).Ok? {
      NotPatterns(e, op);
      match Parse(e, op).value
      case Perm(f, allow, rule) => RulesKept(s, f, allow);
      case FirstArg(c, arg, _) => FirstArgRules(s, c.id, arg);
      case ByCategory(flag, allow, rule) => CategoryRulesKept(AddRule(s, rule, allow), e.table, flag, allow);
      case _ =>
    }
  }

  lemma PatternParses(e: Env, op: string)
    requires IsPatternOp(op)
    ensures Parse(e, op) == Ok(Patterns)
  {}

  lemma NotPatterns(e: Env, op: string)
    requires !IsPatternOp(op) && Parse(e, op).Ok?
    ensures !Parse(e, op).value.Patterns?
  {
    hide Lower, Lookup, FindLast;
  }

  // The operations from `from` on neither allow all keys nor reset them.
  predicate KeysUncleared(ops: seq<string>, from: nat) { forall i | from <= i < |ops| :: !ClearsKeys(ops[i]) }

  predicate ChannelsUncleared(ops: seq<string>, from: nat) { forall i | from <= i < |ops| :: !ClearsChannels(ops[i]) }

  // Operation `i` of the sequence is about keys or channels and was accepted.
  predicate Accepted(e: Env, s: State, ops: seq<string>, i: nat)
    requires i < |ops|
  {
    IsPatternOp(ops[i]) && Refusal(RunOps(e, s, ops[..i]).keys, ops[i]).Ok?
  }

  // Since the last operation that cleared the patterns, one that was accepted asked for it; or the selector had it at
  // first and nothing has cleared the patterns.
  predicate AccessGiven(e: Env, s: State, ops: seq<string>, x: string, write: bool)
  {
    || (Access(s.keys.patterns, x, write) && KeysUncleared(ops, 0))
    || exists i | 0 <= i < |ops| :: Accepted(e, s, ops, i) && Asks(ops[i], x, write) && KeysUncleared(ops, i + 1)
  }

  predicate ChannelGiven(e: Env, s: State, ops: seq<string>, x: string)
  {
    || (x in s.keys.channels && ChannelsUncleared(ops, 0))
    || exists i | 0 <= i < |ops| :: Accepted(e, s, ops, i) && AsksChannel(ops[i], x) && ChannelsUncleared(ops, i + 1)
  }

  predicate AllKeysGiven(s: State, ops: seq<string>)
  {
    || (s.keys.allKeys && forall j | 0 <= j < |ops| :: !ResetKeysOp(ops[j]))
    || exists i | 0 <= i < |ops| :: AllKeysOp(ops[i]) && forall j | i < j < |ops| :: !ResetKeysOp(ops[j])
  }

  predicate AllChannelsGiven(s: State, ops: seq<string>)
  {
    || (s.keys.allChannels && forall j | 0 <= j < |ops| :: !ResetChannelsOp(ops[j]))
    || exists i | 0 <= i < |ops| :: AllChannelsOp(ops[i]) && forall j | i < j < |ops| :: !ResetChannelsOp(ops[j])
  }

  // After any operations on any selector, refused ones among them: a pattern permits reading or writing, and a channel
  // is listed, exactly when it was given since patterns were last cleared; and all keys or all channels are allowed
  // exactly when that was asked for and not taken back since.
  lemma {:induction false} RunMeans(e: Env, s: State, ops: seq<string>, x: string, write: bool)
    ensures var k := RunOps(e, s, ops).keys;
            && (Access(k.patterns, x, write) <==> AccessGiven(e, s, ops, x, write))
            && (x in k.channels <==> ChannelGiven(e, s, ops, x))
            && (k.allKeys <==> AllKeysGiven(s, ops)) && (k.allChannels <==> AllChannelsGiven(s, ops))
    decreases |ops|
  {
    hide AccessGiven, ChannelGiven, AllKeysGiven, AllChannelsGiven, Access, SetKeys, Refusal, IsPatternOp;
    hide ClearsKeys, ClearsChannels, Asks, AsksChannel, AllKeysOp, ResetKeysOp, AllChannelsOp, ResetChannelsOp;
    if ops == [] {
      NoneGiven(e, s, x, write);
    } else {
      var (front, op) := (ops[..|ops| - 1], ops[|ops| - 1]);
      var t := RunOps(e, s, front);
      RunMeans(e, s, front, x, write);
      StepKeys(e, t, op);
      if IsPatternOp(op) {
        SetKeysMeans(t.keys, op, x, write);
        ClearsAccepted(t.keys, op);
      } else {
        NotAbout(op, x, write);
      }
      AccessSnoc(e, s, ops, x, write);
      ChannelSnoc(e, s, ops, x);
      FlagsSnoc(s, ops);
    }
  }

  lemma NoneGiven(e: Env, s: State, x: string, write: bool)
    ensures AccessGiven(e, s, [], x, write) <==> Access(s.keys.patterns, x, write)
    ensures ChannelGiven(e, s, [], x) <==> x in s.keys.channels
    ensures (AllKeysGiven(s, []) <==> s.keys.allKeys) && (AllChannelsGiven(s, []) <==> s.keys.allChannels)
  {}

  lemma ClearsAccepted(k: KeyRules, op: string)
    requires IsPatternOp(op)
    ensures Refusal(k, op).Err? ==>
              && !ClearsKeys(op) && !ClearsChannels(op)
              && !AllKeysOp(op) && !ResetKeysOp(op) && !AllChannelsOp(op) && !ResetChannelsOp(op)
  {}

  lemma NotAbout(op: string, x: string, write: bool)
    requires !IsPatternOp(op)
    ensures !Asks(op, x, write) && !AsksChannel(op, x) && !ClearsKeys(op) && !ClearsChannels(op)
    ensures !AllKeysOp(op) && !ResetKeysOp(op) && !AllChannelsOp(op) && !ResetChannelsOp(op)
  {}

  // What one more operation does to each of these.
  lemma AccessSnoc(e: Env, s: State, ops: seq<string>, x: string, write: bool)
    requires ops != []
    ensures var (front, op) := (ops[..|ops| - 1], ops[|ops| - 1]);
            AccessGiven(e, s, ops, x, write) <==>
            && !ClearsKeys(op)
            && (AccessGiven(e, s, front, x, write) || (Accepted(e, s, ops, |ops| - 1) && Asks(op, x, write)))
  {
    hide ClearsKeys, Asks, Accepted, Access, KeysUncleared;
    var (front, op) := (ops[..|ops| - 1], ops[|ops| - 1]);
    var n := |front|;
    KeysSnoc(ops, 0);
    KeysEnd(ops);
    forall i | 0 <= i < n
      ensures KeysUncleared(ops, i + 1) <==> KeysUncleared(front, i + 1) && !ClearsKeys(op)
      ensures Accepted(e, s, ops, i) <==> Accepted(e, s, front, i)
    {
      KeysSnoc(ops, i + 1);
      AcceptedFront(e, s, ops, i);
    }
    assert forall i | 0 <= i < n :: front[i] == ops[i];
    var had := Access(s.keys.patterns, x, write);
    if AccessGiven(e, s, front, x, write) && !ClearsKeys(op) && !(had && KeysUncleared(front, 0)) {
      var i :| 0 <= i < n && Accepted(e, s, front, i) && Asks(front[i], x, write) && KeysUncleared(front, i + 1);
      assert Accepted(e, s, ops, i) && Asks(ops[i], x, write) && KeysUncleared(ops, i + 1);
    }
    if AccessGiven(e, s, ops, x, write) && !(had && KeysUncleared(ops, 0)) {
      var i :| 0 <= i < |ops| && Accepted(e, s, ops, i) && Asks(ops[i], x, write) && KeysUncleared(ops, i + 1);
      if i < n {
        KeysSnoc(ops, i + 1);
        assert Accepted(e, s, front, i) && Asks(front[i], x, write) && KeysUncleared(front, i + 1);
      } else {
        AsksApart(op, x, write);
      }
    }
  }

  lemma KeysEnd(ops: seq<string>)
    ensures KeysUncleared(ops, |ops|)
  {}

  lemma KeysSnoc(ops: seq<string>, from: nat)
    requires ops != [] && from < |ops|
    ensures var front := ops[..|ops| - 1];
            KeysUncleared(ops, from) <==> KeysUncleared(front, from) && !ClearsKeys(ops[|ops| - 1])
  {
    hide ClearsKeys;
    var front := ops[..|ops| - 1];
    assert forall i | 0 <= i < |front| :: front[i] == ops[i];
  }

  lemma AcceptedFront(e: Env, s: State, ops: seq<string>, i: nat)
    requires i < |ops| - 1
    ensures Accepted(e, s, ops, i) <==> Accepted(e, s, ops[..|ops| - 1], i)
  {
    assert ops[..|ops| - 1][..i] == ops[..i];
    hide RunOps, Refusal, IsPatternOp;
  }

  lemma ChannelSnoc(e: Env, s: State, ops: seq<string>, x: string)
    requires ops != []
    ensures var (front, op) := (ops[..|ops| - 1], ops[|ops| - 1]);
            ChannelGiven(e, s, ops, x) <==>
            && !ClearsChannels(op)
            && (ChannelGiven(e, s, front, x) || (Accepted(e, s, ops, |ops| - 1) && AsksChannel(op, x)))
  {
    hide ClearsChannels, AsksChannel, Accepted;
    var (front, op) := (ops[..|ops| - 1], ops[|ops| - 1]);
    var n := |front|;
    forall i | 0 <= i < n
      ensures ChannelsUncleared(ops, i + 1) <==> ChannelsUncleared(front, i + 1) && !ClearsChannels(op)
      ensures Accepted(e, s, ops, i) <==> Accepted(e, s, front, i)
    {
      ChannelsSnoc(ops, i + 1);
      AcceptedFront(e, s, ops, i);
    }
    ChannelsSnoc(ops, 0);
    assert forall i | 0 <= i < n :: front[i] == ops[i];
    assert ChannelsUncleared(ops, n + 1);
    var had := x in s.keys.channels;
    if ChannelGiven(e, s, ops, x) && !(had && ChannelsUncleared(ops, 0)) {
      var i :| 0 <= i < |ops| && Accepted(e, s, ops, i) && AsksChannel(ops[i], x) && ChannelsUncleared(ops, i + 1);
      if i < n {
        ChannelsSnoc(ops, i + 1);
        assert Accepted(e, s, front, i) && AsksChannel(front[i], x) && ChannelsUncleared(front, i + 1);
      } else {
        AsksApart(op, x, false);
      }
    }
    if ChannelGiven(e, s, front, x) && !ClearsChannels(op) && !(had && ChannelsUncleared(front, 0)) {
      var i :| 0 <= i < n && Accepted(e, s, front, i) && AsksChannel(front[i], x) && ChannelsUncleared(front, i + 1);
      assert Accepted(e, s, ops, i) && AsksChannel(ops[i], x) && ChannelsUncleared(ops, i + 1);
    }
  }

  lemma ChannelsSnoc(ops: seq<string>, from: nat)
    requires ops != [] && from < |ops|
    ensures var front := ops[..|ops| - 1];
            ChannelsUncleared(ops, from) <==> ChannelsUncleared(front, from) && !ClearsChannels(ops[|ops| - 1])
  {
    hide ClearsChannels;
    var front := ops[..|ops| - 1];
    assert forall i | 0 <= i < |front| :: front[i] == ops[i];
  }

  lemma FlagsSnoc(s: State, ops: seq<string>)
    requires ops != []
    ensures var (front, op) := (ops[..|ops| - 1], ops[|ops| - 1]);
            && (AllKeysGiven(s, ops) <==> AllKeysOp(op) || (AllKeysGiven(s, front) && !ResetKeysOp(op)))
            && (AllChannelsGiven(s, ops) <==> AllChannelsOp(op) || (AllChannelsGiven(s, front) && !ResetChannelsOp(op)))
  {
    hide AllKeysOp, ResetKeysOp, AllChannelsOp, ResetChannelsOp;
    var (front, op) := (ops[..|ops| - 1], ops[|ops| - 1]);
    assert ops == front + [op];
  }

  // ---------- forgetting ----------

  predicate SameKeys(k: KeyRules, l: KeyRules) { k.allKeys == l.allKeys && k.patterns == l.patterns }

  predicate SameChannels(k: KeyRules, l: KeyRules) { k.allChannels == l.allChannels && k.channels == l.channels }

  // Keys and channels do not influence each other, and commands neither of them.
  lemma HalvesApart(e: Env, s: State, t: State, op: string)
    ensures var (s1, t1) := (AclSelector.After(e, s, op), AclSelector.After(e, t, op));
            && (SameKeys(s.keys, t.keys) ==> SameKeys(s1.keys, t1.keys))
            && (SameChannels(s.keys, t.keys) ==> SameChannels(s1.keys, t1.keys))
  {
    StepKeys(e, s, op);
    StepKeys(e, t, op);
    hide Lower, HasSpaces, Permissions, AddPattern, Letters, PercentPattern, LettersOk;
  }

  lemma {:induction false} RunHalves(e: Env, s: State, t: State, ops: seq<string>)
    ensures SameKeys(s.keys, t.keys) ==> SameKeys(RunOps(e, s, ops).keys, RunOps(e, t, ops).keys)
    ensures SameChannels(s.keys, t.keys) ==> SameChannels(RunOps(e, s, ops).keys, RunOps(e, t, ops).keys)
    decreases |ops|
  {
    hide SameKeys, SameChannels, AclSelector.After;
    if ops != [] {
      var front := ops[..|ops| - 1];
      RunHalves(e, s, t, front);
      HalvesApart(e, RunOps(e, s, front), RunOps(e, t, front), ops[|ops| - 1]);
    }
  }

  lemma {:induction false} RunConcat(e: Env, s: State, a: seq<string>, b: seq<string>)
    ensures RunOps(e, s, a + b) == RunOps(e, RunOps(e, s, a), b)
    decreases |b|
  {
    hide AclSelector.After;
    if b == [] {
      assert a + b == a;
    } else {
      assert (a + b)[..|a + b| - 1] == a + b[..|b| - 1];
      RunConcat(e, s, a, b[..|b| - 1]);
    }
  }

  // Clearing the patterns, in whatever case it is written, leaves nothing of what was there before: whatever two
  // selectors it is given to, after any operations, they have the same keys ever after.
  lemma KeysForgotten(e: Env, s: State, before: seq<string>, t: State, op: string, after: seq<string>)
    requires ClearsKeys(op)
    ensures var k := RunOps(e, s, before + [op]).keys;
            && k.allKeys == AllKeysOp(op) && k.patterns == []
            && SameChannels(k, RunOps(e, s, before).keys)
    ensures SameKeys(RunOps(e, s, before + [op] + after).keys, RunOps(e, t, [op] + after).keys)
  {
    hide AclSelector.After, ClearsKeys, Lower;
    var u := RunOps(e, s, before);
    ClearsAfter(e, u, op);
    ClearsAfter(e, t, op);
    RunConcat(e, s, before, [op]);
    RunConcat(e, s, before + [op], after);
    RunConcat(e, t, [op], after);
    RunSingle(e, u, op);
    RunSingle(e, t, op);
    RunHalves(e, RunOps(e, s, before + [op]), RunOps(e, t, [op]), after);
  }

  lemma RunSingle(e: Env, s: State, op: string)
    ensures RunOps(e, s, [op]) == AclSelector.After(e, s, op)
  {
    hide AclSelector.After;
    assert [op][..0] == [] && RunOps(e, s, []) == s;
  }

  lemma ClearsAfter(e: Env, s: State, op: string)
    ensures var k := AclSelector.After(e, s, op).keys;
            && (ClearsKeys(op) ==> k == s.keys.(allKeys := AllKeysOp(op), patterns := []))
            && (ClearsChannels(op) ==> k == s.keys.(allChannels := AllChannelsOp(op), channels := []))
  {
    if ClearsKeys(op) || ClearsChannels(op) {
      NamedApart(op);
    }
    hide Lower;
  }

  lemma ChannelsForgotten(e: Env, s: State, before: seq<string>, t: State, op: string, after: seq<string>)
    requires ClearsChannels(op)
    ensures var k := RunOps(e, s, before + [op]).keys;
            && k.allChannels == AllChannelsOp(op) && k.channels == []
            && SameKeys(k, RunOps(e, s, before).keys)
    ensures SameChannels(RunOps(e, s, before + [op] + after).keys, RunOps(e, t, [op] + after).keys)
  {
    hide AclSelector.After, ClearsChannels, Lower;
    var u := RunOps(e, s, before);
    ClearsAfter(e, u, op);
    ClearsAfter(e, t, op);
    RunConcat(e, s, before, [op]);
    RunConcat(e, s, before + [op], after);
    RunConcat(e, t, [op], after);
    RunSingle(e, u, op);
    RunSingle(e, t, op);
    RunHalves(e, RunOps(e, s, before + [op]), RunOps(e, t, [op]), after);
  }
}
