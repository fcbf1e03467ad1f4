// The key and channel patterns of an ACL selector: the operations that change them, and their description as text.
module AclKeys {
  import opened Sds
  import opened AclRules

  datatype KeyPattern = KeyPattern(pattern: string, read: bool, write: bool)

  // The flags for all keys and all channels, and the two lists.
  datatype KeyRules = KeyRules(allKeys: bool, patterns: seq<KeyPattern>, allChannels: bool, channels: seq<string>)

  // ACLCreateSelector, with acl-pubsub-default
  function NewRules(allChannels: bool): KeyRules { KeyRules(false, [], allChannels, []) }

  // ACLStringHasSpaces
  predicate HasSpaces(s: string) { exists i | 0 <= i < |s| :: IsSpace(s[i]) || s[i] == 0 as char }

  // The letters behind a percent sign from `i` on: what they permit, and where the pattern starts.
  function Permissions(op: string, i: nat, read: bool, write: bool): (r: Result<(bool, bool, nat)>)
    requires i <= |op|
    ensures r.Ok? ==> r.value.2 <= |op| && (r.value.0 || r.value.1)
    decreases |op| - i
  {
    if i == |op| || op[i] == '~' then
      if read || write then Ok((read, write, if i == |op| then i else i + 1)) else Err(Invalid)
    else if (op[i] == 'R' || op[i] == 'r') && !read then Permissions(op, i + 1, true, write)
    else if (op[i] == 'W' || op[i] == 'w') && !write then Permissions(op, i + 1, read, true)
    else Err(Invalid)
  }

  // A pattern that is in the list already gets the permissions in addition.
  function AddPattern(patterns: seq<KeyPattern>, p: KeyPattern): seq<KeyPattern>
  {
    if patterns == [] then [p]
    else if patterns[0].pattern == p.pattern then
      [KeyPattern(p.pattern, patterns[0].read || p.read, patterns[0].write || p.write)] + patterns[1..]
    else [patterns[0]] + AddPattern(patterns[1..], p)
  }

  // Where the pattern first stands, it is changed; otherwise it goes to the end.
  lemma {:induction false} AddAt(patterns: seq<KeyPattern>, p: KeyPattern, i: nat)
    requires i <= |patterns| && forall j | 0 <= j < i :: patterns[j].pattern != p.pattern
    requires i < |patterns| ==> patterns[i].pattern == p.pattern
    ensures AddPattern(patterns, p) ==
            if i == |patterns| then patterns + [p]
            else patterns[i := KeyPattern(p.pattern, patterns[i].read || p.read, patterns[i].write || p.write)]
    decreases |patterns|
  {
    if i > 0 {
      AddAt(patterns[1..], p, i - 1);
      assert patterns == [patterns[0]] + patterns[1..];
    }
  }

  function SetPattern(k: KeyRules, op: string): Result<KeyRules>
    requires op != [] && (op[0] == '~' || op[0] == '%')
  {
    if k.allKeys then Err(Exists)
    else
      match if op[0] == '%' then Permissions(op, 1, false, false) else Ok((true, true, 1))
      case Err(error) => Err(error)
      case Ok((read, write, offset)) =>
        if HasSpaces(op[offset..]) then Err(Invalid)
        else Ok(k.(patterns := AddPattern(k.patterns, KeyPattern(op[offset..], read, write))))
  }

  function SetChannel(k: KeyRules, op: string): Result<KeyRules>
    requires op != []
  {
    if k.allChannels then Err(IsDir)
    else if HasSpaces(op[1..]) then Err(Invalid)
    else Ok(k.(channels := if op[1..] in k.channels then k.channels else k.channels + [op[1..]]))
  }

  // The branches of ACLSetSelector for keys and channels.
  function SetKeys(k: KeyRules, op: string): Result<KeyRules>
    requires IsPatternOp(op)
  {
    if Lower(op) == "allkeys" || op == "~*" then Ok(k.(allKeys := true, patterns := []))
    else if Lower(op) == "resetkeys" then Ok(k.(allKeys := false, patterns := []))
    else if Lower(op) == "allchannels" || op == "&*" then Ok(k.(allChannels := true, channels := []))
    else if Lower(op) == "resetchannels" then Ok(k.(allChannels := false, channels := []))
    else if op[0] == '&' then SetChannel(k, op)
    else SetPattern(k, op)
  }

  // ---------- what every operation keeps ----------

  predicate PatternsOk(patterns: seq<KeyPattern>)
  {
    && (forall i | 0 <= i < |patterns| ::
          (patterns[i].read || patterns[i].write) && !HasSpaces(patterns[i].pattern))
    && forall i, j | 0 <= i < j < |patterns| :: patterns[i].pattern != patterns[j].pattern
  }

  predicate ChannelsOk(channels: seq<string>)
  {
    && (forall i | 0 <= i < |channels| :: !HasSpaces(channels[i]) && channels[i] != "*")
    && forall i, j | 0 <= i < j < |channels| :: channels[i] != channels[j]
  }

  // Lists without repetition, empty when everything is allowed anyway.
  predicate KeysOk(k: KeyRules)
  {
    && PatternsOk(k.patterns) && ChannelsOk(k.channels)
    && (k.allKeys ==> k.patterns == []) && (k.allChannels ==> k.channels == [])
  }

  predicate HasPattern(patterns: seq<KeyPattern>, pattern: string)
  {
    exists i | 0 <= i < |patterns| :: patterns[i].pattern == pattern
  }

  lemma {:induction false} AddKeeps(patterns: seq<KeyPattern>, p: KeyPattern)
    requires PatternsOk(patterns) && (p.read || p.write) && !HasSpaces(p.pattern)
    ensures var l := AddPattern(patterns, p);
            PatternsOk(l) && forall x :: HasPattern(l, x) <==> HasPattern(patterns, x) || x == p.pattern
    decreases |patterns|
  {
    hide HasSpaces;
    var l := AddPattern(patterns, p);
    if patterns == [] {
      assert l[0] == p;
    } else if patterns[0].pattern == p.pattern {
      assert l[0].pattern == p.pattern && forall i | 0 < i < |l| :: l[i] == patterns[i];
      forall x
        ensures HasPattern(l, x) <==> HasPattern(patterns, x)
      {
        assert forall i | 0 <= i < |l| :: l[i].pattern == patterns[i].pattern;
      }
    } else {
      var (tail, more) := (patterns[1..], AddPattern(patterns[1..], p));
      AddKeeps(tail, p);
      assert patterns == [patterns[0]] + tail && l == [patterns[0]] + more;
      ConsPattern(patterns[0], tail);
      ConsPattern(patterns[0], more);
      assert !HasPattern(tail, patterns[0].pattern);
      assert !HasPattern(more, patterns[0].pattern);
      ConsOk(patterns[0], more);
    }
  }

  lemma ConsPattern(p: KeyPattern, tail: seq<KeyPattern>)
    ensures forall x :: HasPattern([p] + tail, x) <==> p.pattern == x || HasPattern(tail, x)
  {
    var l := [p] + tail;
    assert l[0] == p && forall i | 0 <= i < |tail| :: l[i + 1] == tail[i];
    forall x | HasPattern(tail, x)
      ensures HasPattern(l, x)
    {
      var i :| 0 <= i < |tail| && tail[i].pattern == x;
      assert l[i + 1].pattern == x;
    }
  }

  lemma ConsOk(p: KeyPattern, tail: seq<KeyPattern>)
    requires PatternsOk(tail) && (p.read || p.write) && !HasSpaces(p.pattern) && !HasPattern(tail, p.pattern)
    ensures PatternsOk([p] + tail)
  {
    hide HasSpaces;
    var l := [p] + tail;
    assert forall i | 0 < i < |l| :: l[i] == tail[i - 1];
  }

  // Every accepted operation keeps the lists in order.
  lemma SetKeysKeeps(k: KeyRules, op: string)
    requires KeysOk(k) && IsPatternOp(op) && SetKeys(k, op).Ok?
    ensures KeysOk(SetKeys(k, op).value)
  {
    hide HasSpaces, Permissions, AddPattern;
    if Lower(op) == "allkeys" || op == "~*" || Lower(op) == "resetkeys" || Lower(op) == "allchannels" || op == "&*" ||
       Lower(op) == "resetchannels" {
    } else if op[0] == '&' {
      assert op == "&" + op[1..];
    } else {
      var r := if op[0] == '%' then Permissions(op, 1, false, false) else Ok((true, true, 1));
      AddKeeps(k.patterns, KeyPattern(op[r.value.2..], r.value.0, r.value.1));
    }
  }

  // ---------- the description ----------

  // sdsCatPatternString
  function PatternWord(p: KeyPattern): string
  {
    (if p.read && p.write then "~" else if p.read then "%R~" else "%W~") + p.pattern
  }

  function PatternWords(patterns: seq<KeyPattern>): seq<string>
  {
    if patterns == [] then [] else PatternWords(patterns[..|patterns| - 1]) + [PatternWord(patterns[|patterns| - 1])]
  }

  function ChannelWords(channels: seq<string>): seq<string>
  {
    if channels == [] then [] else ChannelWords(channels[..|channels| - 1]) + ["&" + channels[|channels| - 1]]
  }

  // The first part of ACLDescribeSelector.
  function DescribeKeys(k: KeyRules): seq<string>
  {
    (if k.allKeys then ["~*"] else PatternWords(k.patterns)) +
    (if k.allChannels then ["&*"] else ["resetchannels"] + ChannelWords(k.channels))
  }

  // Operations that must all be accepted.
  function SetAllKeys(k: KeyRules, ops: seq<string>): Result<KeyRules>
    requires AllPatternOps(ops)
  {
    if ops == [] then Ok(k)
    else
      match SetAllKeys(k, ops[..|ops| - 1])
      case Err(error) => Err(error)
      case Ok(k1) => SetKeys(k1, ops[|ops| - 1])
  }

  predicate AllPatternOps(ops: seq<string>) { forall i | 0 <= i < |ops| :: IsPatternOp(ops[i]) }

  // Reading and writing on every key, as a pattern of its own: its word is the one that allows all keys.
  const STAR := KeyPattern("*", true, true)

  lemma AppendOps(k: KeyRules, ops: seq<string>, op: string)
    requires AllPatternOps(ops) && IsPatternOp(op)
    ensures AllPatternOps(ops + [op])
    ensures SetAllKeys(k, ops + [op]) ==
            match SetAllKeys(k, ops)
            case Err(error) => Err(error)
            case Ok(k1) => SetKeys(k1, op)
  {
    hide SetKeys, IsPatternOp;
    assert (ops + [op])[..|ops|] == ops;
  }

  lemma {:induction false} SetAllConcat(k: KeyRules, a: seq<string>, b: seq<string>)
    requires AllPatternOps(a) && AllPatternOps(b)
    ensures AllPatternOps(a + b)
    ensures SetAllKeys(k, a + b) ==
            match SetAllKeys(k, a)
            case Err(error) => Err(error)
            case Ok(k1) => SetAllKeys(k1, b)
    decreases |b|
  {
    hide SetKeys, IsPatternOp;
    if b == [] {
      assert a + b == a;
    } else {
      assert a + b == (a + b[..|b| - 1]) + [b[|b| - 1]];
      SetAllConcat(k, a, b[..|b| - 1]);
      AppendOps(k, a + b[..|b| - 1], b[|b| - 1]);
    }
  }

  // The words for patterns and channels are none of the named operations.
  lemma NotNamed(op: string)
    requires op != [] && (op[0] == '~' || op[0] == '%' || op[0] == '&')
    ensures Lower(op) != "allkeys" && Lower(op) != "resetkeys"
    ensures Lower(op) != "allchannels" && Lower(op) != "resetchannels"
  {
    assert Lower(op)[0] == op[0];
  }

  lemma WordParts(p: KeyPattern)
    requires p.read || p.write
    ensures var op := PatternWord(p);
            && op != [] && (op[0] == '~' || op[0] == '%') && (op == "~*" <==> p == STAR)
            && var r := if op[0] == '%' then Permissions(op, 1, false, false) else Ok((true, true, 1));
               r.Ok? && r.value.0 == p.read && r.value.1 == p.write && op[r.value.2..] == p.pattern
  {
    var op := PatternWord(p);
    if p.read && p.write {
      assert op[1..] == p.pattern;
    } else {
      assert op[1] == (if p.read then 'R' else 'W') && op[2] == '~' && op[3..] == p.pattern;
      assert Permissions(op, 2, p.read, p.write) == Ok((p.read, p.write, 3));
    }
  }

  // One word of the description.
  lemma LoadPattern(k: KeyRules, p: KeyPattern)
    requires (p.read || p.write) && !HasSpaces(p.pattern)
    requires forall i | 0 <= i < |k.patterns| :: k.patterns[i].pattern != p.pattern
    ensures IsPatternOp(PatternWord(p))
    ensures SetKeys(k, PatternWord(p)) ==
            if p == STAR then Ok(k.(allKeys := true, patterns := []))
            else if k.allKeys then Err(Exists)
            else Ok(k.(patterns := k.patterns + [p]))
  {
    WordParts(p);
    NotNamed(PatternWord(p));
    AddAt(k.patterns, p, |k.patterns|);
    hide Permissions, AddPattern, HasSpaces, Lower, PatternWord;
  }

  lemma PatternsFront(ps: seq<KeyPattern>)
    requires PatternsOk(ps) && ps != []
    ensures var (front, p) := (ps[..|ps| - 1], ps[|ps| - 1]);
            && PatternsOk(front) && (p.read || p.write) && !HasSpaces(p.pattern)
            && (forall i | 0 <= i < |front| :: front[i].pattern != p.pattern)
            && (p == STAR ==> STAR !in front) && (STAR in ps <==> STAR in front || p == STAR)
  {
    hide HasSpaces;
    assert ps == ps[..|ps| - 1] + [ps[|ps| - 1]];
  }

  // The patterns of a description, read by a new selector.
  lemma {:induction false} LoadPatterns(b: bool, ps: seq<KeyPattern>)
    requires PatternsOk(ps)
    ensures AllPatternOps(PatternWords(ps))
    ensures SetAllKeys(NewRules(b), PatternWords(ps)) ==
            if STAR !in ps then Ok(NewRules(b).(patterns := ps))
            else if ps[|ps| - 1] == STAR then Ok(NewRules(b).(allKeys := true))
            else Err(Exists)
  {
    hide SetKeys, PatternWord, PatternsOk, HasSpaces, IsPatternOp;
    if ps != [] {
      var (front, p) := (ps[..|ps| - 1], ps[|ps| - 1]);
      PatternsFront(ps);
      LoadPatterns(b, front);
      LoadPattern(NewRules(b).(patterns := front), p);
      LoadPattern(NewRules(b).(allKeys := true), p);
      AppendOps(NewRules(b), PatternWords(front), PatternWord(p));
      assert ps == front + [p];
    }
  }

  lemma LoadChannel(k: KeyRules, c: string)
    requires !k.allChannels && !HasSpaces(c) && c != "*" && c !in k.channels
    ensures IsPatternOp("&" + c) && SetKeys(k, "&" + c) == Ok(k.(channels := k.channels + [c]))
  {
    var op := "&" + c;
    assert op[0] == '&' && op[1..] == c;
    NotNamed(op);
    assert op[1..] != "&*"[1..];
    hide HasSpaces, Lower;
  }

  lemma {:induction false} LoadChannels(k: KeyRules, cs: seq<string>)
    requires ChannelsOk(cs) && !k.allChannels && k.channels == []
    ensures AllPatternOps(ChannelWords(cs)) && SetAllKeys(k, ChannelWords(cs)) == Ok(k.(channels := cs))
  {
    hide SetKeys, HasSpaces, IsPatternOp;
    if cs != [] {
      var (front, c) := (cs[..|cs| - 1], cs[|cs| - 1]);
      assert !HasSpaces(c) && c != "*";
      LoadChannels(k, front);
      LoadChannel(k.(channels := front), c);
      AppendOps(k, ChannelWords(front), "&" + c);
      assert cs == front + [c] && c !in front;
    }
  }

  // The word for all of them, or the one that clears the default.
  lemma LoadNamed(k: KeyRules)
    ensures IsPatternOp("~*") && SetKeys(k, "~*") == Ok(k.(allKeys := true, patterns := []))
    ensures IsPatternOp("&*") && SetKeys(k, "&*") == Ok(k.(allChannels := true, channels := []))
    ensures IsPatternOp("resetchannels") && SetKeys(k, "resetchannels") == Ok(k.(allChannels := false, channels := []))
  {
    NotNamed("~*");
    NotNamed("&*");
    assert Lower("resetchannels") == "resetchannels";
  }

  lemma LoadOne(k: KeyRules, op: string)
    requires IsPatternOp(op)
    ensures AllPatternOps([op]) && SetAllKeys(k, [op]) == SetKeys(k, op)
  {
    hide SetKeys, IsPatternOp;
    assert [op][..0] == [];
    assert SetAllKeys(k, []) == Ok(k);
  }

  lemma LoadKeyPart(k: KeyRules, b: bool)
    requires KeysOk(k)
    ensures var words := if k.allKeys then ["~*"] else PatternWords(k.patterns);
            && AllPatternOps(words)
            && SetAllKeys(NewRules(b), words) ==
               if STAR !in k.patterns then Ok(NewRules(b).(allKeys := k.allKeys, patterns := k.patterns))
               else if k.patterns[|k.patterns| - 1] == STAR then Ok(NewRules(b).(allKeys := true))
               else Err(Exists)
  {
    hide SetKeys, PatternsOk, ChannelsOk, IsPatternOp;
    if k.allKeys {
      LoadNamed(NewRules(b));
      LoadOne(NewRules(b), "~*");
    } else {
      LoadPatterns(b, k.patterns);
    }
  }

  lemma LoadChannelPart(k: KeyRules, start: KeyRules)
    requires KeysOk(k) && start.channels == []
    ensures var words := if k.allChannels then ["&*"] else ["resetchannels"] + ChannelWords(k.channels);
            && AllPatternOps(words)
            && SetAllKeys(start, words) == Ok(start.(allChannels := k.allChannels, channels := k.channels))
  {
    hide SetKeys, PatternsOk, ChannelsOk, IsPatternOp;
    LoadNamed(start);
    if k.allChannels {
      LoadOne(start, "&*");
    } else {
      LoadOne(start, "resetchannels");
      var k1 := start.(allChannels := false, channels := []);
      LoadChannels(k1, k.channels);
      SetAllConcat(start, ["resetchannels"], ChannelWords(k.channels));
    }
  }

  // The description given to a new selector sets the same patterns again, whatever the default for channels, if and
  // only if reading and writing every key is not a pattern of its own: that pattern is described as ~*, which clears
  // the list, and any pattern after it is refused.
  lemma KeysLoad(k: KeyRules, b: bool)
    requires KeysOk(k)
    ensures AllPatternOps(DescribeKeys(k))
    ensures var r := SetAllKeys(NewRules(b), DescribeKeys(k));
            && (r == Ok(k) <==> STAR !in k.patterns)
            && (STAR in k.patterns ==>
                  r == if k.patterns[|k.patterns| - 1] == STAR then Ok(k.(allKeys := true, patterns := []))
                       else Err(Exists))
  {
    hide SetKeys, PatternsOk, ChannelsOk, IsPatternOp, PatternWords, ChannelWords, SetAllKeys;
    var first := if k.allKeys then ["~*"] else PatternWords(k.patterns);
    var second := if k.allChannels then ["&*"] else ["resetchannels"] + ChannelWords(k.channels);
    LoadKeyPart(k, b);
    LoadChannelPart(k, NewRules(b));
    SetAllConcat(NewRules(b), first, second);
    var r := SetAllKeys(NewRules(b), first);
    if r.Ok? {
      LoadChannelPart(k, r.value);
    }
  }

  // For example after %RW~* and ~a, which are both accepted: the description is refused.
  lemma StarExample()
    ensures var ops := ["%RW~*", "~a"];
            && AllPatternOps(ops) && SetAllKeys(NewRules(false), ops).Ok?
            && var k := SetAllKeys(NewRules(false), ops).value;
               && KeysOk(k) && AllPatternOps(DescribeKeys(k))
               && SetAllKeys(NewRules(false), DescribeKeys(k)) == Err(Exists)
  {
    var (star, a) := (STAR, KeyPattern("a", true, true));
    StarWord();
    var k1 := NewRules(false).(patterns := [star]);
    assert PatternWord(a) == "~a";
    LoadPattern(k1, a);
    LoadOne(NewRules(false), "%RW~*");
    AppendOps(NewRules(false), ["%RW~*"], "~a");
    var k := k1.(patterns := [star] + [a]);
    assert KeysOk(k);
    KeysLoad(k, false);
  }

  lemma StarWord()
    ensures IsPatternOp("%RW~*") && SetKeys(NewRules(false), "%RW~*") == Ok(NewRules(false).(patterns := [STAR]))
  {
    var op := "%RW~*";
    NotNamed(op);
    assert Permissions(op, 3, true, true) == Ok((true, true, 4));
    assert Permissions(op, 2, true, false) == Ok((true, true, 4));
    assert op[4..] == "*";
    assert AddPattern([], STAR) == [STAR];
  }
}
