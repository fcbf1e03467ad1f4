// The description of a whole selector, loaded into a new one; and what a replay makes of the flag for all commands.
module AclDescribe {
  import opened Options
  import opened Sds
  import opened AclRules
  import opened AclKeys
  import opened AclSelector

  // ---------- the text ----------

  // ACLDescribeSelector
  function DescribeSelector(s: State): string { Join(DescribeKeys(s.keys)) + " " + Describe(s) }

  // sdssplitlen at every blank
  function SplitBlanks(s: string): seq<string>
    decreases |s|
  {
    var k := Find(s, ' ', 0);
    if k == |s| then [s] else [s[..k]] + SplitBlanks(s[k + 1..])
  }

  lemma SplitFirst(w: string, rest: string)
    requires ' ' !in w
    ensures SplitBlanks(w + " " + rest) == [w] + SplitBlanks(rest)
  {
    var s := w + " " + rest;
    assert s[|w|] == ' ' && s[..|w|] == w && s[|w| + 1..] == rest;
    assert Find(s, ' ', 0) == |w|;
  }

  lemma {:induction false} SplitWords(words: seq<string>)
    requires words != [] && forall i | 0 <= i < |words| :: ' ' !in words[i]
    ensures SplitBlanks(Join(words)) == words
    decreases |words|
  {
    if |words| == 1 {
      assert Find(words[0], ' ', 0) == |words[0]|;
    } else {
      SplitWords(words[1..]);
      SplitFirst(words[0], Join(words[1..]));
      hide SplitBlanks;
      assert words == [words[0]] + words[1..];
    }
  }

  lemma {:induction false} PatternsNoBlank(ps: seq<KeyPattern>)
    requires PatternsOk(ps)
    ensures forall i | 0 <= i < |PatternWords(ps)| :: ' ' !in PatternWords(ps)[i]
  {
    if ps != [] {
      PatternsFront(ps);
      PatternsNoBlank(ps[..|ps| - 1]);
      NoBlank(ps[|ps| - 1].pattern);
    }
  }

  lemma NoBlank(s: string)
    requires !HasSpaces(s)
    ensures ' ' !in s
  {
    assert forall i | 0 <= i < |s| :: s[i] == ' ' ==> IsSpace(s[i]);
  }

  lemma {:induction false} ChannelsNoBlank(cs: seq<string>)
    requires ChannelsOk(cs)
    ensures forall i | 0 <= i < |ChannelWords(cs)| :: ' ' !in ChannelWords(cs)[i]
  {
    if cs != [] {
      ChannelsNoBlank(cs[..|cs| - 1]);
      NoBlank(cs[|cs| - 1]);
    }
  }

  lemma KeysNoBlank(k: KeyRules)
    requires KeysOk(k)
    ensures DescribeKeys(k) != [] && forall i | 0 <= i < |DescribeKeys(k)| :: ' ' !in DescribeKeys(k)[i]
  {
    PatternsNoBlank(k.patterns);
    ChannelsNoBlank(k.channels);
    hide PatternsOk, ChannelsOk, PatternWords, ChannelWords;
  }

  // The words of the description: patterns, channels, the start, the rules.
  function AllWords(s: State, words: seq<string>): seq<string>
  {
    DescribeKeys(s.keys) + ([All(FUTURE in s.bits)] + words)
  }

  lemma DescriptionWords(e: Env, s: State, words: seq<string>)
    requires Described(e, s, words) && KeysOk(s.keys)
    ensures SplitBlanks(DescribeSelector(s)) == AllWords(s, words)
  {
    var (keys, rules) := (DescribeKeys(s.keys), [All(FUTURE in s.bits)] + words);
    KeysNoBlank(s.keys);
    PlainNoBlanks(rules, words);
    DescribeJoined(s, words);
    hide Described, KeysOk, DescribeKeys, Describe, SplitBlanks, Join, AclSelector.All;
    JoinConcat(keys, rules);
    assert forall i | 0 <= i < |keys + rules| :: ' ' !in (keys + rules)[i];
    SplitWords(keys + rules);
  }

  lemma PlainNoBlanks(rules: seq<string>, words: seq<string>)
    requires PlainWords(words) && exists future :: rules == [All(future)] + words
    ensures forall i | 0 <= i < |rules| :: ' ' !in rules[i]
  {
    forall i | 0 <= i < |words|
      ensures ' ' !in words[i]
    {
      assert Plain(words[i]);
      assert forall j | 0 <= j < |words[i]| :: PlainChar(words[i][j]);
    }
  }

  lemma DescribeJoined(s: State, words: seq<string>)
    requires s.rules == Join(words) && PlainWords(words)
    ensures Describe(s) == Join([All(FUTURE in s.bits)] + words)
  {
    var all := All(FUTURE in s.bits);
    JoinEmpty(words);
    hide PlainWords;
    if words == [] {
      assert [all] + words == [all] && all + "" == all;
    } else {
      JoinConcat([all], words);
      assert all + (" " + Join(words)) == all + " " + Join(words);
    }
  }

  // ---------- loading it ----------

  lemma {:induction false} ApplyConcat(e: Env, s: State, a: seq<string>, b: seq<string>)
    ensures ApplyAll(e, s, a + b) ==
            match ApplyAll(e, s, a)
            case Err(error) => Err(error)
            case Ok(t) => ApplyAll(e, t, b)
    decreases |b|
  {
    hide SetSelector;
    if b == [] {
      assert a + b == a;
    } else {
      assert (a + b)[..|a + b| - 1] == a + b[..|b| - 1];
      ApplyConcat(e, s, a, b[..|b| - 1]);
    }
  }

  lemma {:induction false} ApplyKeys(e: Env, s: State, ops: seq<string>)
    requires AllPatternOps(ops)
    ensures ApplyAll(e, s, ops) ==
            match SetAllKeys(s.keys, ops)
            case Err(error) => Err(error)
            case Ok(k) => Ok(s.(keys := k))
  {
    hide SetKeys, IsPatternOp;
    if ops != [] {
      ApplyKeys(e, s, ops[..|ops| - 1]);
      var op := ops[|ops| - 1];
      assert IsPatternOp(op) && Parse(e, op) == Ok(Patterns);
    }
  }

  // The same permissions, patterns and rules.
  predicate SameSelector(r: Result<State>, s: State)
  {
    r.Ok? && Granted(r.value) == Granted(s) && r.value.keys == s.keys && r.value.rules == s.rules
  }

  // The printed description of a selector, split at its blanks and given to a new selector, makes the same selector
  // again, if and only if reading and writing every key is not a pattern of its own; if it is, and is not the last
  // pattern, the description is refused.
  lemma SelectorLoads(e: Env, s: State, words: seq<string>, b: bool)
    requires Valid(e) && Described(e, s, words) && KeysOk(s.keys)
    ensures var r := ApplyAll(e, Fresh(b), SplitBlanks(DescribeSelector(s)));
            && (SameSelector(r, s) <==> STAR !in s.keys.patterns)
            && (STAR in s.keys.patterns && s.keys.patterns[|s.keys.patterns| - 1] != STAR ==> r == Err(Exists))
  {
    DescriptionWords(e, s, words);
    KeysLoad(s.keys, b);
    hide Valid, SplitBlanks, DescribeSelector, KeysOk, DescribeKeys, ApplyAll, SetAllKeys;
    ApplyKeys(e, Fresh(b), DescribeKeys(s.keys));
    ApplyConcat(e, Fresh(b), DescribeKeys(s.keys), [All(FUTURE in s.bits)] + words);
    var k := SetAllKeys(NewRules(b), DescribeKeys(s.keys));
    if k.Ok? {
      LoadRules(e, Fresh(b).(keys := k.value), s, words);
    }
  }

  lemma LoadRules(e: Env, start: State, s: State, words: seq<string>)
    requires Valid(e) && Described(e, s, words)
    ensures var r := ApplyAll(e, start, [All(FUTURE in s.bits)] + words);
            r.Ok? && Granted(r.value) == Granted(s) && r.value.rules == s.rules && r.value.keys == start.keys
  {
    hide Valid, ApplyAll, RunWords, Clean, Granted, ArgsFit, Plain, Canonical, Join, SetSelector, AclSelector.All;
    var future := FUTURE in s.bits;
    AllParses(e, start, future);
    ApplyFirst(e, start, All(future), words);
    ReplayWords(e, start, words, future);
  }

  lemma {:induction false} RunKeysOk(e: Env, s: State, ops: seq<string>)
    requires Valid(e) && IsDescribed(e, s) && KeysOk(s.keys) && forall i | 0 <= i < |ops| :: OpPlain(e, ops[i])
    ensures KeysOk(RunOps(e, s, ops).keys)
    decreases |ops|
  {
    hide Valid, Described, OpPlain, SetSelector, KeysOk;
    if ops != [] {
      RunKeysOk(e, s, ops[..|ops| - 1]);
      RunDescribed(e, s, ops[..|ops| - 1]);
      var t := RunOps(e, s, ops[..|ops| - 1]);
      var words :| Described(e, t, words);
      StepKeysOk(e, t, words, ops[|ops| - 1]);
    }
  }

  lemma StepKeysOk(e: Env, s: State, words: seq<string>, op: string)
    requires Valid(e) && Described(e, s, words) && KeysOk(s.keys)
    ensures KeysOk(AclSelector.After(e, s, op).keys)
  {
    hide Valid, KeysOk, Granted, RunWords, Parse, SetKeys, AddRule, ChangePerm, AddArg, CategoryPerm, ActionOf, Kept;
    if Parse(e, op).Ok? {
      if IsRule(Parse(e, op).value) {
        SetSelectorGrants(e, s, op);
      } else if Parse(e, op).value == Patterns {
        PatternParsed(e, op);
        if SetKeys(s.keys, op).Ok? {
          SetKeysKeeps(s.keys, op);
        }
      }
    }
  }

  lemma PatternParsed(e: Env, op: string)
    requires Parse(e, op) == Ok(Patterns)
    ensures IsPatternOp(op)
  {
    hide Lower, Lookup;
  }

  // So it is after every run of operations with plain first arguments.
  lemma RunLoads(e: Env, b: bool, ops: seq<string>, b': bool)
    requires Valid(e) && forall i | 0 <= i < |ops| :: OpPlain(e, ops[i])
    ensures var s := RunOps(e, Fresh(b), ops);
            SameSelector(ApplyAll(e, Fresh(b'), SplitBlanks(DescribeSelector(s))), s) <==> STAR !in s.keys.patterns
  {
    hide Valid, OpPlain, SplitBlanks, DescribeSelector, ApplyAll, SameSelector;
    FreshDescribed(e, b);
    FreshKeys(b);
    hide KeysOk;
    RunDescribed(e, Fresh(b), ops);
    RunKeysOk(e, Fresh(b), ops);
    var s := RunOps(e, Fresh(b), ops);
    var words :| Described(e, s, words);
    SelectorLoads(e, s, words, b');
  }

  lemma FreshKeys(b: bool)
    ensures KeysOk(Fresh(b).keys)
  {}

  // ---------- the flag for all commands ----------

  // The action takes a command away.
  predicate Clears(a: Action) { a.Bits? && !a.allow && a.ids != {} }

  lemma SetBitFlag(s: State, id: nat, allow: bool)
    ensures SetBit(s, id, allow).allCommands <==> s.allCommands && (allow || Clip({id}) == {})
  {
    assert id in Clip({id}) <==> id < BITS;
    assert id >= BITS ==> Clip({id}) == {};
  }

  lemma EmptyUnion(a: set<nat>, b: set<nat>)
    ensures a + b == {} <==> a == {} && b == {}
  {
    assert a <= a + b && b <= a + b;
  }

  lemma ClipNone(a: set<nat>, b: set<nat>)
    ensures Clip(a + b) == {} <==> Clip(a) == {} && Clip(b) == {}
  {
    ClipUnion(a, b);
    EmptyUnion(Clip(a), Clip(b));
  }

  lemma {:induction false} SubsFlag(s: State, subs: seq<Subcommand>, allow: bool)
    ensures SetSubs(s, subs, allow).allCommands <==> s.allCommands && (allow || Clip(SubIds(subs)) == {})
    decreases |subs|
  {
    hide SetBit, Clip;
    if subs == [] {
      assert SubIds(subs) == {};
      ClipUnion({}, {});
    } else {
      var (front, last) := (subs[..|subs| - 1], subs[|subs| - 1]);
      SubsFlag(s, front, allow);
      SetBitFlag(SetSubs(s, front, allow), last.id, allow);
      SubIdsSnoc(subs);
      ClipNone(SubIds(front), {last.id});
    }
  }

  // Taking away a command, with its subcommands, or one subcommand.
  function PermIds(f: Found): set<nat> { if f.Top? then {f.c.id} + SubIds(f.c.subs) else {f.sub.id} }

  lemma PermFlag(s: State, f: Found, allow: bool)
    ensures ChangePerm(s, f, allow).allCommands <==> s.allCommands && (allow || Clip(PermIds(f)) == {})
  {
    hide Clip, SubIds;
    match f
    case Top(c) =>
      SetBitFlag(s, c.id, allow);
      var s1 := ResetArgs(SetBit(s, c.id, allow), c.id);
      hide SetBit;
      SubsFlag(s1, c.subs, allow);
      ClipNone({c.id}, SubIds(c.subs));
    case Sub(_, sub) => SetBitFlag(s, sub.id, allow);
  }

  lemma {:induction false} CategorySubsFlag(s: State, c: Command, subs: seq<Subcommand>, flag: bv64, allow: bool)
    ensures CategorySubs(s, c, subs, flag, allow).allCommands <==>
            s.allCommands && (allow || Clip(SubIdsIn(subs, flag)) == {})
    decreases |subs|
  {
    hide ChangePerm, Clip, InCategory;
    if subs == [] {
      assert SubIdsIn(subs, flag) == {};
      ClipUnion({}, {});
    } else {
      var (front, last) := (subs[..|subs| - 1], subs[|subs| - 1]);
      CategorySubsFlag(s, c, front, flag, allow);
      SubIdsInSnoc(subs, flag);
      hide SubIdsIn;
      if InCategory(last.categories, flag) {
        PermFlag(CategorySubs(s, c, front, flag, allow), Sub(c, last), allow);
        ClipNone(SubIdsIn(front, flag), {last.id});
      } else {
        assert SubIdsIn(front, flag) + {} == SubIdsIn(front, flag);
      }
    }
  }

  lemma {:induction false} CategoryFlag(s: State, t: seq<Command>, flag: bv64, allow: bool)
    ensures CategoryPerm(s, t, flag, allow).allCommands <==>
            s.allCommands && (allow || Clip(CategoryIds(t, flag)) == {})
    decreases |t|
  {
    hide ChangePerm, CategorySubs, Clip, InCategory, SubIdsIn, SubIds;
    if t == [] {
      ClipUnion({}, {});
    } else {
      var (front, c) := (t[..|t| - 1], t[|t| - 1]);
      CategoryFlag(s, front, flag, allow);
      var s1 := CategoryPerm(s, front, flag, allow);
      var (ids, subs) := (CategoryIds(front, flag), SubIdsIn(c.subs, flag));
      if InCategory(c.categories, flag) {
        PermFlag(s1, Top(c), allow);
        CategorySubsFlag(ChangePerm(s1, Top(c), allow), c, c.subs, flag, allow);
        ClipNone(ids, PermIds(Top(c)));
        ClipNone(ids + PermIds(Top(c)), subs);
      } else {
        CategorySubsFlag(s1, c, c.subs, flag, allow);
        assert ids + {} + subs == ids + subs;
        ClipNone(ids, subs);
      }
    }
  }

  // An accepted rule clears the flag exactly when it takes a command away.
  lemma RuleFlag(e: Env, s: State, op: string)
    requires Parse(e, op).Ok? && IsRule(Parse(e, op).value)
    ensures SetSelector(e, s, op).Ok?
    ensures SetSelector(e, s, op).value.allCommands <==> s.allCommands && !Clears(ActionOf(e, Parse(e, op).value))
  {
    var q := Parse(e, op).value;
    hide Parse, ChangePerm, CategoryPerm, PruneText, Clip, SubIds, CategoryIds, CategoryTops, Lower;
    match q
    case Perm(f, allow, rule) => PermFlag(s, f, allow);
    case FirstArg(c, arg, rule) =>
    case ByCategory(flag, allow, rule) => CategoryFlag(AddRule(s, rule, allow), e.table, flag, allow);
  }

  predicate NoneClears(e: Env, words: seq<string>)
    requires AllCanonical(e, words)
  {
    forall i | 0 <= i < |words| :: !Clears(WordAction(e, words[i]))
  }

  // After a replay the flag is set if and only if commands to come are allowed and no rule of the list takes a command
  // away.
  lemma {:induction false} FlagReplayed(e: Env, start: State, words: seq<string>, future: bool)
    requires Valid(e) && PlainWords(words) && AllCanonical(e, words) && Clean(words)
    ensures var r := ApplyAll(e, Everyone(start, future), words);
            r.Ok? && (r.value.allCommands <==> future && NoneClears(e, words))
    decreases |words|
  {
    hide Valid, Canonical, Plain, SetSelector, Clears, WordAction;
    ReplayWords(e, start, words, future);
    if words != [] {
      var (front, w) := (words[..|words| - 1], words[|words| - 1]);
      CleanFront(words);
      FlagReplayed(e, start, front, future);
      var t := ApplyAll(e, Everyone(start, future), front).value;
      assert Canonical(e, w);
      WordFlag(e, t, w);
      assert forall i | 0 <= i < |front| :: front[i] == words[i];
    }
  }

  lemma WordFlag(e: Env, s: State, w: string)
    requires Canonical(e, w)
    ensures SetSelector(e, s, w).Ok?
    ensures SetSelector(e, s, w).value.allCommands <==> s.allCommands && !Clears(WordAction(e, w))
  {
    hide Lower, Clears, ActionOf, SetSelector, Parse;
    RuleFlag(e, s, w);
  }

  // The list describes the selector, and while the flag is set, nothing in it takes a command away.
  predicate FlagDescribed(e: Env, s: State, words: seq<string>)
  {
    Described(e, s, words) && (s.allCommands ==> FUTURE in s.bits && NoneClears(e, words))
  }

  ghost predicate FlagOk(e: Env, s: State) { exists words :: FlagDescribed(e, s, words) }

  // A replay never drops the flag, and keeps it as it was if and only if it was set, or commands to come are not
  // allowed, or a rule that takes a command away is still in the list.
  lemma FlagKept(e: Env, start: State, s: State, words: seq<string>)
    requires Valid(e) && FlagDescribed(e, s, words)
    ensures var r := Replay(e, start, s);
            && r.Ok? && (s.allCommands ==> r.value.allCommands)
            && (r.value.allCommands == s.allCommands <==>
                  s.allCommands || FUTURE !in s.bits || !NoneClears(e, words))
  {
    SplitJoin(words);
    FlagReplayed(e, start, words, FUTURE in s.bits);
    hide Valid, ApplyAll, RunWords, Clean, Everyone, Granted, ArgsFit, Plain, Canonical, NoneClears;
  }

  lemma {:induction false} PrunedNoneClears(e: Env, words: seq<string>, rule: string)
    requires AllCanonical(e, words) && AllCanonical(e, Pruned(words, rule)) && NoneClears(e, words)
    ensures NoneClears(e, Pruned(words, rule))
  {
    var p := Pruned(words, rule);
    hide Canonical, WordAction, Clears, Pruned;
    forall i | 0 <= i < |p|
      ensures !Clears(WordAction(e, p[i]))
    {
      PrunedIn(words, rule, i);
      var k :| 0 <= k < |words| && words[k] == p[i];
    }
  }

  lemma StepFlagOk(e: Env, s: State, words: seq<string>, op: string)
    requires Valid(e) && OpPlain(e, op) && FlagDescribed(e, s, words)
    ensures FlagOk(e, AclSelector.After(e, s, op))
  {
    hide Parse, Valid, Described, Everyone, Kept, OpPlain, NoneClears, Clears, ActionOf;
    if !Parse(e, op).Ok? {
      assert FlagDescribed(e, AclSelector.After(e, s, op), words);
    } else {
      var q := Parse(e, op).value;
      if IsRule(q) {
        RuleFlagOk(e, s, words, op);
      } else if q.Everything? {
        EveryoneDescribed(e, s, q.allow);
        EveryoneFlag(e, s, q.allow);
        assert FlagDescribed(e, AclSelector.After(e, s, op), []);
      } else {
        KeysNotDescribed(e, s, words, AclSelector.After(e, s, op).keys);
        assert FlagDescribed(e, AclSelector.After(e, s, op), words);
      }
    }
  }

  lemma EveryoneFlag(e: Env, s: State, allow: bool)
    ensures AllCanonical(e, []) && NoneClears(e, []) && Everyone(s, allow).allCommands == allow
  {}

  lemma RuleFlagOk(e: Env, s: State, words: seq<string>, op: string)
    requires Valid(e) && OpPlain(e, op) && FlagDescribed(e, s, words)
    requires Parse(e, op).Ok? && IsRule(Parse(e, op).value)
    ensures FlagOk(e, AclSelector.After(e, s, op))
  {
    hide Parse, Valid, Everyone, Kept, OpPlain, Clears, ActionOf, SetSelector, Canonical, Plain, WordAction, Pruned;
    hide RunWords, Clean, Granted, ArgsFit, Join;
    var (q, w) := (Parse(e, op).value, Kept(Parse(e, op).value));
    RulePlain(e, op);
    RuleKeeps(e, s, words, op);
    RuleFlag(e, s, op);
    KeptCanonical(e, op);
    var (t, p) := (SetSelector(e, s, op).value, Pruned(words, w[1..]));
    PrunedSubset(e, words, w[1..]);
    if t.allCommands {
      PrunedNoneClears(e, words, w[1..]);
      assert forall i | 0 <= i < |p| :: (p + [w])[i] == p[i];
      assert NoneClears(e, Extended(words, w));
    }
    assert FlagDescribed(e, t, Extended(words, w));
  }

  lemma {:induction false} RunFlagOk(e: Env, s: State, ops: seq<string>)
    requires Valid(e) && FlagOk(e, s) && forall i | 0 <= i < |ops| :: OpPlain(e, ops[i])
    ensures FlagOk(e, RunOps(e, s, ops))
    decreases |ops|
  {
    hide Valid, FlagDescribed, OpPlain, SetSelector;
    if ops != [] {
      var t := RunOps(e, s, ops[..|ops| - 1]);
      RunFlagOk(e, s, ops[..|ops| - 1]);
      var words :| FlagDescribed(e, t, words);
      StepFlagOk(e, t, words, ops[|ops| - 1]);
    }
  }

  // So over every run from a new selector.
  lemma RunFlag(e: Env, b: bool, ops: seq<string>, start: State) returns (words: seq<string>)
    requires Valid(e) && forall i | 0 <= i < |ops| :: OpPlain(e, ops[i])
    ensures var (s, r) := (RunOps(e, Fresh(b), ops), Replay(e, start, RunOps(e, Fresh(b), ops)));
            && FlagDescribed(e, s, words) && r.Ok? && (s.allCommands ==> r.value.allCommands)
            && (r.value.allCommands == s.allCommands <==>
                  s.allCommands || FUTURE !in s.bits || !NoneClears(e, words))
  {
    hide Valid, OpPlain, NoneClears, Replay;
    FreshFlagOk(e, b);
    RunFlagOk(e, Fresh(b), ops);
    var s := RunOps(e, Fresh(b), ops);
    words :| FlagDescribed(e, s, words);
    FlagKept(e, start, s, words);
  }

  lemma FreshFlagOk(e: Env, b: bool)
    ensures FlagOk(e, Fresh(b))
  {
    assert ArgPairs(map[]) == {};
    assert FlagDescribed(e, Fresh(b), []);
  }

  lemma GetTwice(e: Env, b: bool, get: Command)
    requires Valid(e) && Lookup(e, "get") == Some(Top(get)) && Lower(get.name) == "get" && get.id < BITS
    ensures var s := RunOps(e, Fresh(b), ["+@all", "-get", "+get"]);
            && !s.allCommands && FUTURE in s.bits && Described(e, s, ["+get"])
            && Canonical(e, "+get") && !Clears(WordAction(e, "+get"))
  {
    hide Valid, Lookup, Lower, Parse, SetSelector, Described, Canonical, Clears, WordAction, Everyone, RunOps, Pruned;
    assert Sign(false) + "get" == "-get" && Sign(true) + "get" == "+get";
    AllParses(e, Fresh(b), true);
    var s0 := Everyone(Fresh(b), true);
    EveryoneDescribed(e, Fresh(b), true);
    GetParses(e, get, false);
    GetParses(e, get, true);
    GetStep(e, get, s0, [], false);
    var s1 := SetSelector(e, s0, "-get").value;
    PrunedGet();
    assert Extended([], "-get") == ["-get"];
    GetStep(e, get, s1, ["-get"], true);
    assert Extended(["-get"], "+get") == ["+get"];
    ExampleRun(e, Fresh(b), s0, s1, SetSelector(e, s1, "+get").value);
  }

  // For example +@all, -get, +get: the flag is off, the rule that cleared it is not in the list any more, and the
  // replay turns the flag on.
  lemma FlagExample(e: Env, b: bool, get: Command, start: State)
    requires Valid(e) && Lookup(e, "get") == Some(Top(get)) && get.subs == [] && get.id < BITS
    requires Lower(get.name) == "get"
    ensures var s := RunOps(e, Fresh(b), ["+@all", "-get", "+get"]);
            && !s.allCommands && s.rules == "+get"
            && Replay(e, start, s).Ok? && Replay(e, start, s).value.allCommands
  {
    hide Valid, Lookup, Lower, RunOps, Replay, Described, Canonical, Clears, WordAction;
    GetTwice(e, b, get);
    var s := RunOps(e, Fresh(b), ["+@all", "-get", "+get"]);
    DescribedRules(e, s);
    assert NoneClears(e, ["+get"]);
    FlagKept(e, start, s, ["+get"]);
  }

  lemma PrunedGet()
    ensures Pruned(["-get"], "get") == [] && Pruned([], "get") == []
  {
    assert "-get"[1..] == "get" && ["-get"][..0] == [];
    assert Pruned([], "get") == [];
  }

  lemma DescribedRules(e: Env, s: State)
    requires Described(e, s, ["+get"])
    ensures s.rules == "+get" && AllCanonical(e, ["+get"])
  {}

  lemma GetParses(e: Env, get: Command, allow: bool)
    requires Lookup(e, "get") == Some(Top(get)) && Lower(get.name) == "get"
    ensures Parse(e, Sign(allow) + "get") == Ok(Perm(Top(get), allow, "get"))
  {
    var op := Sign(allow) + "get";
    hide Lookup;
    assert Lower(op)[1] == 'g' && op[1..] == "get";
    assert '|' !in "get";
  }

  // Allowing or denying GET on a described selector.
  lemma GetStep(e: Env, get: Command, s: State, words: seq<string>, allow: bool)
    requires Valid(e) && Described(e, s, words) && get.id < BITS
    requires Parse(e, Sign(allow) + "get") == Ok(Perm(Top(get), allow, "get"))
    ensures var (op, r) := (Sign(allow) + "get", SetSelector(e, s, Sign(allow) + "get"));
            && r.Ok? && Described(e, r.value, Extended(words, op))
            && (FUTURE in r.value.bits <==> FUTURE in s.bits) && r.value.allCommands == (s.allCommands && allow)
            && Canonical(e, op) && Clears(WordAction(e, op)) == !allow
  {
    var op := Sign(allow) + "get";
    hide Valid, Parse, SetSelector, Described, Extended, Lower;
    assert Kept(Parse(e, op).value) == op;
    assert OpPlain(e, op);
    RulePlain(e, op);
    RuleKeeps(e, s, words, op);
    RuleFlag(e, s, op);
    KeptCanonical(e, op);
    assert get.id in Clip({get.id} + SubIds(get.subs));
  }

  lemma ExampleRun(e: Env, s: State, s0: State, s1: State, s2: State)
    requires SetSelector(e, s, "+@all") == Ok(s0) && SetSelector(e, s0, "-get") == Ok(s1)
    requires SetSelector(e, s1, "+get") == Ok(s2)
    ensures RunOps(e, s, ["+@all", "-get", "+get"]) == s2
  {
    hide SetSelector;
    assert ["+@all", "-get", "+get"][..2] == ["+@all", "-get"] && ["+@all", "-get"][..1] == ["+@all"];
    assert ["+@all"][..0] == [] && RunOps(e, s, []) == s;
    assert RunOps(e, s, ["+@all"]) == s0;
    assert RunOps(e, s, ["+@all", "-get"]) == s1;
  }
}
