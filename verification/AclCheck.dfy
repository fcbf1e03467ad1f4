// The check made before a command is run (ACLSelectorCheckCmd), and what it comes to after any operations.
module AclCheck {
  import opened Options
  import opened Sds
  import opened AclRules
  import opened AclKeys
  import opened AclSelector
  import opened AclAccess
  import opened AclDecide
  import D = AclDescribe

  // A key the command touches, and how; a channel, which a subscription may give as a pattern. `at` is the argument.
  datatype KeyUse = KeyUse(key: string, read: bool, write: bool, at: nat)
  datatype ChannelUse = ChannelUse(channel: string, isPattern: bool, at: nat)

  datatype Verdict = Allowed | DeniedCommand | DeniedKey(at: nat) | DeniedChannel(at: nat)

  // stringmatchlen, with the pattern first.
  type Glob = (string, string) -> bool

  // A command that needs no permission is marked so. `argv` begins with the command's name.
  datatype Call = Call(f: Found, noAuth: bool, argv: seq<string>, keys: seq<KeyUse>, channels: seq<ChannelUse>)

  function IdOf(f: Found): nat { if f.Top? then f.c.id else f.sub.id }

  // ---------- what is permitted ----------

  predicate CommandPermitted(s: State, c: Call)
  {
    || c.noAuth || s.allCommands || IdOf(c.f) in s.bits
    || (c.f.Top? && |c.argv| > 1 && (c.f.c.id, Lower(c.argv[1])) in Granted(s).args)
  }

  // One pattern must permit all that is done to the key.
  predicate KeyPermitted(k: KeyRules, glob: Glob, u: KeyUse)
  {
    || k.allKeys
    || exists i | 0 <= i < |k.patterns| ::
         var p := k.patterns[i];
         (u.read ==> p.read) && (u.write ==> p.write) && glob(p.pattern, u.key)
  }

  // A pattern to subscribe to must be listed as it is.
  predicate ChannelMatches(c: string, glob: Glob, u: ChannelUse)
  {
    if u.isPattern then c == u.channel else glob(c, u.channel)
  }

  predicate ChannelPermitted(k: KeyRules, glob: Glob, u: ChannelUse)
  {
    k.allChannels || exists i | 0 <= i < |k.channels| :: ChannelMatches(k.channels[i], glob, u)
  }

  // The first thing that is not permitted: the command, then its keys in order, then its channels.
  predicate IsVerdict(s: State, glob: Glob, c: Call, v: Verdict)
  {
    var (keys, channels) := (forall i | 0 <= i < |c.keys| :: KeyPermitted(s.keys, glob, c.keys[i]),
                             forall i | 0 <= i < |c.channels| :: ChannelPermitted(s.keys, glob, c.channels[i]));
    match v
    case DeniedCommand => !CommandPermitted(s, c)
    case DeniedKey(at) =>
      && CommandPermitted(s, c)
      && exists j | 0 <= j < |c.keys| ::
           && c.keys[j].at == at && !KeyPermitted(s.keys, glob, c.keys[j])
           && forall i | 0 <= i < j :: KeyPermitted(s.keys, glob, c.keys[i])
    case DeniedChannel(at) =>
      && CommandPermitted(s, c) && keys
      && exists j | 0 <= j < |c.channels| ::
           && c.channels[j].at == at && !ChannelPermitted(s.keys, glob, c.channels[j])
           && forall i | 0 <= i < j :: ChannelPermitted(s.keys, glob, c.channels[i])
    case Allowed => CommandPermitted(s, c) && keys && channels
  }

  // ---------- the check ----------

  // ACLSelectorCheckKey
  method CheckKey(s: Selector, glob: Glob, u: KeyUse) returns (ok: bool)
    ensures ok == KeyPermitted(s.Value().keys, glob, u)
  {
    if s.allKeys {
      return true;
    }
    for i := 0 to |s.patterns|
      invariant forall j | 0 <= j < i ::
                  var p := s.patterns[j];
                  !((u.read ==> p.read) && (u.write ==> p.write) && glob(p.pattern, u.key))
    {
      var p := s.patterns[i];
      if (u.read && !p.read) || (u.write && !p.write) {
        continue;
      }
      if glob(p.pattern, u.key) {
        return true;
      }
    }
    ok := false;
  }

  // ACLCheckChannelAgainstList
  method CheckChannel(s: Selector, glob: Glob, u: ChannelUse) returns (ok: bool)
    ensures ok == exists i | 0 <= i < |s.channels| :: ChannelMatches(s.channels[i], glob, u)
  {
    for i := 0 to |s.channels|
      invariant forall j | 0 <= j < i :: !ChannelMatches(s.channels[j], glob, u)
    {
      if (u.isPattern && s.channels[i] == u.channel) || (!u.isPattern && glob(s.channels[i], u.channel)) {
        return true;
      }
    }
    ok := false;
  }

  // The list of first arguments of one command.
  method CheckFirstArg(args: seq<string>, arg: string) returns (ok: bool)
    ensures ok == Listed(args, arg)
  {
    hide Lower;
    for i := 0 to |args|
      invariant forall j | 0 <= j < i :: Lower(args[j]) != Lower(arg)
    {
      if Lower(args[i]) == Lower(arg) {
        return true;
      }
    }
    ok := false;
  }

  // A subcommand never has first arguments, so the one that would be looked at is not.
  method CheckCmd(s: Selector, glob: Glob, c: Call) returns (v: Verdict)
    requires c.f.Sub? ==> c.f.sub.id !in s.allowedFirstArgs
    ensures IsVerdict(s.Value(), glob, c, v)
  {
    hide Lower;
    var id := IdOf(c.f);
    InArgs(s.Value(), c);
    if !s.allCommands && !c.noAuth && id !in s.allowedCommands {
      if |c.argv| < 2 || id !in s.allowedFirstArgs {
        return DeniedCommand;
      }
      var found := CheckFirstArg(s.allowedFirstArgs[id], c.argv[1]);
      if !found {
        return DeniedCommand;
      }
    }
    hide CommandPermitted, ArgPairs;
    if !s.allKeys {
      for j := 0 to |c.keys|
        invariant forall i | 0 <= i < j :: KeyPermitted(s.Value().keys, glob, c.keys[i])
      {
        var ok := CheckKey(s, glob, c.keys[j]);
        if !ok {
          return DeniedKey(c.keys[j].at);
        }
      }
    }
    if !s.allChannels {
      for j := 0 to |c.channels|
        invariant forall i | 0 <= i < j :: ChannelPermitted(s.Value().keys, glob, c.channels[i])
      {
        var ok := CheckChannel(s, glob, c.channels[j]);
        if !ok {
          return DeniedChannel(c.channels[j].at);
        }
      }
    }
    v := Allowed;
  }

  lemma InArgs(s: State, c: Call)
    ensures c.f.Top? && |c.argv| > 1 ==>
              ((c.f.c.id, Lower(c.argv[1])) in Granted(s).args <==>
               c.f.c.id in s.firstArgs && Listed(s.firstArgs[c.f.c.id], c.argv[1]))
  {
    if c.f.Top? && |c.argv| > 1 {
      InPairs(s.firstArgs, (c.f.c.id, Lower(c.argv[1])));
    }
  }

  // ---------- after any operations ----------

  // With the flag for all commands every bit is set, so the flag permits no command with a bit that the bit does not.
  predicate FlagInBits(s: State) { s.allCommands ==> forall x: nat | x < BITS :: x in s.bits }

  lemma StepFlagInBits(e: Env, s: State, op: string)
    requires Valid(e) && ArgsFit(e, Granted(s)) && FlagInBits(s)
    ensures FlagInBits(AclSelector.After(e, s, op)) && ArgsFit(e, Granted(AclSelector.After(e, s, op)))
  {
    StepDecides(e, s, op, 0);
    hide Valid, ArgsFit, ArgPairs, AddRule, Parse;
    if Parse(e, op).Ok? && IsRule(Parse(e, op).value) {
      SetSelectorGrants(e, s, op);
      D.RuleFlag(e, s, op);
      hide SetSelector, ActionOf;
    }
  }

  lemma {:induction false} RunFlagInBits(e: Env, s: State, ops: seq<string>)
    requires Valid(e) && ArgsFit(e, Granted(s)) && FlagInBits(s)
    ensures FlagInBits(RunOps(e, s, ops)) && ArgsFit(e, Granted(RunOps(e, s, ops)))
    decreases |ops|
  {
    hide Valid, ArgsFit, Granted, FlagInBits, AclSelector.After;
    if ops != [] {
      RunFlagInBits(e, s, ops[..|ops| - 1]);
      StepFlagInBits(e, RunOps(e, s, ops[..|ops| - 1]), ops[|ops| - 1]);
    }
  }

  // A command may be run exactly when the last operation about it allows it, or, if it is denied, when some operation
  // since has allowed it with the first argument it is given.
  lemma RunPermits(e: Env, s: State, ops: seq<string>, c: Call)
    requires Valid(e) && ArgsFit(e, Granted(s)) && FlagInBits(s) && IdOf(c.f) < BITS
    ensures CommandPermitted(RunOps(e, s, ops), c) <==>
            || c.noAuth || AllowedLast(e, s, ops, IdOf(c.f))
            || (c.f.Top? && |c.argv| > 1 && ArgLast(e, s, ops, c.f.c.id, Lower(c.argv[1])))
  {
    hide Valid, ArgsFit, ArgPairs, RunOps, AllowedLast, ArgLast, Lower;
    RunFlagInBits(e, s, ops);
    RunDecides(e, s, ops, IdOf(c.f));
    if c.f.Top? && |c.argv| > 1 {
      RunArgs(e, s, ops, c.f.c.id, Lower(c.argv[1]));
    }
  }

  lemma {:induction false} RunKeysValid(e: Env, s: State, ops: seq<string>)
    requires KeysOk(s.keys)
    ensures KeysOk(RunOps(e, s, ops).keys)
    decreases |ops|
  {
    hide KeysOk, AclSelector.After, SetKeys, IsPatternOp, Refusal;
    if ops != [] {
      var (t, op) := (RunOps(e, s, ops[..|ops| - 1]), ops[|ops| - 1]);
      RunKeysValid(e, s, ops[..|ops| - 1]);
      StepKeys(e, t, op);
      if IsPatternOp(op) && Refusal(t.keys, op).Ok? {
        SetKeysKeeps(t.keys, op);
      }
    }
  }

  // Some text was given as a pattern, with all the permissions needed, and matches.
  ghost predicate KeyGiven(e: Env, s: State, ops: seq<string>, glob: Glob, u: KeyUse)
  {
    exists x: string ::
      && (AccessGiven(e, s, ops, x, false) || AccessGiven(e, s, ops, x, true))
      && (u.read ==> AccessGiven(e, s, ops, x, false)) && (u.write ==> AccessGiven(e, s, ops, x, true))
      && glob(x, u.key)
  }

  lemma RunKeyPermits(e: Env, s: State, ops: seq<string>, glob: Glob, u: KeyUse)
    requires KeysOk(s.keys)
    ensures KeyPermitted(RunOps(e, s, ops).keys, glob, u) <==>
            AllKeysGiven(s, ops) || KeyGiven(e, s, ops, glob, u)
  {
    hide KeysOk, RunOps, AccessGiven, AllKeysGiven, ChannelGiven, AllChannelsGiven;
    var k := RunOps(e, s, ops).keys;
    RunKeysValid(e, s, ops);
    forall x, write: bool
      ensures (Access(k.patterns, x, write) <==> AccessGiven(e, s, ops, x, write)) &&
              (k.allKeys <==> AllKeysGiven(s, ops))
    {
      RunMeans(e, s, ops, x, write);
    }
    OnePattern(k, glob, u);
    assert k.allKeys <==> AllKeysGiven(s, ops) by { RunMeans(e, s, ops, "", false); }
    hide Access;
  }

  // The permissions of a text are those of the one pattern with that text.
  lemma OnePattern(k: KeyRules, glob: Glob, u: KeyUse)
    requires KeysOk(k)
    ensures KeyPermitted(k, glob, u) <==>
            || k.allKeys
            || exists x: string ::
                 && (Access(k.patterns, x, false) || Access(k.patterns, x, true))
                 && (u.read ==> Access(k.patterns, x, false)) && (u.write ==> Access(k.patterns, x, true))
                 && glob(x, u.key)
  {
    if !k.allKeys && KeyPermitted(k, glob, u) {
      var i :| 0 <= i < |k.patterns| && var p := k.patterns[i];
               (u.read ==> p.read) && (u.write ==> p.write) && glob(p.pattern, u.key);
      var x := k.patterns[i].pattern;
      assert k.patterns[i].read ==> Access(k.patterns, x, false);
      assert k.patterns[i].write ==> Access(k.patterns, x, true);
    }
  }

  // A channel may be used when something that matches it was given; a pattern may be subscribed to when it was given
  // itself.
  lemma RunChannelPermits(e: Env, s: State, ops: seq<string>, glob: Glob, u: ChannelUse)
    ensures ChannelPermitted(RunOps(e, s, ops).keys, glob, u) <==>
            || AllChannelsGiven(s, ops)
            || (u.isPattern && ChannelGiven(e, s, ops, u.channel))
            || (!u.isPattern && exists x: string :: ChannelGiven(e, s, ops, x) && glob(x, u.channel))
  {
    ChannelKinds(e, s, ops, glob, u);
    hide RunOps, AccessGiven, AllKeysGiven, ChannelGiven, AllChannelsGiven, ChannelMatches;
    var k := RunOps(e, s, ops).keys;
    forall x: string
      ensures x in k.channels <==> ChannelGiven(e, s, ops, x)
      ensures k.allChannels <==> AllChannelsGiven(s, ops)
    {
      RunMeans(e, s, ops, x, false);
    }
    assert k.allChannels <==> AllChannelsGiven(s, ops) by { RunMeans(e, s, ops, "", false); }
    if exists x: string :: ChannelGiven(e, s, ops, x) && ChannelMatches(x, glob, u) {
      var x: string :| ChannelGiven(e, s, ops, x) && ChannelMatches(x, glob, u);
      var i :| 0 <= i < |k.channels| && k.channels[i] == x;
    }
    if !k.allChannels && ChannelPermitted(k, glob, u) {
      var i :| 0 <= i < |k.channels| && ChannelMatches(k.channels[i], glob, u);
      assert k.channels[i] in k.channels;
    }
  }

  lemma ChannelKinds(e: Env, s: State, ops: seq<string>, glob: Glob, u: ChannelUse)
    ensures (exists x: string :: ChannelGiven(e, s, ops, x) && ChannelMatches(x, glob, u)) <==>
            || (u.isPattern && ChannelGiven(e, s, ops, u.channel))
            || (!u.isPattern && exists x: string :: ChannelGiven(e, s, ops, x) && glob(x, u.channel))
  {
    hide ChannelGiven;
    if u.isPattern && ChannelGiven(e, s, ops, u.channel) {
      assert ChannelMatches(u.channel, glob, u);
    } else if !u.isPattern && exists x: string :: ChannelGiven(e, s, ops, x) && glob(x, u.channel) {
      var x: string :| ChannelGiven(e, s, ops, x) && glob(x, u.channel);
      assert ChannelMatches(x, glob, u);
    }
  }
}
