// What the operations of an ACL selector mean for commands: the last operation about a command decides, and so does
// the check made before a command is run.
module AclDecide {
  import opened Options
  import opened Sds
  import opened AclRules
  import opened AclSelector

  // ---------- what an operation says ----------

  predicate AllOp(op: string) { Lower(op) == "allcommands" || Lower(op) == "+@all" }

  predicate NoneOp(op: string) { Lower(op) == "nocommands" || Lower(op) == "-@all" }

  // The sign and what follows it: the name of a command, or of a category behind an at sign.
  predicate Signed(op: string, allow: bool)
  {
    op != [] && op[0] == (if allow then '+' else '-') && !AllOp(op) && !NoneOp(op)
  }

  predicate OfCategory(op: string) { |op| > 1 && op[1] == '@' }

  // The bits of a named command: its own, and those of all its subcommands.
  predicate NamesBit(e: Env, name: string, x: nat)
  {
    match Lookup(e, name)
    case Some(Top(c)) => x == c.id || exists k | 0 <= k < |c.subs| :: c.subs[k].id == x
    case Some(Sub(_, sub)) => x == sub.id
    case None => false
  }

  // The bits of a category: those of its commands with all their subcommands, and of subcommands in it themselves.
  predicate CategoryBit(t: seq<Command>, flag: bv64, x: nat)
  {
    exists i | 0 <= i < |t| ::
      || (InCategory(t[i].categories, flag) && x == t[i].id)
      || exists k | 0 <= k < |t[i].subs| ::
           (InCategory(t[i].categories, flag) || InCategory(t[i].subs[k].categories, flag)) && t[i].subs[k].id == x
  }

  // The operation allows, or denies, the command with identifier `x`.
  predicate Says(e: Env, op: string, x: nat, allow: bool)
  {
    || (if allow then AllOp(op) else NoneOp(op))
    || (&& Signed(op, allow)
        && if OfCategory(op) then
             FindCategory(e.categories, op[2..]) != 0 && CategoryBit(e.table, FindCategory(e.categories, op[2..]), x)
           else NamesBit(e, op[1..], x))
  }

  // ---------- one operation ----------

  lemma {:induction false} CategoryBits(t: seq<Command>, flag: bv64, x: nat)
    ensures x in CategoryIds(t, flag) <==> CategoryBit(t, flag, x)
    decreases |t|
  {
    hide InCategory;
    if t != [] {
      var (front, c) := (t[..|t| - 1], t[|t| - 1]);
      CategoryBits(front, flag, x);
      assert t == front + [c];
    }
  }

  lemma SignedNotPattern(op: string, allow: bool)
    requires Signed(op, allow)
    ensures !IsPatternOp(op)
  {
    assert Lower(op)[0] == op[0];
  }

  // What the parsed operation would write is what the text says.
  lemma ParseSays(e: Env, op: string, x: nat, allow: bool)
    requires Valid(e) && x < BITS
    ensures Says(e, op, x, allow) <==>
            match Parse(e, op)
            case Err(_) => false
            case Ok(Patterns) => false
            case Ok(Everything(b)) => allow == b
            case Ok(FirstArg(_, _, _)) => false
            case Ok(q) => allow == q.allow && x in ActionOf(e, q).ids
  {
    NamedOps(op);
    hide ParseAllow, ParseDeny, ParseCategory, Lower, CategoryBit, NamesBit;
    if Signed(op, true) || Signed(op, false) {
      SignedNotPattern(op, op[0] == '+');
      SignedSays(e, op, x, allow);
    }
  }

  lemma NamedOps(op: string)
    ensures AllOp(op) || NoneOp(op) ==> !IsPatternOp(op) && !(AllOp(op) && NoneOp(op))
  {
    assert op != [] ==> Lower(op)[0] == LowerChar(op[0]);
  }

  lemma SignedSays(e: Env, op: string, x: nat, allow: bool)
    requires Valid(e) && x < BITS && !IsPatternOp(op) && (Signed(op, true) || Signed(op, false))
    ensures Says(e, op, x, allow) <==>
            match Parse(e, op)
            case Ok(Perm(f, b, rule)) => allow == b && x in ActionOf(e, Perm(f, b, rule)).ids
            case Ok(ByCategory(flag, b, rule)) => allow == b && x in ActionOf(e, ByCategory(flag, b, rule)).ids
            case _ => false
    ensures Parse(e, op).Ok? ==> IsRule(Parse(e, op).value)
  {
    hide Lower, IsPatternOp, Lookup, FindLast, CategoryBit, NamesBit, ParseAllow, ParseDeny, FindCategory;
    if OfCategory(op) {
      CategoryBits(e.table, FindCategory(e.categories, op[2..]), x);
    } else {
      NameSays(e, op, x, allow);
      hide ActionOf, Says;
    }
  }

  lemma NameSays(e: Env, op: string, x: nat, allow: bool)
    requires Valid(e) && x < BITS && !IsPatternOp(op) && (Signed(op, true) || Signed(op, false)) && !OfCategory(op)
    ensures Says(e, op, x, allow) <==>
            match Parse(e, op)
            case Ok(Perm(f, b, rule)) => allow == b && x in ActionOf(e, Perm(f, b, rule)).ids
            case _ => false
    ensures Parse(e, op).Ok? ==> Parse(e, op).value.Perm? || Parse(e, op).value.FirstArg?
  {
    hide Lower, IsPatternOp, Lookup, FindLast, NamesBit, ParseAllow, ParseDeny;
    SubIdsIs(e, op[1..], x);
    AllowLooksUp(e, op[1..]);
    DenyLooksUp(e, op[1..]);
    var q := Parse(e, op);
    assert q == if op[0] == '+' then ParseAllow(e, op[1..]) else ParseDeny(e, op[1..]);
    assert Says(e, op, x, allow) <==> Signed(op, allow) && NamesBit(e, op[1..], x);
  }

  lemma DenyLooksUp(e: Env, name: string)
    ensures match ParseDeny(e, name)
            case Ok(Perm(f, allow, _)) => !allow && Lookup(e, name) == Some(f)
            case Ok(_) => false
            case Err(_) => Lookup(e, name) == None
  {
    hide Lower, Lookup;
  }

  // Whichever way it is parsed, an allowed command is the one the name names; a first argument names none.
  lemma AllowLooksUp(e: Env, name: string)
    requires Valid(e)
    ensures match ParseAllow(e, name)
            case Ok(Perm(f, allow, _)) => allow && Lookup(e, name) == Some(f)
            case Ok(FirstArg(_, _, _)) => Lookup(e, name) == None
            case Ok(_) => false
            case Err(_) => Lookup(e, name) == None
  {
    hide Valid, Lower, Lookup, FindLast;
    if '|' in name {
      var k := FindLast(name, '|');
      LookupSplit(e, name, k);
      if name[k + 1..] == [] {
        NoEmptyName(e, name, k);
      }
    }
  }

  // Which operations about commands are refused, and how. One without a sign is invalid; ...
  lemma UnsignedRefused(e: Env, op: string)
    requires !IsPatternOp(op) && !AllOp(op) && !NoneOp(op) && !Signed(op, true) && !Signed(op, false)
    ensures Parse(e, op) == Err(Invalid)
  {
    hide Lower, IsPatternOp;
  }

  // ... a category that does not exist, ...
  lemma CategoryRefused(e: Env, op: string)
    requires !IsPatternOp(op) && (Signed(op, true) || Signed(op, false)) && OfCategory(op)
    ensures if FindCategory(e.categories, op[2..]) == 0 then Parse(e, op) == Err(NoEntry) else Parse(e, op).Ok?
  {
    hide Lower, IsPatternOp, FindCategory;
  }

  // ... or a command to deny, or one to allow whose name has no bar, is not found; ...
  lemma NameRefused(e: Env, op: string)
    requires !IsPatternOp(op) && (Signed(op, true) || Signed(op, false)) && !OfCategory(op)
    requires '|' in op[1..] ==> Signed(op, false)
    ensures if Lookup(e, op[1..]) == None then Parse(e, op) == Err(NoEntry) else Parse(e, op).Ok?
  {
    hide Lower, IsPatternOp, Lookup, FullName;
  }

  // ... and when what stands behind the last bar is allowed: what stands before it must be a command and not itself a
  // subcommand, and then something must follow, which is a subcommand if the command has any.
  lemma BarRefused(e: Env, op: string, base: string, sub: string)
    requires !IsPatternOp(op) && Signed(op, true) && !OfCategory(op) && op[1..] == base + "|" + sub && '|' !in sub
    ensures Lookup(e, base) == None ==> Parse(e, op) == Err(NoEntry)
    ensures Lookup(e, base).Some? && Lookup(e, base).value.Sub? ==> Parse(e, op) == Err(Child)
    ensures Lookup(e, base).Some? && Lookup(e, base).value.Top? ==>
              var subs := Lookup(e, base).value.c.subs;
              if sub == [] then Parse(e, op) == Err(Invalid)
              else if subs != [] && FindSub(subs, sub) == None then Parse(e, op) == Err(NoEntry)
              else Parse(e, op).Ok?
  {
    var (name, k) := (op[1..], |base|);
    assert name[k] == '|' && name[..k] == base && name[k + 1..] == sub;
    LastBar(base, sub);
    LookupSplit(e, name, k);
    hide Lower, IsPatternOp, Lookup, FindLast, FindSub;
  }

  // A name with a bar is looked up as a container and a subcommand.
  lemma LookupSplit(e: Env, name: string, k: nat)
    requires '|' in name && k == FindLast(name, '|')
    ensures Lookup(e, name) ==
            match Lookup(e, name[..k])
            case Some(Top(c)) =>
              var sub := FindSub(c.subs, name[k + 1..]);
              if c.subs == [] || sub.None? then None else Some(Sub(c, sub.value))
            case _ => None
  {
    var (copy, first) := (name[..k], Find(name, '|', 0));
    assert forall j | 0 <= j < k :: copy[j] == name[j];
    assert first <= k;
    if first < k {
      assert name[first + 1..][k - first - 1] == '|';
      assert copy[first] == '|';
    } else {
      assert Find(copy, '|', 0) == |copy| && copy[..|copy|] == copy;
      assert '|' !in name[k + 1..];
    }
    hide Lower, FindCommand, FindSub;
  }

  lemma NoEmptyName(e: Env, name: string, k: nat)
    requires Valid(e) && '|' in name && k == FindLast(name, '|') && name[k + 1..] == []
    ensures Lookup(e, name) == None
  {
    LookupSplit(e, name, k);
    hide Lookup;
    if Lookup(e, name).Some? {
      LookedUp(e, name[..k]);
      SubNamed(e, Lookup(e, name[..k]).value.c, name[k + 1..]);
    }
  }

  lemma SubNamed(e: Env, c: Command, name: string)
    requires Valid(e) && c in e.table && FindSub(c.subs, name).Some?
    ensures name != []
  {
    var i :| 0 <= i < |e.table| && e.table[i] == c;
    var j :| 0 <= j < |c.subs| && c.subs[j] == FindSub(c.subs, name).value;
    assert NameOk(e.table[i].subs[j].name);
    assert |Lower(name)| == |Lower(c.subs[j].name)|;
  }

  lemma LookedUp(e: Env, name: string)
    requires Lookup(e, name).Some?
    ensures Lookup(e, name).value.c in e.table
  {
    hide Lower;
  }

  lemma SubIdsIs(e: Env, name: string, x: nat)
    ensures NamesBit(e, name, x) <==>
            match Lookup(e, name)
            case Some(Top(c)) => x in {c.id} + SubIds(c.subs)
            case Some(Sub(_, sub)) => x == sub.id
            case None => false
  {
    hide Lookup;
  }

  lemma StepDecides(e: Env, s: State, op: string, x: nat)
    requires Valid(e) && ArgsFit(e, Granted(s)) && x < BITS
    ensures var t := AclSelector.After(e, s, op);
            && ArgsFit(e, Granted(t))
            && (x in t.bits <==> Says(e, op, x, true) || (x in s.bits && !Says(e, op, x, false)))
  {
    ParseSays(e, op, x, true);
    ParseSays(e, op, x, false);
    hide Valid, Says, Parse, ActionOf, ArgPairs, AddRule;
    if Parse(e, op).Ok? && IsRule(Parse(e, op).value) {
      SetSelectorGrants(e, s, op);
      hide SetSelector;
      FirstArgIs(e, op);
    } else {
      NoArgsFit(e);
    }
  }

  lemma NoArgsFit(e: Env)
    ensures ArgPairs(map[]) == {}
  {}

  lemma FirstArgIs(e: Env, op: string)
    requires Parse(e, op).Ok? && IsRule(Parse(e, op).value)
    ensures var q := Parse(e, op).value;
            ActionOf(e, q).Arg? <==> q.FirstArg?
    ensures var q := Parse(e, op).value; !q.FirstArg? ==> ActionOf(e, q).allow == q.allow
  {
    hide Parse;
  }

  // ---------- sequences of operations ----------

  // The last operation that says anything about `x` allows it; or none does and it was allowed at first.
  predicate AllowedLast(e: Env, s: State, ops: seq<string>, x: nat)
  {
    || (x in s.bits && forall j | 0 <= j < |ops| :: !Says(e, ops[j], x, false))
    || exists i | 0 <= i < |ops| :: Says(e, ops[i], x, true) && forall j | i < j < |ops| :: !Says(e, ops[j], x, false)
  }

  // After any operations, refused ones among them, a command is allowed exactly when the last one about it says so.
  lemma {:induction false} RunDecides(e: Env, s: State, ops: seq<string>, x: nat)
    requires Valid(e) && ArgsFit(e, Granted(s)) && x < BITS
    ensures ArgsFit(e, Granted(RunOps(e, s, ops)))
    ensures x in RunOps(e, s, ops).bits <==> AllowedLast(e, s, ops, x)
    decreases |ops|
  {
    hide Valid, Says, ArgsFit, Granted, AclSelector.After;
    if ops != [] {
      var (front, op) := (ops[..|ops| - 1], ops[|ops| - 1]);
      RunDecides(e, s, front, x);
      StepDecides(e, RunOps(e, s, front), op, x);
      LastSnoc(e, s, front, op, x);
      assert ops == front + [op];
    }
  }

  lemma LastSnoc(e: Env, s: State, front: seq<string>, op: string, x: nat)
    ensures AllowedLast(e, s, front + [op], x) <==>
            Says(e, op, x, true) || (AllowedLast(e, s, front, x) && !Says(e, op, x, false))
  {
    hide Says;
    var ops := front + [op];
    assert ops[|front|] == op && forall j | 0 <= j < |front| :: ops[j] == front[j];
  }

  // ---------- first arguments ----------

  // The operation allows the command with identifier `id` when its first argument is `arg`, up to case.
  predicate GivesArg(e: Env, op: string, id: nat, arg: string)
  {
    && Signed(op, true) && !IsPatternOp(op) && !OfCategory(op) && '|' in op[1..]
    && var name := op[1..];
       var k := FindLast(name, '|');
       && name[k + 1..] != [] && Lower(name[k + 1..]) == arg
       && match Lookup(e, name[..k])
          case Some(Top(c)) => c.id == id && c.subs == []
          case _ => false
  }

  // The operation is about that command as a whole, so its first arguments are forgotten.
  predicate DropsArgs(e: Env, op: string, id: nat)
  {
    || AllOp(op) || NoneOp(op)
    || (&& (Signed(op, true) || Signed(op, false))
        && if OfCategory(op) then
             var flag := FindCategory(e.categories, op[2..]);
             flag != 0
             && exists i | 0 <= i < |e.table| :: InCategory(e.table[i].categories, flag) && e.table[i].id == id
           else
             match Lookup(e, op[1..])
             case Some(Top(c)) => c.id == id
             case _ => false)
  }

  lemma ParseArgs(e: Env, op: string, id: nat, arg: string)
    requires Valid(e)
    ensures GivesArg(e, op, id, arg) <==>
            match Parse(e, op)
            case Ok(FirstArg(c, a, _)) => c.id == id && Lower(a) == arg
            case _ => false
    ensures DropsArgs(e, op, id) <==>
            match Parse(e, op)
            case Ok(Everything(_)) => true
            case Ok(Perm(f, b, rule)) => id in ActionOf(e, Perm(f, b, rule)).resets
            case Ok(ByCategory(flag, b, rule)) => id in ActionOf(e, ByCategory(flag, b, rule)).resets
            case _ => false
  {
    NamedOps(op);
    hide ParseAllow, ParseDeny, ParseCategory, Lower, Lookup, FindLast;
    if Signed(op, true) || Signed(op, false) {
      SignedNotPattern(op, op[0] == '+');
      if OfCategory(op) {
        CategoryArgs(e, op, id);
      } else {
        NameArgs(e, op, id, arg);
      }
    }
  }

  lemma CategoryArgs(e: Env, op: string, id: nat)
    requires (Signed(op, true) || Signed(op, false)) && OfCategory(op) && !IsPatternOp(op)
    ensures Parse(e, op) == ParseCategory(e, op[2..], op[0] == '+')
    ensures DropsArgs(e, op, id) <==>
            match Parse(e, op)
            case Ok(ByCategory(flag, b, rule)) => id in ActionOf(e, ByCategory(flag, b, rule)).resets
            case _ => false
    ensures Parse(e, op).Ok? ==> Parse(e, op).value.ByCategory?
  {
    hide Lower, Lookup, FindLast;
  }

  lemma NameArgs(e: Env, op: string, id: nat, arg: string)
    requires Valid(e) && (Signed(op, true) || Signed(op, false)) && !OfCategory(op) && !IsPatternOp(op)
    ensures GivesArg(e, op, id, arg) <==>
            match Parse(e, op)
            case Ok(FirstArg(c, a, _)) => c.id == id && Lower(a) == arg
            case _ => false
    ensures DropsArgs(e, op, id) <==>
            match Parse(e, op)
            case Ok(Perm(f, b, rule)) => id in ActionOf(e, Perm(f, b, rule)).resets
            case _ => false
    ensures Parse(e, op).Ok? ==> Parse(e, op).value.Perm? || Parse(e, op).value.FirstArg?
  {
    hide Lower, Lookup, FindLast, IsPatternOp, ParseAllow, ParseDeny;
    AllowLooksUp(e, op[1..]);
    DenyLooksUp(e, op[1..]);
    AllowArgs(e, op[1..]);
    var q := Parse(e, op);
    assert q == if op[0] == '+' then ParseAllow(e, op[1..]) else ParseDeny(e, op[1..]);
  }

  // When the name of an allowed command is taken for a command and a first argument.
  lemma AllowArgs(e: Env, name: string)
    ensures '|' !in name ==> ParseAllow(e, name).Ok? ==> !ParseAllow(e, name).value.FirstArg?
    ensures '|' in name ==>
              var k := FindLast(name, '|');
              match Lookup(e, name[..k])
              case Some(Top(c)) =>
                if name[k + 1..] != [] && c.subs == [] then
                  match ParseAllow(e, name)
                  case Ok(FirstArg(d, arg, _)) => d == c && arg == name[k + 1..]
                  case _ => false
                else ParseAllow(e, name).Ok? ==> !ParseAllow(e, name).value.FirstArg?
              case _ => ParseAllow(e, name).Err?
  {
    hide Lower, Lookup, FindLast;
  }

  lemma StepArgs(e: Env, s: State, op: string, id: nat, arg: string)
    requires Valid(e) && ArgsFit(e, Granted(s))
    ensures var t := AclSelector.After(e, s, op);
            && ArgsFit(e, Granted(t))
            && ((id, arg) in Granted(t).args <==>
                GivesArg(e, op, id, arg) || ((id, arg) in Granted(s).args && !DropsArgs(e, op, id)))
  {
    if Parse(e, op).Ok? && IsRule(Parse(e, op).value) {
      RuleArgs(e, s, op, id, arg);
    } else {
      ParseArgs(e, op, id, arg);
      NoArgsFit(e);
      hide Valid, GivesArg, DropsArgs, Parse, ActionOf, ArgPairs, AddRule;
    }
  }

  lemma RuleArgs(e: Env, s: State, op: string, id: nat, arg: string)
    requires Valid(e) && ArgsFit(e, Granted(s)) && Parse(e, op).Ok? && IsRule(Parse(e, op).value)
    ensures var t := AclSelector.After(e, s, op);
            && ArgsFit(e, Granted(t))
            && ((id, arg) in Granted(t).args <==>
                GivesArg(e, op, id, arg) || ((id, arg) in Granted(s).args && !DropsArgs(e, op, id)))
  {
    hide Valid, GivesArg, DropsArgs, Parse, ActionOf, ArgPairs, AddRule, SetSelector;
    ParseArgs(e, op, id, arg);
    SetSelectorGrants(e, s, op);
    FirstArgIs(e, op);
    if Parse(e, op).value.FirstArg? {
      ArgActionIs(e, op);
    }
  }

  lemma ArgActionIs(e: Env, op: string)
    requires Parse(e, op).Ok? && Parse(e, op).value.FirstArg?
    ensures var q := Parse(e, op).value; ActionOf(e, q) == Arg(q.c.id, Lower(q.arg))
  {
    hide Parse, Lower;
  }

  // The argument was given by some operation, and no later one is about the command as a whole.
  predicate ArgLast(e: Env, s: State, ops: seq<string>, id: nat, arg: string)
  {
    || ((id, arg) in Granted(s).args && forall j | 0 <= j < |ops| :: !DropsArgs(e, ops[j], id))
    || exists i | 0 <= i < |ops| ::
         GivesArg(e, ops[i], id, arg) && forall j | i < j < |ops| :: !DropsArgs(e, ops[j], id)
  }

  lemma {:induction false} RunArgs(e: Env, s: State, ops: seq<string>, id: nat, arg: string)
    requires Valid(e) && ArgsFit(e, Granted(s))
    ensures ArgsFit(e, Granted(RunOps(e, s, ops)))
    ensures (id, arg) in Granted(RunOps(e, s, ops)).args <==> ArgLast(e, s, ops, id, arg)
    decreases |ops|
  {
    hide Valid, GivesArg, DropsArgs, ArgsFit, Granted, AclSelector.After;
    if ops != [] {
      var (front, op) := (ops[..|ops| - 1], ops[|ops| - 1]);
      RunArgs(e, s, front, id, arg);
      StepArgs(e, RunOps(e, s, front), op, id, arg);
      ArgSnoc(e, s, front, op, id, arg);
      assert ops == front + [op];
    }
  }

  lemma ArgSnoc(e: Env, s: State, front: seq<string>, op: string, id: nat, arg: string)
    ensures ArgLast(e, s, front + [op], id, arg) <==>
            GivesArg(e, op, id, arg) || (ArgLast(e, s, front, id, arg) && !DropsArgs(e, op, id))
  {
    hide GivesArg, DropsArgs, Granted;
    var ops := front + [op];
    assert ops[|front|] == op && forall j | 0 <= j < |front| :: ops[j] == front[j];
  }

  // ---------- names ----------

  // No two commands, and no two subcommands of a command, have the same name up to case.
  predicate NamesApart(t: seq<Command>)
  {
    && (forall i, j | 0 <= i < j < |t| :: Lower(t[i].name) != Lower(t[j].name))
    && forall i, j, k | 0 <= i < |t| && 0 <= j < k < |t[i].subs| ::
         Lower(t[i].subs[j].name) != Lower(t[i].subs[k].name)
  }

  lemma {:induction false} FindsCommand(t: seq<Command>, name: string, i: nat)
    requires i < |t| && Lower(t[i].name) == Lower(name)
    requires forall j | 0 <= j < i :: Lower(t[j].name) != Lower(name)
    ensures FindCommand(t, name) == Some(t[i])
  {
    if i > 0 {
      FindsCommand(t[1..], name, i - 1);
    }
  }

  lemma {:induction false} FindsSub(subs: seq<Subcommand>, name: string, i: nat)
    requires i < |subs| && Lower(subs[i].name) == Lower(name)
    requires forall j | 0 <= j < i :: Lower(subs[j].name) != Lower(name)
    ensures FindSub(subs, name) == Some(subs[i])
  {
    if i > 0 {
      FindsSub(subs[1..], name, i - 1);
    }
  }

  // Every command is found by its name in any case, ...
  lemma LookupFinds(e: Env, i: nat, name: string)
    requires Valid(e) && NamesApart(e.table) && i < |e.table|
    requires Lower(name) == Lower(e.table[i].name)
    ensures Lookup(e, name) == Some(Top(e.table[i]))
  {
    hide Valid;
    NameOnly(e, i, name);
    FindsCommand(e.table, name, i);
  }

  // ... and every subcommand by its container's name, a bar and its own.
  lemma LookupFindsSub(e: Env, i: nat, k: nat, name: string, sub: string)
    requires Valid(e) && NamesApart(e.table) && i < |e.table| && k < |e.table[i].subs|
    requires Lower(name) == Lower(e.table[i].name) && Lower(sub) == Lower(e.table[i].subs[k].name)
    ensures Lookup(e, name + "|" + sub) == Some(Sub(e.table[i], e.table[i].subs[k]))
  {
    var full := name + "|" + sub;
    SubOnly(e, i, k, sub);
    LastBar(name, sub);
    LookupSplit(e, full, |name|);
    LookupFinds(e, i, name);
    FindsSubAt(e, i, k, sub);
    hide Valid, NamesApart, FindLast, Lookup, FindSub, Lower;
    assert full[..|name|] == name && full[|name| + 1..] == sub;
  }

  lemma LastBar(name: string, sub: string)
    requires '|' !in sub
    ensures var full := name + "|" + sub; '|' in full && FindLast(full, '|') == |name|
  {
    var full := name + "|" + sub;
    assert full[|name|] == '|' && forall j | |name| < j < |full| :: full[j] == sub[j - |name| - 1];
  }

  lemma FindsSubAt(e: Env, i: nat, k: nat, sub: string)
    requires NamesApart(e.table) && i < |e.table| && k < |e.table[i].subs|
    requires Lower(sub) == Lower(e.table[i].subs[k].name)
    ensures FindSub(e.table[i].subs, sub) == Some(e.table[i].subs[k])
  {
    FindsSub(e.table[i].subs, sub, k);
  }

  lemma NameOnly(e: Env, i: nat, name: string)
    requires Valid(e) && i < |e.table| && Lower(name) == Lower(e.table[i].name)
    ensures '|' !in name && Find(name, '|', 0) == |name|
  {
    Barless(e, i);
    hide Valid;
    LowerFacts(name);
    LowerFacts(e.table[i].name);
  }

  lemma SubOnly(e: Env, i: nat, k: nat, sub: string)
    requires Valid(e) && i < |e.table| && k < |e.table[i].subs| && Lower(sub) == Lower(e.table[i].subs[k].name)
    ensures '|' !in sub
  {
    Barless(e, i);
    hide Valid;
    LowerFacts(sub);
    LowerFacts(e.table[i].subs[k].name);
  }

  lemma Barless(e: Env, i: nat)
    requires Valid(e) && i < |e.table|
    ensures '|' !in e.table[i].name && forall k | 0 <= k < |e.table[i].subs| :: '|' !in e.table[i].subs[k].name
  {
    assert NameOk(e.table[i].name);
    assert forall k | 0 <= k < |e.table[i].subs| :: NameOk(e.table[i].subs[k].name);
  }
}
