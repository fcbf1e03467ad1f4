// A selector of acl.c: its command bitmap, its first-argument table and its rule list, edited in place.
module AclSelector {
  import opened Options
  import opened Sds
  import opened AclRules
  import opened AclKeys

  datatype State = State(
    bits: set<nat>, allCommands: bool, firstArgs: map<nat, seq<string>>, rules: string, keys: KeyRules)

  function Below(n: nat): (r: set<nat>)
    ensures forall x: nat :: x in r <==> x < n
  {
    if n == 0 then {} else Below(n - 1) + {n - 1}
  }

  function AllBits(): set<nat> { Below(BITS) }

  // ACLCreateSelector, where channels are open by default or not
  function Fresh(allChannels: bool): State { State({}, false, map[], "", NewRules(allChannels)) }

  // ---------- what the operations do to a selector ----------

  // ACLSetSelectorCommandBit
  function SetBit(s: State, id: nat, value: bool): State
  {
    if id >= BITS then s
    else if value then s.(bits := s.bits + {id})
    else s.(bits := s.bits - {id}, allCommands := false)
  }

  // ACLResetFirstArgsForCommand
  function ResetArgs(s: State, id: nat): State { s.(firstArgs := s.firstArgs - {id}) }

  function SetSubs(s: State, subs: seq<Subcommand>, allow: bool): State
  {
    if subs == [] then s else SetBit(SetSubs(s, subs[..|subs| - 1], allow), subs[|subs| - 1].id, allow)
  }

  // ACLChangeSelectorPerm
  function ChangePerm(s: State, f: Found, allow: bool): State
  {
    match f
    case Top(c) => SetSubs(ResetArgs(SetBit(s, c.id, allow), c.id), c.subs, allow)
    case Sub(_, sub) => ResetArgs(SetBit(s, sub.id, allow), sub.id)
  }

  // ACLSetSelectorCommandBitsForCategory, on the subcommands of `c` ...
  function CategorySubs(s: State, c: Command, subs: seq<Subcommand>, flag: bv64, allow: bool): State
    decreases |subs|
  {
    if subs == [] then s
    else
      var (s1, sub) := (CategorySubs(s, c, subs[..|subs| - 1], flag, allow), subs[|subs| - 1]);
      if InCategory(sub.categories, flag) then ChangePerm(s1, Sub(c, sub), allow) else s1
  }

  // ... and on the whole table.
  function CategoryPerm(s: State, t: seq<Command>, flag: bv64, allow: bool): State
    decreases |t|
  {
    if t == [] then s
    else
      var (s1, c) := (CategoryPerm(s, t[..|t| - 1], flag, allow), t[|t| - 1]);
      CategorySubs(if InCategory(c.categories, flag) then ChangePerm(s1, Top(c), allow) else s1, c, c.subs, flag, allow)
  }

  predicate Listed(args: seq<string>, arg: string) { exists i | 0 <= i < |args| :: Lower(args[i]) == Lower(arg) }

  function ArgsOf(s: State, id: nat): seq<string> { if id in s.firstArgs then s.firstArgs[id] else [] }

  // ACLAddAllowedFirstArg
  function AddArg(s: State, id: nat, arg: string): State
  {
    if Listed(ArgsOf(s, id), arg) then s else s.(firstArgs := s.firstArgs[id := ArgsOf(s, id) + [arg]])
  }

  // ACLUpdateCommandRules
  function AddRule(s: State, rule: string, allow: bool): State
  {
    var pruned := PruneText(s.rules, 0, rule);
    s.(rules := pruned + (if pruned == "" then "" else " ") + (Sign(allow) + rule))
  }

  function Everyone(s: State, allow: bool): State
  {
    s.(bits := if allow then AllBits() else {}, allCommands := allow, firstArgs := map[], rules := "")
  }

  // ACLSetSelector
  function SetSelector(e: Env, s: State, op: string): Result<State>
  {
    match Parse(e, op)
    case Err(error) => Err(error)
    case Ok(Patterns) =>
      (match SetKeys(s.keys, op)
       case Err(error) => Err(error)
       case Ok(k) => Ok(s.(keys := k)))
    case Ok(Everything(allow)) => Ok(Everyone(s, allow))
    case Ok(Perm(f, allow, rule)) => Ok(AddRule(ChangePerm(s, f, allow), rule, allow))
    case Ok(FirstArg(c, arg, rule)) => Ok(AddRule(AddArg(s, c.id, arg), rule, true))
    case Ok(ByCategory(flag, allow, rule)) => Ok(CategoryPerm(AddRule(s, rule, allow), e.table, flag, allow))
  }

  // ---------- what a selector grants ----------

  function ArgPairs(fa: map<nat, seq<string>>): set<(nat, string)>
  {
    set id, i | id in fa && 0 <= i < |fa[id]| :: (id, Lower(fa[id][i]))
  }

  function Granted(s: State): Grant { Grant(s.bits, ArgPairs(s.firstArgs)) }

  // First arguments are kept for commands without subcommands only.
  predicate ArgsFit(e: Env, g: Grant) { forall p | p in g.args :: OfCommand(e, p.0) }

  predicate OfCommand(e: Env, id: nat) { exists i | 0 <= i < |e.table| :: e.table[i].id == id }

  lemma InPairs(fa: map<nat, seq<string>>, p: (nat, string))
    ensures p in ArgPairs(fa) <==> p.0 in fa && exists i | 0 <= i < |fa[p.0]| :: Lower(fa[p.0][i]) == p.1
  {
    if p.0 in fa && exists i | 0 <= i < |fa[p.0]| :: Lower(fa[p.0][i]) == p.1 {
      var i :| 0 <= i < |fa[p.0]| && Lower(fa[p.0][i]) == p.1;
      assert (p.0, Lower(fa[p.0][i])) in ArgPairs(fa);
    }
  }

  lemma SetBitGrants(s: State, id: nat, allow: bool)
    ensures Granted(SetBit(s, id, allow)) == Act(Bits(Clip({id}), {}, allow), Granted(s))
  {
    var (g, h) := (Granted(SetBit(s, id, allow)), Act(Bits(Clip({id}), {}, allow), Granted(s)));
    assert g.args == h.args;
    assert g.bits == h.bits;
  }

  lemma ResetGrants(s: State, id: nat, allow: bool)
    ensures Granted(ResetArgs(s, id)) == Act(Bits({}, {id}, allow), Granted(s))
  {
    var (g, h) := (Granted(ResetArgs(s, id)), Act(Bits({}, {id}, allow), Granted(s)));
    forall p: (nat, string)
      ensures p in g.args <==> p in h.args
    {
      InPairs(s.firstArgs, p);
      InPairs(s.firstArgs - {id}, p);
    }
    assert g.bits == h.bits;
  }

  // Two writes of the same value are one.
  lemma ActTwice(i: set<nat>, j: set<nat>, r: set<nat>, t: set<nat>, allow: bool, g: Grant)
    ensures Act(Bits(j, t, allow), Act(Bits(i, r, allow), g)) == Act(Bits(i + j, r + t, allow), g)
  {
    var (a, b) := (Act(Bits(j, t, allow), Act(Bits(i, r, allow), g)), Act(Bits(i + j, r + t, allow), g));
    assert a.bits == b.bits;
    assert a.args == b.args;
  }

  lemma NoResets()
    ensures var none: set<nat> := {}; none + none == none
  {}

  lemma ClipUnion(a: set<nat>, b: set<nat>)
    ensures Clip(a + b) == Clip(a) + Clip(b) && Clip({}) == {}
  {}

  lemma ActNothing(allow: bool, g: Grant)
    ensures Act(Bits({}, {}, allow), g) == g
  {
    var h := Act(Bits({}, {}, allow), g);
    assert h.bits == g.bits && h.args == g.args;
  }

  lemma {:induction false} SetSubsGrants(s: State, subs: seq<Subcommand>, allow: bool)
    ensures Granted(SetSubs(s, subs, allow)) == Act(Bits(Clip(SubIds(subs)), {}, allow), Granted(s))
    decreases |subs|
  {
    hide Granted, Act, SetBit, Clip;
    if subs == [] {
      assert SubIds(subs) == {};
      ClipUnion({}, {});
      ActNothing(allow, Granted(s));
    } else {
      var (front, sub) := (subs[..|subs| - 1], subs[|subs| - 1]);
      SetSubsGrants(s, front, allow);
      SetBitGrants(SetSubs(s, front, allow), sub.id, allow);
      assert SubIds(subs) == SubIds(front) + {sub.id} by { SubIdsSnoc(subs); }
      ClipUnion(SubIds(front), {sub.id});
      ActTwice(Clip(SubIds(front)), Clip({sub.id}), {}, {}, allow, Granted(s));
      NoResets();
    }
  }

  lemma SubIdsSnoc(subs: seq<Subcommand>)
    requires subs != []
    ensures SubIds(subs) == SubIds(subs[..|subs| - 1]) + {subs[|subs| - 1].id}
  {
    var front := subs[..|subs| - 1];
    forall x
      ensures x in SubIds(subs) <==> x in SubIds(front) || x == subs[|subs| - 1].id
    {
      if x in SubIds(subs) {
        var k :| 0 <= k < |subs| && subs[k].id == x;
        assert k < |front| ==> front[k].id == x;
      }
      if x in SubIds(front) {
        var k :| 0 <= k < |front| && front[k].id == x;
        assert subs[k].id == x;
      }
    }
  }

  lemma TopGrants(e: Env, s: State, c: Command, allow: bool, rule: string)
    ensures Granted(ChangePerm(s, Top(c), allow)) == Act(ActionOf(e, Perm(Top(c), allow, rule)), Granted(s))
  {
    hide Granted, Act, SetBit, SetSubs, ResetArgs, Clip, SubIds;
    var (s1, g) := (SetBit(s, c.id, allow), Granted(s));
    var ids := Clip(SubIds(c.subs));
    SetBitGrants(s, c.id, allow);
    ResetGrants(s1, c.id, allow);
    ActTwice(Clip({c.id}), {}, {}, {c.id}, allow, g);
    SetSubsGrants(ResetArgs(s1, c.id), c.subs, allow);
    ActTwice(Clip({c.id}) + {}, ids, {} + {c.id}, {}, allow, g);
    ClipUnion({c.id}, SubIds(c.subs));
    assert Clip({c.id}) + {} + ids == Clip({c.id}) + ids && {} + {c.id} + {} == {c.id};
  }

  // Resetting the first arguments of a subcommand changes nothing: it never has any.
  lemma SubGrants(e: Env, s: State, c: Command, sub: Subcommand, allow: bool, rule: string)
    requires Valid(e) && c in e.table && sub in c.subs && ArgsFit(e, Granted(s))
    ensures Granted(ChangePerm(s, Sub(c, sub), allow)) == Act(ActionOf(e, Perm(Sub(c, sub), allow, rule)), Granted(s))
  {
    var s1 := SetBit(s, sub.id, allow);
    SetBitGrants(s, sub.id, allow);
    ResetGrants(s1, sub.id, allow);
    SubNotTop(e, c, sub);
    hide Valid, SetBit, ResetArgs, Granted;
    var (g, h) := (Act(Bits(Clip({sub.id}), {}, allow), Granted(s)), Act(Bits({}, {sub.id}, allow), Granted(s1)));
    assert h.bits == g.bits;
    assert h.args == g.args;
  }

  lemma SubNotTop(e: Env, c: Command, sub: Subcommand)
    requires Valid(e) && c in e.table && sub in c.subs
    ensures !OfCommand(e, sub.id)
  {
    var i :| 0 <= i < |e.table| && e.table[i] == c;
    var k :| 0 <= k < |c.subs| && c.subs[k] == sub;
    assert forall j | 0 <= j < |e.table| :: e.table[i].subs[k].id != e.table[j].id;
  }

  lemma FitKept(e: Env, a: Action, g: Grant)
    requires ArgsFit(e, g) && (a.Arg? ==> OfCommand(e, a.id))
    ensures ArgsFit(e, Act(a, g))
  {}

  lemma {:induction false} CategorySubsGrants(
      e: Env, s: State, c: Command, subs: seq<Subcommand>, flag: bv64, allow: bool)
    requires Valid(e) && c in e.table && (forall k | 0 <= k < |subs| :: subs[k] in c.subs) && ArgsFit(e, Granted(s))
    ensures Granted(CategorySubs(s, c, subs, flag, allow)) ==
            Act(Bits(Clip(SubIdsIn(subs, flag)), {}, allow), Granted(s))
    decreases |subs|
  {
    hide Granted, Act, ChangePerm, Clip, Valid, ArgsFit, InCategory;
    if subs == [] {
      assert SubIdsIn(subs, flag) == {};
      ClipUnion({}, {});
      ActNothing(allow, Granted(s));
    } else {
      var (front, sub) := (subs[..|subs| - 1], subs[|subs| - 1]);
      var (s1, ids) := (CategorySubs(s, c, front, flag, allow), SubIdsIn(front, flag));
      CategorySubsGrants(e, s, c, front, flag, allow);
      FitKept(e, Bits(Clip(ids), {}, allow), Granted(s));
      SubIdsInSnoc(subs, flag);
      if InCategory(sub.categories, flag) {
        SubGrants(e, s1, c, sub, allow, "");
        ClipUnion(ids, {sub.id});
        ActTwice(Clip(ids), Clip({sub.id}), {}, {}, allow, Granted(s));
        NoResets();
      } else {
        assert ids + {} == ids;
      }
    }
  }

  lemma SubIdsInSnoc(subs: seq<Subcommand>, flag: bv64)
    requires subs != []
    ensures var last := subs[|subs| - 1];
            SubIdsIn(subs, flag) ==
            SubIdsIn(subs[..|subs| - 1], flag) + if InCategory(last.categories, flag) then {last.id} else {}
  {
    var (front, last) := (subs[..|subs| - 1], subs[|subs| - 1]);
    hide InCategory;
    forall x
      ensures x in SubIdsIn(subs, flag) <==>
              x in SubIdsIn(front, flag) || (InCategory(last.categories, flag) && x == last.id)
    {
      if x in SubIdsIn(subs, flag) {
        var k :| 0 <= k < |subs| && InCategory(subs[k].categories, flag) && subs[k].id == x;
        assert k < |front| ==> front[k].id == x;
      }
      if x in SubIdsIn(front, flag) {
        var k :| 0 <= k < |front| && InCategory(front[k].categories, flag) && front[k].id == x;
        assert subs[k].id == x;
      }
    }
  }

  lemma TopsSnoc(t: seq<Command>, flag: bv64)
    requires t != []
    ensures var last := t[|t| - 1];
            CategoryTops(t, flag) ==
            CategoryTops(t[..|t| - 1], flag) + if InCategory(last.categories, flag) then {last.id} else {}
  {
    var (front, last) := (t[..|t| - 1], t[|t| - 1]);
    hide InCategory;
    forall x
      ensures x in CategoryTops(t, flag) <==>
              x in CategoryTops(front, flag) || (InCategory(last.categories, flag) && x == last.id)
    {
      if x in CategoryTops(t, flag) {
        var k :| 0 <= k < |t| && InCategory(t[k].categories, flag) && t[k].id == x;
        assert k < |front| ==> front[k].id == x;
      }
      if x in CategoryTops(front, flag) {
        var k :| 0 <= k < |front| && InCategory(front[k].categories, flag) && front[k].id == x;
        assert t[k].id == x;
      }
    }
  }

  // One more command in the walk over the table.
  lemma CategoryStepGrants(e: Env, s: State, c: Command, flag: bv64, allow: bool)
    requires Valid(e) && c in e.table && ArgsFit(e, Granted(s))
    ensures var s1 := if InCategory(c.categories, flag) then ChangePerm(s, Top(c), allow) else s;
            Granted(CategorySubs(s1, c, c.subs, flag, allow)) ==
            if InCategory(c.categories, flag) then
              Act(Bits(Clip({c.id} + SubIds(c.subs) + SubIdsIn(c.subs, flag)), {c.id}, allow), Granted(s))
            else Act(Bits(Clip(SubIdsIn(c.subs, flag)), {}, allow), Granted(s))
  {
    hide Granted, Act, ChangePerm, CategorySubs, Clip, Valid, ArgsFit, InCategory, SubIds, SubIdsIn;
    if InCategory(c.categories, flag) {
      var s1 := ChangePerm(s, Top(c), allow);
      var ids := {c.id} + SubIds(c.subs);
      TopGrants(e, s, c, allow, "");
      FitKept(e, Bits(Clip(ids), {c.id}, allow), Granted(s));
      CategorySubsGrants(e, s1, c, c.subs, flag, allow);
      ActTwice(Clip(ids), Clip(SubIdsIn(c.subs, flag)), {c.id}, {}, allow, Granted(s));
      ClipUnion(ids, SubIdsIn(c.subs, flag));
      assert {c.id} + {} == {c.id};
    } else {
      CategorySubsGrants(e, s, c, c.subs, flag, allow);
    }
  }

  lemma {:induction false} CategoryGrants(e: Env, s: State, t: seq<Command>, flag: bv64, allow: bool)
    requires Valid(e) && (forall i | 0 <= i < |t| :: t[i] in e.table) && ArgsFit(e, Granted(s))
    ensures Granted(CategoryPerm(s, t, flag, allow)) ==
            Act(Bits(Clip(CategoryIds(t, flag)), CategoryTops(t, flag), allow), Granted(s))
    decreases |t|
  {
    hide Granted, Act, ChangePerm, CategorySubs, Clip, Valid, ArgsFit, InCategory, SubIds, SubIdsIn, CategoryTops;
    if t == [] {
      assert CategoryTops(t, flag) == {} by { NoTops(flag); }
      ClipUnion({}, {});
      ActNothing(allow, Granted(s));
    } else {
      var (front, c) := (t[..|t| - 1], t[|t| - 1]);
      var (s1, g) := (CategoryPerm(s, front, flag, allow), Granted(s));
      var (ids, tops, subs) := (CategoryIds(front, flag), CategoryTops(front, flag), SubIdsIn(c.subs, flag));
      CategoryGrants(e, s, front, flag, allow);
      FitKept(e, Bits(Clip(ids), tops, allow), g);
      CategoryStepGrants(e, s1, c, flag, allow);
      TopsSnoc(t, flag);
      if InCategory(c.categories, flag) {
        var more := {c.id} + SubIds(c.subs) + subs;
        ActTwice(Clip(ids), Clip(more), tops, {c.id}, allow, g);
        ClipUnion(ids, more);
        assert CategoryIds(t, flag) == ids + more;
      } else {
        ActTwice(Clip(ids), Clip(subs), tops, {}, allow, g);
        ClipUnion(ids, subs);
        assert CategoryIds(t, flag) == ids + subs;
        assert tops + {} == tops;
      }
    }
  }

  lemma NoTops(flag: bv64)
    ensures CategoryTops([], flag) == {}
  {}

  lemma AddArgGrants(s: State, id: nat, arg: string)
    ensures Granted(AddArg(s, id, arg)) == Act(Arg(id, Lower(arg)), Granted(s))
  {
    var (t, args) := (AddArg(s, id, arg), ArgsOf(s, id));
    hide Lower;
    forall p: (nat, string)
      ensures p in ArgPairs(t.firstArgs) <==> p in ArgPairs(s.firstArgs) || p == (id, Lower(arg))
    {
      InPairs(s.firstArgs, p);
      InPairs(t.firstArgs, p);
      if p.0 == id && !Listed(args, arg) {
        var more := args + [arg];
        assert t.firstArgs[id] == more;
        assert more[|args|] == arg;
        assert forall i | 0 <= i < |args| :: more[i] == args[i];
      }
    }
  }

  // ---------- one operation ----------

  lemma OpCommand(e: Env, op: string)
    requires Parse(e, op).Ok?
    ensures match Parse(e, op).value
            case Perm(Top(c), _, _) => c in e.table
            case Perm(Sub(c, sub), _, _) => c in e.table && sub in c.subs
            case FirstArg(c, _, _) => c in e.table
            case _ => true
  {
    hide Lower;
  }

  // An accepted rule does to the grant what its action says.
  lemma SetSelectorGrants(e: Env, s: State, op: string)
    requires Valid(e) && ArgsFit(e, Granted(s)) && Parse(e, op).Ok? && IsRule(Parse(e, op).value)
    ensures var (q, t) := (Parse(e, op).value, SetSelector(e, s, op));
            && t.Ok? && Granted(t.value) == Act(ActionOf(e, q), Granted(s)) && ArgsFit(e, Granted(t.value))
            && t.value.rules == AddRule(s, Kept(q)[1..], q.FirstArg? || q.allow).rules && t.value.keys == s.keys
  {
    OpCommand(e, op);
    hide Parse, Valid, ChangePerm, AddArg, CategoryPerm, Act, PruneText, ActionOf, ArgPairs;
    var q := Parse(e, op).value;
    assert Kept(q)[1..] == q.rule;
    match q
    case Perm(f, allow, rule) =>
      RulesKept(s, f, allow);
      if f.Top? {
        TopGrants(e, s, f.c, allow, rule);
      } else {
        SubGrants(e, s, f.c, f.sub, allow, rule);
      }
      ActionFits(e, q, Granted(s));
    case FirstArg(c, arg, rule) =>
      AddArgGrants(s, c.id, arg);
      FirstArgRules(s, c.id, arg);
      FirstArgAction(e, c, arg, rule);
      ActionFits(e, q, Granted(s));
    case ByCategory(flag, allow, rule) =>
      var s1 := AddRule(s, rule, allow);
      assert Granted(s1) == Granted(s);
      CategoryGrants(e, s1, e.table, flag, allow);
      CategoryRulesKept(s1, e.table, flag, allow);
      CategoryAction'(e, flag, allow, rule);
      ActionFits(e, q, Granted(s));
  }

  lemma ActionFits(e: Env, q: Request, g: Grant)
    requires IsRule(q) && ArgsFit(e, g) && (q.FirstArg? ==> q.c in e.table)
    ensures ArgsFit(e, Act(ActionOf(e, q), g))
  {
    if q.FirstArg? {
      var i :| 0 <= i < |e.table| && e.table[i] == q.c;
      assert OfCommand(e, q.c.id);
    }
    FitKept(e, ActionOf(e, q), g);
  }

  lemma FirstArgAction(e: Env, c: Command, arg: string, rule: string)
    ensures ActionOf(e, FirstArg(c, arg, rule)) == Arg(c.id, Lower(arg))
  {}

  lemma CategoryAction'(e: Env, flag: bv64, allow: bool, rule: string)
    ensures ActionOf(e, ByCategory(flag, allow, rule)) ==
            Bits(Clip(CategoryIds(e.table, flag)), CategoryTops(e.table, flag), allow)
  {}

  lemma FirstArgRules(s: State, id: nat, arg: string)
    ensures AddArg(s, id, arg).rules == s.rules && AddArg(s, id, arg).keys == s.keys
  {}

  lemma {:induction false} SubsRulesKept(s: State, subs: seq<Subcommand>, allow: bool)
    ensures SetSubs(s, subs, allow).rules == s.rules && SetSubs(s, subs, allow).keys == s.keys
    decreases |subs|
  {
    if subs != [] {
      SubsRulesKept(s, subs[..|subs| - 1], allow);
    }
  }

  lemma RulesKept(s: State, f: Found, allow: bool)
    ensures ChangePerm(s, f, allow).rules == s.rules && ChangePerm(s, f, allow).keys == s.keys
  {
    if f.Top? {
      SubsRulesKept(ResetArgs(SetBit(s, f.c.id, allow), f.c.id), f.c.subs, allow);
    }
  }

  lemma {:induction false} CategorySubsRulesKept(s: State, c: Command, subs: seq<Subcommand>, flag: bv64, allow: bool)
    ensures var t := CategorySubs(s, c, subs, flag, allow); t.rules == s.rules && t.keys == s.keys
    decreases |subs|
  {
    hide ChangePerm, InCategory;
    if subs != [] {
      var (front, sub) := (subs[..|subs| - 1], subs[|subs| - 1]);
      CategorySubsRulesKept(s, c, front, flag, allow);
      RulesKept(CategorySubs(s, c, front, flag, allow), Sub(c, sub), allow);
    }
  }

  lemma {:induction false} CategoryRulesKept(s: State, t: seq<Command>, flag: bv64, allow: bool)
    ensures var s1 := CategoryPerm(s, t, flag, allow); s1.rules == s.rules && s1.keys == s.keys
    decreases |t|
  {
    hide ChangePerm, InCategory, CategorySubs;
    if t != [] {
      var (s1, c) := (CategoryPerm(s, t[..|t| - 1], flag, allow), t[|t| - 1]);
      CategoryRulesKept(s, t[..|t| - 1], flag, allow);
      RulesKept(s1, Top(c), allow);
      CategorySubsRulesKept(s1, c, c.subs, flag, allow);
      CategorySubsRulesKept(ChangePerm(s1, Top(c), allow), c, c.subs, flag, allow);
    }
  }

  // No operation but +@all and -@all touches the reserved bit.
  lemma {:induction false} FutureNotInCategory(e: Env, t: seq<Command>, flag: bv64)
    requires Valid(e) && forall i | 0 <= i < |t| :: t[i] in e.table
    ensures FUTURE !in CategoryIds(t, flag)
    decreases |t|
  {
    if t != [] {
      var c := t[|t| - 1];
      FutureNotInCategory(e, t[..|t| - 1], flag);
      FutureNotOf(e, c);
    }
  }

  lemma FutureNotOf(e: Env, c: Command)
    requires Valid(e) && c in e.table
    ensures c.id != FUTURE && forall sub | sub in c.subs :: sub.id != FUTURE
  {
    var i :| 0 <= i < |e.table| && e.table[i] == c;
    forall sub | sub in c.subs
      ensures sub.id != FUTURE
    {
      var k :| 0 <= k < |c.subs| && c.subs[k] == sub;
      assert e.table[i].subs[k].id != e.table[i].id;
    }
  }

  lemma FutureKept(e: Env, op: string, g: Grant)
    requires Valid(e) && Parse(e, op).Ok? && IsRule(Parse(e, op).value)
    ensures FUTURE in Act(ActionOf(e, Parse(e, op).value), g).bits <==> FUTURE in g.bits
  {
    OpCommand(e, op);
    var q := Parse(e, op).value;
    hide Parse, Valid;
    match q
    case Perm(f, _, _) => FutureNotOf(e, f.c);
    case ByCategory(flag, _, _) => FutureNotInCategory(e, e.table, flag);
    case FirstArg(_, _, _) =>
  }

  // ---------- the rule list describes the selector ----------

  predicate AllCanonical(e: Env, words: seq<string>) { forall i | 0 <= i < |words| :: Canonical(e, words[i]) }

  function RunWords(e: Env, words: seq<string>, g: Grant): Grant
    requires AllCanonical(e, words)
  {
    if words == [] then g else Act(WordAction(e, words[|words| - 1]), RunWords(e, words[..|words| - 1], g))
  }

  // Where the description starts: +@all or -@all, as the reserved bit says.
  function Base(future: bool): Grant { Grant(if future then AllBits() else {}, {}) }

  // No rule of the list would be pruned by a later one.
  predicate Clean(words: seq<string>)
  {
    words == [] ||
    var (front, last) := (words[..|words| - 1], words[|words| - 1]);
    && Clean(front) && last != []
    && forall i | 0 <= i < |front| :: front[i] != [] && !Subsumes(last[1..], front[i][1..])
  }

  predicate Described(e: Env, s: State, words: seq<string>)
  {
    && PlainWords(words) && AllCanonical(e, words) && Clean(words)
    && s.rules == Join(words)
    && Granted(s) == RunWords(e, words, Base(FUTURE in s.bits))
    && ArgsFit(e, Granted(s))
  }

  lemma {:induction false} PrunedSubset(e: Env, words: seq<string>, rule: string)
    requires PlainWords(words) && AllCanonical(e, words) && Clean(words)
    ensures var p := Pruned(words, rule); PlainWords(p) && AllCanonical(e, p) && Clean(p)
    ensures forall i | 0 <= i < |Pruned(words, rule)| :: !Subsumes(rule, Pruned(words, rule)[i][1..])
    decreases |words|
  {
    hide Subsumes, Canonical, Plain;
    if words != [] {
      var (front, last) := (words[..|words| - 1], words[|words| - 1]);
      PrunedSubset(e, front, rule);
      var p := Pruned(front, rule);
      assert Plain(last) && Canonical(e, last);
      PlainNonEmpty(last);
      forall i | 0 <= i < |p|
        ensures p[i] != [] && !Subsumes(last[1..], p[i][1..])
      {
        assert Plain(p[i]);
        PlainNonEmpty(p[i]);
        PrunedIn(front, rule, i);
        var k :| 0 <= k < |front| && front[k] == p[i];
      }
      assert (p + [last])[..|p|] == p;
      if Subsumes(rule, last[1..]) {
        assert Pruned(words, rule) == p;
      } else {
        assert Pruned(words, rule) == p + [last];
      }
    }
  }

  lemma PlainNonEmpty(w: string)
    requires Plain(w)
    ensures w != []
  {}

  lemma AgreeReflexive(a: Action, g: Grant)
    ensures AgreeBut(a, g, g)
  {}

  lemma AgreeTransitive(a: Action, g: Grant, h: Grant, k: Grant)
    requires AgreeBut(a, g, h) && AgreeBut(a, h, k)
    ensures AgreeBut(a, g, k)
  {
    match a
    case Bits(ids, resets, _) =>
      assert g.bits - ids == h.bits - ids == k.bits - ids;
      assert Outside(g.args, resets) == Outside(h.args, resets) == Outside(k.args, resets);
    case Arg(id, arg) =>
      assert g.args - {(id, arg)} == h.args - {(id, arg)} == k.args - {(id, arg)};
  }

  // Dropping the rules a new one covers leaves nothing different but what the new one decides.
  lemma {:induction false} PrunedAgrees(e: Env, words: seq<string>, w: string, g: Grant)
    requires Valid(e) && PlainWords(words) && AllCanonical(e, words) && Clean(words) && Canonical(e, w) && w != []
    ensures AllCanonical(e, Pruned(words, w[1..]))
    ensures AgreeBut(WordAction(e, w), RunWords(e, words, g), RunWords(e, Pruned(words, w[1..]), g))
    decreases |words|
  {
    hide Subsumes, Canonical, Plain, Valid, AgreeBut, Act, WordAction, Clean;
    PrunedSubset(e, words, w[1..]);
    var a := WordAction(e, w);
    if words == [] {
      AgreeReflexive(a, g);
    } else {
      var (front, last) := (words[..|words| - 1], words[|words| - 1]);
      assert Plain(last) && Canonical(e, last);
      PlainNonEmpty(last);
      CleanFront(words);
      PrunedAgrees(e, front, w, g);
      var (x, y) := (RunWords(e, front, g), RunWords(e, Pruned(front, w[1..]), g));
      var b := WordAction(e, last);
      if Subsumes(w[1..], last[1..]) {
        SubsumesCovers(e, w, last);
        CoveredAgrees(a, b, x);
        AgreeTransitive(a, Act(b, x), x, y);
        assert Pruned(words, w[1..]) == Pruned(front, w[1..]);
      } else {
        KeepsAgreeing(a, b, x, y);
        assert Pruned(words, w[1..])[..|Pruned(front, w[1..])|] == Pruned(front, w[1..]);
      }
    }
  }

  lemma CleanFront(words: seq<string>)
    requires Clean(words) && words != []
    ensures Clean(words[..|words| - 1])
  {}

  lemma AddRuleWords(s: State, words: seq<string>, rule: string, allow: bool)
    requires PlainWords(words) && s.rules == Join(words)
    ensures AddRule(s, rule, allow).rules == Join(Pruned(words, rule) + [Sign(allow) + rule])
  {
    PruneWords(words, rule);
    var (p, w) := (Pruned(words, rule), Sign(allow) + rule);
    assert Join([w]) == w;
    hide PruneText;
    if p == [] {
      assert p + [w] == [w];
    } else {
      JoinConcat(p, [w]);
      PrunedNonEmpty(words, rule);
    }
  }

  lemma PrunedNonEmpty(words: seq<string>, rule: string)
    requires PlainWords(words) && Pruned(words, rule) != []
    ensures Join(Pruned(words, rule)) != ""
  {
    var p := Pruned(words, rule);
    PrunedIn(words, rule, 0);
    assert p[0] != [] by {
      var k :| 0 <= k < |words| && words[k] == p[0];
      assert Plain(words[k]);
    }
  }

  // The rule list after an accepted rule `w`.
  function Extended(words: seq<string>, w: string): seq<string>
    requires w != []
  {
    Pruned(words, w[1..]) + [w]
  }

  lemma ExtendedWords(e: Env, words: seq<string>, w: string)
    requires PlainWords(words) && AllCanonical(e, words) && Clean(words) && Canonical(e, w) && Plain(w)
    ensures var extended := Extended(words, w);
            w != [] && PlainWords(extended) && AllCanonical(e, extended) && Clean(extended)
  {
    PlainNonEmpty(w);
    PrunedSubset(e, words, w[1..]);
    hide Subsumes, Canonical, Plain, Pruned;
    var p := Pruned(words, w[1..]);
    forall i | 0 <= i < |p|
      ensures p[i] != []
    {
      assert Plain(p[i]);
      PlainNonEmpty(p[i]);
    }
  }

  lemma ExtendedRuns(e: Env, words: seq<string>, w: string, g: Grant)
    requires Valid(e) && PlainWords(words) && AllCanonical(e, words) && Clean(words) && Canonical(e, w) && w != []
    requires AllCanonical(e, Extended(words, w))
    ensures RunWords(e, Extended(words, w), g) == Act(WordAction(e, w), RunWords(e, words, g))
  {
    hide Valid, Plain, Clean, Canonical, Act, WordAction, Pruned, AgreeBut;
    PrunedAgrees(e, words, w, g);
    var p := Pruned(words, w[1..]);
    assert Extended(words, w)[..|p|] == p;
    ActAgain(WordAction(e, w), RunWords(e, words, g), RunWords(e, p, g));
  }

  lemma EveryoneDescribed(e: Env, s: State, allow: bool)
    ensures Described(e, Everyone(s, allow), []) && (FUTURE in Everyone(s, allow).bits <==> allow)
    ensures Everyone(s, allow).keys == s.keys
  {
    assert ArgPairs(map[]) == {};
  }

  // The heart of it: an accepted operation whose own text is plain keeps the list a description.
  lemma RuleKeeps(e: Env, s: State, words: seq<string>, op: string)
    requires Valid(e) && Described(e, s, words) && Parse(e, op).Ok? && IsRule(Parse(e, op).value)
    requires Plain(Kept(Parse(e, op).value))
    ensures var w := Kept(Parse(e, op).value);
            && SetSelector(e, s, op).Ok? && Described(e, SetSelector(e, s, op).value, Extended(words, w))
            && (FUTURE in SetSelector(e, s, op).value.bits <==> FUTURE in s.bits)
            && SetSelector(e, s, op).value.keys == s.keys
  {
    hide Parse, Valid, Canonical, Plain, Act, ActionOf, WordAction, Clean, AddRule, SetSelector, Pruned, ArgPairs;
    hide RunWords;
    var q := Parse(e, op).value;
    var w := Kept(q);
    KeptCanonical(e, op);
    SetSelectorGrants(e, s, op);
    FutureKept(e, op, Granted(s));
    AddRuleWords(s, words, w[1..], q.FirstArg? || q.allow);
    assert w == Sign(q.FirstArg? || q.allow) + w[1..];
    ExtendedWords(e, words, w);
    ExtendedRuns(e, words, w, Base(FUTURE in s.bits));
  }

  // ---------- runs ----------

  // A refused operation leaves the selector alone.
  function After(e: Env, s: State, op: string): State
  {
    match SetSelector(e, s, op)
    case Ok(t) => t
    case Err(_) => s
  }

  function RunOps(e: Env, s: State, ops: seq<string>): State
  {
    if ops == [] then s else After(e, RunOps(e, s, ops[..|ops| - 1]), ops[|ops| - 1])
  }

  // The only operations whose text is the user's own: a first argument must be free of blanks and quotes.
  predicate OpPlain(e: Env, op: string)
  {
    Parse(e, op).Ok? && Parse(e, op).value.FirstArg? ==> PlainText(op)
  }

  lemma RulePlain(e: Env, op: string)
    requires Valid(e) && Parse(e, op).Ok? && IsRule(Parse(e, op).value)
    ensures Plain(Kept(Parse(e, op).value)) <==> OpPlain(e, op)
    ensures Kept(Parse(e, op).value) != [] && !IsSpace(Kept(Parse(e, op).value)[0])
  {
    var q := Parse(e, op).value;
    KeptIsOp(e, op);
    LowerFacts(op);
    ParseForms(e, op);
    OpCommand(e, op);
    SignIsLower(op[0] == '+');
    assert Kept(q)[0] == Lower(op)[0] == op[0];
    hide Parse, Lower, Lookup, ParseAllow, ParseDeny;
    match q
    case Perm(f, allow, rule) => NamePlain(e, op);
    case ByCategory(flag, allow, rule) => CategoryPlain(e, op);
    case FirstArg(_, _, _) =>
  }

  lemma NamePlain(e: Env, op: string)
    requires Valid(e) && Parse(e, op).Ok? && Parse(e, op).value.Perm?
    ensures PlainText(Lower(op))
  {
    var q := Parse(e, op).value;
    KeptIsOp(e, op);
    OpCommand(e, op);
    PermRule(e, op);
    assert NameOk(q.f.c.name) by {
      var i :| 0 <= i < |e.table| && e.table[i] == q.f.c;
    }
    assert q.f.Sub? ==> NameOk(q.f.sub.name) by {
      if q.f.Sub? {
        var i :| 0 <= i < |e.table| && e.table[i] == q.f.c;
        var k :| 0 <= k < |q.f.c.subs| && q.f.c.subs[k] == q.f.sub;
        assert NameOk(e.table[i].subs[k].name);
      }
    }
    hide Parse, Lower;
    var name := FullName(q.f);
    assert PlainText(name);
    LowerFacts(name);
    assert Lower(op) == Sign(q.allow) + Lower(name);
    SignPlain(q.allow, Lower(name));
  }

  lemma SignPlain(allow: bool, s: string)
    requires PlainText(s)
    ensures PlainText(Sign(allow) + s)
  {}

  lemma AllowPerm(e: Env, name: string)
    requires ParseAllow(e, name).Ok? && ParseAllow(e, name).value.Perm?
    ensures var q := ParseAllow(e, name).value;
            Lookup(e, name) == Some(q.f) && (q.rule == Lower(FullName(q.f)) || q.rule == Lower(name))
  {
    hide Lookup, Lower, FullName, FindLast;
  }

  // Whichever way a command was named, its full name is what is kept.
  lemma PermRule(e: Env, op: string)
    requires Parse(e, op).Ok? && Parse(e, op).value.Perm?
    ensures var q := Parse(e, op).value; q.rule == Lower(FullName(q.f))
  {
    hide Lookup, Lower, FullName, ParseAllow, Parse;
    ParseForms(e, op);
    if op[0] == '+' {
      AllowPerm(e, op[1..]);
      LookupName(e, op[1..]);
    }
  }

  lemma CategoryPlain(e: Env, op: string)
    requires Valid(e) && Parse(e, op).Ok? && Parse(e, op).value.ByCategory?
    ensures PlainText(Lower(op))
  {
    hide *;
    CategoryForm(e, op);
    CategoryNamePlain(e, op[2..]);
    LowerFacts(op);
    assert op == [op[0], '@'] + op[2..];
    HeadPlain(op[0], op[2..]);
  }

  lemma HeadPlain(sign: char, name: string)
    requires (sign == '+' || sign == '-') && PlainText(name)
    ensures PlainText([sign, '@'] + name)
  {}

  lemma CategoryNamePlain(e: Env, name: string)
    requires Valid(e) && FindCategory(e.categories, name) != 0
    ensures PlainText(name)
  {
    var i :| 0 <= i < |e.categories| && Lower(e.categories[i].name) == Lower(name);
    assert NameOk(e.categories[i].name);
    hide Valid, FindCategory, Lower;
    LowerFacts(e.categories[i].name);
    LowerFacts(name);
  }

  lemma CategoryForm(e: Env, op: string)
    requires Parse(e, op).Ok? && Parse(e, op).value.ByCategory?
    ensures |op| > 1 && op[1] == '@' && (op[0] == '+' || op[0] == '-') && FindCategory(e.categories, op[2..]) != 0
  {
    ParseForms(e, op);
    hide Lower, Lookup;
  }

  lemma StepKeeps(e: Env, s: State, words: seq<string>, op: string)
    requires Valid(e) && Described(e, s, words) && OpPlain(e, op)
    ensures exists next :: Described(e, After(e, s, op), next)
  {
    hide Parse, Valid, Described, Everyone, Kept, OpPlain;
    if Parse(e, op).Ok? {
      var q := Parse(e, op).value;
      if IsRule(q) {
        RulePlain(e, op);
        RuleKeeps(e, s, words, op);
        assert Described(e, After(e, s, op), Extended(words, Kept(q)));
      } else if q.Everything? {
        EveryoneDescribed(e, s, q.allow);
        assert Described(e, After(e, s, op), []);
      } else {
        KeysNotDescribed(e, s, words, After(e, s, op).keys);
        assert Described(e, After(e, s, op), words);
      }
    } else {
      assert Described(e, After(e, s, op), words);
    }
  }

  // The rule list says nothing about keys.
  lemma KeysNotDescribed(e: Env, s: State, words: seq<string>, k: KeyRules)
    requires Described(e, s, words)
    ensures Described(e, s.(keys := k), words)
  {}

  ghost predicate IsDescribed(e: Env, s: State) { exists words :: Described(e, s, words) }

  lemma {:induction false} RunDescribed(e: Env, s: State, ops: seq<string>)
    requires Valid(e) && IsDescribed(e, s) && forall i | 0 <= i < |ops| :: OpPlain(e, ops[i])
    ensures IsDescribed(e, RunOps(e, s, ops))
    decreases |ops|
  {
    hide Valid, Described, OpPlain, SetSelector;
    if ops != [] {
      RunDescribed(e, s, ops[..|ops| - 1]);
      var t := RunOps(e, s, ops[..|ops| - 1]);
      var words :| Described(e, t, words);
      StepKeeps(e, t, words, ops[|ops| - 1]);
    }
  }

  // ---------- replay ----------

  // Operations that must all be accepted.
  function ApplyAll(e: Env, s: State, ops: seq<string>): Result<State>
  {
    if ops == [] then Ok(s)
    else
      match ApplyAll(e, s, ops[..|ops| - 1])
      case Err(error) => Err(error)
      case Ok(t) => SetSelector(e, t, ops[|ops| - 1])
  }

  // Setting the words of the rule text of `s` on the selector `start`, after +@all or -@all, as the reserved bit says.
  function Replay(e: Env, start: State, s: State): Result<State>
  {
    match SplitArgs(s.rules)
    case None => Err(Invalid)
    case Some(argv) => ApplyAll(e, Everyone(start, FUTURE in s.bits), argv)
  }

  // The same bitmap, the same first arguments, and the same rule list; the patterns are left alone.
  predicate Lossless(e: Env, start: State, s: State)
  {
    match Replay(e, start, s)
    case Err(_) => false
    case Ok(t) => Granted(t) == Granted(s) && t.rules == s.rules && t.keys == start.keys
  }

  lemma {:induction false} PrunedNothing(words: seq<string>, rule: string)
    requires forall i | 0 <= i < |words| :: words[i] != [] && !Subsumes(rule, words[i][1..])
    ensures Pruned(words, rule) == words
    decreases |words|
  {
    hide Subsumes;
    if words != [] {
      PrunedNothing(words[..|words| - 1], rule);
    }
  }

  // A canonical word, set again, is kept as it is.
  lemma CanonicalKept(e: Env, w: string)
    requires Canonical(e, w)
    ensures Parse(e, w).Ok? && IsRule(Parse(e, w).value) && Kept(Parse(e, w).value) == w
  {
    KeptIsOp(e, w);
    hide Parse, Lower;
  }

  lemma {:induction false} ReplayWords(e: Env, start: State, words: seq<string>, future: bool)
    requires Valid(e) && PlainWords(words) && AllCanonical(e, words) && Clean(words)
    ensures match ApplyAll(e, Everyone(start, future), words)
            case Err(_) => false
            case Ok(t) => Described(e, t, words) && (FUTURE in t.bits <==> future) && t.keys == start.keys
    decreases |words|
  {
    hide Valid, Described, Canonical, Plain, SetSelector, Everyone, Subsumes, Kept, Parse;
    if words == [] {
      EveryoneDescribed(e, start, future);
    } else {
      var (front, w) := (words[..|words| - 1], words[|words| - 1]);
      CleanFront(words);
      ReplayWords(e, start, front, future);
      var t := ApplyAll(e, Everyone(start, future), front).value;
      assert Canonical(e, w) && Plain(w);
      CanonicalKept(e, w);
      RuleKeeps(e, t, front, w);
      NonEmptyFront(words);
      PrunedNothing(front, w[1..]);
      assert Extended(front, w) == words;
    }
  }

  lemma NonEmptyFront(words: seq<string>)
    requires Clean(words) && words != [] && PlainWords(words)
    ensures var (front, w) := (words[..|words| - 1], words[|words| - 1]);
            w != [] && forall i | 0 <= i < |front| :: front[i] != [] && !Subsumes(w[1..], front[i][1..])
  {
    assert Plain(words[|words| - 1]);
    hide Subsumes;
  }

  lemma DescribedLossless(e: Env, start: State, s: State, words: seq<string>)
    requires Valid(e) && Described(e, s, words)
    ensures Lossless(e, start, s)
  {
    SplitJoin(words);
    ReplayWords(e, start, words, FUTURE in s.bits);
    hide Valid, ApplyAll, RunWords, Clean, Everyone, Granted, ArgsFit, Plain, Canonical;
  }

  // After any operations whose first arguments are plain, from a new selector, describing it loses nothing, on
  // whichever selector its words are set.
  lemma RunLossless(e: Env, b: bool, ops: seq<string>, start: State)
    requires Valid(e) && forall i | 0 <= i < |ops| :: OpPlain(e, ops[i])
    ensures Lossless(e, start, RunOps(e, Fresh(b), ops))
  {
    hide Valid, OpPlain, Lossless;
    FreshDescribed(e, b);
    RunDescribed(e, Fresh(b), ops);
    var words :| Described(e, RunOps(e, Fresh(b), ops), words);
    DescribedLossless(e, start, RunOps(e, Fresh(b), ops), words);
  }

  lemma FreshDescribed(e: Env, b: bool)
    ensures IsDescribed(e, Fresh(b))
  {
    assert ArgPairs(map[]) == {};
    assert Described(e, Fresh(b), []);
  }

  // ---------- exactly when ----------

  // A first argument is granted by a replay only if some word of the text asks for it.
  lemma {:induction false} ArgSource(e: Env, s: State, words: seq<string>, p: (nat, string))
    requires Valid(e) && ArgsFit(e, Granted(s)) && ApplyAll(e, s, words).Ok? && p !in Granted(s).args
    ensures ArgsFit(e, Granted(ApplyAll(e, s, words).value))
    ensures p in Granted(ApplyAll(e, s, words).value).args ==>
              exists k | 0 <= k < |words| :: AsksFor(e, words[k], p)
    decreases |words|
  {
    hide Valid, SetSelector, ActionOf, Parse, ArgPairs, AsksFor, Kept, AddRule;
    if words != [] {
      var (front, w) := (words[..|words| - 1], words[|words| - 1]);
      ArgSource(e, s, front, p);
      var t := ApplyAll(e, s, front).value;
      SetOne(e, t, w, p);
      if AsksFor(e, w, p) {
        assert AsksFor(e, words[|words| - 1], p);
      } else if p in Granted(t).args {
        var k :| 0 <= k < |front| && AsksFor(e, front[k], p);
        assert words[k] == front[k];
      }
    }
  }

  predicate AsksFor(e: Env, w: string, p: (nat, string))
  {
    match Parse(e, w)
    case Ok(FirstArg(c, arg, _)) => p == (c.id, Lower(arg))
    case _ => false
  }

  lemma SetOne(e: Env, s: State, op: string, p: (nat, string))
    requires Valid(e) && ArgsFit(e, Granted(s)) && SetSelector(e, s, op).Ok?
    ensures ArgsFit(e, Granted(SetSelector(e, s, op).value))
    ensures p in Granted(SetSelector(e, s, op).value).args ==> p in Granted(s).args || AsksFor(e, op, p)
  {
    ParsesIfSet(e, s, op);
    var q := Parse(e, op).value;
    if IsRule(q) {
      SetSelectorGrants(e, s, op);
      hide Valid, Parse, SetSelector, ArgPairs, AddRule;
    } else {
      assert q.Everything? ==> ArgPairs(map[]) == {};
      hide Valid, Parse;
    }
  }

  lemma ParsesIfSet(e: Env, s: State, op: string)
    requires SetSelector(e, s, op).Ok?
    ensures Parse(e, op).Ok?
  {
    hide Parse;
  }

  lemma FirstArgText(e: Env, op: string)
    requires Parse(e, op).Ok? && Parse(e, op).value.FirstArg?
    ensures var q := Parse(e, op).value;
            q.c in e.table && Lower(op) == "+" + Lower(q.c.name) + "|" + Lower(q.arg) && Kept(q) == Lower(op)
  {
    hide *;
    OpCommand(e, op);
    FirstArgForm(e, op);
    var q := Parse(e, op).value;
    var name := op[1..];
    var k := FindLast(name, '|');
    IsARule(q);
    KeptIsOp(e, op);
    LookupName(e, name[..k]);
    assert op == "+" + name[..k] + "|" + name[k + 1..];
    LowerConcat("+" + name[..k] + "|", name[k + 1..]);
    LowerConcat("+" + name[..k], "|");
    LowerConcat("+", name[..k]);
    LowerOne('|');
    LowerOne('+');
  }

  lemma IsARule(q: Request)
    requires q.FirstArg?
    ensures IsRule(q)
  {}

  lemma LowerOne(c: char)
    requires c == '|' || c == '+'
    ensures Lower([c]) == [c]
  {}

  lemma FirstArgForm(e: Env, op: string)
    requires Parse(e, op).Ok? && Parse(e, op).value.FirstArg?
    ensures var q := Parse(e, op).value;
            && op != [] && op[0] == '+' && '|' in op[1..]
            && var k := FindLast(op[1..], '|');
               Lookup(e, op[1..][..k]) == Some(Top(q.c)) && q.arg == op[1..][k + 1..] && FullName(Top(q.c)) == q.c.name
  {
    ParseForms(e, op);
    hide Lookup, Lower;
  }

  lemma SameCommand(e: Env, c: Command, d: Command)
    requires Valid(e) && c in e.table && d in e.table && c.id == d.id
    ensures c == d
  {
    var i :| 0 <= i < |e.table| && e.table[i] == c;
    var j :| 0 <= j < |e.table| && e.table[j] == d;
  }

  // A word that asks for the same first argument is, but for case, the same word.
  lemma AskedText(e: Env, w: string, op: string)
    requires Valid(e) && Parse(e, op).Ok? && Parse(e, op).value.FirstArg?
    requires var q := Parse(e, op).value; AsksFor(e, w, (q.c.id, Lower(q.arg)))
    ensures Lower(w) == Lower(op)
  {
    FirstArgText(e, op);
    FirstArgText(e, w);
    SameCommand(e, Parse(e, w).value.c, Parse(e, op).value.c);
    hide Parse, Lower, Valid;
  }

  // A first argument with a blank or a quote in it is lost by the replay.
  lemma QuotedLost(e: Env, start: State, s: State, words: seq<string>, op: string)
    requires Valid(e) && Described(e, s, words) && Parse(e, op).Ok? && Parse(e, op).value.FirstArg? && !OpPlain(e, op)
    ensures SetSelector(e, s, op).Ok? && !Lossless(e, start, SetSelector(e, s, op).value)
  {
    hide Valid, Parse, SetSelector, Pruned, Canonical, Clean, ApplyAll, ArgPairs, RunWords, AddRule, Join, SplitArgs;
    hide ArgsFit, ActionOf;
    var (q, w) := (Parse(e, op).value, Kept(Parse(e, op).value));
    RulePlain(e, op);
    FirstArgText(e, op);
    SetSelectorGrants(e, s, op);
    ParsedAction(e, op);
    AddRuleWords(s, words, w[1..], true);
    assert w == Sign(true) + w[1..];
    var (t, p) := (SetSelector(e, s, op).value, (q.c.id, Lower(q.arg)));
    assert p in Granted(t).args;
    var all := Extended(words, w);
    PrunedSubset(e, words, w[1..]);
    assert t.rules == Join(all);
    if Lossless(e, start, t) {
      var argv := SplitArgs(t.rules).value;
      LastShort(all);
      EveryoneDescribed(e, start, FUTURE in t.bits);
      NoArgs(start, FUTURE in t.bits, p);
      ArgSource(e, Everyone(start, FUTURE in t.bits), argv, p);
      var k :| 0 <= k < |argv| && AsksFor(e, argv[k], p);
      AskedText(e, argv[k], op);
      assert |argv[k]| == |w|;
      assert k < |all| - 1 && argv[k] == argv[..|all| - 1][k] == all[k];
      LowerFacts(argv[k]);
      LowerFacts(op);
    }
  }

  lemma NoArgs(start: State, future: bool, p: (nat, string))
    ensures p !in Granted(Everyone(start, future)).args
  {}

  lemma ParsedAction(e: Env, op: string)
    requires Parse(e, op).Ok? && Parse(e, op).value.FirstArg?
    ensures var q := Parse(e, op).value; ActionOf(e, q) == Arg(q.c.id, Lower(q.arg))
  {
    hide Parse, Lower;
  }

  // On a selector that its list describes, an accepted rule leaves one that its list describes exactly when it is not
  // a first argument with a blank or a quote.
  lemma LosslessExactly(e: Env, start: State, s: State, words: seq<string>, op: string)
    requires Valid(e) && Described(e, s, words) && Parse(e, op).Ok? && IsRule(Parse(e, op).value)
    ensures SetSelector(e, s, op).Ok?
    ensures Lossless(e, start, SetSelector(e, s, op).value) <==> OpPlain(e, op)
  {
    hide Valid, Described, Parse, Lossless, SetSelector;
    if OpPlain(e, op) {
      RulePlain(e, op);
      RuleKeeps(e, s, words, op);
      DescribedLossless(e, start, SetSelector(e, s, op).value, Extended(words, Kept(Parse(e, op).value)));
    } else {
      QuotedLost(e, start, s, words, op);
    }
  }

  // Such an operation: allowing GET with a first argument that contains a blank.
  lemma BlankIsLost(e: Env, get: Command, start: State)
    requires Valid(e) && Lookup(e, "get") == Some(Top(get)) && get.subs == []
    ensures var t := SetSelector(e, Fresh(false), "+get|a b"); t.Ok? && !Lossless(e, start, t.value)
  {
    hide Valid, Lookup, Lossless, Described, SetSelector, OpPlain, Lower;
    var op := "+get|a b";
    var name := op[1..];
    assert name == "get|a b" && name[3] == '|';
    assert FindLast(name, '|') == 3;
    assert name[..3] == "get" && name[4..] == "a b";
    assert ParseAllow(e, name) == Ok(FirstArg(get, "a b", Lower(name)));
    NotSpecial(e, op);
    FreshDescribed(e, false);
    var words :| Described(e, Fresh(false), words);
    BlankNotPlain(e, op);
    LosslessExactly(e, start, Fresh(false), words, op);
  }

  lemma NotSpecial(e: Env, op: string)
    requires |op| > 1 && op[0] == '+' && op[1] == 'g'
    ensures Parse(e, op) == ParseAllow(e, op[1..])
  {
    hide ParseAllow;
    assert Lower(op)[0] == '+' && Lower(op)[1] == 'g';
  }

  lemma BlankNotPlain(e: Env, op: string)
    requires op == "+get|a b" && Parse(e, op).Ok? && Parse(e, op).value.FirstArg?
    ensures !OpPlain(e, op)
  {
    assert op[6] == ' ';
    hide Parse;
  }

  // ---------- the description as text ----------

  function All(future: bool): string { if future then "+@all" else "-@all" }

  // ACLDescribeSelectorCommandRules
  function Describe(s: State): string { All(FUTURE in s.bits) + if s.rules == "" then "" else " " + s.rules }

  lemma {:induction false} ApplyFirst(e: Env, s: State, op: string, ops: seq<string>)
    ensures ApplyAll(e, s, [op] + ops) ==
            match SetSelector(e, s, op)
            case Err(error) => Err(error)
            case Ok(t) => ApplyAll(e, t, ops)
    decreases |ops|
  {
    hide SetSelector;
    if ops == [] {
      assert [op] + ops == [op] && [op][..0] == [];
      assert ApplyAll(e, s, []) == Ok(s);
    } else {
      var n := |ops| - 1;
      assert ([op] + ops)[..|ops|] == [op] + ops[..n];
      ApplyFirst(e, s, op, ops[..n]);
    }
  }

  lemma AllParses(e: Env, s: State, future: bool)
    ensures SetSelector(e, s, All(future)) == Ok(Everyone(s, future)) && Plain(All(future))
  {
    var op := All(future);
    assert Lower(op) == op;
    assert op[0] == '+' || op[0] == '-';
    assert !IsPatternOp(op);
    assert Parse(e, op) == Ok(Everything(future));
    hide Parse;
  }

  // The printed description, given word by word to a new selector, grants the same again and prints the same.
  lemma DescriptionLoads(e: Env, start: State, s: State, words: seq<string>)
    requires Valid(e) && Described(e, s, words)
    ensures SplitArgs(Describe(s)).Some?
    ensures match ApplyAll(e, start, SplitArgs(Describe(s)).value)
            case Err(_) => false
            case Ok(t) => Granted(t) == Granted(s) && Describe(t) == Describe(s) && t.keys == start.keys
  {
    hide Valid, ApplyAll, RunWords, Clean, Granted, ArgsFit, Plain, Canonical, SplitArgs, Join, SetSelector;
    var (future, all) := (FUTURE in s.bits, All(FUTURE in s.bits));
    AllParses(e, start, future);
    DescribedWords(e, s, words);
    ApplyFirst(e, start, all, words);
    ReplayWords(e, start, words, future);
    var t := ApplyAll(e, Everyone(start, future), words).value;
    DescribedWords(e, t, words);
  }

  lemma DescribedWords(e: Env, s: State, words: seq<string>)
    requires Described(e, s, words)
    ensures SplitArgs(Describe(s)) == Some([All(FUTURE in s.bits)] + words)
    ensures s.rules == Join(words) && Granted(s) == RunWords(e, words, Base(FUTURE in s.bits))
  {
    hide Plain, Canonical, SplitArgs, Join, SetSelector, Parse, RunWords, Granted;
    var all := All(FUTURE in s.bits);
    AllParses(e, s, FUTURE in s.bits);
    SplitOne(all);
    SplitWord(all, Join(words));
    SplitJoin(words);
    JoinEmpty(words);
    if words == [] {
      assert [all] + words == [all];
      assert all + "" == all;
    } else {
      assert all + (" " + Join(words)) == all + " " + Join(words);
    }
  }

  lemma JoinEmpty(words: seq<string>)
    requires PlainWords(words)
    ensures Join(words) == "" <==> words == []
  {
    if words != [] {
      assert Plain(words[0]);
    }
  }

  // ---------- in place ----------

  class Selector {
    var allowedCommands: set<nat>
    var allCommands: bool
    var allowedFirstArgs: map<nat, seq<string>>
    var commandRules: string
    var allKeys: bool
    var patterns: seq<KeyPattern>
    var allChannels: bool
    var channels: seq<string>

    function Value(): State
      reads this
    {
      State(allowedCommands, allCommands, allowedFirstArgs, commandRules,
            KeyRules(allKeys, patterns, allChannels, channels))
    }

    constructor (channelsOpen: bool)
      ensures Value() == Fresh(channelsOpen)
    {
      allowedCommands, allCommands, allowedFirstArgs, commandRules := {}, false, map[], "";
      allKeys, patterns, allChannels, channels := false, [], channelsOpen, [];
    }

    method SetCommandBit(id: nat, value: bool)
      modifies this
      ensures Value() == SetBit(old(Value()), id, value)
    {
      if id >= BITS {
        return;
      }
      if value {
        allowedCommands := allowedCommands + {id};
      } else {
        allowedCommands := allowedCommands - {id};
        allCommands := false;
      }
    }

    method ResetFirstArgsForCommand(id: nat)
      modifies this
      ensures Value() == ResetArgs(old(Value()), id)
    {
      allowedFirstArgs := allowedFirstArgs - {id};
    }

    // ACLChangeSelectorPerm; a subcommand has no subcommands of its own.
    method ChangeSelectorPerm(f: Found, allow: bool)
      modifies this
      ensures Value() == ChangePerm(old(Value()), f, allow)
    {
      hide SetBit, ResetArgs;
      var id := if f.Top? then f.c.id else f.sub.id;
      var subs := if f.Top? then f.c.subs else [];
      SetCommandBit(id, allow);
      ResetFirstArgsForCommand(id);
      ghost var start := Value();
      NoSubs(start, allow);
      for i := 0 to |subs|
        invariant Value() == SetSubs(start, subs[..i], allow)
      {
        assert subs[..i + 1][..i] == subs[..i];
        SetCommandBit(subs[i].id, allow);
      }
      assert subs[..|subs|] == subs;
    }

    method SetCommandBitsForSubs(c: Command, flag: bv64, value: bool)
      modifies this
      ensures Value() == CategorySubs(old(Value()), c, c.subs, flag, value)
    {
      hide ChangePerm, InCategory;
      NoCategorySubs(Value(), c, flag, value);
      for i := 0 to |c.subs|
        invariant Value() == CategorySubs(old(Value()), c, c.subs[..i], flag, value)
      {
        assert c.subs[..i + 1][..i] == c.subs[..i];
        if InCategory(c.subs[i].categories, flag) {
          ChangeSelectorPerm(Sub(c, c.subs[i]), value);
        }
      }
      assert c.subs[..|c.subs|] == c.subs;
    }

    // ACLSetSelectorCommandBitsForCategory
    method SetCommandBitsForCategory(e: Env, flag: bv64, value: bool)
      modifies this
      ensures Value() == CategoryPerm(old(Value()), e.table, flag, value)
    {
      hide ChangePerm, CategorySubs, InCategory;
      NoCategory(Value(), flag, value);
      for i := 0 to |e.table|
        invariant Value() == CategoryPerm(old(Value()), e.table[..i], flag, value)
      {
        var c := e.table[i];
        assert e.table[..i + 1][..i] == e.table[..i];
        if InCategory(c.categories, flag) {
          ChangeSelectorPerm(Top(c), value);
        }
        SetCommandBitsForSubs(c, flag, value);
      }
      assert e.table[..|e.table|] == e.table;
    }

    // ACLAddAllowedFirstArg
    method AddAllowedFirstArg(id: nat, sub: string)
      modifies this
      ensures Value() == AddArg(old(Value()), id, sub)
    {
      hide Lower;
      var items := 0;
      var args := if id in allowedFirstArgs then allowedFirstArgs[id] else [];
      while items < |args|
        invariant items <= |args| && forall i | 0 <= i < items :: Lower(args[i]) != Lower(sub)
      {
        if Lower(args[items]) == Lower(sub) {
          assert Listed(args, sub);
          return;
        }
        items := items + 1;
      }
      allowedFirstArgs := allowedFirstArgs[id := args + [sub]];
    }

    // ACLSelectorRemoveCommandRule: rules are moved over the ones that go away.
    method RemoveCommandRule(newRule: string)
      modifies this
      ensures Value() == old(Value()).(rules := PruneText(old(commandRules), 0, newRule))
    {
      hide PruneText, Find, Subsumes;
      var existing := 0;
      while existing < |commandRules|
        invariant 0 <= existing
        invariant PruneText(commandRules, existing, newRule) == PruneText(old(commandRules), 0, newRule)
        invariant Value() == old(Value()).(rules := commandRules)
        decreases |commandRules| - existing
      {
        PruneUnfold(commandRules, existing, newRule);
        var copyPosition := existing;
        existing := existing + 1;
        var ruleEnd := Find(commandRules, ' ', existing);
        if ruleEnd == |commandRules| && copyPosition != 0 {
          copyPosition := copyPosition - 1;
        }
        var copyEnd := ruleEnd;
        if copyEnd < |commandRules| {
          copyEnd := copyEnd + 1;
        }
        var rule := commandRules[existing..ruleEnd];
        var shared := if |rule| < |newRule| then |rule| else |newRule|;
        MatchIsSubsumes(newRule, rule);
        if rule[..shared] == newRule[..shared] {
          if |rule| == |newRule| || (|rule| > |newRule| && rule[|newRule|] == '|') {
            commandRules := commandRules[..copyPosition] + commandRules[copyEnd..];
            existing := copyPosition;
            continue;
          }
        }
        existing := copyEnd;
      }
      PruneStops(commandRules, existing, newRule);
    }

    // ACLUpdateCommandRules
    method UpdateCommandRules(rule: string, allow: bool)
      modifies this
      ensures Value() == AddRule(old(Value()), Lower(rule), allow)
    {
      hide PruneText, Lower;
      var newRule := Lower(rule);
      RemoveCommandRule(newRule);
      if |commandRules| > 0 {
        commandRules := commandRules + " ";
      }
      commandRules := commandRules + ((if allow then "+" else "-") + newRule);
    }

    method SetEveryone(allow: bool)
      modifies this
      ensures Value() == Everyone(old(Value()), allow)
    {
      allowedCommands := if allow then AllBits() else {};
      allCommands := allow;
      commandRules := "";
      allowedFirstArgs := map[];
    }

    // ACLSetSelectorCategory
    method SetCategory(e: Env, category: string, allow: bool) returns (r: Option<Error>)
      requires category != []
      modifies this
      ensures var q := ParseCategory(e, category[1..], allow);
              if q.Err? then r == Some(q.error) && Value() == old(Value())
              else r == None && Value() ==
                   CategoryPerm(AddRule(old(Value()), Lower("@" + category[1..]), allow), e.table, q.value.flag, allow)
    {
      hide Lower, AddRule, CategoryPerm, FindCategory;
      var cflag := FindCategory(e.categories, category[1..]);
      if cflag == 0 {
        return Some(NoEntry);
      }
      UpdateCommandRules("@" + category[1..], allow);
      SetCommandBitsForCategory(e, cflag, allow);
      r := None;
    }

    // The branch of ACLSetSelector for +command, +container|subcommand and +command|first-arg.
    method Allow(e: Env, name: string) returns (r: Option<Error>)
      modifies this
      ensures match ParseAllow(e, name)
              case Err(error) => r == Some(error) && Value() == old(Value())
              case Ok(FirstArg(c, arg, rule)) =>
                r == None && Value() == AddRule(AddArg(old(Value()), c.id, arg), rule, true)
              case Ok(q) =>
                && r == None && q.Perm? && q.allow
                && Value() == AddRule(ChangePerm(old(Value()), q.f, true), q.rule, true)
    {
      hide Lower, AddRule, ChangePerm, AddArg, Lookup, FullName, FindLast;
      if '|' !in name {
        var cmd := Lookup(e, name);
        if cmd.None? {
          return Some(NoEntry);
        }
        ChangeSelectorPerm(cmd.value, true);
        UpdateCommandRules(FullName(cmd.value), true);
      } else {
        var bar := FindLast(name, '|');
        var copy, sub := name[..bar], name[bar + 1..];
        var cmd := Lookup(e, copy);
        if cmd.None? {
          return Some(NoEntry);
        }
        if cmd.value.Sub? {
          return Some(Child);
        }
        if |sub| == 0 {
          return Some(Invalid);
        }
        if cmd.value.c.subs != [] {
          var full := Lookup(e, name);
          if full.None? {
            return Some(NoEntry);
          }
          ChangeSelectorPerm(full.value, true);
        } else {
          AddAllowedFirstArg(cmd.value.c.id, sub);
        }
        UpdateCommandRules(name, true);
      }
      r := None;
    }

    // Adding a key pattern: the list is searched for it first.
    method AddKeyPattern(newpat: KeyPattern)
      modifies this
      ensures Value() == old(Value()).(keys := old(Value()).keys.(patterns := AddPattern(old(patterns), newpat)))
    {
      var i := 0;
      while i < |patterns| && patterns[i].pattern != newpat.pattern
        invariant i <= |patterns| && forall j | 0 <= j < i :: patterns[j].pattern != newpat.pattern
      {
        i := i + 1;
      }
      AddAt(patterns, newpat, i);
      if i == |patterns| {
        patterns := patterns + [newpat];
      } else {
        var p := patterns[i];
        patterns := patterns[i := KeyPattern(newpat.pattern, p.read || newpat.read, p.write || newpat.write)];
      }
    }

    method SetKeyPattern(op: string) returns (r: Option<Error>)
      requires op != [] && (op[0] == '~' || op[0] == '%')
      modifies this
      ensures match SetPattern(old(Value()).keys, op)
              case Err(error) => r == Some(error) && Value() == old(Value())
              case Ok(k) => r == None && Value() == old(Value()).(keys := k)
    {
      hide AddPattern, HasSpaces;
      if allKeys {
        return Some(Exists);
      }
      var read, write, offset := true, true, 1;
      if op[0] == '%' {
        read, write := false, false;
        while offset < |op| && op[offset] != '~'
          invariant 1 <= offset <= |op|
          invariant Permissions(op, 1, false, false) == Permissions(op, offset, read, write)
        {
          if (op[offset] == 'R' || op[offset] == 'r') && !read {
            read := true;
          } else if (op[offset] == 'W' || op[offset] == 'w') && !write {
            write := true;
          } else {
            return Some(Invalid);
          }
          offset := offset + 1;
        }
        if !read && !write {
          return Some(Invalid);
        }
        if offset < |op| {
          offset := offset + 1;
        }
      }
      var spaces := StringHasSpaces(op[offset..]);
      if spaces {
        return Some(Invalid);
      }
      AddKeyPattern(KeyPattern(op[offset..], read, write));
      r := None;
    }

    method SetChannelPattern(op: string) returns (r: Option<Error>)
      requires op != []
      modifies this
      ensures match SetChannel(old(Value()).keys, op)
              case Err(error) => r == Some(error) && Value() == old(Value())
              case Ok(k) => r == None && Value() == old(Value()).(keys := k)
    {
      if allChannels {
        return Some(IsDir);
      }
      var spaces := StringHasSpaces(op[1..]);
      if spaces {
        return Some(Invalid);
      }
      var newpat := op[1..];
      var i := 0;
      while i < |channels| && channels[i] != newpat
        invariant i <= |channels| && forall j | 0 <= j < i :: channels[j] != newpat
      {
        i := i + 1;
      }
      if i == |channels| {
        channels := channels + [newpat];
      }
      r := None;
    }

    // The branches of ACLSetSelector for keys and channels.
    method SetPatterns(op: string) returns (r: Option<Error>)
      requires IsPatternOp(op)
      modifies this
      ensures match SetKeys(old(Value()).keys, op)
              case Err(error) => r == Some(error) && Value() == old(Value())
              case Ok(k) => r == None && Value() == old(Value()).(keys := k)
    {
      hide Lower, SetPattern, SetChannel;
      if Lower(op) == "allkeys" || op == "~*" {
        allKeys, patterns := true, [];
      } else if Lower(op) == "resetkeys" {
        allKeys, patterns := false, [];
      } else if Lower(op) == "allchannels" || op == "&*" {
        allChannels, channels := true, [];
      } else if Lower(op) == "resetchannels" {
        allChannels, channels := false, [];
      } else if op[0] == '&' {
        var done := SetChannelPattern(op);
        return done;
      } else {
        var done := SetKeyPattern(op);
        return done;
      }
      r := None;
    }

    // ACLSetSelector
    method Set(e: Env, op: string) returns (r: Option<Error>)
      modifies this
      ensures match SetSelector(e, old(Value()), op)
              case Err(error) => r == Some(error) && Value() == old(Value())
              case Ok(t) => r == None && Value() == t
    {
      hide Lower, AddRule, ChangePerm, AddArg, CategoryPerm, Lookup, FullName, ParseAllow, SetKeys;
      if IsPatternOp(op) {
        var done := SetPatterns(op);
        return done;
      }
      if Lower(op) == "allcommands" || Lower(op) == "+@all" {
        SetEveryone(true);
      } else if Lower(op) == "nocommands" || Lower(op) == "-@all" {
        SetEveryone(false);
      } else if op == [] || (op[0] != '+' && op[0] != '-') {
        return Some(Invalid);
      } else if |op| > 1 && op[1] == '@' {
        assert op[1..][1..] == op[2..];
        var done := SetCategory(e, op[1..], op[0] == '+');
        return done;
      } else if op[0] == '+' {
        var done := Allow(e, op[1..]);
        return done;
      } else {
        var cmd := Lookup(e, op[1..]);
        if cmd.None? {
          return Some(NoEntry);
        }
        ChangeSelectorPerm(cmd.value, false);
        UpdateCommandRules(FullName(cmd.value), false);
      }
      r := None;
    }

    // Setting every word of the rule text, from +@all or -@all as the reserved bit says. False is the assertion of the
    // source that no word may be refused.
    method ApplyRules(e: Env, future: bool, text: string) returns (ok: bool)
      modifies this
      ensures match SplitArgs(text)
              case None => !ok
              case Some(argv) =>
                match ApplyAll(e, Everyone(old(Value()), future), argv)
                case Err(_) => !ok
                case Ok(t) => ok && Value() == t
    {
      hide Parse, SetSelector, SplitArgs, Plain;
      ghost var start := Value();
      var argv := SplitArgs(text);
      if argv.None? {
        return false;
      }
      AllParses(e, Value(), future);
      var r := Set(e, All(future));
      assert Value() == Everyone(start, future);
      assert argv.value[..0] == [];
      for i := 0 to |argv.value|
        invariant ApplyAll(e, Everyone(start, future), argv.value[..i]) == Ok(Value())
      {
        assert argv.value[..i + 1][..i] == argv.value[..i];
        r := Set(e, argv.value[i]);
        if r.Some? {
          ErrStays(e, Everyone(start, future), argv.value, i + 1);
          return false;
        }
      }
      assert argv.value[..|argv.value|] == argv.value;
      ok := true;
    }

    // ACLRecomputeCommandBitsFromCommandRulesAllUsers, for one selector.
    method RecomputeCommandBits(e: Env) returns (ok: bool)
      modifies this
      ensures match Replay(e, old(Value()), old(Value()))
              case Err(_) => !ok
              case Ok(t) => ok && Value() == t
    {
      hide SplitArgs, ApplyAll, Everyone;
      ok := ApplyRules(e, FUTURE in allowedCommands, commandRules);
    }

    // ACLDescribeSelectorCommandRules. False is the source's panic: the rules do not give the bitmap.
    method DescribeCommandRules(e: Env, channelsOpen: bool) returns (rules: string, ok: bool)
      ensures rules == Describe(Value())
      ensures Lossless(e, Fresh(channelsOpen), Value()) ==> ok
      ensures ok ==> match Replay(e, Fresh(channelsOpen), Value())
                     case Err(_) => false
                     case Ok(t) => t.bits == allowedCommands
    {
      hide SplitArgs, ApplyAll, Everyone, SetSelector, ArgPairs;
      var future := FUTURE in allowedCommands;
      var fake := new Selector(channelsOpen);
      rules := (if future then "+@all" else "-@all") + " ";
      ok := fake.ApplyRules(e, future, commandRules);
      if |commandRules| > 0 {
        rules := rules + commandRules + " ";
      }
      DescribeTrim(All(future), commandRules);
      rules := rules[..|rules| - 1];
      if ok {
        ok := fake.allowedCommands == allowedCommands;
      }
    }
  }

  // ACLStringHasSpaces
  method StringHasSpaces(s: string) returns (b: bool)
    ensures b == HasSpaces(s)
  {
    for i := 0 to |s|
      invariant forall j | 0 <= j < i :: !IsSpace(s[j]) && s[j] != 0 as char
    {
      if IsSpace(s[i]) || s[i] == 0 as char {
        return true;
      }
    }
    b := false;
  }

  // Trimming the final blank.
  lemma DescribeTrim(all: string, rules: string)
    ensures var text := all + " " + (if rules == "" then "" else rules + " ");
            text[..|text| - 1] == all + if rules == "" then "" else " " + rules
  {
    if rules == "" {
      assert all + " " + "" == all + " ";
      assert all + "" == all;
    } else {
      var text := all + " " + (rules + " ");
      assert text == all + " " + rules + " ";
      assert all + (" " + rules) == all + " " + rules;
    }
  }

  lemma {:induction false} ErrStays(e: Env, s: State, ops: seq<string>, n: nat)
    requires n <= |ops| && ApplyAll(e, s, ops[..n]).Err?
    ensures ApplyAll(e, s, ops).Err?
    decreases |ops|
  {
    hide SetSelector;
    if n == |ops| {
      assert ops[..n] == ops;
    } else {
      var front := ops[..|ops| - 1];
      assert front[..n] == ops[..n];
      ErrStays(e, s, front, n);
    }
  }

  lemma NoSubs(s: State, allow: bool)
    ensures SetSubs(s, [], allow) == s
  {}

  lemma NoCategorySubs(s: State, c: Command, flag: bv64, allow: bool)
    ensures CategorySubs(s, c, [], flag, allow) == s
  {}

  lemma NoCategory(s: State, flag: bv64, allow: bool)
    ensures CategoryPerm(s, [], flag, allow) == s
  {}

  // The comparison of the shared prefix and of the byte behind it.
  lemma MatchIsSubsumes(rule: string, existing: string)
    ensures var n := if |existing| < |rule| then |existing| else |rule|;
            (&& existing[..n] == rule[..n]
             && (|existing| == |rule| || (|existing| > |rule| && existing[|rule|] == '|'))) <==>
            Subsumes(rule, existing)
  {
    if |existing| == |rule| {
      assert existing[..|rule|] == existing && rule[..|rule|] == rule;
    } else {
      assert rule[..|rule|] == rule;
    }
  }

  // ---------- command identifiers ----------

  // Identifiers are given out one after the other, but for the reserved one: so the first 1023 fit in the bitmap.
  function NextId(given: nat): nat { if given < FUTURE then given else given + 1 }

  // ACLGetCommandID and the tree it keeps.
  class CommandIds {
    var ids: map<string, nat>
    var next: nat

    ghost predicate Valid()
      reads this
    {
      && next == NextId(|ids|)
      && (forall n | n in ids :: ids[n] < next && ids[n] != FUTURE)
      && forall m, n | m in ids && n in ids && ids[m] == ids[n] :: m == n
    }

    constructor ()
      ensures Valid() && ids == map[]
    {
      ids, next := map[], 0;
    }

    // The same name gets the same identifier for ever, another name another one, and none gets the reserved one.
    method GetCommandID(name: string) returns (id: nat)
      requires Valid()
      modifies this
      ensures Valid() && id != FUTURE
      ensures if Lower(name) in old(ids) then ids == old(ids) && id == ids[Lower(name)]
              else ids == old(ids)[Lower(name) := id] && id == NextId(|old(ids)|) &&
                   forall n | n in old(ids) :: old(ids)[n] != id
    {
      hide Lower;
      var lowered := Lower(name);
      if lowered in ids {
        return ids[lowered];
      }
      ids := ids[lowered := next];
      id := next;
      next := next + 1;
      if next == BITS - 1 {
        next := next + 1;
      }
    }
  }

  function SubName(c: Command, sub: Subcommand): string { Lower(c.name + "|" + sub.name) }

  // Every command and subcommand carries the identifier given to its full name.
  predicate Registered(ids: map<string, nat>, t: seq<Command>)
  {
    && (forall i | 0 <= i < |t| :: Lower(t[i].name) in ids && ids[Lower(t[i].name)] == t[i].id)
    && forall i, k | 0 <= i < |t| && 0 <= k < |t[i].subs| ::
         SubName(t[i], t[i].subs[k]) in ids && ids[SubName(t[i], t[i].subs[k])] == t[i].subs[k].id
  }

  // So a table of differently named commands has identifiers that are apart.
  lemma RegisteredApart(registry: CommandIds, t: seq<Command>)
    requires registry.Valid() && Registered(registry.ids, t)
    requires forall i | 0 <= i < |t| :: NameOk(t[i].name)
    requires forall i, j | 0 <= i < j < |t| :: Lower(t[i].name) != Lower(t[j].name)
    ensures IdsApart(t)
  {
    hide Lower;
    forall i, j, k | 0 <= i < |t| && 0 <= j < |t| && 0 <= k < |t[i].subs|
      ensures t[i].subs[k].id != t[j].id && t[i].subs[k].id != FUTURE
    {
      BarInSub(t[i], t[i].subs[k]);
      LowerFacts(t[j].name);
      assert NameOk(t[j].name);
    }
  }

  lemma BarInSub(c: Command, sub: Subcommand)
    ensures '|' in SubName(c, sub)
  {
    var name := c.name + "|" + sub.name;
    assert name[|c.name|] == '|';
    LowerFacts(name);
  }
}
