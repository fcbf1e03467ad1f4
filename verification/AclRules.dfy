// The command rules of acl.c as values: the command table, the operations as text, what each of them grants, and the
// rule list that is pruned as it grows.
module AclRules {
  import opened Options
  import opened Sds

  datatype Error = NoEntry | Child | Invalid | Exists | IsDir
  datatype Result<T> = Ok(value: T) | Err(error: Error)

  // USER_COMMAND_BITS_COUNT, and the bit that stands for commands to come.
  const BITS: nat := 1024
  const FUTURE: nat := 1023

  // ---------- text ----------

  function LowerChar(c: char): char { if 'A' <= c <= 'Z' then (c as int + 32) as char else c }

  // sdstolower; strcasecmp compares lowered strings.
  function Lower(s: string): (r: string)
    ensures |r| == |s| && forall i | 0 <= i < |s| :: r[i] == LowerChar(s[i])
  {
    seq(|s|, i requires 0 <= i < |s| => LowerChar(s[i]))
  }

  // The letters from A to Z become those from a to z, and nothing else changes.
  lemma LowerIs(c: char)
    ensures 'A' <= c <= 'Z' ==> 'a' <= LowerChar(c) <= 'z' && LowerChar(c) as int - 'a' as int == c as int - 'A' as int
    ensures !('A' <= c <= 'Z') ==> LowerChar(c) == c
    ensures LowerChar('A') == 'a' && LowerChar('Z') == 'z'
  {}

  lemma LowerFacts(s: string)
    ensures Lower(Lower(s)) == Lower(s)
    ensures PlainText(Lower(s)) <==> PlainText(s)
    ensures '|' in Lower(s) <==> '|' in s
    ensures s != [] ==> (Lower(s)[0] == '@' <==> s[0] == '@')
  {
    var t := Lower(s);
    assert forall i | 0 <= i < |s| :: PlainChar(t[i]) <==> PlainChar(s[i]);
    assert forall i | 0 <= i < |s| :: t[i] == '|' <==> s[i] == '|';
  }

  lemma LowerConcat(a: string, b: string)
    ensures Lower(a + b) == Lower(a) + Lower(b)
  {}

  lemma LowerSlice(s: string, i: nat, j: nat)
    requires i <= j <= |s|
    ensures Lower(s[i..j]) == Lower(s)[i..j]
  {}

  // strchr: where `c` first occurs at or after `from`; the length if it does not.
  function Find(s: string, c: char, from: nat): (i: nat)
    requires from <= |s|
    ensures from <= i <= |s| && (i < |s| ==> s[i] == c) && forall j | from <= j < i :: s[j] != c
    decreases |s| - from
  {
    if from == |s| || s[from] == c then from else Find(s, c, from + 1)
  }

  // strrchr
  function FindLast(s: string, c: char): (i: nat)
    requires c in s
    ensures i < |s| && s[i] == c && forall j | i < j < |s| :: s[j] != c
  {
    if s[|s| - 1] == c then |s| - 1
    else
      assert c in s[..|s| - 1];
      FindLast(s[..|s| - 1], c)
  }

  // ---------- the command table ----------

  datatype Subcommand = Subcommand(name: string, id: nat, categories: bv64)

  datatype Command = Command(name: string, id: nat, categories: bv64, subs: seq<Subcommand>)

  datatype Category = Category(name: string, flag: bv64)

  datatype Env = Env(table: seq<Command>, categories: seq<Category>)

  predicate InCategory(categories: bv64, flag: bv64) { categories & flag != 0 }

  // A category is a bit, and belongs to the categories that have it set.
  lemma InCategoryIs(categories: bv64, flag: bv64, k: bv64)
    requires k < 64 && flag == 1 << k
    ensures InCategory(categories, flag) <==> (categories >> k) & 1 == 1
  {}

  function FindCommand(t: seq<Command>, name: string): (r: Option<Command>)
    ensures r.Some? ==> r.value in t && Lower(r.value.name) == Lower(name)
  {
    if t == [] then None else if Lower(t[0].name) == Lower(name) then Some(t[0]) else FindCommand(t[1..], name)
  }

  function FindSub(subs: seq<Subcommand>, name: string): (r: Option<Subcommand>)
    ensures r.Some? ==> r.value in subs && Lower(r.value.name) == Lower(name)
  {
    if subs == [] then None else if Lower(subs[0].name) == Lower(name) then Some(subs[0]) else FindSub(subs[1..], name)
  }

  // ACLGetCommandCategoryFlagByName; 0 is no match.
  function FindCategory(cats: seq<Category>, name: string): (flag: bv64)
    ensures flag != 0 ==> exists i | 0 <= i < |cats| :: Lower(cats[i].name) == Lower(name)
  {
    if cats == [] then 0
    else if Lower(cats[0].name) == Lower(name) then cats[0].flag
    else FindCategory(cats[1..], name)
  }

  datatype Found = Top(c: Command) | Sub(c: Command, sub: Subcommand)

  function FullName(f: Found): string { if f.Top? then f.c.name else f.c.name + "|" + f.sub.name }

  // lookupCommandBySdsLogic: a name, or a container and a subcommand with one bar between them.
  function Lookup(e: Env, name: string): Option<Found>
  {
    var k := Find(name, '|', 0);
    if k == |name| then
      var c := FindCommand(e.table, name);
      if c.None? then None else Some(Top(c.value))
    else if '|' in name[k + 1..] then None
    else
      var c := FindCommand(e.table, name[..k]);
      if c.None? || c.value.subs == [] then None
      else
        var sub := FindSub(c.value.subs, name[k + 1..]);
        if sub.None? then None else Some(Sub(c.value, sub.value))
  }

  predicate NameOk(name: string) { name != [] && '|' !in name && PlainText(name) }

  // Identifiers are never shared, and the reserved one is never given out.
  predicate IdsApart(t: seq<Command>)
  {
    && (forall i | 0 <= i < |t| :: t[i].id != FUTURE)
    && (forall i, j | 0 <= i < j < |t| :: t[i].id != t[j].id)
    && forall i, j, k | 0 <= i < |t| && 0 <= j < |t| && 0 <= k < |t[i].subs| ::
         t[i].subs[k].id != t[j].id && t[i].subs[k].id != FUTURE
  }

  predicate Valid(e: Env)
  {
    && IdsApart(e.table)
    && (forall i | 0 <= i < |e.table| :: NameOk(e.table[i].name))
    && (forall i, k | 0 <= i < |e.table| && 0 <= k < |e.table[i].subs| :: NameOk(e.table[i].subs[k].name))
    && forall i | 0 <= i < |e.categories| :: NameOk(e.categories[i].name)
  }

  // ---------- operations ----------

  // What an operation asks for. `rule` is the text kept for it, without its sign.
  datatype Request =
    | Everything(allow: bool)
    | Patterns
    | Perm(f: Found, allow: bool, rule: string)
    | FirstArg(c: Command, arg: string, rule: string)
    | ByCategory(flag: bv64, allow: bool, rule: string)

  // The operations about keys and channels, which never change command permissions.
  predicate IsPatternOp(op: string)
  {
    || Lower(op) == "allkeys" || Lower(op) == "resetkeys" || Lower(op) == "allchannels" || Lower(op) == "resetchannels"
    || (op != [] && (op[0] == '~' || op[0] == '%' || op[0] == '&'))
  }

  function ParseAllow(e: Env, name: string): Result<Request>
  {
    if '|' !in name then
      var f := Lookup(e, name);
      if f.None? then Err(NoEntry) else Ok(Perm(f.value, true, Lower(FullName(f.value))))
    else
      var k := FindLast(name, '|');
      var (copy, sub) := (name[..k], name[k + 1..]);
      var base := Lookup(e, copy);
      if base.None? then Err(NoEntry)
      else if base.value.Sub? then Err(Child)
      else if sub == [] then Err(Invalid)
      else if base.value.c.subs != [] then
        var f := Lookup(e, name);
        if f.None? then Err(NoEntry) else Ok(Perm(f.value, true, Lower(name)))
      else Ok(FirstArg(base.value.c, sub, Lower(name)))
  }

  function ParseDeny(e: Env, name: string): Result<Request>
  {
    var f := Lookup(e, name);
    if f.None? then Err(NoEntry) else Ok(Perm(f.value, false, Lower(FullName(f.value))))
  }

  function ParseCategory(e: Env, name: string, allow: bool): Result<Request>
  {
    var flag := FindCategory(e.categories, name);
    if flag == 0 then Err(NoEntry) else Ok(ByCategory(flag, allow, Lower("@" + name)))
  }

  // The decisions of ACLSetSelector.
  function Parse(e: Env, op: string): Result<Request>
  {
    if IsPatternOp(op) then Ok(Patterns)
    else if Lower(op) == "allcommands" || Lower(op) == "+@all" then Ok(Everything(true))
    else if Lower(op) == "nocommands" || Lower(op) == "-@all" then Ok(Everything(false))
    else if op == [] || (op[0] != '+' && op[0] != '-') then Err(Invalid)
    else if |op| > 1 && op[1] == '@' then ParseCategory(e, op[2..], op[0] == '+')
    else if op[0] == '+' then ParseAllow(e, op[1..])
    else ParseDeny(e, op[1..])
  }

  predicate IsRule(q: Request) { q.Perm? || q.FirstArg? || q.ByCategory? }

  function Sign(allow: bool): string { if allow then "+" else "-" }

  // The rule kept for a request, as it is written in the list.
  function Kept(q: Request): string
    requires IsRule(q)
  {
    Sign(q.FirstArg? || q.allow) + q.rule
  }

  // ---------- what a request grants ----------

  // The commands allowed, and the first arguments allowed (lowered, since they are compared without case).
  datatype Grant = Grant(bits: set<nat>, args: set<(nat, string)>)

  // Every request sets or clears fixed places and leaves the others alone.
  datatype Action = Bits(ids: set<nat>, resets: set<nat>, allow: bool) | Arg(id: nat, arg: string)

  function Outside(args: set<(nat, string)>, ids: set<nat>): set<(nat, string)> { set p | p in args && p.0 !in ids }

  function Act(a: Action, g: Grant): Grant
  {
    match a
    case Bits(ids, resets, allow) =>
      Grant(if allow then g.bits + ids else g.bits - ids, Outside(g.args, resets))
    case Arg(id, arg) => Grant(g.bits, g.args + {(id, arg)})
  }

  function Clip(ids: set<nat>): set<nat> { set x | x in ids && x < BITS }

  function SubIds(subs: seq<Subcommand>): set<nat> { set k | 0 <= k < |subs| :: subs[k].id }

  function SubIdsIn(subs: seq<Subcommand>, flag: bv64): set<nat>
  {
    set k | 0 <= k < |subs| && InCategory(subs[k].categories, flag) :: subs[k].id
  }

  // The commands of a category: their own bits, those of all their subcommands, and those of subcommands in it.
  function CategoryIds(t: seq<Command>, flag: bv64): set<nat>
  {
    if t == [] then {}
    else
      var c := t[|t| - 1];
      CategoryIds(t[..|t| - 1], flag)
      + (if InCategory(c.categories, flag) then {c.id} + SubIds(c.subs) else {}) + SubIdsIn(c.subs, flag)
  }

  function CategoryTops(t: seq<Command>, flag: bv64): set<nat>
  {
    set i | 0 <= i < |t| && InCategory(t[i].categories, flag) :: t[i].id
  }

  function ActionOf(e: Env, q: Request): Action
    requires IsRule(q)
  {
    match q
    case Perm(Top(c), allow, _) => Bits(Clip({c.id} + SubIds(c.subs)), {c.id}, allow)
    case Perm(Sub(_, sub), allow, _) => Bits(Clip({sub.id}), {}, allow)
    case FirstArg(c, arg, _) => Arg(c.id, Lower(arg))
    case ByCategory(flag, allow, _) => Bits(Clip(CategoryIds(e.table, flag)), CategoryTops(e.table, flag), allow)
  }

  // Everything `old` writes, `new` writes too.
  predicate Covers(new': Action, old': Action)
  {
    match old'
    case Bits(ids, resets, _) => new'.Bits? && ids <= new'.ids && resets <= new'.resets
    case Arg(id, arg) => if new'.Bits? then id in new'.resets else new' == old'
  }

  // Equal but for the places `a` writes.
  predicate AgreeBut(a: Action, g: Grant, h: Grant)
  {
    match a
    case Bits(ids, resets, _) =>
      g.bits - ids == h.bits - ids && Outside(g.args, resets) == Outside(h.args, resets)
    case Arg(id, arg) => g.bits == h.bits && g.args - {(id, arg)} == h.args - {(id, arg)}
  }

  lemma ActAgain(a: Action, g: Grant, h: Grant)
    requires AgreeBut(a, g, h)
    ensures Act(a, g) == Act(a, h)
  {
    if a.Arg? {
      assert g.args + {(a.id, a.arg)} == (g.args - {(a.id, a.arg)}) + {(a.id, a.arg)};
      assert h.args + {(a.id, a.arg)} == (h.args - {(a.id, a.arg)}) + {(a.id, a.arg)};
    } else {
      assert g.bits + a.ids == (g.bits - a.ids) + a.ids && h.bits + a.ids == (h.bits - a.ids) + a.ids;
    }
  }

  lemma KeepsAgreeing(a: Action, b: Action, g: Grant, h: Grant)
    requires AgreeBut(a, g, h)
    ensures AgreeBut(a, Act(b, g), Act(b, h))
  {
    if a.Bits? {
      BitsKeepAgreeing(a, b, g, h);
    } else {
      ArgKeepsAgreeing(a, b, g, h);
    }
  }

  lemma BitsKeepAgreeing(a: Action, b: Action, g: Grant, h: Grant)
    requires a.Bits? && AgreeBut(a, g, h)
    ensures AgreeBut(a, Act(b, g), Act(b, h))
  {
    var (g1, h1) := (Act(b, g), Act(b, h));
    forall x
      ensures x in g1.bits - a.ids <==> x in h1.bits - a.ids
    {
      assert x in g.bits - a.ids <==> x in h.bits - a.ids;
    }
    var gr := Outside(g.args, a.resets);
    var hr := Outside(h.args, a.resets);
    forall p: (nat, string)
      ensures p in g1.args && p.0 !in a.resets <==> p in h1.args && p.0 !in a.resets
    {
      assert p in gr <==> p in hr;
    }
  }

  lemma ArgKeepsAgreeing(a: Action, b: Action, g: Grant, h: Grant)
    requires a.Arg? && AgreeBut(a, g, h)
    ensures AgreeBut(a, Act(b, g), Act(b, h))
  {
    var (g1, h1) := (Act(b, g), Act(b, h));
    forall p: (nat, string)
      ensures p in g1.args - {(a.id, a.arg)} <==> p in h1.args - {(a.id, a.arg)}
    {
      assert p in g.args - {(a.id, a.arg)} <==> p in h.args - {(a.id, a.arg)};
    }
  }

  lemma CoveredAgrees(new': Action, old': Action, g: Grant)
    requires Covers(new', old')
    ensures AgreeBut(new', Act(old', g), g)
  {
    var g1 := Act(old', g);
    if new'.Bits? {
      forall x
        ensures x in g1.bits - new'.ids <==> x in g.bits - new'.ids
      {}
      forall p: (nat, string)
        ensures p in g1.args && p.0 !in new'.resets <==> p in g.args && p.0 !in new'.resets
      {}
    } else {
      assert g1.args - {(new'.id, new'.arg)} == g.args - {(new'.id, new'.arg)};
    }
  }

  // ---------- the rule list ----------

  // The list as parsed requests, oldest first, applied to a starting point.
  function RunActions(actions: seq<Action>, g: Grant): Grant
  {
    if actions == [] then g else Act(actions[|actions| - 1], RunActions(actions[..|actions| - 1], g))
  }

  // An existing rule goes away when a new one is the same text or is its container or command.
  predicate Subsumes(rule: string, existing: string)
  {
    existing == rule || (|existing| > |rule| && existing[..|rule|] == rule && existing[|rule|] == '|')
  }

  // Rules are kept with their sign.
  function Pruned(words: seq<string>, rule: string): seq<string>
  {
    if words == [] then []
    else
      var last := words[|words| - 1];
      Pruned(words[..|words| - 1], rule) + if last != [] && Subsumes(rule, last[1..]) then [] else [last]
  }

  // The loop of ACLSelectorRemoveCommandRule from position `i` of the text.
  function PruneText(text: string, i: nat, rule: string): string
    decreases |text| - i
  {
    if i >= |text| then text
    else
      var end := Find(text, ' ', i + 1);
      var copy := if end == |text| && i != 0 then i - 1 else i;
      var copyEnd := if end == |text| then end else end + 1;
      if Subsumes(rule, text[i + 1..end]) then PruneText(text[..copy] + text[copyEnd..], copy, rule)
      else PruneText(text, copyEnd, rule)
  }

  predicate PlainWords(words: seq<string>) { forall i | 0 <= i < |words| :: Plain(words[i]) }

  function Before(done: seq<string>): string { if done == [] then [] else Join(done) + " " }

  function After(rest: seq<string>): string { if rest == [] then [] else " " + Join(rest) }

  lemma Layout(done: seq<string>, w: string, rest: seq<string>)
    ensures Join(done + [w] + rest) == Before(done) + w + After(rest)
  {
    assert Join([w]) == w;
    if done != [] {
      JoinConcat(done, [w]);
    } else {
      assert done + [w] == [w];
    }
    if rest != [] {
      JoinConcat(done + [w], rest);
    } else {
      assert done + [w] + rest == done + [w];
    }
  }

  lemma {:induction false} PrunedConcat(a: seq<string>, b: seq<string>, rule: string)
    ensures Pruned(a + b, rule) == Pruned(a, rule) + Pruned(b, rule)
    decreases |b|
  {
    hide Subsumes;
    if b == [] {
      assert a + b == a;
    } else {
      var n := |b| - 1;
      assert (a + b)[..|a + b| - 1] == a + b[..n];
      PrunedConcat(a, b[..n], rule);
    }
  }

  lemma FindBlank(w: string, text: string, i: nat)
    requires Plain(w) && i + |w| <= |text| && text[i..i + |w|] == w
    requires i + |w| < |text| ==> text[i + |w|] == ' '
    ensures Find(text, ' ', i + 1) == i + |w|
  {
    forall j | i <= j < i + |w|
      ensures text[j] != ' '
    {
      assert text[j] == w[j - i];
    }
  }

  lemma PlainLength(w: string)
    requires Plain(w)
    ensures |w| > 0
  {}

  lemma PruneStops(text: string, i: nat, rule: string)
    requires i >= |text|
    ensures PruneText(text, i, rule) == text
  {}

  lemma PruneUnfold(text: string, i: nat, rule: string)
    requires i < |text|
    ensures var end := Find(text, ' ', i + 1);
            var copy := if end == |text| && i != 0 then i - 1 else i;
            var copyEnd := if end == |text| then end else end + 1;
            PruneText(text, i, rule) ==
            if Subsumes(rule, text[i + 1..end]) then PruneText(text[..copy] + text[copyEnd..], copy, rule)
            else PruneText(text, copyEnd, rule)
  {
    hide Subsumes, Find;
  }

  // One turn of the pruning loop, at the word `w`.
  lemma PruneTurn(text: string, i: nat, w: string, rule: string)
    requires Plain(w) && i + |w| <= |text| && text[i..i + |w|] == w
    requires i + |w| < |text| ==> text[i + |w|] == ' '
    ensures var end := i + |w|;
            PruneText(text, i, rule) ==
            if end == |text| then if Subsumes(rule, w[1..]) then text[..if i == 0 then 0 else i - 1] else text
            else if Subsumes(rule, w[1..]) then PruneText(text[..i] + text[end + 1..], i, rule)
            else PruneText(text, end + 1, rule)
  {
    hide Subsumes, Plain, Find, PruneText;
    FindBlank(w, text, i);
    var end := i + |w|;
    assert text[i + 1..end] == w[1..];
    PlainLength(w);
    PruneUnfold(text, i, rule);
    if end == |text| {
      var copy := if i == 0 then 0 else i - 1;
      assert text[..copy] + text[end..] == text[..copy];
      PruneStops(text[..copy], copy, rule);
      PruneStops(text, end, rule);
    }
  }

  lemma Cut(a: string, w: string, b: string)
    ensures var t := a + w + " " + b;
            t[..|a|] == a && t[|a|..|a| + |w|] == w && t[|a| + |w|] == ' ' && t[|a| + |w| + 1..] == b
  {}

  lemma CutEnd(a: string, w: string)
    ensures (a + w)[|a|..|a| + |w|] == w && (a + w)[..|a|] == a
  {}

  lemma LayoutMiddle(done: seq<string>, w: string, rest: seq<string>)
    requires rest != []
    ensures Join(done + [w] + rest) == Before(done) + w + " " + Join(rest)
    ensures Join(done + rest) == Before(done) + Join(rest)
    ensures |Before(done + [w])| == |Before(done)| + |w| + 1
  {
    Layout(done, w, rest);
    LayoutEnd(done, w);
    hide Join;
    assert Before(done) + w + (" " + Join(rest)) == Before(done) + w + " " + Join(rest);
    if done != [] {
      JoinConcat(done, rest);
    } else {
      assert done + rest == rest;
    }
  }

  lemma LayoutEnd(done: seq<string>, w: string)
    ensures Join(done + [w]) == Before(done) + w
    ensures done != [] ==> |Before(done)| == |Join(done)| + 1 && Before(done)[..|Join(done)|] == Join(done)
    ensures Join([]) == []
  {
    Layout(done, w, []);
    assert done + [w] + [] == done + [w];
  }

  // What the turn leaves, in terms of words: at the last word ...
  lemma PruneLast(done: seq<string>, w: string, rule: string)
    requires Plain(w)
    ensures PruneText(Join(done + [w]), |Before(done)|, rule) ==
            if Subsumes(rule, w[1..]) then Join(done) else Join(done + [w])
  {
    hide Subsumes, Plain, PruneText, Join;
    LayoutEnd(done, w);
    var (a, text) := (Before(done), Join(done + [w]));
    CutEnd(a, w);
    PruneTurn(text, |a|, w, rule);
    if done != [] {
      assert text[..|a| - 1] == a[..|a| - 1];
    } else {
      assert text[..0] == [];
    }
  }

  // ... and before that.
  lemma PruneMiddle(done: seq<string>, w: string, rest: seq<string>, rule: string)
    requires Plain(w) && rest != []
    ensures PruneText(Join(done + [w] + rest), |Before(done)|, rule) ==
            if Subsumes(rule, w[1..]) then PruneText(Join(done + rest), |Before(done)|, rule)
            else PruneText(Join(done + [w] + rest), |Before(done + [w])|, rule)
  {
    hide *;
    LayoutMiddle(done, w, rest);
    Cut(Before(done), w, Join(rest));
    PruneTurn(Join(done + [w] + rest), |Before(done)|, w, rule);
  }

  lemma {:induction false} PruneWordsFrom(done: seq<string>, rest: seq<string>, rule: string)
    requires PlainWords(rest) && rest != []
    ensures PruneText(Join(done + rest), |Before(done)|, rule) == Join(done + Pruned(rest, rule))
    decreases |rest|
  {
    hide Subsumes, PruneText, Join, Plain, Pruned, Before;
    var (w, tail) := (rest[0], rest[1..]);
    assert rest == [w] + tail && done + rest == done + [w] + tail;
    PrunedConcat([w], tail, rule);
    PrunedOne(w, rule);
    if tail == [] {
      PruneLast(done, w, rule);
      assert done + rest == done + [w];
      assert Pruned(rest, rule) == Pruned([w], rule) by { assert rest == [w]; }
      assert done + [] == done;
    } else {
      PruneMiddle(done, w, tail, rule);
      if Subsumes(rule, w[1..]) {
        PruneWordsFrom(done, tail, rule);
        assert Pruned(rest, rule) == Pruned(tail, rule);
      } else {
        PruneWordsFrom(done + [w], tail, rule);
        assert done + [w] + Pruned(tail, rule) == done + Pruned(rest, rule);
      }
    }
  }

  // With its sign left out, a rule goes if it is the new one or begins with the new one and a bar.
  lemma PrunedWord(w: string, rule: string)
    requires w != []
    ensures Pruned([w], rule) == if w[1..] == rule || rule + "|" <= w[1..] then [] else [w]
  {
    assert [w][..0] == [];
    var rest := w[1..];
    assert rule + "|" <= rest <==> |rest| > |rule| && rest[..|rule|] == rule && rest[|rule|] == '|' by {
      if |rest| > |rule| {
        assert rest[..|rule| + 1] == rest[..|rule|] + [rest[|rule|]];
      }
    }
  }

  lemma PrunedOne(w: string, rule: string)
    requires Plain(w)
    ensures w != [] && Pruned([w], rule) == if Subsumes(rule, w[1..]) then [] else [w]
    ensures Pruned([], rule) == []
  {
    assert [w][..0] == [];
    hide Subsumes;
  }

  // On a list of plain rules, the loop over the text drops exactly the subsumed rules and leaves a clean list.
  lemma PruneWords(words: seq<string>, rule: string)
    requires PlainWords(words)
    ensures PruneText(Join(words), 0, rule) == Join(Pruned(words, rule))
  {
    if words != [] {
      PruneWordsFrom([], words, rule);
      assert [] + words == words && [] + Pruned(words, rule) == Pruned(words, rule);
    }
  }

  lemma {:induction false} PrunedIn(words: seq<string>, rule: string, i: nat)
    requires i < |Pruned(words, rule)|
    ensures Pruned(words, rule)[i] in words
    ensures Pruned(words, rule)[i] != [] ==> !Subsumes(rule, Pruned(words, rule)[i][1..])
    decreases |words|
  {
    hide Subsumes;
    var n := |words| - 1;
    if i < |Pruned(words[..n], rule)| {
      PrunedIn(words[..n], rule, i);
    }
  }

  // ---------- parsing does not depend on case ----------

  lemma {:induction false} FindCommandLower(t: seq<Command>, a: string, b: string)
    requires Lower(a) == Lower(b)
    ensures FindCommand(t, a) == FindCommand(t, b)
  {
    if t != [] {
      FindCommandLower(t[1..], a, b);
    }
  }

  lemma {:induction false} FindSubLower(subs: seq<Subcommand>, a: string, b: string)
    requires Lower(a) == Lower(b)
    ensures FindSub(subs, a) == FindSub(subs, b)
  {
    if subs != [] {
      FindSubLower(subs[1..], a, b);
    }
  }

  lemma {:induction false} FindCategoryLower(cats: seq<Category>, a: string, b: string)
    requires Lower(a) == Lower(b)
    ensures FindCategory(cats, a) == FindCategory(cats, b)
  {
    if cats != [] {
      FindCategoryLower(cats[1..], a, b);
    }
  }

  lemma FindLower(s: string, from: nat)
    requires from <= |s|
    ensures Find(Lower(s), '|', from) == Find(s, '|', from)
  {
    var t := Lower(s);
    var (i, j) := (Find(s, '|', from), Find(t, '|', from));
    assert i < |s| ==> t[i] == '|';
    assert j < |s| ==> s[j] == '|';
  }

  lemma FindLastLower(s: string)
    requires '|' in s
    ensures '|' in Lower(s) && FindLast(Lower(s), '|') == FindLast(s, '|')
  {
    LowerFacts(s);
    var (i, j) := (FindLast(s, '|'), FindLast(Lower(s), '|'));
    assert Lower(s)[i] == '|' && s[j] == '|';
  }

  lemma LookupLower(e: Env, name: string)
    ensures Lookup(e, Lower(name)) == Lookup(e, name)
  {
    FindLower(name, 0);
    var k := Find(name, '|', 0);
    LowerFacts(name);
    if k == |name| {
      FindCommandLower(e.table, name, Lower(name));
    } else {
      var (a, b) := (name[..k], name[k + 1..]);
      LowerSlice(name, 0, k);
      LowerSlice(name, k + 1, |name|);
      assert Lower(name)[..k] == Lower(a) && Lower(name)[k + 1..] == Lower(b);
      LowerFacts(a);
      LowerFacts(b);
      FindCommandLower(e.table, a, Lower(a));
      var c := FindCommand(e.table, a);
      if c.Some? {
        FindSubLower(c.value.subs, b, Lower(b));
      }
    }
  }

  // What was looked up is what was named.
  lemma LookupName(e: Env, name: string)
    requires Lookup(e, name).Some?
    ensures Lower(FullName(Lookup(e, name).value)) == Lower(name)
  {
    var k := Find(name, '|', 0);
    if k < |name| {
      assert name == name[..k] + "|" + name[k + 1..];
      var f := Lookup(e, name).value;
      LowerConcat(f.c.name + "|", f.sub.name);
      LowerConcat(f.c.name, "|");
      LowerConcat(name[..k] + "|", name[k + 1..]);
      LowerConcat(name[..k], "|");
    }
  }

  lemma AllowKept(e: Env, name: string)
    requires ParseAllow(e, name).Ok?
    ensures var q := ParseAllow(e, name).value; IsRule(q) && !q.ByCategory? && Kept(q) == "+" + Lower(name)
  {
    if Lookup(e, name).Some? {
      LookupName(e, name);
    }
    hide Lookup, Lower, FindLast;
  }

  lemma DenyKept(e: Env, name: string)
    requires ParseDeny(e, name).Ok?
    ensures var q := ParseDeny(e, name).value; IsRule(q) && Kept(q) == "-" + Lower(name)
  {
    LookupName(e, name);
    hide Lookup, Lower;
  }

  lemma SignIsLower(plus: bool)
    ensures Lower(Sign(plus)) == Sign(plus) == [if plus then '+' else '-']
  {}

  // The text kept for an accepted operation is the operation itself, in lower case.
  lemma KeptIsOp(e: Env, op: string)
    requires Parse(e, op).Ok? && IsRule(Parse(e, op).value)
    ensures Kept(Parse(e, op).value) == Lower(op)
  {
    hide *;
    ParseForms(e, op);
    var (first, rest) := (op[..1], op[1..]);
    assert op == first + rest && first == [op[0]];
    LowerConcat(first, rest);
    SignIsLower(op[0] == '+');
    if |op| > 1 && op[1] == '@' {
      assert rest == "@" + op[2..];
      CategoryKept(e, op[2..], op[0] == '+');
    } else if op[0] == '+' {
      AllowKept(e, rest);
    } else {
      DenyKept(e, rest);
    }
  }

  lemma CategoryKept(e: Env, name: string, allow: bool)
    requires ParseCategory(e, name, allow).Ok?
    ensures var q := ParseCategory(e, name, allow).value; IsRule(q) && Kept(q) == Sign(allow) + Lower("@" + name)
  {
    hide Lower;
  }

  // The three forms of operation that leave a rule.
  lemma ParseForms(e: Env, op: string)
    requires Parse(e, op).Ok? && IsRule(Parse(e, op).value)
    ensures op != [] && (op[0] == '+' || op[0] == '-')
    ensures Parse(e, op) ==
            if |op| > 1 && op[1] == '@' then ParseCategory(e, op[2..], op[0] == '+')
            else if op[0] == '+' then ParseAllow(e, op[1..])
            else ParseDeny(e, op[1..])
  {
    hide ParseAllow, ParseDeny, ParseCategory, Lower;
  }

  // Two requests that differ at most in the case of a first argument.
  predicate SameRequest(e: Env, q: Request, r: Request)
  {
    if IsRule(q) then IsRule(r) && r.rule == q.rule && ActionOf(e, r) == ActionOf(e, q) && Kept(r) == Kept(q)
    else r == q
  }

  predicate SameResult(e: Env, a: Result<Request>, b: Result<Request>)
  {
    if a.Err? then b == a else b.Ok? && SameRequest(e, a.value, b.value)
  }

  lemma AllowLower(e: Env, name: string)
    ensures SameResult(e, ParseAllow(e, name), ParseAllow(e, Lower(name)))
  {
    LowerFacts(name);
    LookupLower(e, name);
    hide Lookup, FindLast, Find, Lower, ActionOf;
    if '|' in name {
      AllowPairLower(e, name);
    }
  }

  lemma AllowPairLower(e: Env, name: string)
    requires '|' in name
    ensures SameResult(e, ParseAllow(e, name), ParseAllow(e, Lower(name)))
  {
    hide Lookup, FindLast, Find, Lower, ActionOf, SameRequest;
    LowerFacts(name);
    if ParseAllow(e, name).Ok? {
      SameSelf(e, ParseAllow(e, name).value);
    }
    FindLastLower(name);
    var k := FindLast(name, '|');
    var (l, copy, sub) := (Lower(name), name[..k], name[k + 1..]);
    assert l[..k] == Lower(copy) && l[k + 1..] == Lower(sub) by {
      LowerSlice(name, 0, k);
      LowerSlice(name, k + 1, |name|);
    }
    LookupLower(e, copy);
    LookupLower(e, name);
    LowerFacts(sub);
    if Lookup(e, copy).Some? {
      SameFirstArg(e, Lookup(e, copy).value.c, sub, Lower(name));
    }
  }

  lemma SameSelf(e: Env, q: Request)
    ensures SameRequest(e, q, q)
  {
    hide ActionOf;
  }

  lemma SameFirstArg(e: Env, c: Command, arg: string, rule: string)
    ensures SameRequest(e, FirstArg(c, arg, rule), FirstArg(c, Lower(arg), rule))
  {
    LowerFacts(arg);
  }

  lemma DenyLower(e: Env, name: string)
    ensures ParseDeny(e, Lower(name)) == ParseDeny(e, name)
  {
    LookupLower(e, name);
    hide Lookup;
  }

  lemma CategoryLower(e: Env, name: string, allow: bool)
    ensures ParseCategory(e, Lower(name), allow) == ParseCategory(e, name, allow)
  {
    LowerFacts(name);
    FindCategoryLower(e.categories, name, Lower(name));
    LowerConcat("@", name);
    LowerConcat("@", Lower(name));
    hide FindCategory;
  }

  lemma LowerHead(op: string)
    requires op != []
    ensures Lower(op)[1..] == Lower(op[1..])
    ensures |op| > 1 ==> Lower(op)[2..] == Lower(op[2..]) && (Lower(op)[1] == '@' <==> op[1] == '@')
    ensures var (x, y) := (Lower(op)[0], op[0]);
            (x == '+' <==> y == '+') && (x == '-' <==> y == '-') && (x == '~' <==> y == '~') &&
            (x == '%' <==> y == '%') && (x == '&' <==> y == '&')
  {}

  lemma PatternLower(op: string)
    ensures IsPatternOp(Lower(op)) <==> IsPatternOp(op)
  {
    LowerFacts(op);
    if op != [] {
      LowerHead(op);
    }
    hide Lower;
  }

  lemma ParseLower(e: Env, op: string)
    ensures SameResult(e, Parse(e, op), Parse(e, Lower(op)))
  {
    hide ParseDeny, ParseAllow, ParseCategory, ActionOf, Lower, Kept, IsPatternOp;
    LowerFacts(op);
    PatternLower(op);
    if op != [] {
      LowerHead(op);
      DenyLower(e, op[1..]);
      AllowLower(e, op[1..]);
      if |op| > 1 {
        CategoryLower(e, op[2..], op[0] == '+');
      }
    }
  }

  // ---------- rules as they stand in the list ----------

  predicate Canonical(e: Env, w: string) { Lower(w) == w && Parse(e, w).Ok? && IsRule(Parse(e, w).value) }

  function WordAction(e: Env, w: string): Action
    requires Canonical(e, w)
  {
    ActionOf(e, Parse(e, w).value)
  }

  // Accepting an operation keeps a canonical word, which asks for the same as the operation did.
  lemma KeptCanonical(e: Env, op: string)
    requires Parse(e, op).Ok? && IsRule(Parse(e, op).value)
    ensures var w := Kept(Parse(e, op).value);
            Canonical(e, w) && WordAction(e, w) == ActionOf(e, Parse(e, op).value) && Kept(Parse(e, w).value) == w
  {
    KeptIsOp(e, op);
    ParseLower(e, op);
    LowerFacts(op);
    hide Parse, Lower, ActionOf;
  }

  // The shape of a rule about one command: its name, or its name and one more word behind a bar.
  predicate CommandRule(e: Env, name: string, q: Request)
  {
    var k := Find(name, '|', 0);
    if k == |name| then q.Perm? && q.f.Top? && FindCommand(e.table, name) == Some(q.f.c)
    else
      && '|' !in name[k + 1..]
      && match q
         case Perm(Sub(c, sub), _, _) =>
           FindCommand(e.table, name[..k]) == Some(c) && FindSub(c.subs, name[k + 1..]) == Some(sub) && c.subs != []
         case FirstArg(c, arg, _) => FindCommand(e.table, name[..k]) == Some(c) && arg == name[k + 1..] && c.subs == []
         case _ => false
  }

  lemma LookupShape(e: Env, name: string, allow: bool, rule: string)
    requires Lookup(e, name).Some?
    ensures CommandRule(e, name, Perm(Lookup(e, name).value, allow, rule))
  {}

  lemma AllowShape(e: Env, name: string)
    requires ParseAllow(e, name).Ok?
    ensures CommandRule(e, name, ParseAllow(e, name).value)
  {
    var k := Find(name, '|', 0);
    if '|' !in name {
      LookupShape(e, name, true, Lower(FullName(Lookup(e, name).value)));
    } else {
      var l := FindLast(name, '|');
      var copy := name[..l];
      assert forall j | 0 <= j < l :: copy[j] == name[j];
      assert k <= l;
      assert Find(copy, '|', 0) == k;
      if Lookup(e, name).Some? {
        LookupShape(e, name, true, Lower(name));
      }
    }
  }

  lemma WordShape(e: Env, w: string)
    requires Canonical(e, w)
    ensures |w| > 0
    ensures |w| > 1 && w[1] == '@' ==>
              && FindCategory(e.categories, w[2..]) != 0
              && WordAction(e, w) == ActionOf(e, ByCategory(FindCategory(e.categories, w[2..]), w[0] == '+', w[1..]))
    ensures !(|w| > 1 && w[1] == '@') ==> CommandRule(e, w[1..], Parse(e, w).value)
  {
    ParseForms(e, w);
    hide Lower, Lookup, CommandRule, ActionOf, Kept, ParseDeny, ParseAllow;
    if |w| > 1 && w[1] == '@' {
      assert ParseCategory(e, w[2..], w[0] == '+').Ok?;
      CategoryAction(e, FindCategory(e.categories, w[2..]), w[0] == '+', Lower("@" + w[2..]), w[1..]);
    } else if w[0] == '+' {
      AllowShape(e, w[1..]);
    } else {
      DenyShape(e, w[1..]);
    }
  }

  lemma DenyShape(e: Env, name: string)
    requires ParseDeny(e, name).Ok?
    ensures CommandRule(e, name, ParseDeny(e, name).value)
  {
    LookupShape(e, name, false, Lower(FullName(Lookup(e, name).value)));
  }

  lemma CategoryAction(e: Env, flag: bv64, allow: bool, a: string, b: string)
    ensures ActionOf(e, ByCategory(flag, allow, a)) == ActionOf(e, ByCategory(flag, allow, b))
  {}

  lemma BarlessCategory(e: Env, name: string)
    requires Valid(e) && FindCategory(e.categories, name) != 0
    ensures '|' !in name
  {
    var i :| 0 <= i < |e.categories| && Lower(e.categories[i].name) == Lower(name);
    LowerFacts(name);
    LowerFacts(e.categories[i].name);
  }

  lemma SameNameCovers(e: Env, name: string, q: Request, r: Request)
    requires IsRule(q) && IsRule(r) && CommandRule(e, name, q) && CommandRule(e, name, r)
    ensures Covers(ActionOf(e, q), ActionOf(e, r))
  {}

  lemma ContainerCovers(e: Env, name: string, x: string, q: Request, r: Request)
    requires IsRule(q) && IsRule(r) && CommandRule(e, name, q) && CommandRule(e, x, r)
    requires |x| > |name| && x[..|name|] == name && x[|name|] == '|'
    ensures Covers(ActionOf(e, q), ActionOf(e, r))
  {
    var (k, l) := (Find(name, '|', 0), Find(x, '|', 0));
    assert forall j | 0 <= j < |name| :: name[j] == x[..|name|][j] == x[j];
    OneBar(x, l);
    assert l == |name| == k;
    if r.Perm? {
      FoundSub(e, x, r);
    }
  }

  lemma OneBar(x: string, l: nat)
    requires l < |x| && '|' !in x[l + 1..]
    ensures forall n | l < n < |x| :: x[n] != '|'
  {
    assert forall n | l < n < |x| :: x[n] == x[l + 1..][n - l - 1];
  }

  // A subcommand belongs to its container.
  lemma FoundSub(e: Env, x: string, r: Request)
    requires CommandRule(e, x, r) && r.Perm? && r.f.Sub?
    ensures r.f.sub.id in SubIds(r.f.c.subs)
  {
    var i :| 0 <= i < |r.f.c.subs| && r.f.c.subs[i] == r.f.sub;
  }

  lemma BarlessSubsumed(r: string, y: string)
    requires r != [] && Subsumes(r, y) && '|' !in y[1..]
    ensures y == r
  {
    assert forall n | 1 <= n < |y| :: y[n] == y[1..][n - 1];
  }

  // Whatever a rule that is pruned away has granted, the rule that replaces it decides anew.
  lemma SubsumesCovers(e: Env, w: string, x: string)
    requires Valid(e) && Canonical(e, w) && Canonical(e, x) && w != [] && x != [] && Subsumes(w[1..], x[1..])
    ensures Covers(WordAction(e, w), WordAction(e, x))
  {
    WordShape(e, w);
    WordShape(e, x);
    var (r, y) := (w[1..], x[1..]);
    hide CommandRule, ActionOf, Parse, Lower, IdsApart, NameOk;
    if |w| > 1 && w[1] == '@' {
      assert y[0] == (if y == r then r[0] else y[..|r|][0]);
      BarlessCategory(e, x[2..]);
      assert y[1..] == x[2..] && r[1..] == w[2..];
      BarlessSubsumed(r, y);
      SameCategory(e, FindCategory(e.categories, w[2..]), w[0] == '+', x[0] == '+', r, y);
    } else if y == r {
      SameNameCovers(e, r, Parse(e, w).value, Parse(e, x).value);
    } else {
      assert r != [] ==> y[0] == y[..|r|][0];
      ContainerCovers(e, r, y, Parse(e, w).value, Parse(e, x).value);
    }
  }

  lemma SameCategory(e: Env, flag: bv64, a: bool, b: bool, r: string, y: string)
    ensures Covers(ActionOf(e, ByCategory(flag, a, r)), ActionOf(e, ByCategory(flag, b, y)))
  {}
}
