// The order in which the clients blocked on a key are served: who is visited, and when; and when serving is fair.
module BlockedOrder {
  import opened Blocked
  import opened BlockedServe
  import opened Options

  // ---------- the order of service ----------

  function Ids(l: seq<Node>): seq<Id> { seq(|l|, i requires 0 <= i < |l| => l[i].client) }

  // The clients waiting for a key, in the order they will be served.
  function Waiters(s: State, key: Key): seq<Id> { Ids(List(s, key)) }

  // What is left of a queue when the clients in `gone` have left it.
  function Leave(q: seq<Id>, gone: set<Id>): seq<Id>
  {
    if q == [] then []
    else Leave(q[..|q| - 1], gone) + if q[|q| - 1] in gone then [] else [q[|q| - 1]]
  }

  predicate NoDupIds(q: seq<Id>) { forall i, j | 0 <= i < j < |q| :: q[i] != q[j] }

  // `a` is what is left of `b` after leaving some elements out.
  predicate Sub(a: seq<Id>, b: seq<Id>)
  {
    if b == [] then a == []
    else
      || Sub(a, b[..|b| - 1])
      || (a != [] && a[|a| - 1] == b[|b| - 1] && Sub(a[..|a| - 1], b[..|b| - 1]))
  }

  lemma {:induction false} IdsWithout(l: seq<Node>, address: nat, c: Id)
    requires forall i | 0 <= i < |l| :: l[i].address == address <==> l[i].client == c
    ensures Ids(Without(l, address)) == Leave(Ids(l), {c})
  {
    if l != [] {
      var (front, last) := (l[..|l| - 1], l[|l| - 1]);
      IdsWithout(front, address, c);
      assert Ids(l)[..|l| - 1] == Ids(front);
      IdsAppend(Without(front, address), last);
    }
  }

  lemma IdsAppend(l: seq<Node>, n: Node)
    ensures Ids(l + [n]) == Ids(l) + [n.client]
  {}

  lemma {:induction false} InLeave(q: seq<Id>, gone: set<Id>, c: Id)
    ensures c in Leave(q, gone) <==> c in q && c !in gone
  {
    if q != [] {
      InLeave(q[..|q| - 1], gone, c);
      assert q == q[..|q| - 1] + [q[|q| - 1]];
    }
  }

  lemma {:induction false} LeaveNone(q: seq<Id>, gone: set<Id>)
    requires forall c | c in q :: c !in gone
    ensures Leave(q, gone) == q
  {
    if q != [] {
      assert q[|q| - 1] in q;
      LeaveNone(q[..|q| - 1], gone);
    }
  }

  lemma LeaveMore(q: seq<Id>, c: Id, gone: set<Id>)
    ensures Leave(q + [c], gone) == Leave(q, gone) + if c in gone then [] else [c]
  {
    assert (q + [c])[..|q|] == q;
  }

  lemma {:induction false} LeaveTwice(q: seq<Id>, a: set<Id>, b: set<Id>)
    ensures Leave(Leave(q, a), b) == Leave(q, a + b)
  {
    if q != [] {
      LeaveTwice(q[..|q| - 1], a, b);
      assert Leave(q[..|q| - 1], a) + [] == Leave(q[..|q| - 1], a);
      assert Leave(q[..|q| - 1], a + b) + [] == Leave(q[..|q| - 1], a + b);
      LeaveMore(Leave(q[..|q| - 1], a), q[|q| - 1], b);
    }
  }

  lemma {:induction false} LeaveConcat(a: seq<Id>, b: seq<Id>, gone: set<Id>)
    ensures Leave(a + b, gone) == Leave(a, gone) + Leave(b, gone)
    decreases |b|
  {
    if b == [] {
      assert a + b == a;
    } else {
      assert a + b == (a + b[..|b| - 1]) + [b[|b| - 1]];
      LeaveMore(a + b[..|b| - 1], b[|b| - 1], gone);
      LeaveConcat(a, b[..|b| - 1], gone);
    }
  }

  lemma {:induction false} LeaveSub(q: seq<Id>, gone: set<Id>)
    ensures Sub(Leave(q, gone), q)
  {
    if q != [] {
      LeaveSub(q[..|q| - 1], gone);
      var l := Leave(q[..|q| - 1], gone);
      assert (l + [q[|q| - 1]])[..|l|] == l && l + [] == l;
    }
  }

  lemma {:induction false} SubIn(a: seq<Id>, b: seq<Id>, c: Id)
    requires Sub(a, b) && c in a
    ensures c in b
    decreases |b|
  {
    var front := b[..|b| - 1];
    if Sub(a, front) {
      SubIn(a, front, c);
    } else if c in a[..|a| - 1] {
      SubIn(a[..|a| - 1], front, c);
    } else {
      assert a == a[..|a| - 1] + [a[|a| - 1]];
    }
  }

  lemma SubMore(a: seq<Id>, b: seq<Id>, c: Id)
    requires Sub(a, b)
    ensures Sub(a, b + [c]) && Sub(a + [c], b + [c])
  {
    assert (b + [c])[..|b|] == b && (a + [c])[..|a|] == a;
  }

  lemma {:induction false} SubNothing(q: seq<Id>)
    ensures Sub([], q)
  {
    if q != [] {
      SubNothing(q[..|q| - 1]);
    }
  }

  lemma {:induction false} SubSelf(q: seq<Id>)
    ensures Sub(q, q)
  {
    if q != [] {
      SubSelf(q[..|q| - 1]);
    }
  }

  lemma {:induction false} SubTransitive(a: seq<Id>, b: seq<Id>, c: seq<Id>)
    requires Sub(a, b) && Sub(b, c)
    ensures Sub(a, c)
    decreases |c|
  {
    if c != [] {
      var front := c[..|c| - 1];
      if Sub(b, front) {
        SubTransitive(a, b, front);
      } else if Sub(a, b[..|b| - 1]) {
        SubTransitive(a, b[..|b| - 1], front);
      } else {
        SubTransitive(a[..|a| - 1], b[..|b| - 1], front);
      }
    }
  }

  // Leaving elements out behind `x` keeps what stands in front.
  lemma {:induction false} SubBehind(x: seq<Id>, a: seq<Id>, b: seq<Id>)
    requires Sub(a, b)
    ensures Sub(x + a, x + b)
    decreases |b|
  {
    if b == [] {
      assert x + a == x && x + b == x;
      SubSelf(x);
    } else {
      var front := b[..|b| - 1];
      assert x + b == (x + front) + [b[|b| - 1]];
      if Sub(a, front) {
        SubBehind(x, a, front);
        SubMore(x + a, x + front, b[|b| - 1]);
      } else {
        SubBehind(x, a[..|a| - 1], front);
        SubMore(x + a[..|a| - 1], x + front, b[|b| - 1]);
        assert x + a == (x + a[..|a| - 1]) + [a[|a| - 1]];
      }
    }
  }

  lemma {:induction false} SubApart(a: seq<Id>, b: seq<Id>)
    requires Sub(a, b) && NoDupIds(b)
    ensures NoDupIds(a) && |a| <= |b|
    decreases |b|
  {
    if b != [] {
      var front := b[..|b| - 1];
      assert forall i | 0 <= i < |front| :: front[i] == b[i];
      if Sub(a, front) {
        SubApart(a, front);
      } else {
        var (a', last) := (a[..|a| - 1], a[|a| - 1]);
        SubApart(a', front);
        forall i | 0 <= i < |a'|
          ensures a[i] != last
        {
          assert a'[i] in a';
          SubIn(a', front, a'[i]);
          var j :| 0 <= j < |front| && front[j] == a'[i];
          assert b[j] != b[|b| - 1];
        }
        assert forall i | 0 <= i < |a'| :: a[i] == a'[i];
      }
    }
  }

  lemma WaitersDistinct(s: State, key: Key)
    requires Inv(s)
    ensures NoDupIds(Waiters(s, key))
  {
    var l := List(s, key);
    assert ListOk(s, key, AskersOf(s));
    forall i, j | 0 <= i < j < |l|
      ensures l[i].client != l[j].client
    {
      assert l[i] in l && l[j] in l && NodeHeld(s, key, l[i]) && NodeHeld(s, key, l[j]);
    }
  }

  lemma DropOrder(s: State, c: Id, done: set<Key>, key: Key)
    requires Core(s) && c in s.clients && done <= s.clients[c].keys.Keys
    ensures Waiters(Drop(s, c, done), key) == if key in done then Leave(Waiters(s, key), {c}) else Waiters(s, key)
  {
    DropList(s, c, done, key, AskersOf(s));
    var l := List(s, key);
    if key in done {
      assert KeyHeld(s, c, key) && ListOk(s, key, AskersOf(s));
      var n := Node(s.clients[c].keys[key], c);
      forall i | 0 <= i < |l|
        ensures l[i].address == n.address <==> l[i].client == c
      {
        assert l[i] in l && NodeHeld(s, key, l[i]);
        if l[i].address == n.address {
          DistinctNodes(l, l[i], n);
        }
      }
      IdsWithout(l, n.address, c);
    }
  }

  // A client that is in no list of the key is not missed there.
  lemma WaitersKnow(s: State, key: Key, c: Id)
    requires Core(s) && c in s.clients
    ensures c in Waiters(s, key) <==> key in s.clients[c].keys
  {
    OnceInList(s, AskersOf(s), c, key);
    var l := List(s, key);
    if key in s.clients[c].keys {
      var i :| 0 <= i < |l| && l[i] == Node(s.clients[c].keys[key], c);
      assert Waiters(s, key)[i] == c;
    }
  }

  // Who waits is a blocked client.
  lemma WaitersBlocked(s: State, key: Key, c: Id)
    requires Inv(s) && c in Waiters(s, key)
    ensures c in s.clients && s.clients[c].blocked && key in s.clients[c].keys && KeyType(s.clients[c].btype)
  {
    var l := List(s, key);
    var i :| 0 <= i < |l| && Waiters(s, key)[i] == c;
    assert l[i] in l && NodeHeld(s, key, l[i]);
    assert ClientOk(s.clients[c]);
  }

  lemma UnblockOrder(s: State, c: Id, key: Key)
    requires Core(s) && c in s.clients && s.clients[c].blocked
    ensures Waiters(UnblockClient(s, c), key) == Leave(Waiters(s, key), {c})
  {
    var all := s.clients[c].keys.Keys;
    assert ClientOk(s.clients[c]);
    WaitersKnow(s, key, c);
    if key !in s.clients[c].keys {
      LeaveNone(Waiters(s, key), {c});
    }
    if KeyType(s.clients[c].btype) {
      DropOrder(s, c, all, key);
    }
    hide Index, Drop, Counted, Queued;
  }

  lemma {:induction false} RegisterOrder(s: State, c: Id, keys: seq<Key>, ask: bool, key: Key)
    requires c in s.clients
    ensures var t := RegisterAll(s, c, keys, ask);
            && (key in t.clients[c].keys <==> key in s.clients[c].keys || key in keys)
            && Waiters(t, key) ==
               Waiters(s, key) + if key !in s.clients[c].keys && key in keys then [c] else []
    decreases |keys|
  {
    if keys == [] {
      assert Waiters(s, key) + [] == Waiters(s, key);
    } else {
      var (front, last) := (keys[..|keys| - 1], keys[|keys| - 1]);
      RegisterOrder(s, c, front, ask, key);
      assert keys == front + [last];
      OneOrder(RegisterAll(s, c, front, ask), c, last, ask, key);
      hide Register, Waiters;
    }
  }

  lemma OneOrder(s: State, c: Id, k: Key, ask: bool, key: Key)
    requires c in s.clients
    ensures var t := Register(s, c, k, ask);
            && (key in t.clients[c].keys <==> key in s.clients[c].keys || key == k)
            && Waiters(t, key) == Waiters(s, key) + if key !in s.clients[c].keys && key == k then [c] else []
  {
    IdsAppend(List(s, key), Node(s.nextNode, c));
    if key in s.clients[c].keys || key != k {
      assert List(Register(s, c, k, ask), key) == List(s, key);
      assert Waiters(s, key) + [] == Waiters(s, key);
    }
  }

  lemma BlockOrder(s: State, c: Id, btype: Btype, keys: seq<Key>, ask: bool, key: Key)
    requires Inv(s) && c in s.clients && !s.clients[c].blocked
    ensures var t := BlockForKeys(s, c, btype, keys, ask);
            && c in t.clients && t.clients[c].blocked
            && Waiters(t, key) == Waiters(s, key) + if key in keys then [c] else []
  {
    assert ClientOk(s.clients[c]);
    RegisterOrder(s, c, keys, ask, key);
    hide Index, RegisterAll, Ids;
  }

  // The clients a reprocessed command makes give up.
  function Evicted(script: Script): set<Id> { set a | a in script && a.Evict? :: a.c }

  lemma EvictedMore(script: Script, a: Action)
    ensures Evicted(script + [a]) == Evicted(script) + if a.Evict? then {a.c} else {}
  {}

  // The list of the key is `base`, with `r`, which is blocked then, perhaps behind it.
  predicate AtEnd(s: State, r: Id, key: Key, base: seq<Id>)
  {
    r in s.clients && (Waiters(s, key) == base || (Waiters(s, key) == base + [r] && s.clients[r].blocked))
  }

  lemma AgainOrder(s: State, r: Id, btype: Btype, keys: seq<Key>, ask: bool, key: Key, base: seq<Id>)
    requires Inv(s) && AtEnd(s, r, key, base)
    ensures AtEnd(RunAction(s, r, BlockAgain(btype, keys, ask)), r, key, base)
  {
    hide Inv, BlockForKeys, Waiters;
    if !s.clients[r].blocked && CommandType(btype) {
      BlockOrder(s, r, btype, keys, ask, key);
      assert base + [] == base;
    }
  }

  lemma EvictAtEnd(s: State, r: Id, c: Id, key: Key, base: seq<Id>)
    requires Inv(s) && AtEnd(s, r, key, base) && r !in base
    ensures AtEnd(RunAction(s, r, Evict(c)), r, key, Leave(base, {c}))
  {
    EndWithout(base, r, c);
    hide Waiters, Leave, UnblockWithReply;
    if c in s.clients && s.clients[c].blocked {
      EvictOrder(s, c, key);
    } else {
      if c in Waiters(s, key) {
        WaitersBlocked(s, key, c);
      }
      hide Inv;
      LeaveNone(Waiters(s, key), {c});
      LeaveNone(base, {c});
    }
  }

  lemma EndWithout(base: seq<Id>, r: Id, c: Id)
    requires r !in base
    ensures Leave(base + [r], {c}) == if c == r then base else Leave(base, {c}) + [r]
    ensures c == r ==> Leave(base, {c}) == base
  {
    LeaveMore(base, r, {c});
    if c == r {
      LeaveNone(base, {c});
      assert base + [] == base;
    }
  }

  lemma SignalAtEnd(s: State, r: Id, a: Action, key: Key, base: seq<Id>)
    requires AtEnd(s, r, key, base) && (a.SignalKey? || a.SetKey?)
    ensures AtEnd(RunAction(s, r, a), r, key, base)
  {
    assert Waiters(RunAction(s, r, a), key) == Waiters(s, key);
  }

  lemma ActionOrder(s: State, r: Id, a: Action, key: Key, base: seq<Id>)
    requires Inv(s) && r !in base && AtEnd(s, r, key, base)
    ensures Inv(RunAction(s, r, a))
    ensures AtEnd(RunAction(s, r, a), r, key, Leave(base, if a.Evict? then {a.c} else {}))
  {
    ActionKeeps(s, r, a);
    LeaveNone(base, {});
    hide Inv, AtEnd, RunAction, Leave;
    match a
    case BlockAgain(btype, keys, ask) => AgainOrder(s, r, btype, keys, ask, key, base);
    case Evict(c) => EvictAtEnd(s, r, c, key, base);
    case _ => SignalAtEnd(s, r, a, key, base);
  }

  // While the client runs again, the list of the key loses exactly those it makes give up, and gains at most that
  // client, at the end.
  lemma {:induction false} ScriptOrder(s: State, r: Id, script: Script, key: Key, base: seq<Id>)
    requires Inv(s) && r !in base && AtEnd(s, r, key, base)
    ensures Inv(RunScript(s, r, script)) && AtEnd(RunScript(s, r, script), r, key, Leave(base, Evicted(script)))
    decreases |script|
  {
    hide Inv, RunAction, AtEnd, Leave, Evicted;
    if script == [] {
      NoneEvicted();
      LeaveNone(base, {});
    } else {
      var (front, last) := (script[..|script| - 1], script[|script| - 1]);
      ScriptOrder(s, r, front, key, base);
      var base' := Leave(base, Evicted(front));
      InLeave(base, Evicted(front), r);
      ActionOrder(RunScript(s, r, front), r, last, key, base');
      LeaveTwice(base, Evicted(front), if last.Evict? then {last.c} else {});
      EvictedMore(front, last);
      assert script == front + [last];
    }
  }

  lemma NoneEvicted()
    ensures Evicted([]) == {}
  {}

  lemma EvictOrder(s: State, c: Id, key: Key)
    requires Inv(s) && c in s.clients && s.clients[c].blocked
    ensures var t := UnblockWithReply(s, c);
            && Waiters(t, key) == Leave(Waiters(s, key), {c})
            && t.clients.Keys == s.clients.Keys && forall d | d in s.clients && d != c :: t.clients[d] == s.clients[d]
  {
    assert ClientOk(s.clients[c]);
    var s1 := NoPending(s, c);
    assert Waiters(s1, key) == Waiters(s, key);
    PendingCore(s, c);
    UnblockShape(s1, c);
    UnblockOrder(s1, c, key);
    hide Core, UnblockClient, Waiters;
  }

  lemma RotateOrder(s: State, key: Key, r: Id, rest: seq<Id>)
    requires key in s.waiting && s.waiting[key] != [] && Waiters(s, key) == [r] + rest
    ensures Waiters(Rotated(s, key), key) == rest + [r]
  {
    var l := s.waiting[key];
    assert Waiters(s, key)[0] == l[0].client;
    assert Ids(l[1..]) == Waiters(s, key)[1..] == rest;
    IdsAppend(l[1..], l[0]);
  }

  // What unblocking a client on a key leaves of the key's list, just before its command runs again.
  lemma WokenOrder(s: State, key: Key, r: Id, base: seq<Id>)
    requires Inv(s) && r in s.clients && key in s.clients[r].keys && s.clients[r].blocked
    requires s.clients[r].btype != OnModule
    requires Waiters(s, key) == base + [r] && r !in base
    ensures Core(Drop(s, r, {key})) && r in Drop(s, r, {key}).clients
    ensures var t := UnblockClient(Drop(s, r, {key}), r);
            && Inv(t) && r in t.clients && !t.clients[r].blocked && t.clients[r].pending && t.clients[r].keys == map[]
            && Waiters(NoPending(t, r), key) == base
  {
    var s1 := Drop(s, r, {key});
    ReleaseKeeps(s, r, {key});
    DropShape(s, r, {key});
    DropOrder(s, r, {key}, key);
    LeaveNone(base, {r});
    LeaveConcat(base, [r], {r});
    assert Leave([r], {r}) == [] && base + [] == base;
    assert ClientOk(s1.clients[r]) && Awaiting(s.clients[r]);
    UnblockShape(s1, r);
    UnblockKeeps(s1, r);
    UnblockOrder(s1, r, key);
    hide Core, Index, Drop, UnblockClient;
    assert Waiters(NoPending(UnblockClient(s1, r), r), key) == Waiters(UnblockClient(s1, r), key);
  }

  // Waking the client at the end of the list on a key: the others keep their places but for those its command makes
  // give up, and the client is behind them or gone.
  lemma WakeOrder(s: State, key: Key, script: Script, r: Id, base: seq<Id>)
    requires Inv(s) && r in s.clients && key in s.clients[r].keys && s.clients[r].blocked
    requires s.clients[r].btype != OnModule
    requires Waiters(s, key) == base + [r] && r !in base
    ensures var (t, left) := (UnblockOnKey(s, r, key, script), Leave(base, Evicted(script)));
            Waiters(t, key) == left || Waiters(t, key) == left + [r]
  {
    WokenOrder(s, key, r, base);
    hide Core, Drop, UnblockClient, RunScript, Evicted, Leave;
    var s2 := UnblockClient(Drop(s, r, {key}), r);
    PendingKeeps(s2, r);
    ScriptOrder(NoPending(s2, r), r, script, key, base);
  }

  // Who gives up in a turn that runs `script`: nobody, unless the first waiter is woken.
  function GiveUp(s: State, key: Key, script: Script): set<Id>
  {
    var w := Waiters(s, key);
    if w != [] && w[0] in s.clients && Wakes(s, w[0], key) then Evicted(script) else {}
  }

  lemma RotatedWakes(s: State, c: Id, key: Key)
    requires c in s.clients && key in s.waiting && s.waiting[key] != []
    ensures Rotated(s, key).clients == s.clients && (Wakes(Rotated(s, key), c, key) <==> Wakes(s, c, key))
  {}

  // One turn: the head has its turn, those it makes give up are gone, and the head is behind the others or gone.
  lemma VisitOrder(s: State, key: Key, script: Script, r: Id, rest: seq<Id>)
    requires Inv(s) && Waiters(s, key) == [r] + rest && r !in rest
    ensures key in s.waiting && s.waiting[key] != [] && s.waiting[key][0].client == r
    ensures var (t, left) := (Visit(s, key, script), Leave(rest, GiveUp(s, key, script)));
            Waiters(t, key) == left || Waiters(t, key) == left + [r]
  {
    assert Waiters(s, key)[0] == List(s, key)[0].client;
    HeadIsWaiting(s, key);
    RotateKeeps(s, key);
    RotateOrder(s, key, r, rest);
    RotatedWakes(s, r, key);
    LeaveNone(rest, {});
    var s1 := Rotated(s, key);
    hide Inv, RunScript, UnblockOnKey, Wakes, Leave, Evicted, Waiters;
    if Wakes(s1, r, key) {
      if s1.clients[r].btype != OnModule {
        WakeOrder(s1, key, script, r, rest);
      } else {
        ScriptOrder(s1, r, script, key, rest);
      }
    }
  }

  // ---------- turns ----------

  // In turn `n` the waiter `c`, which still stands behind the one whose turn it is, is made to give up.
  predicate EvictedAt(s: State, key: Key, scripts: seq<Script>, n: nat, c: Id)
  {
    var t := ServeTurns(s, key, scripts, n).s;
    var w := Waiters(t, key);
    w != [] && c in w[1..] && c in GiveUp(t, key, ScriptAt(scripts, n))
  }

  // From the list `w` the first has its turn, and those in `gone` leave.
  predicate Moved(w: seq<Id>, visited: seq<Id>, gone: set<Id>, w': seq<Id>, visited': seq<Id>)
  {
    && w != [] && visited' == visited + [w[0]]
    && (w' == Leave(w[1..], gone) || w' == Leave(w[1..], gone) + [w[0]])
  }

  // A turn of the loop, if somebody still waits.
  lemma TurnIs(s: State, key: Key, scripts: seq<Script>, n: nat)
    requires Inv(s)
    ensures var (r, t) := (ServeTurns(s, key, scripts, n), ServeTurns(s, key, scripts, n + 1));
            var w := Waiters(r.s, key);
            && NoDupIds(w) && (w == [] ==> t.s == r.s && t.visited == r.visited)
            && (w != [] ==>
                  Moved(w, r.visited, GiveUp(r.s, key, ScriptAt(scripts, n)), Waiters(t.s, key), t.visited))
  {
    var r := ServeTurns(s, key, scripts, n);
    ServeKeeps(s, key, scripts, n);
    WaitersDistinct(r.s, key);
    StoppedEmpty(s, key, scripts, n);
    hide Inv, Visit, GiveUp, Leave;
    var w := Waiters(r.s, key);
    if w != [] {
      assert w == [w[0]] + w[1..] && w[0] == List(r.s, key)[0].client;
      VisitOrder(r.s, key, ScriptAt(scripts, n), w[0], w[1..]);
    }
  }

  lemma {:induction false} StoppedEmpty(s: State, key: Key, scripts: seq<Script>, n: nat)
    ensures var r := ServeTurns(s, key, scripts, n); r.stopped ==> List(r.s, key) == []
    decreases n
  {
    hide Visit;
    if n > 0 {
      StoppedEmpty(s, key, scripts, n - 1);
    }
  }

  // `late` goes on from `early`, without `c`.
  predicate NotAgain(early: seq<Id>, late: seq<Id>, c: Id)
  {
    |early| <= |late| && late[..|early|] == early && forall i | |early| <= i < |late| :: late[i] != c
  }

  lemma NeverVisited(early: seq<Id>, late: seq<Id>, c: Id)
    requires NotAgain(early, late, c) && c !in early
    ensures c !in late
  {
    assert forall i | 0 <= i < |early| :: late[i] == early[i];
  }

  // Only the one whose turn it is can block: who does not wait is not visited, and does not come back.
  lemma {:induction false} StaysAway(s: State, key: Key, scripts: seq<Script>, n: nat, m: nat, c: Id)
    requires Inv(s) && n <= m && c !in Waiters(ServeTurns(s, key, scripts, n).s, key)
    ensures var (r, t) := (ServeTurns(s, key, scripts, n), ServeTurns(s, key, scripts, m));
            c !in Waiters(t.s, key) && NotAgain(r.visited, t.visited, c)
    decreases m
  {
    hide Inv, ServeTurns, Waiters, GiveUp, Moved, NotAgain;
    if m > n {
      StaysAway(s, key, scripts, n, m - 1, c);
      TurnIs(s, key, scripts, m - 1);
      var (r, t, u) := (ServeTurns(s, key, scripts, n), ServeTurns(s, key, scripts, m - 1),
                        ServeTurns(s, key, scripts, m));
      var w := Waiters(t.s, key);
      if w != [] {
        MovesWithout(w, t.visited, GiveUp(t.s, key, ScriptAt(scripts, m - 1)), Waiters(u.s, key), u.visited, r.visited,
          c);
      }
    } else {
      AgainSelf(ServeTurns(s, key, scripts, n).visited, c);
    }
  }

  lemma AgainSelf(q: seq<Id>, c: Id)
    ensures NotAgain(q, q, c)
  {}

  lemma MovesWithout(w: seq<Id>, visited: seq<Id>, gone: set<Id>, w': seq<Id>, visited': seq<Id>, early: seq<Id>, c: Id)
    requires Moved(w, visited, gone, w', visited') && c !in w && NotAgain(early, visited, c)
    ensures c !in w' && NotAgain(early, visited', c)
  {
    InLeave(w[1..], gone, c);
    hide Leave;
    assert w[0] in w;
  }

  lemma MovedAway(w: seq<Id>, visited: seq<Id>, gone: set<Id>, w': seq<Id>, visited': seq<Id>, c: Id)
    requires Moved(w, visited, gone, w', visited') && NoDupIds(w) && c in w[1..] && c in gone
    ensures c !in w' && c != w[0] && visited' == visited + [w[0]]
  {
    InLeave(w[1..], gone, c);
    hide Leave;
    var i :| 0 <= i < |w[1..]| && w[1..][i] == c;
    assert w[0] != w[i + 1];
  }

  lemma EvictedLeaves(s: State, key: Key, scripts: seq<Script>, n: nat, c: Id)
    requires Inv(s) && EvictedAt(s, key, scripts, n, c)
    ensures c !in Waiters(ServeTurns(s, key, scripts, n + 1).s, key)
  {
    TurnIs(s, key, scripts, n);
    var (r, t) := (ServeTurns(s, key, scripts, n), ServeTurns(s, key, scripts, n + 1));
    hide Inv, ServeTurns, Waiters, GiveUp, Moved, NoDupIds;
    var (w, gone) := (Waiters(r.s, key), GiveUp(r.s, key, ScriptAt(scripts, n)));
    MovedAway(w, r.visited, gone, Waiters(t.s, key), t.visited, c);
  }

  // Who is made to give up is not visited any more.
  lemma EvictedStaysAway(s: State, key: Key, scripts: seq<Script>, n: nat, m: nat, c: Id)
    requires Inv(s) && n < m && EvictedAt(s, key, scripts, n, c)
    ensures var (r, t) := (ServeTurns(s, key, scripts, n + 1), ServeTurns(s, key, scripts, m));
            c !in Waiters(t.s, key) && NotAgain(r.visited, t.visited, c)
  {
    hide Inv, ServeTurns, Waiters, EvictedAt;
    EvictedLeaves(s, key, scripts, n, c);
    StaysAway(s, key, scripts, n + 1, m, c);
  }

  // ---------- everybody gets a turn ----------

  // Each client once, where it is visited first.
  function Firsts(q: seq<Id>): seq<Id>
  {
    if q == [] then []
    else
      var (front, last) := (q[..|q| - 1], q[|q| - 1]);
      Firsts(front) + if last in front then [] else [last]
  }

  lemma {:induction false} InFirsts(q: seq<Id>, c: Id)
    ensures c in Firsts(q) <==> c in q
  {
    if q != [] {
      InFirsts(q[..|q| - 1], c);
      assert q == q[..|q| - 1] + [q[|q| - 1]];
    }
  }

  lemma FirstsMore(q: seq<Id>, c: Id)
    ensures Firsts(q + [c]) == Firsts(q) + if c in q then [] else [c]
  {
    assert (q + [c])[..|q|] == q;
  }

  // Within the first `n` turns `c` is made to give up before it has been visited.
  predicate GaveUp(s: State, key: Key, scripts: seq<Script>, n: nat, c: Id)
  {
    exists i | 0 <= i < n ::
      EvictedAt(s, key, scripts, i, c) && c !in ServeTurns(s, key, scripts, i + 1).visited
  }

  // The list is `ahead`, those that still have their turn to come, and then `left`, who have been visited.
  predicate Standing(w: seq<Id>, visited: seq<Id>, ahead: seq<Id>, left: seq<Id>)
  {
    w == ahead + left && forall c | c in left :: c in visited
  }

  // The first visits and those still to come are in the order of `init`; `n` turns have been taken.
  predicate Ordered(visited: seq<Id>, ahead: seq<Id>, n: nat, init: seq<Id>)
  {
    Sub(Firsts(visited) + ahead, init) && (ahead == [] || |ahead| + n <= |init|)
  }

  // Nobody is missing but who gave up.
  predicate AllThere(s: State, key: Key, scripts: seq<Script>, n: nat, ahead: seq<Id>)
  {
    forall c | c in Waiters(s, key) ::
      c in ServeTurns(s, key, scripts, n).visited || c in ahead || GaveUp(s, key, scripts, n, c)
  }

  predicate InLine(s: State, key: Key, scripts: seq<Script>, n: nat, ahead: seq<Id>, left: seq<Id>)
  {
    var r := ServeTurns(s, key, scripts, n);
    && Standing(Waiters(r.s, key), r.visited, ahead, left)
    && Ordered(r.visited, ahead, n, Waiters(s, key))
    && AllThere(s, key, scripts, n, ahead)
  }

  lemma BeforeTurns(s: State, key: Key, scripts: seq<Script>)
    ensures InLine(s, key, scripts, 0, Waiters(s, key), [])
  {
    var init := Waiters(s, key);
    assert init + [] == init && [] + init == init;
    SubSelf(init);
  }

  // What stands in line is apart from what has been visited.
  lemma AheadApart(visited: seq<Id>, ahead: seq<Id>, n: nat, init: seq<Id>, c: Id)
    requires NoDupIds(init) && Ordered(visited, ahead, n, init)
    ensures NoDupIds(ahead) && !(c in visited && c in ahead)
  {
    var all := Firsts(visited) + ahead;
    SubApart(all, init);
    hide Sub, Firsts;
    InFirsts(visited, c);
    var k := |Firsts(visited)|;
    assert forall i | 0 <= i < |ahead| :: all[k + i] == ahead[i];
    forall i, j | 0 <= i < j < |ahead|
      ensures ahead[i] != ahead[j]
    {
      assert all[k + i] != all[k + j];
    }
    if c in ahead {
      var i :| 0 <= i < |ahead| && ahead[i] == c;
      forall j | 0 <= j < k
        ensures Firsts(visited)[j] != c
      {
        assert all[j] != all[k + i];
      }
    }
  }

  // The first in line has its turn.
  lemma StandingMoves(w: seq<Id>, visited: seq<Id>, gone: set<Id>, w': seq<Id>, visited': seq<Id>, ahead: seq<Id>,
      left: seq<Id>) returns (left': seq<Id>)
    requires Moved(w, visited, gone, w', visited') && Standing(w, visited, ahead, left) && ahead != []
    ensures Standing(w', visited', Leave(ahead[1..], gone), left')
  {
    LeaveConcat(ahead[1..], left, gone);
    assert w[1..] == ahead[1..] + left;
    forall c
      ensures c in Leave(left, gone) ==> c in left
    {
      InLeave(left, gone, c);
    }
    hide Leave;
    var (front, rest) := (Leave(ahead[1..], gone), Leave(left, gone));
    left' := if w' == front + rest then rest else rest + [w[0]];
    assert (front + rest) + [w[0]] == front + (rest + [w[0]]);
  }

  lemma OrderedMoves(visited: seq<Id>, ahead: seq<Id>, gone: set<Id>, n: nat, init: seq<Id>)
    requires NoDupIds(init) && ahead != [] && Ordered(visited, ahead, n, init)
    ensures Ordered(visited + [ahead[0]], Leave(ahead[1..], gone), n + 1, init)
  {
    var (h, rest) := (ahead[0], ahead[1..]);
    AheadApart(visited, ahead, n, init, h);
    FirstsMore(visited, h);
    LeaveSub(rest, gone);
    SubApart(Leave(rest, gone), rest);
    var f := Firsts(visited) + [h];
    SubBehind(f, Leave(rest, gone), rest);
    assert f + rest == Firsts(visited) + ahead;
    SubTransitive(f + Leave(rest, gone), f + rest, init);
    hide Sub, Firsts, Leave;
  }

  lemma GaveUpMore(s: State, key: Key, scripts: seq<Script>, n: nat, c: Id)
    requires GaveUp(s, key, scripts, n, c) ||
             (EvictedAt(s, key, scripts, n, c) && c !in ServeTurns(s, key, scripts, n + 1).visited)
    ensures GaveUp(s, key, scripts, n + 1, c)
  {
    hide EvictedAt, ServeTurns;
  }

  // Who stood behind the first in line still does, or gave up in this turn.
  lemma NobodyLost(s: State, key: Key, scripts: seq<Script>, n: nat, ahead: seq<Id>, left: seq<Id>, c: Id)
    requires Inv(s) && InLine(s, key, scripts, n, ahead, left) && ahead != [] && c in ahead && c != ahead[0]
    ensures || c in Leave(ahead[1..], GiveUp(ServeTurns(s, key, scripts, n).s, key, ScriptAt(scripts, n)))
            || GaveUp(s, key, scripts, n + 1, c)
  {
    var (r, t) := (ServeTurns(s, key, scripts, n), ServeTurns(s, key, scripts, n + 1));
    TurnIs(s, key, scripts, n);
    WaitersDistinct(s, key);
    AheadApart(r.visited, ahead, n, Waiters(s, key), c);
    hide Inv, ServeTurns, Waiters, GiveUp, Leave, Ordered, AllThere, GaveUp, NoDupIds, EvictedAt;
    var (w, gone) := (Waiters(r.s, key), GiveUp(r.s, key, ScriptAt(scripts, n)));
    BehindFirst(w, r.visited, ahead, left, c);
    InLeave(ahead[1..], gone, c);
    if c in gone {
      EvictedIs(s, key, scripts, n, c);
      MovedAway(w, r.visited, gone, Waiters(t.s, key), t.visited, c);
      assert c !in r.visited + [w[0]];
      GaveUpMore(s, key, scripts, n, c);
    }
  }

  lemma BehindFirst(w: seq<Id>, visited: seq<Id>, ahead: seq<Id>, left: seq<Id>, c: Id)
    requires Standing(w, visited, ahead, left) && ahead != [] && c in ahead && c != ahead[0]
    ensures c in w[1..] && w[0] == ahead[0] && c in ahead[1..]
  {
    assert w[1..] == ahead[1..] + left && ahead == [ahead[0]] + ahead[1..];
  }

  lemma EvictedIs(s: State, key: Key, scripts: seq<Script>, n: nat, c: Id)
    requires var t := ServeTurns(s, key, scripts, n).s;
             && Waiters(t, key) != [] && c in Waiters(t, key)[1..] && c in GiveUp(t, key, ScriptAt(scripts, n))
    ensures EvictedAt(s, key, scripts, n, c)
  {}

  // A turn while some of the initial waiters have theirs to come.
  lemma LineTurn(s: State, key: Key, scripts: seq<Script>, n: nat, ahead: seq<Id>, left: seq<Id>)
    returns (ahead': seq<Id>, left': seq<Id>)
    requires Inv(s) && InLine(s, key, scripts, n, ahead, left) && ahead != []
    ensures InLine(s, key, scripts, n + 1, ahead', left')
  {
    var (r, t) := (ServeTurns(s, key, scripts, n), ServeTurns(s, key, scripts, n + 1));
    var gone := GiveUp(r.s, key, ScriptAt(scripts, n));
    TurnIs(s, key, scripts, n);
    WaitersDistinct(s, key);
    hide Inv, ServeTurns, Waiters, GiveUp, Leave, Ordered, NoDupIds, GaveUp;
    ahead' := Leave(ahead[1..], gone);
    left' := StandingMoves(Waiters(r.s, key), r.visited, gone, Waiters(t.s, key), t.visited, ahead, left);
    OrderedMoves(r.visited, ahead, gone, n, Waiters(s, key));
    assert t.visited == r.visited + [ahead[0]];
    forall c | c in Waiters(s, key)
      ensures c in t.visited || c in ahead' || GaveUp(s, key, scripts, n + 1, c)
    {
      if c in ahead && c != ahead[0] {
        NobodyLost(s, key, scripts, n, ahead, left, c);
      } else if c !in r.visited && c !in ahead {
        GaveUpMore(s, key, scripts, n, c);
      }
    }
  }

  lemma LateVisits(w: seq<Id>, visited: seq<Id>, gone: set<Id>, w': seq<Id>, visited': seq<Id>, n: nat, init: seq<Id>)
    requires Moved(w, visited, gone, w', visited') && Standing(w, visited, [], w) && Ordered(visited, [], n, init)
    ensures Standing(w', visited', [], w') && Ordered(visited', [], n + 1, init)
  {
    FirstsMore(visited, w[0]);
    assert Firsts(visited) + [] == Firsts(visited) && [] + w' == w';
    hide Leave;
    forall c | c in w'
      ensures c in visited'
    {
      InLeave(w[1..], gone, c);
    }
  }

  // A turn when each of them has had it.
  lemma LateTurn(s: State, key: Key, scripts: seq<Script>, n: nat, left: seq<Id>) returns (left': seq<Id>)
    requires Inv(s) && InLine(s, key, scripts, n, [], left)
    ensures InLine(s, key, scripts, n + 1, [], left')
  {
    var (r, t) := (ServeTurns(s, key, scripts, n), ServeTurns(s, key, scripts, n + 1));
    TurnIs(s, key, scripts, n);
    hide Inv, ServeTurns, Waiters, GiveUp, Ordered, NoDupIds, GaveUp, Moved;
    left' := Waiters(t.s, key);
    assert [] + left == left && [] + left' == left';
    if left != [] {
      var gone := GiveUp(r.s, key, ScriptAt(scripts, n));
      LateVisits(left, r.visited, gone, left', t.visited, n, Waiters(s, key));
      MovedVisits(left, r.visited, gone, left', t.visited);
      hide Standing;
    } else {
      LaterOrdered(r.visited, n, Waiters(s, key));
    }
    forall c | c in Waiters(s, key)
      ensures c in t.visited || GaveUp(s, key, scripts, n + 1, c)
    {
      if c !in r.visited {
        GaveUpMore(s, key, scripts, n, c);
      }
    }
  }

  lemma LaterOrdered(visited: seq<Id>, n: nat, init: seq<Id>)
    requires Ordered(visited, [], n, init)
    ensures Ordered(visited, [], n + 1, init)
  {}

  lemma MovedVisits(w: seq<Id>, visited: seq<Id>, gone: set<Id>, w': seq<Id>, visited': seq<Id>)
    requires Moved(w, visited, gone, w', visited')
    ensures visited' == visited + [w[0]]
  {}

  lemma {:induction false} LineTurns(s: State, key: Key, scripts: seq<Script>, n: nat)
    returns (ahead: seq<Id>, left: seq<Id>)
    requires Inv(s)
    ensures InLine(s, key, scripts, n, ahead, left)
    decreases n
  {
    hide Inv, InLine, ServeTurns;
    if n == 0 {
      ahead, left := Waiters(s, key), [];
      BeforeTurns(s, key, scripts);
    } else {
      ahead, left := LineTurns(s, key, scripts, n - 1);
      if ahead != [] {
        ahead, left := LineTurn(s, key, scripts, n - 1, ahead, left);
      } else {
        left := LateTurn(s, key, scripts, n - 1, left);
      }
    }
  }

  // Whatever the reprocessed commands do: the clients are visited for the first time in the order they blocked; an
  // initial waiter is visited if and only if nobody makes it give up before its turn; and who waits afterwards has had
  // a turn.
  lemma EveryWaiter(s: State, key: Key, scripts: seq<Script>)
    requires Inv(s)
    ensures var (init, r) := (Waiters(s, key), ServeKey(s, key, scripts));
            && |r.visited| <= |init| && Sub(Firsts(r.visited), init)
            && (forall c | c in init :: c in r.visited <==> !GaveUp(s, key, scripts, |init|, c))
            && forall c | c in Waiters(r.s, key) :: c in r.visited
  {
    var init := Waiters(s, key);
    ServeKeeps(s, key, scripts, |init|);
    var ahead, left := LineTurns(s, key, scripts, |init|);
    var r := ServeTurns(s, key, scripts, |init|);
    assert r == ServeKey(s, key, scripts);
    hide Inv, ServeTurns, ServeKey, Waiters, Sub, Firsts, EvictedAt, GaveUp;
    assert ahead == [] && [] + left == left && Firsts(r.visited) + [] == Firsts(r.visited);
    forall c | GaveUp(s, key, scripts, |init|, c)
      ensures c !in r.visited
    {
      NotVisited(s, key, scripts, |init|, c);
    }
  }

  lemma NotVisited(s: State, key: Key, scripts: seq<Script>, n: nat, c: Id)
    requires Inv(s) && GaveUp(s, key, scripts, n, c)
    ensures c !in ServeTurns(s, key, scripts, n).visited
  {
    var i: nat :| i < n && EvictedAt(s, key, scripts, i, c) && c !in ServeTurns(s, key, scripts, i + 1).visited;
    hide Inv, ServeTurns, EvictedAt, NotAgain, Waiters;
    EvictedStaysAway(s, key, scripts, i, n, c);
    NeverVisited(ServeTurns(s, key, scripts, i + 1).visited, ServeTurns(s, key, scripts, n).visited, c);
  }

  // ---------- fair turns ----------

  // After `n` turns: the first `n` waiters have been visited in order, the others still stand in front, and behind them
  // those of the visited that are left, in order.
  predicate InTurn(r: Served, key: Key, init: seq<Id>, n: nat, left: seq<Id>)
    requires n <= |init|
  {
    !r.stopped && r.visited == init[..n] && Waiters(r.s, key) == init[n..] + left && Sub(left, init[..n])
  }

  // A turn in which nobody still to come is made to give up: the next waiter has it, and may stand behind the others
  // afterwards.
  lemma TurnOrder(s: State, key: Key, script: Script, init: seq<Id>, n: nat, left: seq<Id>) returns (left': seq<Id>)
    requires Inv(s) && n < |init|
    requires forall m | n < m < |init| :: init[m] !in GiveUp(s, key, script)
    requires Waiters(s, key) == init[n..] + left && Sub(left, init[..n])
    ensures key in s.waiting && s.waiting[key] != [] && s.waiting[key][0].client == init[n]
    ensures Waiters(Visit(s, key, script), key) == init[n + 1..] + left' && Sub(left', init[..n + 1])
  {
    var (r, later, gone) := (init[n], init[n + 1..], GiveUp(s, key, script));
    assert init[n..] == [r] + later && init[..n + 1] == init[..n] + [r];
    assert [r] + later + left == [r] + (later + left);
    WaitersDistinct(s, key);
    hide Sub, Visit, Inv, Waiters, Leave, GiveUp;
    HeadApart(r, later + left);
    VisitOrder(s, key, script, r, later + left);
    FairMove(later, left, gone, init[..n], r);
    var rest := Leave(left, gone);
    left' := if Waiters(Visit(s, key, script), key) == later + rest then rest else rest + [r];
    assert (later + rest) + [r] == later + (rest + [r]);
  }

  lemma HeadApart(r: Id, rest: seq<Id>)
    requires NoDupIds([r] + rest)
    ensures r !in rest
  {
    assert forall i | 0 <= i < |rest| :: ([r] + rest)[i + 1] == rest[i];
    assert ([r] + rest)[0] == r;
  }

  // Nobody in `later` goes; of those who wait again, some may.
  lemma FairMove(later: seq<Id>, left: seq<Id>, gone: set<Id>, before: seq<Id>, r: Id)
    requires (forall i | 0 <= i < |later| :: later[i] !in gone) && Sub(left, before)
    ensures Leave(later + left, gone) == later + Leave(left, gone)
    ensures Sub(Leave(left, gone), before + [r]) && Sub(Leave(left, gone) + [r], before + [r])
  {
    LeaveConcat(later, left, gone);
    LeaveNone(later, gone);
    LeaveSub(left, gone);
    SubTransitive(Leave(left, gone), left, before);
    SubMore(Leave(left, gone), before, r);
  }

  lemma TurnFair(s: State, key: Key, scripts: seq<Script>, n: nat, left: seq<Id>) returns (left': seq<Id>)
    requires Inv(s) && n < |Waiters(s, key)|
    requires forall m | n < m < |Waiters(s, key)| :: !EvictedAt(s, key, scripts, n, Waiters(s, key)[m])
    requires InTurn(ServeTurns(s, key, scripts, n), key, Waiters(s, key), n, left)
    ensures InTurn(ServeTurns(s, key, scripts, n + 1), key, Waiters(s, key), n + 1, left')
  {
    var (r, init) := (ServeTurns(s, key, scripts, n), Waiters(s, key));
    ServeKeeps(s, key, scripts, n);
    var script := ScriptAt(scripts, n);
    hide Inv, Visit, Sub, Waiters, GiveUp;
    forall m | n < m < |init|
      ensures init[m] !in GiveUp(r.s, key, script)
    {
      assert Waiters(r.s, key)[1..][m - n - 1] == init[m];
      assert !EvictedAt(s, key, scripts, n, init[m]);
    }
    left' := TurnOrder(r.s, key, script, init, n, left);
    assert init[..n + 1] == init[..n] + [init[n]];
  }

  lemma {:induction false} TurnsFair(s: State, key: Key, scripts: seq<Script>, n: nat) returns (left: seq<Id>)
    requires Inv(s) && n <= |Waiters(s, key)|
    requires forall i, m | 0 <= i < n && i < m < |Waiters(s, key)| ::
               !EvictedAt(s, key, scripts, i, Waiters(s, key)[m])
    ensures InTurn(ServeTurns(s, key, scripts, n), key, Waiters(s, key), n, left)
    decreases n
  {
    hide Inv, ServeTurns, EvictedAt, Waiters;
    if n == 0 {
      left := [];
      NoTurn(s, key, scripts);
    } else {
      left := TurnsFair(s, key, scripts, n - 1);
      left := TurnFair(s, key, scripts, n - 1, left);
    }
  }

  lemma NoTurn(s: State, key: Key, scripts: seq<Script>)
    ensures InTurn(ServeTurns(s, key, scripts, 0), key, Waiters(s, key), 0, [])
  {
    assert Waiters(s, key)[0..] + [] == Waiters(s, key);
  }

  // Serving a key visits the clients that wait for it each exactly once, in the order they blocked, if and only if no
  // turn makes a client that has its turn to come give up; and then those that are waiting afterwards stand in that
  // order.
  lemma ServeFair(s: State, key: Key, scripts: seq<Script>)
    requires Inv(s)
    ensures var (init, r) := (Waiters(s, key), ServeKey(s, key, scripts));
            && NoDupIds(init)
            && (r.visited == init <==>
                  forall n, m | 0 <= n < m < |init| :: !EvictedAt(s, key, scripts, n, init[m]))
            && (r.visited == init ==> Sub(Waiters(r.s, key), init))
  {
    var init := Waiters(s, key);
    var r := ServeTurns(s, key, scripts, |init|);
    assert r == ServeKey(s, key, scripts);
    WaitersDistinct(s, key);
    hide Inv, ServeTurns, ServeKey, EvictedAt, Waiters, Sub, NoDupIds;
    if forall n, m | 0 <= n < m < |init| :: !EvictedAt(s, key, scripts, n, init[m]) {
      var left := TurnsFair(s, key, scripts, |init|);
      assert init[..|init|] == init && init[|init|..] + left == left;
    } else {
      var n, m :| 0 <= n < m < |init| && EvictedAt(s, key, scripts, n, init[m]);
      TurnMissed(s, key, scripts, n, init, m);
    }
  }

  lemma TurnMissed(s: State, key: Key, scripts: seq<Script>, n: nat, init: seq<Id>, m: nat)
    requires Inv(s) && n < m < |init| && EvictedAt(s, key, scripts, n, init[m])
    ensures ServeTurns(s, key, scripts, |init|).visited != init
  {
    hide Inv, ServeTurns, EvictedAt, Waiters, NotAgain;
    ServeKeeps(s, key, scripts, n + 1);
    EvictedStaysAway(s, key, scripts, n, |init|, init[m]);
    TooLate(ServeTurns(s, key, scripts, n + 1).visited, ServeTurns(s, key, scripts, |init|).visited, init, m);
  }

  lemma TooLate(early: seq<Id>, late: seq<Id>, init: seq<Id>, m: nat)
    requires |early| <= m < |init| && NotAgain(early, late, init[m])
    ensures late != init
  {
    assert |late| == |init| ==> late[m] != init[m];
  }

  // ---------- two visits ----------

  const LIST := Key(0, "list")

  // The command of the first client makes the second give up, and blocks again.
  const GREEDY: seq<Script> := [[Evict(2), BlockAgain(OnList, [LIST], false)]]

  // Serving the key at the front of the queue visits the first of two waiters twice, and the second never.
  predicate VisitsTwice(s: State)
  {
    && s.draining != [] && s.draining[0] == LIST && Waiters(TakeKey(s), LIST) == [1, 2]
    && ServeKey(TakeKey(s), LIST, GREEDY).visited == [1, 1]
  }

  function OnTheList(address: nat): Client { Client(true, OnList, map[LIST := address], false, true, false) }

  lemma BlockedOnList(s: State, c: Id)
    requires c in s.clients && s.clients[c] == NewClient(false)
    ensures BlockForKeys(s, c, OnList, [LIST], false) ==
            s.(clients := s.clients[c := OnTheList(s.nextNode)],
               waiting := s.waiting[LIST := List(s, LIST) + [Node(s.nextNode, c)]],
               nextNode := s.nextNode + 1, total := s.total + 1,
               byType := s.byType[OnList := Number(s, OnList) + 1])
  {
    RegisterNothing(s, c, false);
    assert [LIST][..0] == [];
    var t := Register(s, c, LIST, false);
    assert RegisterAll(s, c, [LIST], false) == t;
    assert t.clients[c] == Client(false, NotBlocked, map[LIST := s.nextNode], false, false, false);
    assert t.clients[c := OnTheList(s.nextNode)] == s.clients[c := OnTheList(s.nextNode)];
  }

  lemma RegisterNothing(s: State, c: Id, ask: bool)
    requires c in s.clients
    ensures RegisterAll(s, c, [], ask) == s
  {}

  const BLOCKING: seq<Event> := [Connect(1, false)] + [Connect(2, false)] + [BlockOnKeys(1, OnList, [LIST], false)]
                                + [BlockOnKeys(2, OnList, [LIST], false)]
  const PUSHED: seq<Event> := BLOCKING + [Change(LIST, Some(ObjList))] + [Ready(LIST, ObjList, false)] + [Take]

  const TWO_BLOCKED := State(
    map[1 := OnTheList(0), 2 := OnTheList(1)], map[LIST := [Node(0, 1), Node(1, 2)]], map[], map[OnList := 2], 2, 2,
    map[], [], [], {})

  lemma BlockingRuns()
    ensures AllAllowed(EMPTY, BLOCKING) && Run(EMPTY, BLOCKING) == TWO_BLOCKED
  {
    hide Run, AllAllowed, BlockForKeys;
    NoEvents();
    var e1: Event := Connect(1, false);
    RunSnoc(EMPTY, [], e1);
    assert [] + [e1] == [e1];
    var s1 := EMPTY.(clients := map[1 := NewClient(false)]);
    RunSnoc(EMPTY, [e1], Connect(2, false));
    var s2 := EMPTY.(clients := map[1 := NewClient(false), 2 := NewClient(false)]);
    assert SetClient(s1, 2, NewClient(false)) == s2;
    var (b1, b2) := (BlockOnKeys(1, OnList, [LIST], false), BlockOnKeys(2, OnList, [LIST], false));
    BlockedOnList(s2, 1);
    RunSnoc(EMPTY, [e1] + [Connect(2, false)], b1);
    var s3 := Step(s2, b1);
    OneBlocked(s2);
    BlockedOnList(s3, 2);
    RunSnoc(EMPTY, [e1] + [Connect(2, false)] + [b1], b2);
  }

  const ONE_BLOCKED := State(
    map[1 := OnTheList(0), 2 := NewClient(false)], map[LIST := [Node(0, 1)]], map[], map[OnList := 1], 1, 1,
    map[], [], [], {})

  lemma OneBlocked(s: State)
    requires s == EMPTY.(clients := map[1 := NewClient(false), 2 := NewClient(false)])
    ensures BlockForKeys(s, 1, OnList, [LIST], false) == ONE_BLOCKED
    ensures BlockForKeys(ONE_BLOCKED, 2, OnList, [LIST], false) == TWO_BLOCKED
  {
    hide BlockForKeys;
    BlockedOnList(s, 1);
    BlockedOnList(ONE_BLOCKED, 2);
    assert List(s, LIST) + [Node(0, 1)] == [Node(0, 1)];
    assert List(ONE_BLOCKED, LIST) + [Node(1, 2)] == [Node(0, 1), Node(1, 2)];
    assert s.waiting[LIST := [Node(0, 1)]] == ONE_BLOCKED.waiting;
    assert s.clients[1 := OnTheList(0)] == ONE_BLOCKED.clients;
    assert ONE_BLOCKED.clients[2 := OnTheList(1)] == TWO_BLOCKED.clients;
    assert ONE_BLOCKED.waiting[LIST := [Node(0, 1), Node(1, 2)]] == TWO_BLOCKED.waiting;
    assert s.byType[OnList := 1] == ONE_BLOCKED.byType && ONE_BLOCKED.byType[OnList := 2] == TWO_BLOCKED.byType;
  }

  lemma NoEvents()
    ensures AllAllowed(EMPTY, []) && Run(EMPTY, []) == EMPTY
  {}

  const TWO_SERVED := TWO_BLOCKED.(types := map[LIST := ObjList], draining := [LIST], readySet := {LIST})

  lemma PushedRuns()
    ensures AllAllowed(EMPTY, PUSHED) && Run(EMPTY, PUSHED) == TWO_SERVED
  {
    hide Run, AllAllowed;
    BlockingRuns();
    var e: Event := Change(LIST, Some(ObjList));
    RunSnoc(EMPTY, BLOCKING, e);
    RunSnoc(EMPTY, BLOCKING + [e], Ready(LIST, ObjList, false));
    var s := Step(TWO_BLOCKED, e);
    assert s == TWO_BLOCKED.(types := map[LIST := ObjList]);
    assert Step(s, Ready(LIST, ObjList, false)) == s.(readySet := {LIST}, ready := [LIST]);
    RunSnoc(EMPTY, BLOCKING + [e] + [Ready(LIST, ObjList, false)], Take);
  }

  // The first turn of such a state: the second client is gone, the first is back on the list.
  lemma GreedyTurn(s: State)
    requires Inv(s) && LIST in s.waiting && Waiters(s, LIST) == [1, 2]
    requires 1 in s.clients && s.clients[1].btype == OnList && LIST in s.types && s.types[LIST] == ObjList
    ensures s.waiting[LIST] != [] && Waiters(Visit(s, LIST, GREEDY[0]), LIST) == [1]
  {
    hide Inv, Core, Drop, UnblockClient, RunScript;
    HeadIsWaiting(s, LIST);
    assert Waiters(s, LIST)[0] == s.waiting[LIST][0].client;
    RotateKeeps(s, LIST);
    RotateOrder(s, LIST, 1, [2]);
    hide Waiters;
    var s1 := Rotated(s, LIST);
    WokenOrder(s1, LIST, 1, [2]);
    var t := UnblockClient(Drop(s1, 1, {LIST}), 1);
    PendingKeeps(t, 1);
    GreedyRuns(NoPending(t, 1));
  }

  lemma GreedyRuns(s: State)
    requires Inv(s) && Waiters(s, LIST) == [2] && 1 in s.clients && !s.clients[1].blocked
    ensures Waiters(RunScript(s, 1, GREEDY[0]), LIST) == [1]
  {
    hide Inv, Waiters, UnblockWithReply, BlockForKeys;
    WaitersBlocked(s, LIST, 2);
    EvictOrder(s, 2, LIST);
    ActionKeeps(s, 1, Evict(2));
    var t := UnblockWithReply(s, 2);
    assert Waiters(t, LIST) == [];
    BlockOrder(t, 1, OnList, [LIST], false, LIST);
    var script := GREEDY[0];
    assert script[..1] == [Evict(2)] && script[..1][..0] == [];
    assert RunScript(s, 1, script[..1]) == t;
  }

  lemma TwiceExample()
    ensures exists events :: AllAllowed(EMPTY, events) && VisitsTwice(Run(EMPTY, events))
  {
    hide Inv, Run, AllAllowed, Visit;
    PushedRuns();
    EmptyInv();
    RunKeeps(EMPTY, PUSHED);
    TakeKeeps(TWO_SERVED);
    var s := TakeKey(TWO_SERVED);
    assert Waiters(s, LIST) == [1, 2];
    GreedyTurn(s);
    hide Waiters;
    TurnsGreedy(s);
    assert VisitsTwice(Run(EMPTY, PUSHED));
  }

  lemma TurnsGreedy(s: State)
    requires Inv(s) && LIST in s.waiting && s.waiting[LIST] != [] && Waiters(s, LIST) == [1, 2]
    requires Waiters(Visit(s, LIST, GREEDY[0]), LIST) == [1]
    ensures ServeKey(s, LIST, GREEDY).visited == [1, 1]
  {
    TurnIs(s, LIST, GREEDY, 0);
    TurnIs(s, LIST, GREEDY, 1);
    hide Inv, Visit, GiveUp, Leave;
    assert ServeTurns(s, LIST, GREEDY, 0) == Served(s, [], false);
    assert ServeTurns(s, LIST, GREEDY, 1).s == Visit(s, LIST, GREEDY[0]);
    assert |List(s, LIST)| == |Waiters(s, LIST)| == 2;
  }
}
