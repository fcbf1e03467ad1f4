// What blocking, signalling and serving are for: which clients a signal reaches, whom a turn wakes and whom it leaves
// waiting, and that keys are served in the order in which they were signalled.
module BlockedWake {
  import opened Blocked
  import opened BlockedServe
  import opened BlockedOrder
  import opened Options

  // ---------- who waits for what ----------

  // The kinds of value a command can block for, each with the way a client is blocked for it.
  predicate WaitsFor(b: Btype, t: ObjType)
  {
    || (b == OnList && t == ObjList) || (b == OnZset && t == ObjZset)
    || (b == OnStream && t == ObjStream) || (b == OnModule && t == ObjModule)
  }

  // Nothing ever blocks for the other kinds.
  predicate Blocking(t: ObjType) { t == ObjList || t == ObjZset || t == ObjStream || t == ObjModule }

  // A client that a value of kind `t` is of interest to: blocked for it, or by a module, which may want anything.
  predicate Interested(cl: Client, t: ObjType) { cl.btype == OnModule || WaitsFor(cl.btype, t) }

  // ---------- signalling ----------

  ghost predicate SomeInterested(s: State, t: ObjType)
  {
    exists c :: c in s.clients && s.clients[c].blocked && Interested(s.clients[c], t)
  }

  // The key is of interest to somebody who waits for it; if it was deleted, to somebody who asked about that.
  ghost predicate SomeWaits(s: State, key: Key, deleted: bool)
  {
    exists c :: c in s.clients && key in s.clients[c].keys && (deleted ==> s.clients[c].unblockOnNoKey)
  }

  // A signal queues the key at the end if and only if a client can block for that kind of value and some blocked client
  // may be interested, somebody waits for the key, and it is not queued yet. Otherwise nothing happens.
  lemma SignalExactly(s: State, key: Key, t: ObjType, deleted: bool)
    requires Inv(s)
    ensures Signal(s, key, t, deleted) ==
            if Blocking(t) && SomeInterested(s, t) && SomeWaits(s, key, deleted) && key !in s.readySet then
              s.(readySet := s.readySet + {key}, ready := s.ready + [key])
            else s
  {
    if Blocking(t) {
      InterestedCounted(s, t);
      WaitsListed(s, key, deleted);
    }
    hide Inv, SomeInterested, SomeWaits;
  }

  lemma InterestedCounted(s: State, t: ObjType)
    requires Inv(s) && Blocking(t)
    ensures SomeInterested(s, t) <==> Number(s, BlockedType(t)) != 0 || Number(s, OnModule) != 0
  {
    hide Index, Queued;
    var b := BlockedType(t);
    assert Number(s, b) == |OfType(s, b)| && Number(s, OnModule) == |OfType(s, OnModule)|;
    if Number(s, b) != 0 {
      var c :| c in OfType(s, b);
      assert c in s.clients && Interested(s.clients[c], t);
    }
    if Number(s, OnModule) != 0 {
      var c :| c in OfType(s, OnModule);
      assert c in s.clients && Interested(s.clients[c], t);
    }
    if SomeInterested(s, t) {
      var c :| c in s.clients && s.clients[c].blocked && Interested(s.clients[c], t);
      assert c in OfType(s, b) || c in OfType(s, OnModule);
    }
  }

  lemma WaitsListed(s: State, key: Key, deleted: bool)
    requires Inv(s)
    ensures SomeWaits(s, key, deleted) <==> if deleted then key in s.noKey else key in s.waiting
  {
    hide Counted, Queued;
    var asks := AskersOf(s);
    assert ListOk(s, key, asks);
    if SomeWaits(s, key, deleted) {
      var c :| c in s.clients && key in s.clients[c].keys && (deleted ==> s.clients[c].unblockOnNoKey);
      assert KeyHeld(s, c, key);
      if deleted {
        AskerCounts(List(s, key), asks, Node(s.clients[c].keys[key], c));
      }
    }
    if !deleted && key in s.waiting {
      var n := List(s, key)[0];
      assert n in List(s, key) && NodeHeld(s, key, n);
    }
    if deleted && key in s.noKey {
      var n := SomeAsker(List(s, key), asks);
      assert NodeHeld(s, key, n);
    }
  }

  lemma {:induction false} SomeAsker(l: seq<Node>, asks: set<Id>) returns (n: Node)
    requires Askers(l, asks) > 0
    ensures n in l && n.client in asks
  {
    if l[|l| - 1].client in asks {
      n := l[|l| - 1];
    } else {
      n := SomeAsker(l[..|l| - 1], asks);
    }
  }

  // So a client never misses a signal for a key it waits for and a value it is interested in.
  lemma InterestedHears(s: State, key: Key, t: ObjType, deleted: bool, c: Id)
    requires Inv(s) && c in s.clients && key in s.clients[c].keys && Blocking(t) && Interested(s.clients[c], t)
    requires deleted ==> s.clients[c].unblockOnNoKey
    ensures var u := Signal(s, key, t, deleted); key in u.readySet && key in u.draining + u.ready
  {
    SignalExactly(s, key, t, deleted);
    assert ClientOk(s.clients[c]);
    assert SomeInterested(s, t) && SomeWaits(s, key, deleted);
    hide Index, Counted, Signal;
  }

  // ---------- blocking and unblocking ----------

  lemma InvClient(s: State, c: Id)
    requires Inv(s) && c in s.clients
    ensures Core(s) && ClientOk(s.clients[c]) && Awaiting(s.clients[c])
  {
    hide Index, Counted, Queued;
  }

  // Blocking for keys: the client waits for exactly those keys, as it asked to, at the end of each list, and its
  // command will be run again unless a module sees to that. Nothing changes for anyone else.
  lemma BlockSets(s: State, c: Id, btype: Btype, keys: seq<Key>, ask: bool, key: Key)
    requires Inv(s) && c in s.clients && !s.clients[c].blocked && KeyType(btype)
    ensures var t := BlockForKeys(s, c, btype, keys, ask);
            && t.clients.Keys == s.clients.Keys && (forall d | d in s.clients && d != c :: t.clients[d] == s.clients[d])
            && t.clients[c].blocked && t.clients[c].btype == btype && t.clients[c].unblockOnNoKey == ask
            && (btype != OnModule ==> t.clients[c].pending) && t.clients[c].isModule == s.clients[c].isModule
            && (key in t.clients[c].keys <==> key in keys)
            && Waiters(t, key) == Waiters(s, key) + if key in keys then [c] else []
  {
    hide Inv, Prepared, BlockForKeys, Waiters;
    InvClient(s, c);
    PreparedKeeps(s, c, btype, keys, ask);
    PreparedIs(s, c, btype, keys, ask, key);
    BlockOrder(s, c, btype, keys, ask, key);
    BlockedIs(s, c, btype, keys, ask);
  }

  lemma BlockedIs(s: State, c: Id, btype: Btype, keys: seq<Key>, ask: bool)
    requires c in s.clients
    ensures BlockForKeys(s, c, btype, keys, ask) == BlockClient(Prepared(s, c, btype, keys, ask), c, btype)
  {
    hide RegisterAll;
  }

  lemma PreparedIs(s: State, c: Id, btype: Btype, keys: seq<Key>, ask: bool, key: Key)
    requires Inv(s) && c in s.clients && !s.clients[c].blocked
    ensures var cl := Prepared(s, c, btype, keys, ask).clients[c];
            cl.isModule == s.clients[c].isModule && (key in cl.keys <==> key in keys)
  {
    hide Inv, Index, RegisterAll, Waiters;
    InvClient(s, c);
    RegisterOrder(s, c, keys, ask, key);
    RegisterModule(s, c, keys, ask);
  }

  lemma {:induction false} RegisterModule(s: State, c: Id, keys: seq<Key>, ask: bool)
    requires c in s.clients
    ensures RegisterAll(s, c, keys, ask).clients[c].isModule == s.clients[c].isModule
    decreases |keys|
  {
    if keys != [] {
      RegisterModule(s, c, keys[..|keys| - 1], ask);
    }
  }

  // A command that runs again and finds nothing blocks its client again, for lists, sorted sets or streams; a client
  // that is gone, or has been blocked meanwhile, is left alone.
  lemma BlocksAgain(s: State, r: Id, btype: Btype, keys: seq<Key>, ask: bool)
    ensures RunAction(s, r, BlockAgain(btype, keys, ask)) ==
            if r in s.clients && !s.clients[r].blocked && (btype == OnList || btype == OnZset || btype == OnStream)
            then BlockForKeys(s, r, btype, keys, ask) else s
  {}

  // Unblocking: the client waits for nothing any more, and nothing changes for anyone else. Its command stays to be
  // run again, ...
  lemma UnblockSets(s: State, c: Id, key: Key)
    requires Core(s) && c in s.clients && s.clients[c].blocked
    ensures var (t, cl) := (UnblockClient(s, c), s.clients[c]);
            && t.clients == s.clients[c := Client(false, NotBlocked, map[], false, cl.pending, cl.isModule)]
            && Waiters(t, key) == Leave(Waiters(s, key), {c})
  {
    hide Index, Counted, Queued, UnblockClient, Waiters;
    assert ClientOk(s.clients[c]);
    UnblockShape(s, c);
    UnblockOrder(s, c, key);
  }

  // ... unless it is timed out or fails.
  lemma ReplySets(s: State, c: Id, key: Key)
    requires Core(s) && c in s.clients && s.clients[c].blocked
    ensures var (t, cl) := (UnblockWithReply(s, c), s.clients[c]);
            && t.clients == s.clients[c := Client(false, NotBlocked, map[], false, false, cl.isModule)]
            && Waiters(t, key) == Leave(Waiters(s, key), {c})
  {
    var s1 := NoPending(s, c);
    assert Waiters(s1, key) == Waiters(s, key);
    hide Core, UnblockClient, Waiters;
    PendingCore(s, c);
    UnblockSets(s1, c, key);
  }

  // A client that comes waits for nothing; one that goes is in no list any more.
  lemma ComeAndGo(s: State, c: Id, isModule: bool, key: Key)
    requires Inv(s)
    ensures c !in s.clients ==>
              var t := Step(s, Connect(c, isModule));
              && t.clients == s.clients[c := Client(false, NotBlocked, map[], false, false, isModule)]
              && Waiters(t, key) == Waiters(s, key)
    ensures c in s.clients ==>
              var t := Step(s, Disconnect(c));
              && t.clients == s.clients - {c}
              && Waiters(t, key) == Leave(Waiters(s, key), {c})
  {
    hide Index, Counted, Queued, UnblockClient, Waiters, Leave;
    if c !in s.clients {
      SameWaiters(s, Step(s, Connect(c, isModule)), key);
    } else if s.clients[c].blocked {
      UnblockSets(s, c, key);
      SameWaiters(UnblockClient(s, c), Step(s, Disconnect(c)), key);
    } else {
      Uninvolved(s, c, key);
      SameWaiters(s, Step(s, Disconnect(c)), key);
    }
  }

  lemma SameWaiters(s: State, t: State, key: Key)
    requires t.waiting == s.waiting
    ensures Waiters(t, key) == Waiters(s, key)
  {}

  // Who is not blocked is in no list.
  lemma Uninvolved(s: State, c: Id, key: Key)
    requires Inv(s) && c in s.clients && !s.clients[c].blocked
    ensures Waiters(s, key) == Leave(Waiters(s, key), {c})
  {
    WaitersKnow(s, key, c);
    assert ClientOk(s.clients[c]);
    hide Inv, Waiters;
    LeaveNone(Waiters(s, key), {c});
  }

  // ---------- a turn ----------

  // What wakes the head of the line: a value of the kind it waits for, any value if a module blocked it, or anything
  // at all if it asked about missing keys.
  predicate Roused(s: State, key: Key, c: Id)
    requires c in s.clients
  {
    || s.clients[c].unblockOnNoKey
    || (key in s.types && (s.clients[c].btype == OnModule || WaitsFor(s.clients[c].btype, s.types[key])))
  }

  // The turn of a waiter that is not roused only sends it to the end of the line.
  lemma TurnPasses(s: State, key: Key, script: Script)
    requires Inv(s) && key in s.waiting
    ensures s.waiting[key] != []
    ensures var c := s.waiting[key][0].client;
            c in s.clients
            && (!Roused(s, key, c) ==>
                  var t := Visit(s, key, script);
                  && t.clients == s.clients && Waiters(t, key) == Waiters(s, key)[1..] + [c]
                  && t == s.(waiting := t.waiting))
  {
    HeadIsWaiting(s, key);
    hide Inv, RunScript, UnblockOnKey;
    var (t, l) := (Rotated(s, key), s.waiting[key]);
    IdsAppend(l[1..], l[0]);
    assert Ids(l[1..]) == Ids(l)[1..];
  }

  // The turn of one that is roused unblocks it, and then its command runs again; what that does is up to the command.
  lemma TurnWakes(s: State, key: Key, script: Script)
    requires Inv(s) && key in s.waiting
    ensures s.waiting[key] != []
    ensures var c := s.waiting[key][0].client;
            c in s.clients
            && (Roused(s, key, c) && s.clients[c].btype != OnModule ==>
                  var u := Visit(s, key, []);
                  && Visit(s, key, script) == RunScript(u, c, script)
                  && u.clients == s.clients[c := Client(false, NotBlocked, map[], false, false, s.clients[c].isModule)]
                  && Waiters(u, key) == Waiters(s, key)[1..])
  {
    hide Inv, RunScript, UnblockOnKey, Visit, Waiters, Roused, Leave;
    HeadIsWaiting(s, key);
    var c := s.waiting[key][0].client;
    if Roused(s, key, c) && s.clients[c].btype != OnModule {
      RotateKeeps(s, key);
      HeadAsleep(s, key);
      HeadWakes(s, key, script);
      HeadWakes(s, key, []);
      WokenUp(Rotated(s, key), c, key, script);
      HeadLeaves(s, key);
    }
  }

  lemma HeadWakes(s: State, key: Key, script: Script)
    requires Inv(s) && key in s.waiting && s.waiting[key] != [] && s.waiting[key][0].client in s.clients
    requires Roused(s, key, s.waiting[key][0].client) && s.clients[s.waiting[key][0].client].btype != OnModule
    ensures var c := s.waiting[key][0].client;
            c in Rotated(s, key).clients && key in Rotated(s, key).clients[c].keys
            && Visit(s, key, script) == UnblockOnKey(Rotated(s, key), c, key, script)
  {
    HeadAsleep(s, key);
    hide Inv, UnblockOnKey;
  }

  // One that a module blocked is left to the module.
  lemma ModuleTurn(s: State, key: Key, script: Script)
    requires Inv(s) && key in s.waiting
    ensures s.waiting[key] != []
    ensures var c := s.waiting[key][0].client;
            c in s.clients
            && (Roused(s, key, c) && s.clients[c].btype == OnModule ==>
                  Visit(s, key, script) == RunScript(Rotated(s, key), c, script))
  {
    HeadIsWaiting(s, key);
    hide Inv, RunScript, UnblockOnKey;
  }

  lemma HeadAsleep(s: State, key: Key)
    requires Inv(s) && key in s.waiting && s.waiting[key] != []
    ensures var (c, t) := (s.waiting[key][0].client, Rotated(s, key));
            c in t.clients && key in t.clients[c].keys && t.clients[c].blocked
            && (t.clients[c].btype != OnModule ==> t.clients[c].pending)
  {
    HeadIsWaiting(s, key);
    assert Awaiting(s.clients[s.waiting[key][0].client]);
    hide Core;
  }

  lemma HeadLeaves(s: State, key: Key)
    requires Inv(s) && key in s.waiting && s.waiting[key] != []
    ensures var c := s.waiting[key][0].client;
            Leave(Waiters(Rotated(s, key), key), {c}) == Waiters(s, key)[1..]
  {
    WaitersDistinct(s, key);
    hide Inv;
    var l := s.waiting[key];
    var c := l[0].client;
    IdsAppend(l[1..], l[0]);
    assert Ids(l[1..]) == Ids(l)[1..];
    LeaveMore(Ids(l)[1..], c, {c});
    forall d | d in Ids(l)[1..]
      ensures d != c
    {
      var i :| 0 <= i < |l| - 1 && Ids(l)[1..][i] == d;
      assert Ids(l)[i + 1] == d && Ids(l)[0] == c;
    }
    LeaveNone(Ids(l)[1..], {c});
    assert Ids(l)[1..] + [] == Ids(l)[1..];
  }

  // What unblocking on a key comes to before the command runs again.
  lemma WokenUp(s: State, c: Id, key: Key, script: Script)
    requires Inv(s) && c in s.clients && key in s.clients[c].keys && s.clients[c].blocked && s.clients[c].pending
    ensures var u := UnblockOnKey(s, c, key, []);
            && UnblockOnKey(s, c, key, script) == RunScript(u, c, script)
            && u.clients == s.clients[c := Client(false, NotBlocked, map[], false, false, s.clients[c].isModule)]
            && Waiters(u, key) == Leave(Waiters(s, key), {c})
  {
    ReleaseKeeps(s, c, {key});
    DropShape(s, c, {key});
    var s0 := Drop(s, c, {key});
    assert ClientOk(s0.clients[c]);
    UnblockShape(s0, c);
    var s1 := UnblockClient(s0, c);
    DropOrder(s, c, {key}, key);
    UnblockOrder(s0, c, key);
    LeaveTwice(Waiters(s, key), {c}, {c});
    assert {c} + {c} == {c};
    assert Waiters(NoPending(s1, c), key) == Waiters(s1, key);
    DroppedClient(s, s0, c);
    hide Core, Drop, UnblockClient, Waiters, Leave;
  }

  lemma DroppedClient(s: State, s0: State, c: Id)
    requires c in s.clients && OnlyKeysOf(s, s0, c)
    ensures s0.clients == s.clients[c := s0.clients[c]] && s0.clients[c] == s.clients[c].(keys := s0.clients[c].keys)
  {}

  // ---------- the order of the keys ----------

  // The keys to be served, in order.
  function Queue(s: State): seq<Key> { s.draining + s.ready }

  // Nothing leaves the queue, and what joins it joins at the end.
  predicate QueueGrows(s: State, t: State) { t.draining == s.draining && s.ready <= t.ready }

  lemma ActionQueue(s: State, r: Id, a: Action)
    requires Inv(s)
    ensures QueueGrows(s, RunAction(s, r, a))
  {
    hide Inv, BlockForKeys, UnblockWithReply;
    match a
    case SignalKey(key, type', deleted) =>
    case SetKey(key, value) =>
    case BlockAgain(btype, keys, ask) =>
      if r in s.clients && !s.clients[r].blocked && CommandType(btype) {
        PreparedQueue(s, r, btype, keys, ask);
      }
    case Evict(c) =>
      if c in s.clients && s.clients[c].blocked {
        ReplyQueue(s, c);
      }
  }

  lemma PreparedQueue(s: State, c: Id, btype: Btype, keys: seq<Key>, ask: bool)
    requires Inv(s) && c in s.clients && !s.clients[c].blocked
    ensures var t := BlockForKeys(s, c, btype, keys, ask); t.draining == s.draining && t.ready == s.ready
  {
    hide Inv, RegisterAll;
    RegisterQueue(s, c, keys, ask);
  }

  lemma {:induction false} RegisterQueue(s: State, c: Id, keys: seq<Key>, ask: bool)
    requires c in s.clients
    ensures var t := RegisterAll(s, c, keys, ask); t.draining == s.draining && t.ready == s.ready
    decreases |keys|
  {
    if keys != [] {
      RegisterQueue(s, c, keys[..|keys| - 1], ask);
    }
  }

  lemma ReplyQueue(s: State, c: Id)
    requires Inv(s) && c in s.clients && s.clients[c].blocked
    ensures var t := UnblockWithReply(s, c); t.draining == s.draining && t.ready == s.ready
  {
    InvClient(s, c);
    hide Inv, Core, Drop, UnblockClient;
    UnblockShape(NoPending(s, c), c);
  }

  lemma {:induction false} ScriptQueue(s: State, r: Id, script: Script)
    requires Inv(s)
    ensures QueueGrows(s, RunScript(s, r, script))
    decreases |script|
  {
    hide Inv, RunAction;
    if script != [] {
      var front := script[..|script| - 1];
      ScriptQueue(s, r, front);
      ScriptKeeps(s, r, front);
      ActionQueue(RunScript(s, r, front), r, script[|script| - 1]);
    }
  }

  lemma VisitQueue(s: State, key: Key, script: Script)
    requires Inv(s) && key in s.waiting && s.waiting[key] != []
    ensures QueueGrows(s, Visit(s, key, script))
  {
    hide Inv, RunScript, UnblockOnKey, Wakes;
    HeadIsWaiting(s, key);
    RotateKeeps(s, key);
    var (c, t) := (s.waiting[key][0].client, Rotated(s, key));
    if Wakes(t, c, key) {
      if t.clients[c].btype != OnModule {
        OnKeyQueue(t, c, key, script);
      } else {
        ScriptQueue(t, c, script);
      }
    }
  }

  lemma OnKeyQueue(s: State, c: Id, key: Key, script: Script)
    requires Inv(s) && c in s.clients && key in s.clients[c].keys && s.clients[c].blocked
    ensures QueueGrows(s, UnblockOnKey(s, c, key, script))
  {
    ReleaseKeeps(s, c, {key});
    DropShape(s, c, {key});
    var s0 := Drop(s, c, {key});
    InvClient(s0, c);
    UnblockShape(s0, c);
    UnblockKeeps(s0, c);
    var s1 := UnblockClient(s0, c);
    hide Core, Drop, UnblockClient, NoPending, RunScript;
    if s1.clients[c].pending {
      PendingKeeps(s1, c);
      ScriptQueue(NoPending(s1, c), c, script);
      NoPendingQueue(s1, c);
    }
  }

  lemma NoPendingQueue(s: State, c: Id)
    requires c in s.clients
    ensures QueueGrows(s, NoPending(s, c))
  {}

  lemma {:induction false} TurnsQueue(s: State, key: Key, scripts: seq<Script>, n: nat)
    requires Inv(s)
    ensures QueueGrows(s, ServeTurns(s, key, scripts, n).s)
    decreases n
  {
    hide Inv, Visit;
    if n > 0 {
      TurnsQueue(s, key, scripts, n - 1);
      ServeKeeps(s, key, scripts, n - 1);
      var r := ServeTurns(s, key, scripts, n - 1);
      if !r.stopped && List(r.s, key) != [] {
        VisitQueue(r.s, key, ScriptAt(scripts, n - 1));
      }
    }
  }

  lemma ServeQueue(s: State, scripts: seq<Script>)
    requires Inv(s) && s.draining != []
    ensures Queue(s) == [s.draining[0]] + Queue(s)[1..]
    ensures Queue(s)[1..] <= Queue(ServeKey(TakeKey(s), s.draining[0], scripts).s)
  {
    hide Inv, ServeTurns;
    TakeKeeps(s);
    TurnsQueue(TakeKey(s), s.draining[0], scripts, |List(TakeKey(s), s.draining[0])|);
    assert Queue(s)[1..] == s.draining[1..] + s.ready;
  }

  lemma UnblockQueue(s: State, c: Id)
    requires Inv(s) && c in s.clients
    ensures Queue(UnblockClient(s, c)) == Queue(s)
  {
    hide Inv, Core, Drop, UnblockClient;
    InvClient(s, c);
    UnblockShape(s, c);
  }

  lemma DropQueue(s: State, c: Id, key: Key)
    requires c in s.clients && key in s.clients[c].keys
    ensures Queue(Drop(s, c, {key})) == Queue(s)
  {
    DropShape(s, c, {key});
    hide Drop;
  }

  // Serving takes the first key of the queue; every other step leaves the queue as it is, but for more at the end.
  lemma StepQueue(s: State, e: Event)
    requires Inv(s) && Allowed(s, e)
    ensures e.Serve? ==> s.draining != [] && Queue(s) == [s.draining[0]] + Queue(s)[1..]
    ensures (if e.Serve? then Queue(s)[1..] else Queue(s)) <= Queue(Step(s, e))
  {
    hide Inv, ServeKey, TakeKey, UnblockClient, UnblockWithReply, BlockForKeys, Drop;
    match e
    case Serve(scripts) => ServeQueue(s, scripts);
    case Disconnect(c) => UnblockQueue(s, c);
    case Unblock(c) => UnblockQueue(s, c);
    case Timeout(c) => ReplyQueue(s, c);
    case BlockOnKeys(c, btype, keys, ask) => PreparedQueue(s, c, btype, keys, ask);
    case Release(c, key) => DropQueue(s, c, key);
    case _ =>
  }

  // The keys that are served, in order.
  function ServedKeys(s: State, events: seq<Event>): seq<Key>
    requires AllAllowed(s, events)
    decreases |events|
  {
    if events == [] then []
    else (if events[0].Serve? then [s.draining[0]] else []) + ServedKeys(Step(s, events[0]), events[1..])
  }

  // Keys are served in the order in which they were queued: what is queued at any time is what is served from then on,
  // and what is left of it at the end is queued still.
  lemma {:induction false} ServedInOrder(s: State, events: seq<Event>)
    requires Inv(s) && AllAllowed(s, events)
    ensures Queue(s) <= ServedKeys(s, events) + Queue(Run(s, events))
    decreases |events|
  {
    hide Inv, Step, Allowed, Queue, Run, AllAllowed, ServedKeys;
    ServedFirst(s, events);
    if events == [] {
      assert [] + Queue(s) == Queue(s);
    } else {
      var (t, e) := (Step(s, events[0]), events[0]);
      StepKeeps(s, e);
      StepQueue(s, e);
      ServedInOrder(t, events[1..]);
      var first := if e.Serve? then [s.draining[0]] else [];
      var rest := ServedKeys(t, events[1..]);
      BehindFirstKey(Queue(s), first, Queue(t), rest + Queue(Run(t, events[1..])));
      assert first + rest + Queue(Run(t, events[1..])) == first + (rest + Queue(Run(t, events[1..])));
    }
  }

  lemma ServedFirst(s: State, events: seq<Event>)
    requires AllAllowed(s, events)
    ensures if events == [] then ServedKeys(s, events) == [] && Run(s, events) == s
            else
              var e := events[0];
              && Allowed(s, e) && (e.Serve? ==> s.draining != []) && AllAllowed(Step(s, e), events[1..])
              && Run(s, events) == Run(Step(s, e), events[1..])
              && ServedKeys(s, events) ==
                 (if e.Serve? then [s.draining[0]] else []) + ServedKeys(Step(s, e), events[1..])
  {
    hide Step;
  }

  lemma BehindFirstKey(q: seq<Key>, first: seq<Key>, r: seq<Key>, all: seq<Key>)
    requires r <= all && |first| <= 1
    requires (if first == [] then q <= r else q != [] && q == first + q[1..] && q[1..] <= r)
    ensures q <= first + all
  {}

  // ---------- from the write to the wake-up ----------

  // The state in which the first client waiting for a key is about to have its turn, after a value of kind `t` has
  // been stored there and signalled to a server with nothing in its queue.
  function Stored(s: State, key: Key, t: ObjType): State
    requires s.draining == []
  {
    var s1 := TakeReady(Signal(SetType(s, key, Some(t)), key, t, false));
    if s1.draining != [] then TakeKey(s1) else s1
  }

  // Storing a value of the kind it waits for unblocks the first client waiting for the key, before anyone else has a
  // turn.
  lemma StoringWakes(s: State, key: Key, t: ObjType, c: Id)
    requires Inv(s) && Queue(s) == [] && key in s.waiting && s.waiting[key] != [] && s.waiting[key][0].client == c
    requires c in s.clients && s.clients[c].btype != OnModule && Blocking(t) && WaitsFor(s.clients[c].btype, t)
    ensures var u := Stored(s, key, t);
            && Inv(u) && key in u.waiting && u.waiting[key] == s.waiting[key]
            && ServeTurns(u, key, [], 1).visited == [c]
            && var v := ServeTurns(u, key, [], 1).s;
               c in v.clients && !v.clients[c].blocked && v.clients[c].keys == map[]
  {
    hide Inv, Signal, Visit, ServeTurns, Waiters;
    StoredKeeps(s, key, t, c);
    var u := Stored(s, key, t);
    FirstTurn(u, key);
    TurnWakes(u, key, []);
  }

  lemma StoredKeeps(s: State, key: Key, t: ObjType, c: Id)
    requires Inv(s) && Queue(s) == [] && key in s.waiting && s.waiting[key] != [] && s.waiting[key][0].client == c
    requires c in s.clients && Blocking(t) && Interested(s.clients[c], t)
    ensures var u := Stored(s, key, t);
            && Inv(u) && u.waiting == s.waiting && u.clients == s.clients && u.types == s.types[key := t]
  {
    hide Inv, Signal;
    var s1 := SetType(s, key, Some(t));
    TypesKeep(s, key, Some(t));
    HeadIsWaiting(s1, key);
    InterestedHears(s1, key, t, false, c);
    SignalKeeps(s1, key, t, false);
    StoredShape(s, key, t);
    TakeKeeps(Signal(s1, key, t, false));
    TakeKeeps(TakeReady(Signal(s1, key, t, false)));
  }

  lemma StoredShape(s: State, key: Key, t: ObjType)
    requires s.draining == s.ready == []
    ensures var s2 := Signal(SetType(s, key, Some(t)), key, t, false);
            && s2.draining == [] && s2.ready in {[], [key]} && s2.clients == s.clients && s2.waiting == s.waiting
            && s2.types == s.types[key := t]
  {
    assert [] + [key] == [key];
  }

  lemma FirstTurn(s: State, key: Key)
    requires key in s.waiting && s.waiting[key] != []
    ensures ServeTurns(s, key, [], 1) == Served(Visit(s, key, []), [s.waiting[key][0].client], false)
  {
    assert ServeTurns(s, key, [], 0) == Served(s, [], false);
    hide Visit;
  }
}
