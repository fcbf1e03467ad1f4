// Serving the clients blocked on a ready key: rotate, wake, reprocess; and whole runs of blocking, unblocking, timing
// out, signalling and serving.
module BlockedServe {
  import opened Blocked
  import opened Options

  // ---------- rotation ----------

  // listRotateHeadToTail on the wait list of a key
  function Rotated(s: State, key: Key): State
    requires key in s.waiting && s.waiting[key] != []
  {
    s.(waiting := s.waiting[key := s.waiting[key][1..] + [s.waiting[key][0]]])
  }

  lemma {:induction false} AskersConcat(a: seq<Node>, b: seq<Node>, asks: set<Id>)
    ensures Askers(a + b, asks) == Askers(a, asks) + Askers(b, asks)
    decreases |b|
  {
    if b == [] {
      assert a + b == a;
    } else {
      assert (a + b)[..|a + b| - 1] == a + b[..|b| - 1];
      AskersConcat(a, b[..|b| - 1], asks);
    }
  }

  lemma RotatedList(l: seq<Node>, asks: set<Id>)
    requires l != [] && Distinct(l)
    ensures var r := l[1..] + [l[0]];
            && Distinct(r) && Askers(r, asks) == Askers(l, asks) && forall n :: n in r <==> n in l
  {
    var (head, tail) := ([l[0]], l[1..]);
    assert l == head + tail;
    AskersConcat(head, tail, asks);
    AskersConcat(tail, head, asks);
    var r := tail + head;
    forall i, j | 0 <= i < j < |r|
      ensures r[i].address != r[j].address
    {
      assert r[i] == l[i + 1];
      assert r[j] == if j < |tail| then l[j + 1] else l[0];
    }
  }

  lemma RotateKeeps(s: State, key: Key)
    requires Inv(s) && key in s.waiting && s.waiting[key] != []
    ensures Inv(Rotated(s, key))
  {
    hide Counted, Queued, Distinct, Askers;
    var (t, asks) := (Rotated(s, key), AskersOf(s));
    assert ListOk(s, key, asks);
    RotatedList(s.waiting[key], asks);
    forall k
      ensures ListOk(t, k, asks)
      ensures forall n :: n in List(t, k) <==> n in List(s, k)
    {
      assert ListOk(s, k, asks);
    }
    hide List, ListOk;
    forall k, n | n in List(t, k)
      ensures NodeHeld(t, k, n)
    {
      assert NodeHeld(s, k, n);
    }
    forall c, k | c in t.clients && k in t.clients[c].keys
      ensures KeyHeld(t, c, k)
    {
      assert KeyHeld(s, c, k);
    }
    assert AskersOf(t) == asks;
    SameCounts(s, t);
    SameQueue(s, t);
    forall d | d in t.clients
      ensures ClientOk(t.clients[d]) && Awaiting(t.clients[d])
    {
      assert ClientOk(s.clients[d]) && Awaiting(s.clients[d]);
    }
  }

  // ---------- reprocessing ----------

  // What the command of a woken client may do while it runs again: touch keys and signal them, block its client once
  // more, and make other clients give up.
  datatype Action =
    | SignalKey(key: Key, type': ObjType, deleted: bool)
    | SetKey(key: Key, value: Option<ObjType>)
    | BlockAgain(btype: Btype, keys: seq<Key>, unblockOnNoKey: bool)
    | Evict(c: Id)

  type Script = seq<Action>

  function SetType(s: State, key: Key, value: Option<ObjType>): State
  {
    s.(types := if value.Some? then s.types[key := value.value] else s.types - {key})
  }

  predicate CommandType(b: Btype) { b == OnList || b == OnZset || b == OnStream }

  function RunAction(s: State, receiver: Id, a: Action): State
  {
    match a
    case SignalKey(key, type', deleted) => Signal(s, key, type', deleted)
    case SetKey(key, value) => SetType(s, key, value)
    case BlockAgain(btype, keys, unblockOnNoKey) =>
      if receiver in s.clients && !s.clients[receiver].blocked && CommandType(btype) then
        BlockForKeys(s, receiver, btype, keys, unblockOnNoKey)
      else s
    case Evict(c) => if c in s.clients && s.clients[c].blocked then UnblockWithReply(s, c) else s
  }

  function RunScript(s: State, receiver: Id, script: Script): State
  {
    if script == [] then s
    else RunAction(RunScript(s, receiver, script[..|script| - 1]), receiver, script[|script| - 1])
  }

  lemma TypesKeep(s: State, key: Key, value: Option<ObjType>)
    requires Inv(s)
    ensures Inv(SetType(s, key, value))
  {
    hide Index, Counted, Queued;
    var t := SetType(s, key, value);
    SameIndex(s, t, AskersOf(s));
    assert AskersOf(t) == AskersOf(s);
    SameCounts(s, t);
    SameQueue(s, t);
  }

  lemma ActionKeeps(s: State, receiver: Id, a: Action)
    requires Inv(s)
    ensures Inv(RunAction(s, receiver, a))
  {
    hide Inv, Signal, SetType, BlockForKeys, UnblockWithReply;
    match a
    case SignalKey(key, type', deleted) => SignalKeeps(s, key, type', deleted);
    case SetKey(key, value) => TypesKeep(s, key, value);
    case BlockAgain(btype, keys, unblockOnNoKey) =>
      if receiver in s.clients && !s.clients[receiver].blocked && CommandType(btype) {
        BlockKeeps(s, receiver, btype, keys, unblockOnNoKey);
      }
    case Evict(c) =>
      if c in s.clients && s.clients[c].blocked {
        ReplyKeeps(s, c);
      }
  }

  lemma {:induction false} ScriptKeeps(s: State, receiver: Id, script: Script)
    requires Inv(s)
    ensures Inv(RunScript(s, receiver, script))
    decreases |script|
  {
    hide Inv, RunAction;
    if script != [] {
      ScriptKeeps(s, receiver, script[..|script| - 1]);
      ActionKeeps(RunScript(s, receiver, script[..|script| - 1]), receiver, script[|script| - 1]);
    }
  }

  // ---------- one visit ----------

  // The key holds what the client waits for, or the client wants to hear about anything.
  predicate Wakes(s: State, c: Id, key: Key)
    requires c in s.clients
  {
    var cl := s.clients[c];
    || (key in s.types && cl.btype == BlockedType(s.types[key]))
    || (key in s.types && cl.btype == OnModule)
    || cl.unblockOnNoKey
  }

  // unblockClientOnKey, the command doing `script` when it runs again
  function UnblockOnKey(s: State, c: Id, key: Key, script: Script): State
    requires c in s.clients && key in s.clients[c].keys
  {
    var s1 := UnblockClient(Drop(s, c, {key}), c);
    if c in s1.clients && s1.clients[c].pending then RunScript(NoPending(s1, c), c, script) else s1
  }

  // A turn of the loop of handleClientsBlockedOnKey.
  function Visit(s: State, key: Key, script: Script): State
    requires key in s.waiting && s.waiting[key] != []
  {
    var (receiver, s1) := (s.waiting[key][0].client, Rotated(s, key));
    if receiver in s1.clients && key in s1.clients[receiver].keys && Wakes(s1, receiver, key) then
      if s1.clients[receiver].btype != OnModule then UnblockOnKey(s1, receiver, key, script)
      else RunScript(s1, receiver, script)
    else s1
  }

  // Every waiter is a client that knows it waits: the guard of Visit only spells out what always holds.
  lemma HeadIsWaiting(s: State, key: Key)
    requires Inv(s) && key in s.waiting
    ensures s.waiting[key] != []
    ensures var c := s.waiting[key][0].client;
            c in s.clients && key in s.clients[c].keys && s.clients[c].blocked && KeyType(s.clients[c].btype)
  {
    assert ListOk(s, key, AskersOf(s));
    var n := List(s, key)[0];
    assert n in List(s, key) && NodeHeld(s, key, n);
    assert ClientOk(s.clients[n.client]);
  }

  lemma UnblockOnKeyKeeps(s: State, c: Id, key: Key, script: Script)
    requires Inv(s) && c in s.clients && key in s.clients[c].keys && s.clients[c].blocked
    ensures Inv(UnblockOnKey(s, c, key, script))
  {
    ReleaseKeeps(s, c, {key});
    DropShape(s, c, {key});
    var s0 := Drop(s, c, {key});
    assert ClientOk(s0.clients[c]);
    UnblockShape(s0, c);
    UnblockKeeps(s0, c);
    var s1 := UnblockClient(s0, c);
    hide Core, Index, Drop, UnblockClient, NoPending, RunScript;
    if s1.clients[c].pending {
      PendingKeeps(s1, c);
      ScriptKeeps(NoPending(s1, c), c, script);
    }
  }

  lemma VisitKeeps(s: State, key: Key, script: Script)
    requires Inv(s) && key in s.waiting && s.waiting[key] != []
    ensures Inv(Visit(s, key, script))
  {
    HeadIsWaiting(s, key);
    RotateKeeps(s, key);
    hide Inv, RunScript, UnblockOnKey, Wakes;
    var (receiver, s1) := (s.waiting[key][0].client, Rotated(s, key));
    if Wakes(s1, receiver, key) {
      if s1.clients[receiver].btype != OnModule {
        UnblockOnKeyKeeps(s1, receiver, key, script);
      } else {
        ScriptKeeps(s1, receiver, script);
      }
    }
  }

  // ---------- serving a key ----------

  datatype Served = Served(s: State, visited: seq<Id>, stopped: bool)

  function ScriptAt(scripts: seq<Script>, i: nat): Script { if i < |scripts| then scripts[i] else [] }

  // The first `n` turns; the loop ends early when nobody waits for the key any more.
  function ServeTurns(s: State, key: Key, scripts: seq<Script>, n: nat): Served
  {
    if n == 0 then Served(s, [], false)
    else
      var r := ServeTurns(s, key, scripts, n - 1);
      if r.stopped || List(r.s, key) == [] then r.(stopped := true)
      else
        Served(Visit(r.s, key, ScriptAt(scripts, n - 1)), r.visited + [List(r.s, key)[0].client], false)
  }

  // handleClientsBlockedOnKey: as many turns as there were waiters at the start.
  function ServeKey(s: State, key: Key, scripts: seq<Script>): Served
  {
    ServeTurns(s, key, scripts, |List(s, key)|)
  }

  lemma {:induction false} ServeKeeps(s: State, key: Key, scripts: seq<Script>, n: nat)
    requires Inv(s)
    ensures var r := ServeTurns(s, key, scripts, n); Inv(r.s) && |r.visited| <= n
    decreases n
  {
    hide Inv, Visit;
    if n > 0 {
      ServeKeeps(s, key, scripts, n - 1);
      var r := ServeTurns(s, key, scripts, n - 1);
      if !r.stopped && List(r.s, key) != [] {
        VisitKeeps(r.s, key, ScriptAt(scripts, n - 1));
      }
    }
  }

  // ---------- runs ----------

  datatype Event =
    | Connect(c: Id, isModule: bool)
    | Disconnect(c: Id)
    | BlockOnKeys(c: Id, btype: Btype, keys: seq<Key>, unblockOnNoKey: bool)
    | BlockElse(c: Id, btype: Btype)
    | Unblock(c: Id)
    | Timeout(c: Id)
    | Release(c: Id, key: Key)
    | Change(key: Key, value: Option<ObjType>)
    | Ready(key: Key, type': ObjType, deleted: bool)
    | Take
    | Serve(scripts: seq<Script>)

  // What the callers see to: only idle clients block and only blocked ones are unblocked; the queue is taken when the
  // last one is used up.
  predicate Allowed(s: State, e: Event)
  {
    match e
    case Connect(c, _) => c !in s.clients
    case Disconnect(c) => c in s.clients
    case BlockOnKeys(c, btype, _, _) => c in s.clients && !s.clients[c].blocked && KeyType(btype)
    case BlockElse(c, btype) => c in s.clients && !s.clients[c].blocked && btype != NotBlocked
    case Unblock(c) => c in s.clients && s.clients[c].blocked
    case Timeout(c) => c in s.clients && s.clients[c].blocked
    case Release(c, key) => c in s.clients && key in s.clients[c].keys
    case Take => s.draining == []
    case Serve(_) => s.draining != []
    case _ => true
  }

  function Remove(s: State, c: Id): State { s.(clients := s.clients - {c}) }

  function Step(s: State, e: Event): State
    requires Allowed(s, e)
  {
    match e
    case Connect(c, isModule) => SetClient(s, c, NewClient(isModule))
    case Disconnect(c) => Remove(if s.clients[c].blocked then UnblockClient(s, c) else s, c)
    case BlockOnKeys(c, btype, keys, unblockOnNoKey) => BlockForKeys(s, c, btype, keys, unblockOnNoKey)
    case BlockElse(c, btype) => BlockClient(s, c, btype)
    case Unblock(c) => UnblockClient(s, c)
    case Timeout(c) => UnblockWithReply(s, c)
    case Release(c, key) => Drop(s, c, {key})
    case Change(key, value) => SetType(s, key, value)
    case Ready(key, type', deleted) => Signal(s, key, type', deleted)
    case Take => TakeReady(s)
    case Serve(scripts) => ServeKey(TakeKey(s), s.draining[0], scripts).s
  }

  const EMPTY := State(map[], map[], map[], map[], 0, 0, map[], [], [], {})

  lemma EmptyInv()
    ensures Inv(EMPTY)
  {
    forall t: Btype
      ensures Number(EMPTY, t) == |OfType(EMPTY, t)|
    {
      assert OfType(EMPTY, t) == {};
    }
    assert Regular(EMPTY) == {};
    assert AskersOf(EMPTY) == {};
    forall k
      ensures ListOk(EMPTY, k, {})
    {
      assert List(EMPTY, k) == [];
    }
  }

  function NewClient(isModule: bool): Client { Client(false, NotBlocked, map[], false, false, isModule) }

  lemma ConnectIndex(s: State, c: Id, isModule: bool, asks: set<Id>)
    requires Index(s, asks) && c !in s.clients
    ensures Index(SetClient(s, c, NewClient(isModule)), asks)
  {
    hide ListOk;
    var t := SetClient(s, c, NewClient(isModule));
    forall k
      ensures ListOk(t, k, asks)
    {
      assert ListOk(s, k, asks);
      SameList(s, t, k, asks);
    }
    forall k, n | n in List(t, k)
      ensures NodeHeld(t, k, n)
    {
      assert NodeHeld(s, k, n);
    }
    forall c', k | c' in t.clients && k in t.clients[c'].keys
      ensures KeyHeld(t, c', k)
    {
      assert KeyHeld(s, c', k);
    }
  }

  lemma ConnectCounts(s: State, c: Id, isModule: bool)
    requires Counted(s) && c !in s.clients
    ensures Counted(SetClient(s, c, NewClient(isModule)))
  {
    var t := SetClient(s, c, NewClient(isModule));
    forall b: Btype
      ensures Number(t, b) == |OfType(t, b)|
    {
      assert OfType(t, b) == OfType(s, b) && Number(t, b) == Number(s, b);
    }
    assert Regular(t) == Regular(s);
  }

  lemma ConnectKeeps(s: State, c: Id, isModule: bool)
    requires Inv(s) && c !in s.clients
    ensures Inv(SetClient(s, c, NewClient(isModule)))
  {
    hide Queued, Index, Counted;
    var t := SetClient(s, c, NewClient(isModule));
    ConnectIndex(s, c, isModule, AskersOf(s));
    ConnectCounts(s, c, isModule);
    assert AskersOf(t) == AskersOf(s);
    SameQueue(s, t);
    forall d | d in t.clients
      ensures ClientOk(t.clients[d]) && Awaiting(t.clients[d])
    {
      assert d != c ==> ClientOk(s.clients[d]) && Awaiting(s.clients[d]);
    }
  }

  lemma RemoveKeeps(s: State, c: Id)
    requires Inv(s) && c in s.clients && !s.clients[c].blocked
    ensures Inv(Remove(s, c))
  {
    hide Queued, ListOk;
    var t := Remove(s, c);
    assert ClientOk(s.clients[c]);
    assert AskersOf(t) == AskersOf(s);
    forall k
      ensures ListOk(t, k, AskersOf(t))
    {
      assert ListOk(s, k, AskersOf(s));
      SameList(s, t, k, AskersOf(s));
    }
    forall k, n | n in List(t, k)
      ensures NodeHeld(t, k, n)
    {
      assert NodeHeld(s, k, n);
    }
    forall c', k | c' in t.clients && k in t.clients[c'].keys
      ensures KeyHeld(t, c', k)
    {
      assert KeyHeld(s, c', k);
    }
    forall b: Btype
      ensures Number(t, b) == |OfType(t, b)|
    {
      assert OfType(t, b) == OfType(s, b) && Number(t, b) == Number(s, b);
    }
    assert Regular(t) == Regular(s);
    SameQueue(s, t);
    forall d | d in t.clients
      ensures ClientOk(t.clients[d]) && Awaiting(t.clients[d])
    {
      assert ClientOk(s.clients[d]) && Awaiting(s.clients[d]);
    }
  }

  lemma DisconnectKeeps(s: State, c: Id)
    requires Inv(s) && c in s.clients
    ensures Inv(Step(s, Disconnect(c)))
  {
    assert ClientOk(s.clients[c]);
    UnblockShape(s, c);
    if s.clients[c].blocked {
      UnblockKeeps(s, c);
      hide Core, UnblockClient;
      RemoveKeeps(UnblockClient(s, c), c);
    } else {
      RemoveKeeps(s, c);
    }
  }

  lemma StepKeeps(s: State, e: Event)
    requires Inv(s) && Allowed(s, e)
    ensures Inv(Step(s, e))
  {
    hide Core, BlockForKeys, BlockClient, UnblockClient, UnblockWithReply, Drop, SetType, Signal, TakeReady, TakeKey;
    hide ServeTurns, SetClient;
    match e
    case Connect(c, isModule) => ConnectKeeps(s, c, isModule);
    case Disconnect(c) => DisconnectKeeps(s, c);
    case BlockOnKeys(c, btype, keys, unblockOnNoKey) => BlockKeeps(s, c, btype, keys, unblockOnNoKey);
    case BlockElse(c, btype) => BlockOtherKeeps(s, c, btype);
    case Unblock(c) => UnblockKeeps(s, c);
    case Timeout(c) => ReplyKeeps(s, c);
    case Release(c, key) => ReleaseKeeps(s, c, {key});
    case Change(key, value) => TypesKeep(s, key, value);
    case Ready(key, type', deleted) => SignalKeeps(s, key, type', deleted);
    case Take => TakeKeeps(s);
    case Serve(scripts) =>
      TakeKeeps(s);
      var (t, key) := (TakeKey(s), s.draining[0]);
      ServeKeeps(t, key, scripts, |List(t, key)|);
  }

  predicate AllAllowed(s: State, events: seq<Event>)
    decreases |events|
  {
    events == [] || (Allowed(s, events[0]) && AllAllowed(Step(s, events[0]), events[1..]))
  }

  function Run(s: State, events: seq<Event>): State
    requires AllAllowed(s, events)
    decreases |events|
  {
    if events == [] then s else Run(Step(s, events[0]), events[1..])
  }

  // Every run from the empty server keeps the index, the counters and the queue in order.
  lemma {:induction false} RunKeeps(s: State, events: seq<Event>)
    requires Inv(s) && AllAllowed(s, events)
    ensures Inv(Run(s, events))
    decreases |events|
  {
    hide Inv, Step, Allowed;
    if events != [] {
      StepKeeps(s, events[0]);
      RunKeeps(Step(s, events[0]), events[1..]);
    }
  }

  lemma {:induction false} RunSnoc(s: State, events: seq<Event>, e: Event)
    requires AllAllowed(s, events) && Allowed(Run(s, events), e)
    ensures AllAllowed(s, events + [e]) && Run(s, events + [e]) == Step(Run(s, events), e)
    decreases |events|
  {
    hide Step, Allowed;
    var all := events + [e];
    if events == [] {
      assert all == [e] && all[1..] == [];
    } else {
      assert all[0] == events[0] && all[1..] == events[1..] + [e];
      RunSnoc(Step(s, events[0]), events[1..], e);
    }
  }
}
