// The server's tables for blocked clients, updated in place as blocked.c does.
module BlockedServer {
  import opened Blocked
  import opened BlockedServe
  import opened Options

  // ---------- the list as the loop sees it ----------

  function Find(l: seq<Node>, address: nat): (i: nat)
    requires exists i | 0 <= i < |l| :: l[i].address == address
    ensures i < |l| && l[i].address == address
  {
    if l[0].address == address then 0
    else
      assert exists i | 0 <= i < |l[1..]| :: l[1..][i].address == address by {
        var i :| 0 <= i < |l| && l[i].address == address;
        assert l[1..][i - 1] == l[i];
      }
      1 + Find(l[1..], address)
  }

  // listUnlinkNode takes exactly the one node out.
  lemma {:induction false} UnlinkIsWithout(l: seq<Node>, i: nat)
    requires Distinct(l) && i < |l|
    ensures l[..i] + l[i + 1..] == Without(l, l[i].address)
    decreases |l|
  {
    var n := |l| - 1;
    var front := l[..n];
    if i == n {
      assert l[..i] + l[i + 1..] == front;
      forall j | 0 <= j < n
        ensures front[j].address != l[i].address
      {
        assert front[j] == l[j];
      }
      WithoutAbsent(front, l[i].address);
    } else {
      assert forall j | 0 <= j < n :: front[j] == l[j];
      UnlinkIsWithout(front, i);
      assert l[..i] + l[i + 1..] == (front[..i] + front[i + 1..]) + [l[n]];
    }
  }

  // Lists and counts that are present are not empty.
  predicate Tidy(s: State)
  {
    && (forall k | k in s.waiting :: s.waiting[k] != [])
    && forall k | k in s.noKey :: s.noKey[k] > 0 && k in s.waiting
  }

  lemma IndexTidy(s: State, asks: set<Id>)
    requires Index(s, asks)
    ensures Tidy(s)
  {
    forall k | k in s.waiting
      ensures s.waiting[k] != []
    {
      assert ListOk(s, k, asks);
    }
    forall k | k in s.noKey
      ensures s.noKey[k] > 0 && k in s.waiting
    {
      assert ListOk(s, k, asks);
    }
  }

  // What the caller of releaseBlockedEntry asserts: the client stands in the list of the key, and if it asked about the
  // missing key it was counted.
  predicate Releasable(s: State, c: Id, key: Key)
  {
    && c in s.clients && key in s.clients[c].keys && key in s.waiting && Distinct(s.waiting[key])
    && Node(s.clients[c].keys[key], c) in s.waiting[key]
    && (s.clients[c].unblockOnNoKey ==> key in s.noKey)
    && (Kept(s, c, {key}, key) == [] ==> KeptCount(s, c, {key}, key) <= 0)
  }

  // The steps of releasing one entry give the key side of the index without it.
  lemma ReleasedIs(s: State, c: Id, key: Key, waiting: map<Key, seq<Node>>, noKey: map<Key, nat>)
    requires Tidy(s) && Releasable(s, c, key)
    requires var l := Kept(s, c, {key}, key);
             && waiting == (if l == [] then s.waiting - {key} else s.waiting[key := l])
             && noKey == if l == [] then s.noKey - {key}
                         else if s.clients[c].unblockOnNoKey then
                           if s.noKey[key] == 1 then s.noKey - {key} else s.noKey[key := s.noKey[key] - 1]
                         else s.noKey
    ensures s.(waiting := waiting, noKey := noKey) == Unlinked(s, c, {key})
  {
    hide Without, Distinct;
    ReleasedWaiting(s, c, key, waiting);
    ReleasedNoKey(s, c, key, noKey);
    hide Kept, KeptCount;
  }

  lemma ReleasedWaiting(s: State, c: Id, key: Key, waiting: map<Key, seq<Node>>)
    requires Tidy(s) && Releasable(s, c, key)
    requires var l := Kept(s, c, {key}, key); waiting == (if l == [] then s.waiting - {key} else s.waiting[key := l])
    ensures Unlinked(s, c, {key}).waiting == waiting
  {
    hide Without, Distinct, KeptCount;
    assert Unlinked(s, c, {key}).waiting == waiting;
  }

  lemma ReleasedNoKey(s: State, c: Id, key: Key, noKey: map<Key, nat>)
    requires Tidy(s) && Releasable(s, c, key)
    requires noKey == if Kept(s, c, {key}, key) == [] then s.noKey - {key}
                      else if s.clients[c].unblockOnNoKey then
                        if s.noKey[key] == 1 then s.noKey - {key} else s.noKey[key := s.noKey[key] - 1]
                      else s.noKey
    ensures Unlinked(s, c, {key}).noKey == noKey
  {
    hide Without, Distinct;
    assert Unlinked(s, c, {key}).noKey == noKey;
  }

  lemma OneUnlinked(s: State, c: Id, done: set<Key>, k: Key, k': Key, asks: set<Id>)
    requires c in s.clients && done <= s.clients[c].keys.Keys && k in s.clients[c].keys && k !in done
    requires Index(s, asks) && (c in asks <==> s.clients[c].unblockOnNoKey)
    ensures var u := Unlinked(s, c, done);
            && List(u, k') == Kept(s, c, done, k') && Count(u, k') == KeptCount(s, c, done, k')
            && KeptCount(s, c, done, k') == Askers(Kept(s, c, done, k'), asks)
            && KeptCount(s, c, done + {k}, k') == Askers(Kept(s, c, done + {k}, k'), asks)
            && Kept(u, c, {k}, k') == Kept(s, c, done + {k}, k')
            && KeptCount(u, c, {k}, k') == KeptCount(s, c, done + {k}, k')
  {
    KeptFacts(s, c, done, k', asks);
    KeptFacts(s, c, done + {k}, k', asks);
    DropList(s, c, done, k', asks);
    hide Distinct, Index, ListOk;
    if Kept(s, c, done, k') == [] {
      assert Askers([], asks) == 0;
      assert Without([], 0) == [];
    }
  }

  lemma UnlinkedTidy(s: State, c: Id, done: set<Key>, asks: set<Id>)
    requires c in s.clients && done <= s.clients[c].keys.Keys && Index(s, asks)
    ensures Tidy(Unlinked(s, c, done))
  {
    IndexTidy(s, asks);
    hide Index;
  }

  lemma StillReleasable(s: State, c: Id, done: set<Key>, k: Key, asks: set<Id>)
    requires c in s.clients && done <= s.clients[c].keys.Keys && k in s.clients[c].keys && k !in done
    requires Index(s, asks) && (c in asks <==> s.clients[c].unblockOnNoKey)
    ensures Releasable(Unlinked(s, c, done), c, k)
  {
    var u := Unlinked(s, c, done);
    OneUnlinked(s, c, done, k, k, asks);
    assert KeyHeld(s, c, k) && ListOk(s, k, asks);
    var n := Node(s.clients[c].keys[k], c);
    assert Kept(s, c, done, k) == List(s, k) == List(u, k);
    AskersWithout(List(s, k), n, asks);
    assert Askers([], asks) == 0;
    hide Index, Without;
  }

  lemma UnlinkedWaiting(s: State, c: Id, done: set<Key>, k: Key, asks: set<Id>)
    requires c in s.clients && done <= s.clients[c].keys.Keys && k in s.clients[c].keys && k !in done
    requires Index(s, asks) && (c in asks <==> s.clients[c].unblockOnNoKey)
    ensures Unlinked(Unlinked(s, c, done), c, {k}).waiting == Unlinked(s, c, done + {k}).waiting
  {
    var u := Unlinked(s, c, done);
    var (x, y) := (Unlinked(u, c, {k}).waiting, Unlinked(s, c, done + {k}).waiting);
    forall k'
      ensures k' in x <==> k' in y
      ensures k' in x && k' in y ==> x[k'] == y[k']
    {
      OneUnlinked(s, c, done, k, k', asks);
      hide Index, Without, KeptCount, Askers;
    }
  }

  lemma UnlinkedNoKey(s: State, c: Id, done: set<Key>, k: Key, asks: set<Id>)
    requires c in s.clients && done <= s.clients[c].keys.Keys && k in s.clients[c].keys && k !in done
    requires Index(s, asks) && (c in asks <==> s.clients[c].unblockOnNoKey)
    ensures Unlinked(Unlinked(s, c, done), c, {k}).noKey == Unlinked(s, c, done + {k}).noKey
  {
    var u := Unlinked(s, c, done);
    var (x, y) := (Unlinked(u, c, {k}).noKey, Unlinked(s, c, done + {k}).noKey);
    forall k'
      ensures k' in x <==> k' in y
      ensures k' in x && k' in y ==> x[k'] == y[k']
    {
      OneUnlinked(s, c, done, k, k', asks);
      OneCount(s, c, done, k, k');
      hide Index, Without, Askers, Kept;
    }
  }

  lemma OneCount(s: State, c: Id, done: set<Key>, k: Key, k': Key)
    requires c in s.clients && done <= s.clients[c].keys.Keys && k in s.clients[c].keys && k !in done
    ensures k' in Unlinked(s, c, done).noKey <==>
            k' in s.noKey && Kept(s, c, done, k') != [] && KeptCount(s, c, done, k') > 0
    ensures KeptCount(s, c, done + {k}, k') <= KeptCount(s, c, done, k')
    ensures Kept(s, c, done, k') == [] ==> Kept(s, c, done + {k}, k') == []
  {
    hide Without;
    assert Without([], 0) == [] by { NothingWithout(0); }
    NothingWithout(s.clients[c].keys[k]);
  }

  lemma NothingWithout(address: nat)
    ensures Without([], address) == []
  {}

  // Taking one more key is one more step of the same.
  lemma UnlinkedStep(s: State, c: Id, done: set<Key>, k: Key, asks: set<Id>)
    requires c in s.clients && done <= s.clients[c].keys.Keys && k in s.clients[c].keys && k !in done
    requires Index(s, asks) && (c in asks <==> s.clients[c].unblockOnNoKey)
    ensures Tidy(Unlinked(s, c, done)) && Releasable(Unlinked(s, c, done), c, k)
    ensures Unlinked(Unlinked(s, c, done), c, {k}) == Unlinked(s, c, done + {k})
  {
    UnlinkedTidy(s, c, done, asks);
    StillReleasable(s, c, done, k, asks);
    UnlinkedWaiting(s, c, done, k, asks);
    UnlinkedNoKey(s, c, done, k, asks);
    hide Kept, KeptCount, Index, Releasable, Tidy;
  }

  lemma UnlinkNothing(s: State, c: Id, asks: set<Id>)
    requires c in s.clients && Index(s, asks)
    ensures Unlinked(s, c, {}) == s
  {
    IndexTidy(s, asks);
    assert Unlinked(s, c, {}).waiting == s.waiting;
    assert Unlinked(s, c, {}).noKey == s.noKey;
  }

  lemma OneKey(s: State, c: Id, key: Key, asks: set<Id>)
    requires c in s.clients && key in s.clients[c].keys
    requires Index(s, asks) && (c in asks <==> s.clients[c].unblockOnNoKey)
    ensures Tidy(s) && Releasable(s, c, key)
  {
    UnlinkNothing(s, c, asks);
    UnlinkedStep(s, c, {}, key, asks);
  }

  lemma RegisterNone(s: State, c: Id, ask: bool)
    requires c in s.clients
    ensures RegisterAll(s, c, [], ask) == s
  {}

  lemma CoreParts(s: State, c: Id)
    requires Core(s) && c in s.clients
    ensures Index(s, AskersOf(s)) && (c in AskersOf(s) <==> s.clients[c].unblockOnNoKey)
  {}

  lemma UnlinkedClients(s: State, c: Id, done: set<Key>)
    requires c in s.clients && done <= s.clients[c].keys.Keys
    ensures Unlinked(s, c, done).clients == s.clients
  {}

  lemma DropAll(s: State, c: Id)
    requires c in s.clients
    ensures var u := Unlinked(s, c, s.clients[c].keys.Keys);
            && u.clients == s.clients
            && Drop(s, c, s.clients[c].keys.Keys) == u.(clients := s.clients[c := s.clients[c].(keys := map[])])
  {
    hide Unlinked;
    UnlinkedClients(s, c, s.clients[c].keys.Keys);
    assert s.clients[c].keys - s.clients[c].keys.Keys == map[];
  }

  lemma NoScript(s: State, c: Id)
    ensures RunScript(s, c, []) == s
  {}

  lemma InvIsCore(s: State)
    requires Inv(s)
    ensures Core(s)
  {}

  lemma ReadyToRelease(s: State, c: Id, key: Key)
    requires Inv(s) && c in s.clients && key in s.clients[c].keys
    ensures Tidy(s) && Releasable(s, c, key)
  {
    OneKey(s, c, key, AskersOf(s));
  }

  // The states unblockClientOnKey passes through.
  lemma WokenStates(s: State, c: Id, key: Key)
    requires Inv(s) && c in s.clients && key in s.clients[c].keys && s.clients[c].blocked
    ensures Tidy(s) && Releasable(s, c, key) && Core(Drop(s, c, {key})) && c in Drop(s, c, {key}).clients
    ensures var t := UnblockClient(Drop(s, c, {key}), c);
            && Inv(t) && c in t.clients && Inv(NoPending(t, c))
            && NoPending(t, c) == t.(clients := t.clients[c := t.clients[c].(pending := false)])
  {
    ReadyToRelease(s, c, key);
    ReleaseKeeps(s, c, {key});
    DropShape(s, c, {key});
    var s1 := Drop(s, c, {key});
    assert ClientOk(s1.clients[c]);
    UnblockShape(s1, c);
    UnblockKeeps(s1, c);
    hide Drop, UnblockClient, Core, Tidy, Releasable;
    PendingKeeps(UnblockClient(s1, c), c);
  }

  lemma UnblockOnKeyIs(s: State, c: Id, key: Key, script: Script)
    requires c in s.clients && key in s.clients[c].keys
    ensures var s1 := UnblockClient(Drop(s, c, {key}), c);
            UnblockOnKey(s, c, key, script) ==
            if c in s1.clients && s1.clients[c].pending then RunScript(NoPending(s1, c), c, script) else s1
  {}

  lemma NoTurns(s: State, key: Key, scripts: seq<Script>)
    ensures ServeTurns(s, key, scripts, 0) == Served(s, [], false)
  {}

  lemma NextTurn(s: State, key: Key, scripts: seq<Script>, n: nat)
    requires !ServeTurns(s, key, scripts, n).stopped
    ensures var r := ServeTurns(s, key, scripts, n);
            List(r.s, key) != [] ==>
              ServeTurns(s, key, scripts, n + 1) ==
              Served(Visit(r.s, key, ScriptAt(scripts, n)), r.visited + [List(r.s, key)[0].client], false)
  {
    hide Visit;
  }

  // Once nobody waits, no later turn does anything.
  lemma {:induction false} StopsForGood(s: State, key: Key, scripts: seq<Script>, n: nat, m: nat)
    requires n < m && var r := ServeTurns(s, key, scripts, n); !r.stopped && List(r.s, key) == []
    ensures var r := ServeTurns(s, key, scripts, n); ServeTurns(s, key, scripts, m) == r.(stopped := true)
    decreases m
  {
    hide Visit;
    if m > n + 1 {
      StopsForGood(s, key, scripts, n, m - 1);
    }
  }

  class Server {
    var clients: map<Id, Client>
    var blockingKeys: map<Key, seq<Node>>
    var unblockOnNoKey: map<Key, nat>
    var blockedByType: map<Btype, int>
    var blockedClients: int
    var nextNode: nat
    var types: map<Key, ObjType>
    var readyKeys: seq<Key>
    var draining: seq<Key>
    var readySet: set<Key>

    function Value(): State
      reads this
    {
      State(clients, blockingKeys, unblockOnNoKey, blockedByType, blockedClients, nextNode, types, readyKeys, draining,
            readySet)
    }

    constructor ()
      ensures Value() == EMPTY && Inv(Value())
    {
      clients, blockingKeys, unblockOnNoKey, blockedByType := map[], map[], map[], map[];
      blockedClients, nextNode, types, readyKeys, draining, readySet := 0, 0, map[], [], [], {};
      new;
      EmptyInv();
    }

    // blockClient
    method BlockClient(c: Id, btype: Btype)
      requires c in clients
      modifies this
      ensures Value() == Blocked.BlockClient(old(Value()), c, btype)
    {
      clients := clients[c := clients[c].(blocked := true, btype := btype)];
      if !clients[c].isModule {
        blockedClients := blockedClients + 1;
      }
      blockedByType := blockedByType[btype := Number(Value(), btype) + 1];
    }

    // blockForKeys, but for the timeout it stores
    method BlockForKeys(c: Id, btype: Btype, keys: seq<Key>, askNoKey: bool)
      requires c in clients
      modifies this
      ensures Value() == Blocked.BlockForKeys(old(Value()), c, btype, keys, askNoKey)
    {
      ghost var s0 := Value();
      RegisterNone(s0, c, askNoKey);
      for j := 0 to |keys|
        invariant Value() == RegisterAll(s0, c, keys[..j], askNoKey)
      {
        assert keys[..j + 1][..j] == keys[..j];
        Register(c, keys[j], askNoKey);
      }
      assert keys[..|keys|] == keys;
      clients :=
        clients[c := clients[c].(unblockOnNoKey := askNoKey, pending := btype != OnModule || clients[c].pending)];
      BlockClient(c, btype);
    }

    // The body of the loop over the keys.
    method Register(c: Id, key: Key, askNoKey: bool)
      requires c in clients
      modifies this
      ensures Value() == Blocked.Register(old(Value()), c, key, askNoKey)
    {
      if key in clients[c].keys {
        return;
      }
      var node := Node(nextNode, c);
      nextNode := nextNode + 1;
      var l := (if key in blockingKeys then blockingKeys[key] else []) + [node];
      blockingKeys := blockingKeys[key := l];
      clients := clients[c := clients[c].(keys := clients[c].keys[key := l[|l| - 1].address])];
      if askNoKey {
        if key !in unblockOnNoKey {
          unblockOnNoKey := unblockOnNoKey[key := 1];
        } else {
          unblockOnNoKey := unblockOnNoKey[key := unblockOnNoKey[key] + 1];
        }
      }
    }

    // releaseBlockedEntry
    method ReleaseBlockedEntry(c: Id, key: Key, removeKey: bool)
      requires Tidy(Value()) && Releasable(Value(), c, key)
      modifies this
      ensures Value() ==
              if removeKey then Drop(old(Value()), c, {key}) else Unlinked(old(Value()), c, {key})
    {
      ghost var s0 := Value();
      var pos := clients[c].keys[key];
      var l := blockingKeys[key];
      assert exists i | 0 <= i < |l| :: l[i].address == pos by {
        var i :| 0 <= i < |l| && l[i] == Node(pos, c);
      }
      var i := Find(l, pos);
      UnlinkIsWithout(l, i);
      hide Find, Distinct, Without;
      l := l[..i] + l[i + 1..];
      assert l == Kept(s0, c, {key}, key);
      blockingKeys := blockingKeys[key := l];
      if |l| == 0 {
        blockingKeys := blockingKeys - {key};
        unblockOnNoKey := unblockOnNoKey - {key};
        assert blockingKeys == s0.waiting - {key};
      } else if clients[c].unblockOnNoKey {
        var n := unblockOnNoKey[key] - 1;
        if n == 0 {
          unblockOnNoKey := unblockOnNoKey - {key};
        } else {
          unblockOnNoKey := unblockOnNoKey[key := n];
        }
      }
      ReleasedIs(s0, c, key, blockingKeys, unblockOnNoKey);
      if removeKey {
        clients := clients[c := clients[c].(keys := clients[c].keys - {key})];
      }
    }

    // unblockClientWaitingData
    method UnblockClientWaitingData(c: Id)
      requires c in clients && Core(Value())
      modifies this
      ensures Value() == Drop(old(Value()), c, old(clients[c].keys.Keys))
    {
      hide Core, Unlinked, Drop, Index, Tidy, Releasable, AskersOf;
      ghost var s0 := Value();
      ghost var asks := AskersOf(s0);
      var todo := clients[c].keys.Keys;
      ghost var all := todo;
      CoreParts(s0, c);
      UnlinkNothing(s0, c, asks);
      assert all - todo == {};
      while todo != {}
        invariant todo <= all == s0.clients[c].keys.Keys && Value() == Unlinked(s0, c, all - todo)
        invariant c in clients && clients == s0.clients
        decreases |todo|
      {
        var key :| key in todo;
        UnlinkedStep(s0, c, all - todo, key, asks);
        UnlinkedClients(s0, c, all - todo + {key});
        ReleaseBlockedEntry(c, key, false);
        assert all - (todo - {key}) == all - todo + {key};
        todo := todo - {key};
      }
      assert all - todo == all;
      DropAll(s0, c);
      clients := clients[c := clients[c].(keys := map[])];
    }

    // unblockClient, but for the queue of clients with input to process
    method UnblockClient(c: Id)
      requires c in clients && Core(Value())
      modifies this
      ensures Value() == Blocked.UnblockClient(old(Value()), c)
    {
      hide Core, Drop;
      ghost var s0 := Value();
      DropShape(s0, c, s0.clients[c].keys.Keys);
      if KeyType(clients[c].btype) {
        UnblockClientWaitingData(c);
      }
      var btype := clients[c].btype;
      if !clients[c].isModule {
        blockedClients := blockedClients - 1;
      }
      blockedByType := blockedByType[btype := Number(Value(), btype) - 1];
      clients := clients[c := clients[c].(blocked := false, btype := NotBlocked, unblockOnNoKey := false)];
    }

    // unblockClientOnTimeout and unblockClientOnError, but for the replies
    method UnblockClientOnTimeout(c: Id)
      requires c in clients && Core(Value())
      modifies this
      ensures Value() == UnblockWithReply(old(Value()), c)
    {
      hide Core, Blocked.UnblockClient;
      PendingCore(Value(), c);
      clients := clients[c := clients[c].(pending := false)];
      UnblockClient(c);
    }

    // signalKeyAsReadyLogic
    method SignalKeyAsReady(key: Key, type': ObjType, deleted: bool)
      modifies this
      ensures Value() == Signal(old(Value()), key, type', deleted)
    {
      var btype := BlockedType(type');
      if btype == NotBlocked {
        return;
      }
      if Number(Value(), btype) == 0 && Number(Value(), OnModule) == 0 {
        return;
      }
      if deleted {
        if key !in unblockOnNoKey {
          return;
        }
      } else if key !in blockingKeys {
        return;
      }
      if key in readySet {
        return;
      }
      readySet := readySet + {key};
      readyKeys := readyKeys + [key];
    }

    // What a command does while it runs again.
    method Reprocess(c: Id, script: Script)
      requires Inv(Value())
      modifies this
      ensures Value() == RunScript(old(Value()), c, script) && Inv(Value())
    {
      ghost var s0 := Value();
      hide Inv, Signal, Blocked.BlockForKeys, UnblockWithReply;
      NoScript(s0, c);
      for i := 0 to |script|
        invariant Value() == RunScript(s0, c, script[..i]) && Inv(Value())
      {
        assert script[..i + 1][..i] == script[..i];
        ActionKeeps(Value(), c, script[i]);
        match script[i] {
          case SignalKey(key, type', deleted) =>
            SignalKeyAsReady(key, type', deleted);
          case SetKey(key, value) =>
            types := if value.Some? then types[key := value.value] else types - {key};
          case BlockAgain(btype, keys, askNoKey) =>
            if c in clients && !clients[c].blocked && CommandType(btype) {
              BlockForKeys(c, btype, keys, askNoKey);
            }
          case Evict(d) =>
            if d in clients && clients[d].blocked {
              InvIsCore(Value());
              UnblockClientOnTimeout(d);
            }
        }
      }
      assert script[..|script|] == script;
    }

    // unblockClientOnKey
    method UnblockClientOnKey(c: Id, key: Key, script: Script)
      requires Inv(Value()) && c in clients && key in clients[c].keys && clients[c].blocked
      modifies this
      ensures Value() == UnblockOnKey(old(Value()), c, key, script)
    {
      hide Core, Inv, Drop, Blocked.UnblockClient, NoPending, RunScript, UnblockOnKey, Tidy, Releasable;
      ghost var s0 := Value();
      WokenStates(s0, c, key);
      ReleaseBlockedEntry(c, key, true);
      UnblockClient(c);
      UnblockOnKeyIs(s0, c, key, script);
      if clients[c].pending {
        clients := clients[c := clients[c].(pending := false)];
        Reprocess(c, script);
      }
    }

    // One turn of the loop of handleClientsBlockedOnKey.
    method VisitHead(key: Key, script: Script)
      requires Inv(Value()) && key in blockingKeys && blockingKeys[key] != []
      modifies this
      ensures Value() == Visit(old(Value()), key, script)
    {
      HeadIsWaiting(Value(), key);
      RotateKeeps(Value(), key);
      var l := blockingKeys[key];
      var receiver := l[0].client;
      hide Inv, RunScript, UnblockOnKey;
      blockingKeys := blockingKeys[key := l[1..] + [l[0]]];
      if Wakes(Value(), receiver, key) {
        if clients[receiver].btype != OnModule {
          UnblockClientOnKey(receiver, key, script);
        } else {
          Reprocess(receiver, script);
        }
      }
    }

    // handleClientsBlockedOnKey; `scripts` is what the woken commands will do.
    method HandleClientsBlockedOnKey(key: Key, scripts: seq<Script>) returns (visited: seq<Id>)
      requires Inv(Value())
      modifies this
      ensures var r := ServeKey(old(Value()), key, scripts); Value() == r.s && visited == r.visited
      ensures Inv(Value())
    {
      hide Inv, Visit, ServeTurns;
      ghost var s0 := Value();
      visited := [];
      NoTurns(s0, key, scripts);
      if key !in blockingKeys {
        return;
      }
      var count := |blockingKeys[key]|;
      var turn := 0;
      while turn < count
        invariant 0 <= turn <= count && Inv(Value())
        invariant ServeTurns(s0, key, scripts, turn) == Served(Value(), visited, false)
      {
        ServeKeeps(s0, key, scripts, turn + 1);
        NextTurn(s0, key, scripts, turn);
        if key !in blockingKeys {
          StopsForGood(s0, key, scripts, turn, count);
          return;
        }
        HeadIsWaiting(Value(), key);
        visited := visited + [blockingKeys[key][0].client];
        VisitHead(key, ScriptAt(scripts, turn));
        turn := turn + 1;
      }
    }

    // handleClientsBlockedOnKeys: taking the queue, so that serving can fill a new one ...
    method TakeReadyKeys()
      requires draining == []
      modifies this
      ensures Value() == TakeReady(old(Value()))
    {
      draining := readyKeys;
      readyKeys := [];
    }

    // ... and serving the first key of the one taken, which may be signalled again from then on.
    method ServeFirst(scripts: seq<Script>) returns (visited: seq<Id>)
      requires Inv(Value()) && draining != []
      modifies this
      ensures Value() == Step(old(Value()), Serve(scripts)) && Inv(Value())
      ensures visited == ServeKey(TakeKey(old(Value())), old(draining[0]), scripts).visited
    {
      hide Inv, ServeTurns;
      TakeKeeps(Value());
      var key := draining[0];
      readySet := readySet - {key};
      draining := draining[1..];
      visited := HandleClientsBlockedOnKey(key, scripts);
    }
  }
}
