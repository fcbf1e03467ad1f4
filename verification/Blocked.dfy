// Blocking clients: the two-way index between clients and keys of blocked.c, its counters, and the queue of ready keys.
module Blocked {
  import opened Options

  type Id = nat

  datatype Key = Key(db: nat, name: string)

  datatype ObjType = ObjString | ObjList | ObjSet | ObjZset | ObjHash | ObjModule | ObjStream

  datatype Btype = NotBlocked | OnList | OnModule | OnStream | OnZset | Wait | WaitAof | Postpone | Shutdown | Lazyfree

  // An element of a wait list: its address and the client it holds.
  datatype Node = Node(address: nat, client: Id)

  // The flags and the blocking state of a client. `keys` maps each key waited for to the address of the list node.
  datatype Client = Client(
    blocked: bool, btype: Btype, keys: map<Key, nat>, unblockOnNoKey: bool, pending: bool, isModule: bool)

  datatype State = State(
    clients: map<Id, Client>,
    waiting: map<Key, seq<Node>>, // blocking_keys
    noKey: map<Key, nat>,         // blocking_keys_unblock_on_nokey
    byType: map<Btype, int>,      // blocked_clients_by_type
    total: int,                   // blocked_clients
    nextNode: nat,                // the next free address
    types: map<Key, ObjType>,     // what the keys hold
    ready: seq<Key>,              // server.ready_keys
    draining: seq<Key>,           // the list taken by handleClientsBlockedOnKeys
    readySet: set<Key>)           // db->ready_keys

  // ---------- wait lists ----------

  function List(s: State, k: Key): seq<Node> { if k in s.waiting then s.waiting[k] else [] }

  function Count(s: State, k: Key): nat { if k in s.noKey then s.noKey[k] else 0 }

  predicate Distinct(l: seq<Node>) { forall i, j | 0 <= i < j < |l| :: l[i].address != l[j].address }

  function Without(l: seq<Node>, address: nat): seq<Node>
  {
    if l == [] then []
    else
      var last := l[|l| - 1];
      Without(l[..|l| - 1], address) + if last.address == address then [] else [last]
  }

  // How many of the waiters asked to be woken when the key goes away.
  function Askers(l: seq<Node>, asks: set<Id>): nat
  {
    if l == [] then 0 else Askers(l[..|l| - 1], asks) + if l[|l| - 1].client in asks then 1 else 0
  }

  lemma {:induction false} InWithout(l: seq<Node>, address: nat, n: Node)
    ensures n in Without(l, address) <==> n in l && n.address != address
  {
    if l != [] {
      var (front, last) := (l[..|l| - 1], l[|l| - 1]);
      InWithout(front, address, n);
      assert l == front + [last];
    }
  }

  lemma {:induction false} WithoutDistinct(l: seq<Node>, address: nat)
    requires Distinct(l)
    ensures Distinct(Without(l, address))
  {
    if l != [] {
      var (front, last) := (l[..|l| - 1], l[|l| - 1]);
      WithoutDistinct(front, address);
      var w := Without(front, address);
      forall i | 0 <= i < |w|
        ensures w[i].address != last.address
      {
        InWithout(front, address, w[i]);
        var j :| 0 <= j < |front| && front[j] == w[i];
        assert l[j].address != last.address;
      }
    }
  }

  lemma {:induction false} WithoutAbsent(l: seq<Node>, address: nat)
    requires forall i | 0 <= i < |l| :: l[i].address != address
    ensures Without(l, address) == l
  {
    if l != [] {
      WithoutAbsent(l[..|l| - 1], address);
    }
  }

  lemma {:induction false} AskersWithout(l: seq<Node>, n: Node, asks: set<Id>)
    requires Distinct(l) && n in l
    ensures Askers(l, asks) == Askers(Without(l, n.address), asks) + if n.client in asks then 1 else 0
  {
    var (front, last) := (l[..|l| - 1], l[|l| - 1]);
    var w := Without(front, n.address);
    if last.address == n.address {
      var i :| 0 <= i < |l| && l[i] == n;
      assert last == n;
      forall j | 0 <= j < |front|
        ensures front[j].address != n.address
      {
        assert front[j] == l[j] && l[j].address != l[|l| - 1].address;
      }
      WithoutAbsent(front, n.address);
      assert Without(l, n.address) == front;
    } else {
      assert n in front;
      AskersWithout(front, n, asks);
      assert (w + [last])[..|w|] == w;
    }
  }

  // ---------- the index ----------

  predicate NodeHeld(s: State, k: Key, n: Node)
  {
    && n.client in s.clients && k in s.clients[n.client].keys && s.clients[n.client].keys[k] == n.address
    && n.address < s.nextNode
  }

  predicate KeyHeld(s: State, c: Id, k: Key)
    requires c in s.clients && k in s.clients[c].keys
  {
    Node(s.clients[c].keys[k], c) in List(s, k)
  }

  // One list: never empty, its nodes apart, and its waiters that ask about missing keys counted.
  predicate ListOk(s: State, k: Key, asks: set<Id>)
  {
    && Distinct(List(s, k)) && Count(s, k) == Askers(List(s, k), asks)
    && (k in s.waiting ==> s.waiting[k] != []) && (k in s.noKey ==> s.noKey[k] > 0)
  }

  // Both sides of the index say the same. `asks` are the clients that want to hear about missing keys.
  ghost predicate Index(s: State, asks: set<Id>)
  {
    && (forall k :: ListOk(s, k, asks))
    && (forall k, n {:trigger NodeHeld(s, k, n)} | n in List(s, k) :: NodeHeld(s, k, n))
    && (forall c, k {:trigger KeyHeld(s, c, k)} | c in s.clients && k in s.clients[c].keys :: KeyHeld(s, c, k))
  }

  // A client is in the list of a key exactly once if the key is in its own table, and there at the node the table
  // names; otherwise not at all.
  lemma OnceInList(s: State, asks: set<Id>, c: Id, k: Key)
    requires Index(s, asks) && c in s.clients
    ensures k in s.clients[c].keys ==>
              exists i | 0 <= i < |List(s, k)| ::
                && List(s, k)[i] == Node(s.clients[c].keys[k], c)
                && forall j | 0 <= j < |List(s, k)| && j != i :: List(s, k)[j].client != c
    ensures k !in s.clients[c].keys ==> forall j | 0 <= j < |List(s, k)| :: List(s, k)[j].client != c
  {
    var l := List(s, k);
    assert ListOk(s, k, asks);
    if k in s.clients[c].keys {
      assert KeyHeld(s, c, k);
      var i :| 0 <= i < |l| && l[i] == Node(s.clients[c].keys[k], c);
      forall j | 0 <= j < |l| && j != i
        ensures l[j].client != c
      {
        assert l[j] in l && NodeHeld(s, k, l[j]);
      }
    } else {
      forall j | 0 <= j < |l|
        ensures l[j].client != c
      {
        assert l[j] in l && NodeHeld(s, k, l[j]);
      }
    }
  }

  // ---------- waiting for a key ----------

  // One turn of the loop of blockForKeys.
  function Register(s: State, c: Id, k: Key, unblockOnNoKey: bool): State
    requires c in s.clients
  {
    var cl := s.clients[c];
    if k in cl.keys then s
    else
      s.(clients := s.clients[c := cl.(keys := cl.keys[k := s.nextNode])],
         waiting := s.waiting[k := List(s, k) + [Node(s.nextNode, c)]],
         noKey := if unblockOnNoKey then s.noKey[k := Count(s, k) + 1] else s.noKey,
         nextNode := s.nextNode + 1)
  }

  lemma AppendNode(l: seq<Node>, n: Node, asks: set<Id>)
    requires Distinct(l) && forall i | 0 <= i < |l| :: l[i].address < n.address
    ensures Distinct(l + [n]) && Askers(l + [n], asks) == Askers(l, asks) + if n.client in asks then 1 else 0
  {
    assert (l + [n])[..|l|] == l;
  }

  lemma RegisterList(s: State, c: Id, k: Key, asks: set<Id>, k': Key)
    requires c in s.clients && k !in s.clients[c].keys && Index(s, asks)
    ensures var t := Register(s, c, k, c in asks);
            && ListOk(t, k', asks)
            && forall m :: m in List(t, k') <==> m in List(s, k') || (k' == k && m == Node(s.nextNode, c))
  {
    var (l, n) := (List(s, k'), Node(s.nextNode, c));
    assert ListOk(s, k', asks);
    hide Distinct, Askers;
    if k' == k {
      forall i | 0 <= i < |l|
        ensures l[i].address < n.address
      {
        assert l[i] in l && NodeHeld(s, k, l[i]);
      }
      AppendNode(l, n, asks);
    }
  }

  lemma RegisterKeeps(s: State, c: Id, k: Key, asks: set<Id>)
    requires c in s.clients && Index(s, asks)
    ensures Index(Register(s, c, k, c in asks), asks)
  {
    hide ListOk;
    var t := Register(s, c, k, c in asks);
    if k !in s.clients[c].keys {
      forall k'
        ensures ListOk(t, k', asks)
        ensures forall m :: m in List(t, k') <==> m in List(s, k') || (k' == k && m == Node(s.nextNode, c))
      {
        RegisterList(s, c, k, asks, k');
      }
      hide List;
      forall k', m | m in List(t, k')
        ensures NodeHeld(t, k', m)
      {
        if m in List(s, k') {
          assert NodeHeld(s, k', m);
        } else {
          assert k' == k && m == Node(s.nextNode, c);
        }
      }
      forall c', k' | c' in t.clients && k' in t.clients[c'].keys
        ensures KeyHeld(t, c', k')
      {
        assert c' != c || k' != k ==> KeyHeld(s, c', k');
      }
    }
  }

  // ---------- giving keys up ----------

  function Kept(s: State, c: Id, done: set<Key>, k: Key): seq<Node>
    requires c in s.clients && done <= s.clients[c].keys.Keys
  {
    if k in done then Without(List(s, k), s.clients[c].keys[k]) else List(s, k)
  }

  function KeptCount(s: State, c: Id, done: set<Key>, k: Key): int
    requires c in s.clients && done <= s.clients[c].keys.Keys
  {
    Count(s, k) - if k in done && s.clients[c].unblockOnNoKey then 1 else 0
  }

  // The key side of the index after client `c` has been taken off the lists of the keys in `done`.
  function Unlinked(s: State, c: Id, done: set<Key>): State
    requires c in s.clients && done <= s.clients[c].keys.Keys
  {
    s.(waiting := map k | k in s.waiting && Kept(s, c, done, k) != [] :: Kept(s, c, done, k),
       noKey := map k | k in s.noKey && Kept(s, c, done, k) != [] && KeptCount(s, c, done, k) > 0 ::
                  KeptCount(s, c, done, k))
  }

  // Both sides.
  function Drop(s: State, c: Id, done: set<Key>): State
    requires c in s.clients && done <= s.clients[c].keys.Keys
  {
    var cl := s.clients[c];
    Unlinked(s, c, done).(clients := s.clients[c := cl.(keys := cl.keys - done)])
  }

  lemma KeptFacts(s: State, c: Id, done: set<Key>, k: Key, asks: set<Id>)
    requires c in s.clients && done <= s.clients[c].keys.Keys && Index(s, asks)
    requires c in asks <==> s.clients[c].unblockOnNoKey
    ensures Distinct(Kept(s, c, done, k))
    ensures KeptCount(s, c, done, k) == Askers(Kept(s, c, done, k), asks)
    ensures forall n :: n in Kept(s, c, done, k) <==> n in List(s, k) && !(k in done && n.client == c)
  {
    var l := List(s, k);
    assert ListOk(s, k, asks);
    if k in done {
      assert KeyHeld(s, c, k);
      var n := Node(s.clients[c].keys[k], c);
      WithoutDistinct(l, n.address);
      AskersWithout(l, n, asks);
      forall m
        ensures m in Without(l, n.address) <==> m in l && m.client != c
      {
        InWithout(l, n.address, m);
        if m in l {
          assert NodeHeld(s, k, m);
          if m.address == n.address {
            DistinctNodes(l, m, n);
          }
        }
      }
    }
  }

  lemma DistinctNodes(l: seq<Node>, m: Node, n: Node)
    requires Distinct(l) && m in l && n in l && m.address == n.address
    ensures m == n
  {
    var i :| 0 <= i < |l| && l[i] == m;
    var j :| 0 <= j < |l| && l[j] == n;
  }

  lemma DropList(s: State, c: Id, done: set<Key>, k: Key, asks: set<Id>)
    requires c in s.clients && done <= s.clients[c].keys.Keys && Index(s, asks)
    requires c in asks <==> s.clients[c].unblockOnNoKey
    ensures ListOk(Drop(s, c, done), k, asks) && List(Drop(s, c, done), k) == Kept(s, c, done, k)
    ensures forall n :: n in List(Drop(s, c, done), k) <==> n in List(s, k) && !(k in done && n.client == c)
  {
    KeptFacts(s, c, done, k, asks);
    hide Distinct;
    if k !in s.waiting {
      assert Without([], 0) == [];
      assert Kept(s, c, done, k) == [];
    }
    if Kept(s, c, done, k) == [] {
      assert Askers([], asks) == 0;
    }
  }

  lemma DropKeeps(s: State, c: Id, done: set<Key>, asks: set<Id>)
    requires c in s.clients && done <= s.clients[c].keys.Keys && Index(s, asks)
    requires c in asks <==> s.clients[c].unblockOnNoKey
    ensures Index(Drop(s, c, done), asks)
  {
    hide ListOk;
    var t := Drop(s, c, done);
    forall k
      ensures ListOk(t, k, asks)
      ensures forall n :: n in List(t, k) <==> n in List(s, k) && !(k in done && n.client == c)
    {
      DropList(s, c, done, k, asks);
    }
    hide List, Unlinked;
    forall k, n | n in List(t, k)
      ensures NodeHeld(t, k, n)
    {
      assert NodeHeld(s, k, n);
    }
    forall c', k | c' in t.clients && k in t.clients[c'].keys
      ensures KeyHeld(t, c', k)
    {
      assert KeyHeld(s, c', k);
    }
  }

  // ---------- changes that leave the index alone ----------

  // Other fields of a client.
  lemma FieldsKeep(s: State, c: Id, cl: Client, asks: set<Id>)
    requires c in s.clients && cl.keys == s.clients[c].keys && Index(s, asks)
    ensures Index(s.(clients := s.clients[c := cl]), asks)
  {
    hide ListOk;
    var t := s.(clients := s.clients[c := cl]);
    forall k
      ensures ListOk(t, k, asks) && List(t, k) == List(s, k)
    {
      assert ListOk(s, k, asks);
      SameList(s, t, k, asks);
    }
    forall k, n | n in List(t, k)
      ensures NodeHeld(t, k, n)
    {
      assert NodeHeld(s, k, n);
    }
    forall c', k | c' in t.clients && k in t.clients[c'].keys
      ensures KeyHeld(t, c', k)
    {
      assert KeyHeld(s, c', k);
    }
  }

  lemma SameList(s: State, t: State, k: Key, asks: set<Id>)
    requires t.waiting == s.waiting && t.noKey == s.noKey && ListOk(s, k, asks)
    ensures ListOk(t, k, asks)
  {}

  // Whether a client asks about missing keys, as long as it waits for none.
  lemma AsksKeep(s: State, c: Id, asks: set<Id>, asks': set<Id>)
    requires Index(s, asks) && asks - {c} == asks' - {c} && (c in s.clients ==> s.clients[c].keys == map[])
    ensures Index(s, asks')
  {
    forall k
      ensures ListOk(s, k, asks')
    {
      assert ListOk(s, k, asks);
      forall n | n in List(s, k)
        ensures n.client in asks <==> n.client in asks'
      {
        assert NodeHeld(s, k, n);
        assert n.client in asks - {c} <==> n.client in asks' - {c};
      }
      AskersSame(List(s, k), asks, asks');
    }
  }

  lemma {:induction false} AskersSame(l: seq<Node>, asks: set<Id>, asks': set<Id>)
    requires forall n | n in l :: n.client in asks <==> n.client in asks'
    ensures Askers(l, asks) == Askers(l, asks')
  {
    if l != [] {
      assert l[|l| - 1] in l;
      AskersSame(l[..|l| - 1], asks, asks');
    }
  }

  // ---------- blocking and unblocking ----------

  predicate KeyType(b: Btype) { b == OnList || b == OnZset || b == OnStream || b == OnModule }

  function AskersOf(s: State): set<Id> { set c | c in s.clients && s.clients[c].unblockOnNoKey }

  function OfType(s: State, t: Btype): set<Id>
  {
    set c | c in s.clients && s.clients[c].blocked && s.clients[c].btype == t
  }

  function Regular(s: State): set<Id> { set c | c in s.clients && s.clients[c].blocked && !s.clients[c].isModule }

  predicate ClientOk(cl: Client)
  {
    && (cl.blocked <==> cl.btype != NotBlocked)
    && (cl.keys != map[] ==> KeyType(cl.btype))
    && (cl.unblockOnNoKey ==> cl.blocked)
  }

  // A client that waits for keys has the command to run again, unless a module takes care of that.
  predicate Awaiting(cl: Client) { cl.keys != map[] && cl.btype != OnModule ==> cl.pending }

  // A counter; absent is zero.
  function Number(s: State, b: Btype): int { if b in s.byType then s.byType[b] else 0 }

  // The counters are the numbers of blocked clients.
  ghost predicate Counted(s: State)
  {
    && (forall t: Btype :: Number(s, t) == |OfType(s, t)|)
    && s.total == |Regular(s)|
  }

  predicate NoDup(q: seq<Key>) { forall i, j | 0 <= i < j < |q| :: q[i] != q[j] }

  // The set says what is queued, in the new queue or in the one being drained, each key once.
  ghost predicate Queued(s: State)
  {
    NoDup(s.draining + s.ready) && forall k :: k in s.readySet <==> k in s.draining + s.ready
  }

  ghost predicate Core(s: State)
  {
    Index(s, AskersOf(s)) && (forall c | c in s.clients :: ClientOk(s.clients[c])) && Counted(s) && Queued(s)
  }

  ghost predicate Inv(s: State) { Core(s) && forall c | c in s.clients :: Awaiting(s.clients[c]) }

  function SetClient(s: State, c: Id, cl: Client): State { s.(clients := s.clients[c := cl]) }

  // blockClient
  function BlockClient(s: State, c: Id, btype: Btype): State
    requires c in s.clients
  {
    var cl := s.clients[c];
    SetClient(s, c, cl.(blocked := true, btype := btype)).(
      total := s.total + if cl.isModule then 0 else 1,
      byType := s.byType[btype := Number(s, btype) + 1])
  }

  function RegisterAll(s: State, c: Id, keys: seq<Key>, unblockOnNoKey: bool): (t: State)
    requires c in s.clients
    ensures c in t.clients
  {
    if keys == [] then s
    else Register(RegisterAll(s, c, keys[..|keys| - 1], unblockOnNoKey), c, keys[|keys| - 1], unblockOnNoKey)
  }

  // blockForKeys
  function BlockForKeys(s: State, c: Id, btype: Btype, keys: seq<Key>, unblockOnNoKey: bool): State
    requires c in s.clients
  {
    var s1 := RegisterAll(s, c, keys, unblockOnNoKey);
    var cl := s1.clients[c];
    BlockClient(
      SetClient(s1, c, cl.(unblockOnNoKey := unblockOnNoKey, pending := btype != OnModule || cl.pending)), c, btype)
  }

  // The end of unblockClient.
  function Settle(s: State, c: Id): State
    requires c in s.clients
  {
    var cl := s.clients[c];
    SetClient(s, c, cl.(blocked := false, btype := NotBlocked, unblockOnNoKey := false)).(
      total := s.total - if cl.isModule then 0 else 1,
      byType := s.byType[cl.btype := Number(s, cl.btype) - 1])
  }

  // unblockClient
  function UnblockClient(s: State, c: Id): State
    requires c in s.clients
  {
    Settle(if KeyType(s.clients[c].btype) then Drop(s, c, s.clients[c].keys.Keys) else s, c)
  }

  function NoPending(s: State, c: Id): State
    requires c in s.clients
  {
    SetClient(s, c, s.clients[c].(pending := false))
  }

  // unblockClientOnTimeout and unblockClientOnError, but for the replies
  function UnblockWithReply(s: State, c: Id): State
    requires c in s.clients
  {
    UnblockClient(NoPending(s, c), c)
  }

  // The number of a set after one client changed sides.
  lemma OneMore(a: set<Id>, b: set<Id>, c: Id)
    requires c !in a && b == a + {c}
    ensures |b| == |a| + 1
  {}

  // `t` is `s` with client `c` blocked in addition.
  predicate Flipped(s: State, t: State, c: Id)
  {
    && c in s.clients && c in t.clients && t.clients == s.clients[c := t.clients[c]]
    && !s.clients[c].blocked && t.clients[c].blocked && t.clients[c].isModule == s.clients[c].isModule
  }

  lemma FlipOthers(s: State, t: State, c: Id, d: Id)
    requires Flipped(s, t, c) && d != c
    ensures d in s.clients <==> d in t.clients
    ensures d in s.clients ==> t.clients[d] == s.clients[d]
  {}

  lemma FlipBlocked(s: State, t: State, c: Id, b: Btype)
    requires Flipped(s, t, c)
    ensures |OfType(t, b)| == |OfType(s, b)| + if t.clients[c].btype == b then 1 else 0
  {
    var (x, y) := (OfType(s, b), OfType(t, b));
    forall d | d != c
      ensures d in x <==> d in y
    {
      FlipOthers(s, t, c, d);
    }
    assert c !in x && (c in y <==> t.clients[c].btype == b);
    hide OfType, Flipped;
    if t.clients[c].btype == b {
      assert y == x + {c};
    } else {
      assert y == x;
    }
  }

  lemma FlipRegular(s: State, t: State, c: Id)
    requires Flipped(s, t, c)
    ensures |Regular(t)| == |Regular(s)| + if t.clients[c].isModule then 0 else 1
  {
    var (x, y) := (Regular(s), Regular(t));
    forall d | d != c
      ensures d in x <==> d in y
    {
      FlipOthers(s, t, c, d);
    }
    assert c !in x && (c in y <==> !t.clients[c].isModule);
    hide Regular, Flipped;
    if t.clients[c].isModule {
      assert y == x;
    } else {
      assert y == x + {c};
    }
  }

  // Flipping one client in or out of the blocked ones moves exactly the counters it belongs to.
  lemma FlipCounts(s: State, t: State, c: Id, b: Btype)
    requires Flipped(s, t, c)
    ensures |OfType(t, b)| == |OfType(s, b)| + if t.clients[c].btype == b then 1 else 0
    ensures |Regular(t)| == |Regular(s)| + if t.clients[c].isModule then 0 else 1
  {
    FlipBlocked(s, t, c, b);
    FlipRegular(s, t, c);
  }

  lemma BlockCounts(s: State, c: Id, btype: Btype)
    requires Counted(s) && c in s.clients && !s.clients[c].blocked
    ensures Counted(BlockClient(s, c, btype))
  {
    var t := BlockClient(s, c, btype);
    hide OfType, Regular;
    FlipCounts(s, t, c, btype);
    forall b: Btype
      ensures Number(t, b) == |OfType(t, b)|
    {
      assert Number(s, b) == |OfType(s, b)|;
      FlipCounts(s, t, c, b);
    }
  }

  lemma SettleCounts(s: State, c: Id)
    requires Counted(s) && c in s.clients && s.clients[c].blocked
    ensures Counted(Settle(s, c))
  {
    var t := Settle(s, c);
    hide OfType, Regular;
    assert s.clients == t.clients[c := s.clients[c]];
    FlipCounts(t, s, c, s.clients[c].btype);
    forall b: Btype
      ensures Number(t, b) == |OfType(t, b)|
    {
      assert Number(s, b) == |OfType(s, b)|;
      FlipCounts(t, s, c, b);
    }
  }

  // Clients that differ only in their keys and in fields that are not counted.
  lemma SameCounts(s: State, t: State)
    requires Counted(s) && t.clients.Keys == s.clients.Keys && t.byType == s.byType && t.total == s.total
    requires forall c | c in s.clients ::
               && t.clients[c].blocked == s.clients[c].blocked && t.clients[c].btype == s.clients[c].btype
               && t.clients[c].isModule == s.clients[c].isModule
    ensures Counted(t)
  {
    forall b: Btype
      ensures OfType(t, b) == OfType(s, b) && Number(t, b) == Number(s, b)
    {}
    assert Regular(t) == Regular(s);
  }

  // Only the index and the keys of `c` differ.
  predicate OnlyKeysOf(s: State, t: State, c: Id)
    requires c in s.clients
  {
    && c in t.clients && t.clients == s.clients[c := s.clients[c].(keys := t.clients[c].keys)]
    && t.byType == s.byType && t.total == s.total && t.types == s.types
    && t.ready == s.ready && t.draining == s.draining && t.readySet == s.readySet
  }

  lemma RegisterShape(s: State, c: Id, k: Key, unblockOnNoKey: bool)
    requires c in s.clients
    ensures var t := Register(s, c, k, unblockOnNoKey);
            OnlyKeysOf(s, t, c) && forall k' :: k' in t.clients[c].keys <==> k' in s.clients[c].keys || k' == k
  {
    hide List, Count;
    var (t, cl) := (Register(s, c, k, unblockOnNoKey), s.clients[c]);
    assert t.clients[c] == cl.(keys := t.clients[c].keys);
    if k in cl.keys {
      assert s.clients == s.clients[c := cl];
    }
  }

  lemma OnlyKeysTransitive(s: State, t: State, u: State, c: Id)
    requires c in s.clients && OnlyKeysOf(s, t, c) && OnlyKeysOf(t, u, c)
    ensures OnlyKeysOf(s, u, c)
  {
    assert u.clients[c] == t.clients[c].(keys := u.clients[c].keys);
    assert t.clients[c] == s.clients[c].(keys := t.clients[c].keys);
  }

  lemma OnlyKeysSelf(s: State, c: Id)
    requires c in s.clients
    ensures OnlyKeysOf(s, s, c)
  {
    assert s.clients == s.clients[c := s.clients[c].(keys := s.clients[c].keys)];
  }

  lemma {:induction false} RegisterAllKeeps(s: State, c: Id, keys: seq<Key>, asks: set<Id>)
    requires c in s.clients && Index(s, asks)
    ensures var t := RegisterAll(s, c, keys, c in asks);
            && Index(t, asks) && OnlyKeysOf(s, t, c)
            && forall k :: k in t.clients[c].keys <==> k in s.clients[c].keys || k in keys
    decreases |keys|
  {
    hide Index, Register, OnlyKeysOf;
    if keys == [] {
      OnlyKeysSelf(s, c);
    } else {
      var (front, last) := (keys[..|keys| - 1], keys[|keys| - 1]);
      var s1 := RegisterAll(s, c, front, c in asks);
      RegisterAllKeeps(s, c, front, asks);
      RegisterKeeps(s1, c, last, asks);
      RegisterShape(s1, c, last, c in asks);
      OnlyKeysTransitive(s, s1, Register(s1, c, last, c in asks), c);
      assert keys == front + [last];
    }
  }

  // The state of blockForKeys just before it calls blockClient.
  function Prepared(s: State, c: Id, btype: Btype, keys: seq<Key>, unblockOnNoKey: bool): (t: State)
    requires c in s.clients
    ensures c in t.clients
  {
    var s1 := RegisterAll(s, c, keys, unblockOnNoKey);
    var cl := s1.clients[c];
    SetClient(s1, c, cl.(unblockOnNoKey := unblockOnNoKey, pending := btype != OnModule || cl.pending))
  }

  lemma PreparedShape(s: State, s1: State, c: Id, btype: Btype, ask: bool)
    requires c in s.clients && ClientOk(s.clients[c]) && !s.clients[c].blocked && OnlyKeysOf(s, s1, c)
    ensures var cl := s1.clients[c].(unblockOnNoKey := ask, pending := btype != OnModule || s1.clients[c].pending);
            var t := SetClient(s1, c, cl);
            && t.clients == s.clients[c := t.clients[c]] && t.clients[c] == cl
            && !cl.blocked && cl.btype == s.clients[c].btype && cl.isModule == s.clients[c].isModule
            && t.byType == s.byType && t.total == s.total
            && t.ready == s.ready && t.draining == s.draining && t.readySet == s.readySet
  {}

  lemma PreparedKeeps(s: State, c: Id, btype: Btype, keys: seq<Key>, unblockOnNoKey: bool)
    requires Inv(s) && c in s.clients && !s.clients[c].blocked
    ensures var t := Prepared(s, c, btype, keys, unblockOnNoKey);
            && Index(t, AskersOf(s) + if unblockOnNoKey then {c} else {}) && Counted(t) && Queued(t)
            && t.clients == s.clients[c := t.clients[c]]
            && !t.clients[c].blocked && (btype != OnModule ==> t.clients[c].pending)
            && t.clients[c].unblockOnNoKey == unblockOnNoKey
  {
    hide Index, Counted, Queued, RegisterAll, OnlyKeysOf, SetClient;
    var asks := AskersOf(s) + if unblockOnNoKey then {c} else {};
    assert ClientOk(s.clients[c]);
    AsksKeep(s, c, AskersOf(s), asks);
    assert c in asks <==> unblockOnNoKey;
    RegisterAllKeeps(s, c, keys, asks);
    var s1 := RegisterAll(s, c, keys, unblockOnNoKey);
    var t := Prepared(s, c, btype, keys, unblockOnNoKey);
    PreparedShape(s, s1, c, btype, unblockOnNoKey);
    SetIs(s1, c, t.clients[c]);
    FieldsKeep(s1, c, t.clients[c], asks);
    SameCounts(s, t);
    SameQueue(s, t);
  }

  lemma SetIs(s: State, c: Id, cl: Client)
    ensures SetClient(s, c, cl) == s.(clients := s.clients[c := cl])
  {}

  lemma BlockKeeps(s: State, c: Id, btype: Btype, keys: seq<Key>, unblockOnNoKey: bool)
    requires Inv(s) && c in s.clients && !s.clients[c].blocked && KeyType(btype)
    ensures Inv(BlockForKeys(s, c, btype, keys, unblockOnNoKey))
  {
    PreparedKeeps(s, c, btype, keys, unblockOnNoKey);
    var s1 := Prepared(s, c, btype, keys, unblockOnNoKey);
    var t := BlockClient(s1, c, btype);
    assert t == BlockForKeys(s, c, btype, keys, unblockOnNoKey);
    hide Index, Counted, Queued, Prepared;
    BlockIndex(s1, c, btype, AskersOf(s) + if unblockOnNoKey then {c} else {});
    BlockCounts(s1, c, btype);
    BlockAskers(s, s1, t, c, btype, unblockOnNoKey);
    SameQueue(s1, t);
    forall d | d in t.clients
      ensures ClientOk(t.clients[d]) && Awaiting(t.clients[d])
    {
      assert d != c ==> ClientOk(s.clients[d]) && Awaiting(s.clients[d]);
    }
  }

  lemma BlockIndex(s: State, c: Id, btype: Btype, asks: set<Id>)
    requires Index(s, asks) && c in s.clients
    ensures Index(BlockClient(s, c, btype), asks)
  {
    hide Index;
    var t := BlockClient(s, c, btype);
    FieldsKeep(s, c, t.clients[c], asks);
    SameIndex(SetClient(s, c, t.clients[c]), t, asks);
  }

  lemma BlockAskers(s: State, s1: State, t: State, c: Id, btype: Btype, unblockOnNoKey: bool)
    requires c in s.clients && c in s1.clients && s1.clients == s.clients[c := s1.clients[c]]
    requires ClientOk(s.clients[c]) && !s.clients[c].blocked
    requires s1.clients[c].unblockOnNoKey == unblockOnNoKey && t == BlockClient(s1, c, btype)
    ensures AskersOf(t) == AskersOf(s) + if unblockOnNoKey then {c} else {}
  {}

  // Counters and queues are no part of the index.
  lemma SameIndex(s: State, t: State, asks: set<Id>)
    requires Index(s, asks) && t.clients == s.clients && t.waiting == s.waiting && t.noKey == s.noKey
    requires t.nextNode == s.nextNode
    ensures Index(t, asks)
  {
    forall k
      ensures ListOk(t, k, asks)
    {
      assert ListOk(s, k, asks);
    }
    forall k, n | n in List(t, k)
      ensures NodeHeld(t, k, n)
    {
      assert NodeHeld(s, k, n);
    }
    forall c, k | c in t.clients && k in t.clients[c].keys
      ensures KeyHeld(t, c, k)
    {
      assert KeyHeld(s, c, k);
    }
  }

  lemma SameQueue(s: State, t: State)
    requires Queued(s) && t.ready == s.ready && t.draining == s.draining && t.readySet == s.readySet
    ensures Queued(t)
  {}

  // Taking a client off the lists of some of its keys changes nothing else.
  lemma DropShape(s: State, c: Id, done: set<Key>)
    requires c in s.clients && done <= s.clients[c].keys.Keys
    ensures var t := Drop(s, c, done);
            OnlyKeysOf(s, t, c) && t.clients[c].keys == s.clients[c].keys - done && t.nextNode == s.nextNode
  {
    hide Kept, KeptCount;
    var t := Drop(s, c, done);
    assert t.clients[c] == s.clients[c].(keys := t.clients[c].keys);
  }

  lemma ReleaseCore(s: State, c: Id, done: set<Key>)
    requires Core(s) && c in s.clients && done <= s.clients[c].keys.Keys
    ensures Core(Drop(s, c, done))
  {
    hide Index, Counted, Queued, Drop;
    var t := Drop(s, c, done);
    DropShape(s, c, done);
    DropKeeps(s, c, done, AskersOf(s));
    assert AskersOf(t) == AskersOf(s);
    SameCounts(s, t);
    SameQueue(s, t);
    forall d | d in t.clients
      ensures ClientOk(t.clients[d])
    {
      assert ClientOk(s.clients[d]);
    }
  }

  // The releasing step alone, in the middle of unblocking a client on a key.
  lemma ReleaseKeeps(s: State, c: Id, done: set<Key>)
    requires Inv(s) && c in s.clients && done <= s.clients[c].keys.Keys
    ensures Inv(Drop(s, c, done))
  {
    hide Core, Drop;
    ReleaseCore(s, c, done);
    DropShape(s, c, done);
    var t := Drop(s, c, done);
    forall d | d in t.clients
      ensures Awaiting(t.clients[d])
    {
      assert Awaiting(s.clients[d]);
    }
  }

  lemma SettleKeeps(s: State, c: Id)
    requires Core(s) && c in s.clients && s.clients[c].blocked && s.clients[c].keys == map[]
    ensures Core(Settle(s, c))
  {
    hide Index, Counted, Queued;
    var t := Settle(s, c);
    SettleCounts(s, c);
    FieldsKeep(s, c, t.clients[c], AskersOf(s));
    SameIndex(SetClient(s, c, t.clients[c]), t, AskersOf(s));
    assert AskersOf(t) - {c} == AskersOf(s) - {c};
    AsksKeep(t, c, AskersOf(s), AskersOf(t));
    SameQueue(s, t);
    forall d | d in t.clients
      ensures ClientOk(t.clients[d])
    {
      assert d != c ==> ClientOk(s.clients[d]);
    }
  }

  // What unblocking does to the clients: the one is free of keys, the others are as they were.
  lemma UnblockShape(s: State, c: Id)
    requires c in s.clients && ClientOk(s.clients[c])
    ensures var (t, cl) := (UnblockClient(s, c), s.clients[c]);
            && t.clients == s.clients[c := Client(false, NotBlocked, map[], false, cl.pending, cl.isModule)]
            && t.types == s.types && t.readySet == s.readySet && t.ready == s.ready && t.draining == s.draining
  {
    DropShape(s, c, s.clients[c].keys.Keys);
    hide Drop;
  }

  lemma UnblockCore(s: State, c: Id)
    requires Core(s) && c in s.clients && s.clients[c].blocked
    ensures Core(UnblockClient(s, c))
  {
    var all := s.clients[c].keys.Keys;
    assert ClientOk(s.clients[c]);
    hide Core, Drop, Settle;
    if KeyType(s.clients[c].btype) {
      ReleaseCore(s, c, all);
      DropShape(s, c, all);
      SettleKeeps(Drop(s, c, all), c);
    } else {
      SettleKeeps(s, c);
    }
  }

  lemma UnblockKeeps(s: State, c: Id)
    requires Core(s) && c in s.clients && s.clients[c].blocked
    requires forall d | d in s.clients && d != c :: Awaiting(s.clients[d])
    ensures Inv(UnblockClient(s, c))
  {
    UnblockCore(s, c);
    assert ClientOk(s.clients[c]);
    UnblockShape(s, c);
    hide Core, UnblockClient;
    var t := UnblockClient(s, c);
    forall d | d in t.clients
      ensures Awaiting(t.clients[d])
    {
      assert d != c ==> Awaiting(s.clients[d]);
    }
  }

  lemma PendingCore(s: State, c: Id)
    requires Core(s) && c in s.clients
    ensures Core(NoPending(s, c))
  {
    hide Index, Counted, Queued;
    var t := NoPending(s, c);
    FieldsKeep(s, c, t.clients[c], AskersOf(s));
    assert AskersOf(t) == AskersOf(s);
    SameCounts(s, t);
    SameQueue(s, t);
    forall d | d in t.clients
      ensures ClientOk(t.clients[d])
    {
      assert ClientOk(s.clients[d]);
    }
  }

  lemma PendingKeeps(s: State, c: Id)
    requires Inv(s) && c in s.clients && s.clients[c].keys == map[]
    ensures Inv(NoPending(s, c))
  {
    PendingCore(s, c);
    hide Core;
    var t := NoPending(s, c);
    forall d | d in t.clients
      ensures Awaiting(t.clients[d])
    {
      assert Awaiting(s.clients[d]);
    }
  }

  lemma ReplyKeeps(s: State, c: Id)
    requires Inv(s) && c in s.clients && s.clients[c].blocked
    ensures Inv(UnblockWithReply(s, c))
  {
    PendingCore(s, c);
    var s1 := NoPending(s, c);
    hide Core, UnblockClient, Awaiting;
    assert forall d | d in s1.clients && d != c :: s1.clients[d] == s.clients[d] && Awaiting(s.clients[d]);
    UnblockKeeps(s1, c);
  }

  lemma BlockOtherKeeps(s: State, c: Id, btype: Btype)
    requires Inv(s) && c in s.clients && !s.clients[c].blocked && btype != NotBlocked
    ensures Inv(BlockClient(s, c, btype))
  {
    assert ClientOk(s.clients[c]);
    hide Index, Counted, Queued;
    var t := BlockClient(s, c, btype);
    BlockIndex(s, c, btype, AskersOf(s));
    BlockCounts(s, c, btype);
    assert AskersOf(t) == AskersOf(s);
    SameQueue(s, t);
    forall d | d in t.clients
      ensures ClientOk(t.clients[d]) && Awaiting(t.clients[d])
    {
      assert d != c ==> ClientOk(s.clients[d]) && Awaiting(s.clients[d]);
    }
  }

  // ---------- ready keys ----------

  // getBlockedTypeByType
  function BlockedType(t: ObjType): Btype
  {
    match t
    case ObjList => OnList
    case ObjZset => OnZset
    case ObjModule => OnModule
    case ObjStream => OnStream
    case _ => NotBlocked
  }

  // signalKeyAsReadyLogic
  function Signal(s: State, key: Key, type': ObjType, deleted: bool): State
  {
    var btype := BlockedType(type');
    if btype == NotBlocked then s
    else if Number(s, btype) == 0 && Number(s, OnModule) == 0 then s
    else if (if deleted then key !in s.noKey else key !in s.waiting) then s
    else if key in s.readySet then s
    else s.(readySet := s.readySet + {key}, ready := s.ready + [key])
  }

  lemma SignalKeeps(s: State, key: Key, type': ObjType, deleted: bool)
    requires Inv(s)
    ensures Inv(Signal(s, key, type', deleted))
  {
    hide Index, Counted;
    var t := Signal(s, key, type', deleted);
    SameIndex(s, t, AskersOf(s));
    assert AskersOf(t) == AskersOf(s);
    SameCounts(s, t);
    if t != s {
      assert t.draining + t.ready == s.draining + s.ready + [key];
    }
  }

  // The quick exits never lose a wake-up: when a key of a blocking type is signalled, every client waiting for it that
  // the signal concerns finds the key queued.
  lemma SignalReaches(s: State, key: Key, type': ObjType, deleted: bool, c: Id)
    requires Inv(s) && c in s.clients && key in s.clients[c].keys
    requires BlockedType(type') != NotBlocked
    requires s.clients[c].btype == BlockedType(type') || s.clients[c].btype == OnModule
    requires deleted ==> s.clients[c].unblockOnNoKey
    ensures var t := Signal(s, key, type', deleted);
            key in t.readySet && key in t.draining + t.ready
  {
    assert ClientOk(s.clients[c]) && KeyHeld(s, c, key);
    assert c in OfType(s, s.clients[c].btype);
    NonEmpty(OfType(s, s.clients[c].btype), c);
    assert Number(s, s.clients[c].btype) > 0;
    if deleted {
      assert ListOk(s, key, AskersOf(s));
      AskerCounts(List(s, key), AskersOf(s), Node(s.clients[c].keys[key], c));
    }
    hide Index, Counted, ListOk;
  }

  lemma NonEmpty(a: set<Id>, c: Id)
    requires c in a
    ensures |a| > 0
  {}

  lemma {:induction false} AskerCounts(l: seq<Node>, asks: set<Id>, n: Node)
    requires n in l && n.client in asks
    ensures Askers(l, asks) > 0
  {
    var front := l[..|l| - 1];
    if n in front {
      AskerCounts(front, asks, n);
    } else {
      assert l == front + [l[|l| - 1]];
    }
  }

  // handleClientsBlockedOnKeys taking the queue ...
  function TakeReady(s: State): State
    requires s.draining == []
  {
    s.(draining := s.ready, ready := [])
  }

  // ... and one key off it.
  function TakeKey(s: State): State
    requires s.draining != []
  {
    s.(draining := s.draining[1..], readySet := s.readySet - {s.draining[0]})
  }

  lemma TakeKeeps(s: State)
    requires Inv(s)
    ensures s.draining == [] ==> Inv(TakeReady(s))
    ensures s.draining != [] ==> Inv(TakeKey(s))
  {
    hide Index, Counted;
    if s.draining == [] {
      var t := TakeReady(s);
      assert t.draining + t.ready == s.draining + s.ready;
      SameIndex(s, t, AskersOf(s));
      SameCounts(s, t);
      assert AskersOf(t) == AskersOf(s);
    } else {
      var t := TakeKey(s);
      assert s.draining + s.ready == [s.draining[0]] + (t.draining + t.ready);
      SameIndex(s, t, AskersOf(s));
      SameCounts(s, t);
      assert AskersOf(t) == AskersOf(s);
      QueueTail(s.draining[0], t.draining + t.ready);
    }
  }

  lemma QueueTail(k: Key, q: seq<Key>)
    requires NoDup([k] + q)
    ensures NoDup(q) && k !in q
  {
    var all := [k] + q;
    assert forall i | 0 <= i < |q| :: q[i] == all[i + 1];
    forall i | 0 <= i < |q|
      ensures q[i] != k
    {
      assert all[0] != all[i + 1];
    }
    forall i, j | 0 <= i < j < |q|
      ensures q[i] != q[j]
    {
      assert all[i + 1] != all[j + 1];
    }
  }
}
