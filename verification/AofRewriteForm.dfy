// What the commands of a rewritten log look like: their names, their arguments and how many elements each holds.
module AofRewriteForm {
  import opened AofLog
  import opened AofRewrite

  // The names, as text.
  lemma CommandNames()
    ensures SELECT == Ascii("SELECT") && SET == Ascii("SET") && RPUSH == Ascii("RPUSH")
    ensures SADD == Ascii("SADD") && ZADD == Ascii("ZADD") && HMSET == Ascii("HMSET")
    ensures PEXPIREAT == Ascii("PEXPIREAT") && HPEXPIREAT == Ascii("HPEXPIREAT")
    ensures FIELDS == Ascii("FIELDS") && ONE == Ascii("1")
  {}

  // ---------- how many elements a command holds ----------

  // Full commands of sixty-four elements, and one more for what is left over.
  lemma {:induction false} ChunkCount(name: Bytes, key: Bytes, parts: seq<Command>)
    ensures |Chunks(name, key, parts)| == (|parts| + 63) / 64
    decreases |parts|
  {
    hide Join;
    if parts != [] {
      var n := Min(ITEMS_PER_CMD, |parts|);
      ChunkCount(name, key, parts[n..]);
    }
  }

  lemma {:induction false} ChunkIs(name: Bytes, key: Bytes, parts: seq<Command>, c: nat)
    requires 64 * c < |parts|
    ensures c < |Chunks(name, key, parts)|
    ensures Chunks(name, key, parts)[c] == [name, key] + Join(parts[64 * c..Min(64 * c + 64, |parts|)])
    decreases c
  {
    hide Join;
    var n := Min(ITEMS_PER_CMD, |parts|);
    if c == 0 {
      assert parts[..n] == parts[0..n];
    } else {
      ChunkIs(name, key, parts[n..], c - 1);
      var top := Min(64 * c + 64, |parts|);
      assert parts[n..][64 * (c - 1)..top - n] == parts[64 * c..top];
    }
  }

  // The arguments of an element within its command.
  lemma {:induction false} JoinAt(parts: seq<Command>, w: nat, i: nat, k: nat)
    requires AllWidth(parts, w) && i < |parts| && k < w
    ensures |Join(parts)| == |parts| * w && i * w + k < |parts| * w
    ensures Join(parts)[i * w + k] == parts[i][k]
    decreases i
  {
    JoinLength(parts, w);
    PlaceBound(|parts|, w, i, k);
    if i > 0 {
      JoinAt(parts[1..], w, i - 1, k);
      StepBack(w, i, k);
    }
  }

  lemma PlaceBound(n: nat, w: nat, i: nat, k: nat)
    requires i < n && k < w
    ensures i * w + k < n * w
  {
    assert (i + 1) * w <= n * w;
  }

  lemma StepBack(w: nat, i: nat, k: nat)
    requires i > 0
    ensures i * w + k == w + ((i - 1) * w + k)
  {}

  // Argument `k` of element `i` stands in command i / 64, behind the name, the key and the elements before it.
  lemma ElementAt(name: Bytes, key: Bytes, parts: seq<Command>, w: nat, i: nat, k: nat)
    requires AllWidth(parts, w) && i < |parts| && k < w
    ensures i / 64 < |Chunks(name, key, parts)|
    ensures var cmd := Chunks(name, key, parts)[i / 64];
            && |cmd| == 2 + Min(64, |parts| - i / 64 * 64) * w
            && cmd[0] == name && cmd[1] == key
            && 2 + i % 64 * w + k < |cmd| && cmd[2 + i % 64 * w + k] == parts[i][k]
  {
    hide Chunks, Join;
    var c := i / 64;
    ChunkIs(name, key, parts, c);
    var part := parts[64 * c..Min(64 * c + 64, |parts|)];
    assert part[i % 64] == parts[i];
    JoinAt(part, w, i % 64, k);
  }

  // ---------- where each element of an object goes ----------

  predicate StandsAt(cmds: seq<Command>, key: Bytes, i: nat, name: Bytes, args: Command)
  {
    && i / 64 < |cmds|
    && var cmd := cmds[i / 64];
       && 2 + (i % 64 + 1) * |args| <= |cmd|
       && cmd[0] == name && cmd[1] == key
       && cmd[2 + i % 64 * |args|..2 + (i % 64 + 1) * |args|] == args
  }

  // Elements are pushed in order, members added, scores put before their members and values behind their fields.
  lemma ElementsStand(key: Bytes, obj: Object, i: nat)
    requires !obj.StringObject? && (obj.HashObject? ==> !HasFieldExpiry(obj.fields))
    ensures var cmds := ObjectCommands(key, obj);
            match obj
            case ListObject(items) =>
              |cmds| == (|items| + 63) / 64 && (i < |items| ==> StandsAt(cmds, key, i, RPUSH, [Text(items[i])]))
            case SetObject(ms) =>
              |cmds| == (|ms| + 63) / 64 && (i < |ms| ==> StandsAt(cmds, key, i, SADD, [Text(ms[i])]))
            case ZSetObject(es) =>
              && |cmds| == (|es| + 63) / 64
              && (i < |es| ==> StandsAt(cmds, key, i, ZADD, [es[i].1, Text(es[i].0)]))
            case HashObject(fs) =>
              && |cmds| == (|fs| + 63) / 64
              && (i < |fs| ==> StandsAt(cmds, key, i, HMSET, [Text(fs[i].name), Text(fs[i].value)]))
            case StringObject(_) => true
  {
    hide Chunks, Text, StandsAt;
    ChunkCount(Name(AggOfObject(obj)), key, Parts(obj));
    PartsWidth(obj);
    if i < |Parts(obj)| {
      Stands(Name(AggOfObject(obj)), key, Parts(obj), Width(AggOfObject(obj)), i);
    }
  }

  lemma Stands(name: Bytes, key: Bytes, parts: seq<Command>, w: nat, i: nat)
    requires AllWidth(parts, w) && i < |parts| && w > 0
    ensures StandsAt(Chunks(name, key, parts), key, i, name, parts[i])
  {
    hide Chunks;
    ElementAt(name, key, parts, w, i, 0);
    var cmd := Chunks(name, key, parts)[i / 64];
    assert (i % 64 + 1) * w == i % 64 * w + w;
    ElementAt(name, key, parts, w, i, w - 1);
    forall k | 0 <= k < w
      ensures cmd[2 + i % 64 * w + k] == parts[i][k]
    {
      ElementAt(name, key, parts, w, i, k);
    }
  }

  // A string is one SET; the expiry of a key follows what makes it, and the expiry of a field follows its field.
  lemma SingleCommands(e: Entry, f: HashField)
    ensures e.obj.StringObject? ==> ObjectCommands(e.key, e.obj) == [[SET, e.key, Text(e.obj.text)]]
    ensures EntryCommands(e) == ObjectCommands(e.key, e.obj) +
            if e.expire.Some? then [[PEXPIREAT, e.key, Signed(e.expire.value)]] else []
    ensures FieldCommands(e.key, f) == [[HMSET, e.key, Text(f.name), Text(f.value)]] +
            if f.expire.Some?
            then [[HPEXPIREAT, e.key, Signed(f.expire.value), FIELDS, ONE, Text(f.name)]]
            else []
  {}

  // A database that the server does not have is not selected.
  lemma SelectExactly(s: Server, j: nat)
    ensures Exec(s, [SELECT, Decimal(j)]) == if j < |s.dbs| then s.(selected := j) else s
  {
    NumberOfDecimal(j, []);
    assert Decimal(j) + [] == Decimal(j);
  }
}
