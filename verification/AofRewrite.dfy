// Rewriting a dataset into a log (rewrite*Object and rewriteAppendOnlyFileRio in aof.c).
module AofRewrite {
  import opened AofLog
  import opened Options
  import AofLoader

  // AOF_REWRITE_ITEMS_PER_CMD
  const ITEMS_PER_CMD: nat := 64

  const SET: Bytes := [83, 69, 84]
  const RPUSH: Bytes := [82, 80, 85, 83, 72]
  const SADD: Bytes := [83, 65, 68, 68]
  const ZADD: Bytes := [90, 65, 68, 68]
  const HMSET: Bytes := [72, 77, 83, 69, 84]
  const PEXPIREAT: Bytes := [80, 69, 88, 80, 73, 82, 69, 65, 84]
  const HPEXPIREAT: Bytes := [72, 80, 69, 88, 80, 73, 82, 69, 65, 84]
  const FIELDS: Bytes := [70, 73, 69, 76, 68, 83]
  const ONE: Bytes := [49]

  // ---------- the dataset as the server stores and iterates it ----------

  // A string held as bytes or, when it is the text of an integer, as the integer.
  datatype Elem = Raw(bytes: Bytes) | Int(n: int)

  function Text(e: Elem): Bytes { if e.Raw? then e.bytes else Signed(e.n) }

  datatype HashField = HashField(name: Elem, value: Elem, expire: Option<int>)

  // Aggregates list their elements in iteration order; a score is the text written for it.
  datatype Object =
    | StringObject(text: Elem)
    | ListObject(items: seq<Elem>)
    | SetObject(members: seq<Elem>)
    | ZSetObject(entries: seq<(Elem, Bytes)>)
    | HashObject(fields: seq<HashField>)

  datatype Entry = Entry(key: Bytes, obj: Object, expire: Option<int>)

  type Dataset = seq<seq<Entry>>

  // ---------- what the dataset means, and how commands change it ----------

  datatype Field = Field(value: Bytes, expire: Option<int>)

  datatype Value =
    | StringValue(text: Bytes)
    | ListValue(items: seq<Bytes>)
    | SetValue(members: set<Bytes>)
    | ZSetValue(scores: map<Bytes, Bytes>)
    | HashValue(fields: map<Bytes, Field>)

  datatype Stored = Stored(value: Value, expire: Option<int>)

  type Db = map<Bytes, Stored>

  datatype Server = Server(selected: nat, dbs: seq<Db>)

  datatype Agg = List | Set | ZSet | Hash

  function AggOf(name: Bytes): Option<Agg>
  {
    if name == RPUSH then Some(List)
    else if name == SADD then Some(Set)
    else if name == ZADD then Some(ZSet)
    else if name == HMSET then Some(Hash)
    else None
  }

  function Name(agg: Agg): Bytes
  {
    match agg
    case List => RPUSH
    case Set => SADD
    case ZSet => ZADD
    case Hash => HMSET
  }

  // How many arguments one element takes.
  function Width(agg: Agg): nat { if agg.List? || agg.Set? then 1 else 2 }

  function EmptyValue(agg: Agg): Value
  {
    match agg
    case List => ListValue([])
    case Set => SetValue({})
    case ZSet => ZSetValue(map[])
    case Hash => HashValue(map[])
  }

  predicate Fits(agg: Agg, v: Value)
  {
    match agg
    case List => v.ListValue?
    case Set => v.SetValue?
    case ZSet => v.ZSetValue?
    case Hash => v.HashValue?
  }

  // One element added to an aggregate. HMSET drops the expiry a field had.
  function Insert(agg: Agg, v: Value, args: Command): (r: Value)
    requires Fits(agg, v) && |args| == Width(agg)
    ensures Fits(agg, r)
  {
    match agg
    case List => ListValue(v.items + [args[0]])
    case Set => SetValue(v.members + {args[0]})
    case ZSet => ZSetValue(v.scores[args[1] := args[0]])
    case Hash => HashValue(v.fields[args[0] := Field(args[1], None)])
  }

  // The elements in `args`, added in order.
  function InsertAll(agg: Agg, v: Value, args: Command): (r: Value)
    requires Fits(agg, v) && |args| % Width(agg) == 0
    ensures Fits(agg, r)
    decreases |args|
  {
    if args == [] then v
    else InsertAll(agg, Insert(agg, v, args[..Width(agg)]), args[Width(agg)..])
  }

  function ExecAgg(db: Db, agg: Agg, key: Bytes, args: Command): Db
    requires |args| % Width(agg) == 0
  {
    if key !in db then db[key := Stored(InsertAll(agg, EmptyValue(agg), args), None)]
    else if Fits(agg, db[key].value) then db[key := db[key].(value := InsertAll(agg, db[key].value, args))]
    else db
  }

  function ExecInDb(db: Db, cmd: Command): Db
    requires cmd != []
  {
    if cmd[0] == SET && |cmd| == 3 then db[cmd[1] := Stored(StringValue(cmd[2]), None)]
    else if cmd[0] == PEXPIREAT && |cmd| == 3 then
      if cmd[1] in db then db[cmd[1] := db[cmd[1]].(expire := Some(Number(cmd[2])))] else db
    else if cmd[0] == HPEXPIREAT && |cmd| == 6 && cmd[3] == FIELDS && cmd[4] == ONE then
      if cmd[1] in db && db[cmd[1]].value.HashValue? && cmd[5] in db[cmd[1]].value.fields then
        var fields := db[cmd[1]].value.fields;
        var field := fields[cmd[5]].(expire := Some(Number(cmd[2])));
        db[cmd[1] := db[cmd[1]].(value := HashValue(fields[cmd[5] := field]))]
      else db
    else
      var agg := AggOf(cmd[0]);
      if agg.Some? && |cmd| > 2 && (|cmd| - 2) % Width(agg.value) == 0 then
        ExecAgg(db, agg.value, cmd[1], cmd[2..])
      else db
  }

  // One command on a server that is loading: commands that are not understood change nothing.
  function Exec(s: Server, cmd: Command): Server
  {
    if cmd == [] then s
    else if cmd[0] == SELECT then
      if |cmd| == 2 && 0 <= Number(cmd[1]) < |s.dbs| then s.(selected := Number(cmd[1])) else s
    else if s.selected < |s.dbs| then s.(dbs := s.dbs[s.selected := ExecInDb(s.dbs[s.selected], cmd)])
    else s
  }

  function ExecAll(s: Server, cmds: seq<Command>): Server
    decreases |cmds|
  {
    if cmds == [] then s else ExecAll(Exec(s, cmds[0]), cmds[1..])
  }

  // ---------- the commands the rewriter emits ----------

  function Min(a: nat, b: nat): nat { if a < b then a else b }

  function Join(parts: seq<Command>): Command
  {
    if parts == [] then [] else parts[0] + Join(parts[1..])
  }

  // The elements in runs of at most ITEMS_PER_CMD, one command each.
  function Chunks(name: Bytes, key: Bytes, parts: seq<Command>): seq<Command>
    decreases |parts|
  {
    if parts == [] then []
    else
      var n := Min(ITEMS_PER_CMD, |parts|);
      [[name, key] + Join(parts[..n])] + Chunks(name, key, parts[n..])
  }

  predicate HasFieldExpiry(fields: seq<HashField>) { exists i | 0 <= i < |fields| :: fields[i].expire.Some? }

  // The arguments each element contributes, in iteration order.
  function Parts(obj: Object): seq<Command>
  {
    match obj
    case StringObject(_) => []
    case ListObject(items) => seq(|items|, i requires 0 <= i < |items| => [Text(items[i])])
    case SetObject(members) => seq(|members|, i requires 0 <= i < |members| => [Text(members[i])])
    case ZSetObject(entries) => seq(|entries|, i requires 0 <= i < |entries| => [entries[i].1, Text(entries[i].0)])
    case HashObject(fields) =>
      seq(|fields|, i requires 0 <= i < |fields| => [Text(fields[i].name), Text(fields[i].value)])
  }

  function FieldCommands(key: Bytes, f: HashField): seq<Command>
  {
    [[HMSET, key, Text(f.name), Text(f.value)]] +
    if f.expire.Some? then [[HPEXPIREAT, key, Signed(f.expire.value), FIELDS, ONE, Text(f.name)]] else []
  }

  function FieldsCommands(key: Bytes, fields: seq<HashField>): seq<Command>
  {
    if fields == [] then [] else FieldCommands(key, fields[0]) + FieldsCommands(key, fields[1..])
  }

  function AggOfObject(obj: Object): Agg
    requires !obj.StringObject?
  {
    match obj
    case ListObject(_) => List
    case SetObject(_) => Set
    case ZSetObject(_) => ZSet
    case HashObject(_) => Hash
  }

  function ObjectCommands(key: Bytes, obj: Object): seq<Command>
  {
    if obj.StringObject? then [[SET, key, Text(obj.text)]]
    else if obj.HashObject? && HasFieldExpiry(obj.fields) then FieldsCommands(key, obj.fields)
    else Chunks(Name(AggOfObject(obj)), key, Parts(obj))
  }

  function EntryCommands(e: Entry): seq<Command>
  {
    ObjectCommands(e.key, e.obj) + if e.expire.Some? then [[PEXPIREAT, e.key, Signed(e.expire.value)]] else []
  }

  function EntriesCommands(es: seq<Entry>): seq<Command>
  {
    if es == [] then [] else EntryCommands(es[0]) + EntriesCommands(es[1..])
  }

  function DbCommands(j: nat, es: seq<Entry>): seq<Command>
  {
    if es == [] then [] else [[SELECT, Decimal(j)]] + EntriesCommands(es)
  }

  // The commands for databases `j` and up.
  function DatasetCommands(d: Dataset, j: nat): seq<Command>
    requires j <= |d|
    decreases |d| - j
  {
    if j == |d| then [] else DbCommands(j, d[j]) + DatasetCommands(d, j + 1)
  }

  // ---------- the rewriter itself: bytes out ----------

  // What the code writes out as literals: "*2\r\n$6\r\nSELECT\r\n" and so on.
  const SELECT_CMD: Bytes := [42, 50, 13, 10] + [36, 54, 13, 10] + SELECT + [13, 10]
  const SET_CMD: Bytes := [42, 51, 13, 10] + [36, 51, 13, 10] + SET + [13, 10]
  const HMSET_CMD: Bytes := [42, 52, 13, 10] + [36, 53, 13, 10] + HMSET + [13, 10]
  const HPEXPIREAT_CMD: Bytes := [42, 54, 13, 10] + [36, 49, 48, 13, 10] + HPEXPIREAT + [13, 10]
  const PEXPIREAT_CMD: Bytes := [42, 51, 13, 10] + [36, 57, 13, 10] + PEXPIREAT + [13, 10]

  // Each of them is the count and the name of its command.
  lemma SelectHeader()
    ensures SELECT_CMD == Header(STAR, 2) + Bulk(SELECT)
  {
    SmallHeader(STAR, 2);
    SmallHeader(DOLLAR, 6);
    hide Header;
    Assoc(Header(STAR, 2), Header(DOLLAR, 6), SELECT, CRLF);
  }

  lemma SetHeader()
    ensures SET_CMD == Header(STAR, 3) + Bulk(SET)
  {
    SmallHeader(STAR, 3);
    SmallHeader(DOLLAR, 3);
    hide Header;
    Assoc(Header(STAR, 3), Header(DOLLAR, 3), SET, CRLF);
  }

  lemma HmsetHeader()
    ensures HMSET_CMD == Header(STAR, 4) + Bulk(HMSET)
  {
    SmallHeader(STAR, 4);
    SmallHeader(DOLLAR, 5);
    hide Header;
    Assoc(Header(STAR, 4), Header(DOLLAR, 5), HMSET, CRLF);
  }

  lemma HpexpireatHeader()
    ensures HPEXPIREAT_CMD == Header(STAR, 6) + Bulk(HPEXPIREAT)
  {
    SmallHeader(STAR, 6);
    TenHeader();
    hide Header;
    Assoc(Header(STAR, 6), Header(DOLLAR, 10), HPEXPIREAT, CRLF);
  }

  lemma PexpireatHeader()
    ensures PEXPIREAT_CMD == Header(STAR, 3) + Bulk(PEXPIREAT)
  {
    SmallHeader(STAR, 3);
    SmallHeader(DOLLAR, 9);
    hide Header;
    Assoc(Header(STAR, 3), Header(DOLLAR, 9), PEXPIREAT, CRLF);
  }

  lemma SmallHeader(mark: byte, n: nat)
    requires n < 10
    ensures Header(mark, n) == [mark, n as byte + ZERO, 13, 10]
  {}

  lemma TenHeader()
    ensures Header(DOLLAR, 10) == [36, 49, 48, 13, 10]
  {
    assert Decimal(10) == [49, 48];
  }

  // A literal and the arguments behind it are one command.
  lemma LiteralCommand(literal: Bytes, name: Bytes, args: Command)
    requires literal == Header(STAR, 1 + |args|) + Bulk(name)
    ensures Encode([[name] + args]) == literal + Bulks(args)
  {
    hide Header, Bulk, Bulks, Encode;
    EncodeOne([name] + args);
    BulksOf(name, args);
    assert |[name] + args| == 1 + |args|;
    Assoc3(Header(STAR, 1 + |args|), Bulk(name), Bulks(args));
  }

  lemma BulksOf(a: Bytes, rest: Command)
    ensures Bulks([a] + rest) == Bulk(a) + Bulks(rest)
  {
    hide Bulk;
    assert ([a] + rest)[1..] == rest;
  }

  lemma BulksTwo(a: Bytes, b: Bytes)
    ensures Bulks([a, b]) == Bulk(a) + Bulk(b)
  {
    hide Bulk, Bulks;
    NoBulks();
    BulksOf(a, [b]);
    BulksOf(b, []);
    assert [a] + [b] == [a, b] && [b] + [] == [b];
  }

  lemma BulksThree(a: Bytes, b: Bytes, c: Bytes)
    ensures Bulks([a, b, c]) == Bulk(a) + Bulk(b) + Bulk(c)
  {
    hide Bulk, Bulks;
    BulksOf(a, [b, c]);
    BulksTwo(b, c);
    assert [a] + [b, c] == [a, b, c];
  }

  predicate AllWidth(parts: seq<Command>, w: nat) { forall i | 0 <= i < |parts| :: |parts[i]| == w }

  lemma {:induction false} JoinLength(parts: seq<Command>, w: nat)
    requires AllWidth(parts, w)
    ensures |Join(parts)| == |parts| * w
  {
    if parts != [] {
      JoinLength(parts[1..], w);
    }
  }

  lemma {:induction false} JoinConcat(a: seq<Command>, b: seq<Command>)
    ensures Join(a + b) == Join(a) + Join(b)
  {
    if a == [] {
      assert a + b == b;
    } else {
      assert (a + b)[1..] == a[1..] + b;
      JoinConcat(a[1..], b);
    }
  }

  // What is left to write when `count` elements of the current command have been written and elements `i` and up
  // have not.
  function Rest(name: Bytes, key: Bytes, parts: seq<Command>, i: nat, count: nat): Bytes
    requires count <= i <= |parts|
  {
    if count == 0 then Encode(Chunks(name, key, parts[i..]))
    else
      var stop := i - count + Min(ITEMS_PER_CMD, |parts| - (i - count));
      if stop < i then [] else Bulks(Join(parts[i..stop])) + Encode(Chunks(name, key, parts[stop..]))
  }

  lemma RestOpens(name: Bytes, key: Bytes, parts: seq<Command>, w: nat, i: nat)
    requires AllWidth(parts, w) && i < |parts|
    ensures var n := Min(ITEMS_PER_CMD, |parts| - i);
            Encode(Chunks(name, key, parts[i..])) ==
            Header(STAR, 2 + n * w) + Bulk(name) + Bulk(key) +
            Bulks(Join(parts[i..i + n])) + Encode(Chunks(name, key, parts[i + n..]))
  {
    hide *;
    var n := if |parts| - i < ITEMS_PER_CMD then |parts| - i else ITEMS_PER_CMD;
    MinIs(|parts| - i);
    var (args, rest) := (Join(parts[i..i + n]), Chunks(name, key, parts[i + n..]));
    ChunksOpen(name, key, parts, i);
    WidthSlice(parts, w, i, i + n);
    JoinLength(parts[i..i + n], w);
    EncodeItems(name, key, args);
    EncodeNext([name, key] + args, rest);
  }

  lemma MinIs(n: nat)
    ensures Min(ITEMS_PER_CMD, n) == if n < ITEMS_PER_CMD then n else ITEMS_PER_CMD
  {}

  lemma WidthSlice(parts: seq<Command>, w: nat, i: nat, j: nat)
    requires AllWidth(parts, w) && i <= j <= |parts|
    ensures AllWidth(parts[i..j], w)
  {}

  lemma ChunksOpen(name: Bytes, key: Bytes, parts: seq<Command>, i: nat)
    requires i < |parts|
    ensures var n := Min(ITEMS_PER_CMD, |parts| - i);
            Chunks(name, key, parts[i..]) ==
            [[name, key] + Join(parts[i..i + n])] + Chunks(name, key, parts[i + n..])
  {
    hide Join;
    var n := Min(ITEMS_PER_CMD, |parts| - i);
    assert parts[i..][..n] == parts[i..i + n] && parts[i..][n..] == parts[i + n..];
  }

  lemma EncodeItems(name: Bytes, key: Bytes, args: Command)
    ensures EncodeCommand([name, key] + args) ==
            Header(STAR, 2 + |args|) + Bulk(name) + Bulk(key) + Bulks(args)
  {
    hide Header, Bulk, Bulks;
    BulksConcat([name, key], args);
    TwoBulks(name, key);
    var (h, n, k, t) := (Header(STAR, 2 + |args|), Bulk(name), Bulk(key), Bulks(args));
    assert EncodeCommand([name, key] + args) == h + (n + k + t) by {
      assert |[name, key] + args| == 2 + |args|;
    }
    Assoc(h, n, k, t);
  }

  lemma Assoc(h: Bytes, n: Bytes, k: Bytes, t: Bytes)
    ensures h + (n + k + t) == h + n + k + t
  {}

  lemma TwoBulks(a: Bytes, b: Bytes)
    ensures Bulks([a, b]) == Bulk(a) + Bulk(b)
  {
    hide Bulk;
    var s := [a, b];
    assert s[1..] == [b] && s[1..][1..] == [];
    assert Bulks([b]) == Bulk(b) + Bulks([]);
  }

  lemma EncodeNext(cmd: Command, rest: seq<Command>)
    ensures Encode([cmd] + rest) == EncodeCommand(cmd) + Encode(rest)
  {
    hide EncodeCommand;
    assert ([cmd] + rest)[1..] == rest;
  }

  lemma RestNext(parts: seq<Command>, i: nat, stop: nat)
    requires i < stop <= |parts|
    ensures Bulks(Join(parts[i..stop])) == Bulks(parts[i]) + Bulks(Join(parts[i + 1..stop]))
  {
    hide Bulk;
    assert parts[i..stop][1..] == parts[i + 1..stop];
    BulksConcat(parts[i], Join(parts[i + 1..stop]));
  }

  // The loop shared by rewriteListObject, rewriteSetObject, rewriteSortedSetObject and rewriteHashObject.
  method RewriteItems(out0: Bytes, name: Bytes, key: Bytes, parts: seq<Command>, w: nat) returns (out: Bytes)
    requires AllWidth(parts, w)
    ensures out == out0 + Encode(Chunks(name, key, parts))
  {
    hide Header, Bulk, Bulks, Chunks, Encode, Join, Rest, AllWidth;
    out := out0;
    var count, items := 0, |parts|;
    ghost var whole := out0 + Encode(Chunks(name, key, parts));
    RestStart(name, key, parts);
    for i := 0 to |parts|
      invariant items == |parts| - i && count <= i && 0 <= count < ITEMS_PER_CMD
      invariant count > 0 ==> i < i - count + Min(ITEMS_PER_CMD, |parts| - (i - count)) || i == |parts|
      invariant out + Rest(name, key, parts, i, count) == whole
    {
      ghost var (before, start) := (out, i - count);
      ghost var stop := start + Min(ITEMS_PER_CMD, |parts| - start);
      ghost var (now, after) := (Bulks(Join(parts[i..stop])), Bulks(Join(parts[i + 1..stop])));
      ghost var tail := Encode(Chunks(name, key, parts[stop..]));
      RestIs(name, key, parts, i, count);
      if count == 0 {
        var cmdItems := if items > ITEMS_PER_CMD then ITEMS_PER_CMD else items;
        RestOpens(name, key, parts, w, i);
        Regroup(out, Header(STAR, 2 + cmdItems * w), Bulk(name), Bulk(key), now, tail);
        out := out + Header(STAR, 2 + cmdItems * w);
        out := out + Bulk(name);
        out := out + Bulk(key);
      }
      RestNext(parts, i, stop);
      Peel(out, Bulks(parts[i]), after, tail);
      out := out + Bulks(parts[i]);
      count := count + 1;
      RestIs(name, key, parts, i + 1, count);
      if count == ITEMS_PER_CMD {
        count := 0;
        NothingJoined(parts, i + 1);
        RestIs(name, key, parts, i + 1, count);
      }
      items := items - 1;
    }
    RestEnd(name, key, parts, count);
  }

  lemma RestIs(name: Bytes, key: Bytes, parts: seq<Command>, i: nat, count: nat)
    requires count <= i <= |parts|
    ensures count == 0 ==> Rest(name, key, parts, i, count) == Encode(Chunks(name, key, parts[i..]))
    ensures var stop := i - count + Min(ITEMS_PER_CMD, |parts| - (i - count));
            var tail := Encode(Chunks(name, key, parts[stop..]));
            count > 0 && i <= stop ==>
              Rest(name, key, parts, i, count) == Bulks(Join(parts[i..stop])) + tail
  {
    hide Chunks, Encode, Bulks, Join;
  }

  lemma RestStart(name: Bytes, key: Bytes, parts: seq<Command>)
    ensures Rest(name, key, parts, 0, 0) == Encode(Chunks(name, key, parts))
  {
    hide Chunks, Encode;
    assert parts[0..] == parts;
  }

  lemma RestEnd(name: Bytes, key: Bytes, parts: seq<Command>, count: nat)
    requires count <= |parts|
    ensures Rest(name, key, parts, |parts|, count) == []
  {
    NothingLeft(name, key, parts);
    hide Chunks, Encode, Bulks, Join;
  }

  lemma Regroup(out: Bytes, h: Bytes, n: Bytes, k: Bytes, now: Bytes, tail: Bytes)
    ensures out + (h + n + k + now + tail) == out + h + n + k + (now + tail)
  {}

  lemma Peel(out: Bytes, x: Bytes, after: Bytes, tail: Bytes)
    ensures out + (x + after + tail) == out + x + (after + tail)
  {}

  lemma NothingJoined(parts: seq<Command>, i: nat)
    requires i <= |parts|
    ensures Bulks(Join(parts[i..i])) == []
  {}

  lemma NothingLeft(name: Bytes, key: Bytes, parts: seq<Command>)
    ensures Encode(Chunks(name, key, parts[|parts|..])) == []
    ensures Bulks(Join(parts[|parts|..|parts|])) == []
  {}

  lemma PartsWidth(obj: Object)
    requires !obj.StringObject?
    ensures AllWidth(Parts(obj), Width(AggOfObject(obj)))
  {}

  method RewriteHashFields(out0: Bytes, key: Bytes, fields: seq<HashField>) returns (out: Bytes)
    ensures out == out0 + Encode(FieldsCommands(key, fields))
  {
    hide EncodeCommand, FieldCommands;
    out := out0;
    for i := 0 to |fields|
      invariant out == out0 + Encode(FieldsCommands(key, fields[..i]))
    {
      FieldsCommandsSnoc(key, fields, i);
      EncodeConcat(FieldsCommands(key, fields[..i]), FieldCommands(key, fields[i]));
      out := RewriteHashField(out, key, fields[i]);
    }
    assert fields[..|fields|] == fields;
  }

  lemma {:induction false} FieldsCommandsConcat(key: Bytes, a: seq<HashField>, b: seq<HashField>)
    ensures FieldsCommands(key, a + b) == FieldsCommands(key, a) + FieldsCommands(key, b)
  {
    hide FieldCommands;
    if a == [] {
      assert a + b == b;
    } else {
      assert (a + b)[1..] == a[1..] + b;
      FieldsCommandsConcat(key, a[1..], b);
    }
  }

  lemma FieldsCommandsSnoc(key: Bytes, fields: seq<HashField>, i: nat)
    requires i < |fields|
    ensures FieldsCommands(key, fields[..i + 1]) == FieldsCommands(key, fields[..i]) + FieldCommands(key, fields[i])
  {
    hide FieldCommands;
    assert fields[..i + 1] == fields[..i] + [fields[i]];
    FieldsCommandsConcat(key, fields[..i], [fields[i]]);
    assert [fields[i]][1..] == [];
  }

  // One field of a hash that has field expiry: its own HMSET, then HPEXPIREAT if it expires.
  method RewriteHashField(out0: Bytes, key: Bytes, f: HashField) returns (out: Bytes)
    ensures out == out0 + Encode(FieldCommands(key, f))
  {
    hide Encode, Bulk, Bulks, EncodeCommand;
    var (name, value) := (Text(f.name), Text(f.value));
    ghost var add := [HMSET, key, name, value];
    out := out0 + HMSET_CMD;
    out := out + Bulk(key);
    out := out + Bulk(name);
    out := out + Bulk(value);
    HmsetIs(out0, key, name, value);
    if f.expire.Some? {
      ghost var (before, later) := (out, [HPEXPIREAT, key, Signed(f.expire.value), FIELDS, ONE, name]);
      out := out + HPEXPIREAT_CMD;
      out := out + Bulk(key);
      out := out + Bulk(Signed(f.expire.value));
      out := out + Bulk(FIELDS);
      out := out + Bulk(ONE);
      out := out + Bulk(name);
      HpexpireatIs(before, key, f.expire.value, name);
      EncodeConcat([add], [later]);
      assert FieldCommands(key, f) == [add] + [later];
      assert out == out0 + (Encode([add]) + Encode([later]));
    } else {
      assert FieldCommands(key, f) == [add];
    }
  }

  lemma HmsetIs(out: Bytes, key: Bytes, name: Bytes, value: Bytes)
    ensures out + HMSET_CMD + Bulk(key) + Bulk(name) + Bulk(value) == out + Encode([[HMSET, key, name, value]])
  {
    HmsetHeader();
    hide Header, Bulk, Bulks, Encode;
    LiteralCommand(HMSET_CMD, HMSET, [key, name, value]);
    BulksThree(key, name, value);
    assert [HMSET] + [key, name, value] == [HMSET, key, name, value];
    Peel(out, HMSET_CMD, Bulk(key) + Bulk(name), Bulk(value));
    Peel(out, HMSET_CMD, Bulk(key), Bulk(name));
  }

  lemma HpexpireatIs(out: Bytes, key: Bytes, at: int, name: Bytes)
    ensures out + HPEXPIREAT_CMD + Bulk(key) + Bulk(Signed(at)) + Bulk(FIELDS) + Bulk(ONE) + Bulk(name) ==
            out + Encode([[HPEXPIREAT, key, Signed(at), FIELDS, ONE, name]])
  {
    HpexpireatHeader();
    hide Header, Bulk, Bulks, Encode, Signed;
    var (first, last) := ([key, Signed(at)], [FIELDS, ONE, name]);
    LiteralCommand(HPEXPIREAT_CMD, HPEXPIREAT, first + last);
    BulksConcat(first, last);
    BulksTwo(key, Signed(at));
    BulksThree(FIELDS, ONE, name);
    assert [HPEXPIREAT] + (first + last) == [HPEXPIREAT, key, Signed(at), FIELDS, ONE, name];
    Flatten(out, HPEXPIREAT_CMD, Bulk(key), Bulk(Signed(at)), Bulk(FIELDS), Bulk(ONE), Bulk(name));
  }

  lemma Flatten(out: Bytes, l: Bytes, a: Bytes, b: Bytes, c: Bytes, d: Bytes, e: Bytes)
    ensures out + (l + (a + b + (c + d + e))) == out + l + a + b + c + d + e
  {}

  method RewriteObject(out0: Bytes, key: Bytes, obj: Object) returns (out: Bytes)
    ensures out == out0 + Encode(ObjectCommands(key, obj))
  {
    hide EncodeCommand, Encode, Chunks, FieldsCommands, Bulk;
    if obj.StringObject? {
      out := out0 + SET_CMD;
      out := out + Bulk(key);
      out := out + Bulk(Text(obj.text));
      SetIs(out0, key, Text(obj.text));
    } else if obj.HashObject? && HasFieldExpiry(obj.fields) {
      out := RewriteHashFields(out0, key, obj.fields);
    } else {
      var agg := AggOfObject(obj);
      PartsWidth(obj);
      out := RewriteItems(out0, Name(agg), key, Parts(obj), Width(agg));
    }
  }

  method RewriteEntry(out0: Bytes, e: Entry) returns (out: Bytes)
    ensures out == out0 + Encode(EntryCommands(e))
  {
    hide EncodeCommand, Encode, ObjectCommands, Bulk;
    out := RewriteObject(out0, e.key, e.obj);
    if e.expire.Some? {
      ghost var before := out;
      out := out + PEXPIREAT_CMD;
      out := out + Bulk(e.key);
      out := out + Bulk(Signed(e.expire.value));
      PexpireatIs(before, e.key, e.expire.value);
      EncodeConcat(ObjectCommands(e.key, e.obj), [[PEXPIREAT, e.key, Signed(e.expire.value)]]);
    } else {
      assert EntryCommands(e) == ObjectCommands(e.key, e.obj);
    }
  }

  lemma SetIs(out: Bytes, key: Bytes, value: Bytes)
    ensures out + SET_CMD + Bulk(key) + Bulk(value) == out + Encode([[SET, key, value]])
  {
    SetHeader();
    hide Header, Bulk, Bulks, Encode;
    LiteralCommand(SET_CMD, SET, [key, value]);
    BulksTwo(key, value);
    assert [SET] + [key, value] == [SET, key, value];
    Peel(out, SET_CMD, Bulk(key), Bulk(value));
  }

  lemma PexpireatIs(out: Bytes, key: Bytes, at: int)
    ensures out + PEXPIREAT_CMD + Bulk(key) + Bulk(Signed(at)) == out + Encode([[PEXPIREAT, key, Signed(at)]])
  {
    PexpireatHeader();
    hide Header, Bulk, Bulks, Encode, Signed;
    LiteralCommand(PEXPIREAT_CMD, PEXPIREAT, [key, Signed(at)]);
    BulksTwo(key, Signed(at));
    assert [PEXPIREAT] + [key, Signed(at)] == [PEXPIREAT, key, Signed(at)];
    Peel(out, PEXPIREAT_CMD, Bulk(key), Bulk(Signed(at)));
  }

  lemma SelectIs(out: Bytes, j: nat)
    ensures out + SELECT_CMD + Bulk(Decimal(j)) == out + Encode([[SELECT, Decimal(j)]])
  {
    SelectHeader();
    hide Header, Bulk, Bulks, Encode, Decimal;
    LiteralCommand(SELECT_CMD, SELECT, [Decimal(j)]);
    NoBulks();
    BulksOf(Decimal(j), []);
    assert [Decimal(j)] + [] == [Decimal(j)] && [SELECT] + [Decimal(j)] == [SELECT, Decimal(j)];
    Peel(out, SELECT_CMD, Bulk(Decimal(j)), []);
  }

  lemma {:induction false} EntriesCommandsConcat(a: seq<Entry>, b: seq<Entry>)
    ensures EntriesCommands(a + b) == EntriesCommands(a) + EntriesCommands(b)
  {
    hide EntryCommands;
    if a == [] {
      assert a + b == b;
    } else {
      assert (a + b)[1..] == a[1..] + b;
      EntriesCommandsConcat(a[1..], b);
    }
  }

  method RewriteDb(out0: Bytes, j: nat, es: seq<Entry>) returns (out: Bytes)
    ensures out == out0 + Encode(DbCommands(j, es))
  {
    hide EncodeCommand, Encode, EntryCommands, EntriesCommands, Bulk;
    out := out0;
    if |es| == 0 {
      NoCommands();
      return;
    }
    ghost var cmd := [SELECT, Decimal(j)];
    out := out + SELECT_CMD;
    out := out + Bulk(Decimal(j));
    SelectIs(out0, j);
    NoCommands();
    NoEntries();
    for i := 0 to |es|
      invariant out == out0 + Encode([cmd]) + Encode(EntriesCommands(es[..i]))
    {
      EntriesCommandsSnoc(es, i);
      EncodeConcat(EntriesCommands(es[..i]), EntryCommands(es[i]));
      Assoc3(out0 + Encode([cmd]), Encode(EntriesCommands(es[..i])), Encode(EntryCommands(es[i])));
      out := RewriteEntry(out, es[i]);
    }
    assert es[..|es|] == es;
    EncodeConcat([cmd], EntriesCommands(es));
    Assoc3(out0, Encode([cmd]), Encode(EntriesCommands(es)));
  }

  lemma NoCommands()
    ensures Encode([]) == []
  {}

  lemma NoEntries()
    ensures EntriesCommands([]) == []
  {}

  lemma EntriesCommandsSnoc(es: seq<Entry>, i: nat)
    requires i < |es|
    ensures EntriesCommands(es[..i + 1]) == EntriesCommands(es[..i]) + EntryCommands(es[i])
  {
    hide EntryCommands;
    assert es[..i + 1] == es[..i] + [es[i]] && [es[i]][1..] == [];
    EntriesCommandsConcat(es[..i], [es[i]]);
  }

  lemma Assoc3(a: Bytes, b: Bytes, c: Bytes)
    ensures a + (b + c) == a + b + c
  {}

  // rewriteAppendOnlyFileRio
  method RewriteAppendOnlyFile(d: Dataset) returns (out: Bytes)
    ensures out == Encode(DatasetCommands(d, 0))
  {
    hide DbCommands, Encode;
    NoCommands();
    out := [];
    for j := 0 to |d|
      invariant out + Encode(DatasetCommands(d, j)) == Encode(DatasetCommands(d, 0))
    {
      EncodeConcat(DbCommands(j, d[j]), DatasetCommands(d, j + 1));
      out := RewriteDb(out, j, d[j]);
    }
  }

  // ---------- replaying the commands ----------

  predicate NoSelect(cmds: seq<Command>) { forall i | 0 <= i < |cmds| :: cmds[i] != [] && cmds[i][0] != SELECT }

  function ExecDbAll(db: Db, cmds: seq<Command>): Db
    requires NoSelect(cmds)
    decreases |cmds|
  {
    if cmds == [] then db else ExecDbAll(ExecInDb(db, cmds[0]), cmds[1..])
  }

  lemma {:induction false} ExecDbAllConcat(db: Db, a: seq<Command>, b: seq<Command>)
    requires NoSelect(a) && NoSelect(b)
    ensures NoSelect(a + b) && ExecDbAll(db, a + b) == ExecDbAll(ExecDbAll(db, a), b)
    decreases |a|
  {
    hide ExecInDb;
    if a == [] {
      assert a + b == b;
    } else {
      assert (a + b)[1..] == a[1..] + b;
      ExecDbAllConcat(ExecInDb(db, a[0]), a[1..], b);
    }
  }

  lemma {:induction false} ExecAllConcat(s: Server, a: seq<Command>, b: seq<Command>)
    ensures ExecAll(s, a + b) == ExecAll(ExecAll(s, a), b)
    decreases |a|
  {
    hide Exec;
    if a == [] {
      assert a + b == b;
    } else {
      assert (a + b)[1..] == a[1..] + b;
      ExecAllConcat(Exec(s, a[0]), a[1..], b);
    }
  }

  // Commands other than SELECT work on the selected database alone.
  lemma {:induction false} ExecSelected(s: Server, cmds: seq<Command>)
    requires NoSelect(cmds) && s.selected < |s.dbs|
    ensures ExecAll(s, cmds) == s.(dbs := s.dbs[s.selected := ExecDbAll(s.dbs[s.selected], cmds)])
    decreases |cmds|
  {
    hide ExecInDb;
    if cmds != [] {
      ExecSelected(Exec(s, cmds[0]), cmds[1..]);
    }
  }

  function FoldParts(agg: Agg, v: Value, parts: seq<Command>): (r: Value)
    requires Fits(agg, v) && AllWidth(parts, Width(agg))
    ensures Fits(agg, r)
  {
    if parts == [] then v else Insert(agg, FoldParts(agg, v, parts[..|parts| - 1]), parts[|parts| - 1])
  }

  lemma {:induction false} InsertAllConcat(agg: Agg, v: Value, a: Command, b: Command)
    requires Fits(agg, v) && |a| % Width(agg) == 0 && |b| % Width(agg) == 0
    ensures |a + b| % Width(agg) == 0 && InsertAll(agg, v, a + b) == InsertAll(agg, InsertAll(agg, v, a), b)
    decreases |a|
  {
    hide Insert;
    if a == [] {
      assert a + b == b;
    } else {
      var w := Width(agg);
      assert (a + b)[..w] == a[..w] && (a + b)[w..] == a[w..] + b;
      InsertAllConcat(agg, Insert(agg, v, a[..w]), a[w..], b);
    }
  }

  lemma JoinWhole(agg: Agg, parts: seq<Command>)
    requires AllWidth(parts, Width(agg))
    ensures |Join(parts)| % Width(agg) == 0 && |Join(parts)| == |parts| * Width(agg)
  {
    JoinLength(parts, Width(agg));
  }

  lemma {:induction false} InsertAllFold(agg: Agg, v: Value, parts: seq<Command>)
    requires Fits(agg, v) && AllWidth(parts, Width(agg))
    ensures |Join(parts)| % Width(agg) == 0 && InsertAll(agg, v, Join(parts)) == FoldParts(agg, v, parts)
    decreases |parts|
  {
    hide Insert;
    if parts != [] {
      var n := |parts| - 1;
      var last := parts[n];
      InsertAllFold(agg, v, parts[..n]);
      assert parts == parts[..n] + [last];
      JoinConcat(parts[..n], [last]);
      assert [last][1..] == [] && Join([last]) == last;
      InsertAllConcat(agg, v, Join(parts[..n]), last);
      assert last[..|last|] == last && last[|last|..] == [];
    }
  }

  lemma ExecAggCommand(agg: Agg, db: Db, key: Bytes, args: Command)
    requires args != [] && |args| % Width(agg) == 0
    ensures ExecInDb(db, [Name(agg), key] + args) == ExecAgg(db, agg, key, args)
  {
    hide InsertAll, ExecAgg;
    AggNames(agg);
    assert ([Name(agg), key] + args)[2..] == args;
  }

  // Splitting the elements over several commands makes no difference.
  lemma {:induction false} ChunksAppend(agg: Agg, db: Db, key: Bytes, parts: seq<Command>)
    requires AllWidth(parts, Width(agg)) && key in db && Fits(agg, db[key].value)
    ensures NoSelect(Chunks(Name(agg), key, parts))
    ensures |Join(parts)| % Width(agg) == 0
    ensures ExecDbAll(db, Chunks(Name(agg), key, parts)) ==
            db[key := db[key].(value := InsertAll(agg, db[key].value, Join(parts)))]
    decreases |parts|
  {
    hide Insert, InsertAll, ExecInDb, Join;
    JoinWhole(agg, parts);
    if parts == [] {
      NothingToJoin();
      InsertNone(agg, db[key].value);
      assert db[key := db[key]] == db;
    } else {
      var n := Min(ITEMS_PER_CMD, |parts|);
      SplitParts(agg, parts, n);
      var args := Join(parts[..n]);
      InsertAllConcat(agg, db[key].value, args, Join(parts[n..]));
      ExecAggCommand(agg, db, key, args);
      AggNames(agg);
      ChunksAppend(agg, ExecAgg(db, agg, key, args), key, parts[n..]);
    }
  }

  lemma EmptyFits(agg: Agg)
    ensures Fits(agg, EmptyValue(agg))
  {}

  lemma ExecCons(db: Db, cmd: Command, cmds: seq<Command>)
    requires NoSelect(cmds) && cmd != [] && cmd[0] != SELECT
    ensures NoSelect([cmd] + cmds) && ExecDbAll(db, [cmd] + cmds) == ExecDbAll(ExecInDb(db, cmd), cmds)
  {
    hide ExecInDb;
    assert ([cmd] + cmds)[1..] == cmds;
  }

  lemma NothingToJoin()
    ensures Join([]) == []
  {}

  lemma SplitParts(agg: Agg, parts: seq<Command>, n: nat)
    requires AllWidth(parts, Width(agg)) && n <= |parts|
    ensures Join(parts) == Join(parts[..n]) + Join(parts[n..])
    ensures |Join(parts[..n])| == n * Width(agg) && |Join(parts[..n])| % Width(agg) == 0
    ensures |Join(parts[n..])| % Width(agg) == 0
  {
    assert parts == parts[..n] + parts[n..];
    JoinConcat(parts[..n], parts[n..]);
    JoinWhole(agg, parts[..n]);
    JoinWhole(agg, parts[n..]);
  }

  // A new key holds the fold of all the elements.
  lemma ChunksCreate(agg: Agg, db: Db, key: Bytes, parts: seq<Command>)
    requires AllWidth(parts, Width(agg)) && key !in db
    ensures NoSelect(Chunks(Name(agg), key, parts))
    ensures ExecDbAll(db, Chunks(Name(agg), key, parts)) ==
            if parts == [] then db else db[key := Stored(FoldParts(agg, EmptyValue(agg), parts), None)]
  {
    hide Insert, InsertAll, ExecInDb, Join, FoldParts, EmptyValue, Name, Fits, AllWidth;
    AggNames(agg);
    if parts != [] {
      var n := Min(ITEMS_PER_CMD, |parts|);
      SplitParts(agg, parts, n);
      var args := Join(parts[..n]);
      EmptyFits(agg);
      InsertAllConcat(agg, EmptyValue(agg), args, Join(parts[n..]));
      ExecAggCommand(agg, db, key, args);
      var db1 := db[key := Stored(InsertAll(agg, EmptyValue(agg), args), None)];
      WidthSlice(parts, Width(agg), n, |parts|);
      assert parts[n..|parts|] == parts[n..];
      ChunksAppend(agg, db1, key, parts[n..]);
      ExecCons(db, [Name(agg), key] + args, Chunks(Name(agg), key, parts[n..]));
      InsertAllFold(agg, EmptyValue(agg), parts);
    }
  }

  lemma InsertNone(agg: Agg, v: Value)
    requires Fits(agg, v)
    ensures InsertAll(agg, v, []) == v
  {}

  lemma AggNames(agg: Agg)
    ensures AggOf(Name(agg)) == Some(agg)
    ensures Name(agg) != SELECT && Name(agg) != SET && Name(agg) != PEXPIREAT && Name(agg) != HPEXPIREAT
  {}

  // ---------- what a stored object means ----------

  // Elements of sets, sorted sets and hashes are distinct, as texts.
  predicate Distinct(obj: Object)
  {
    match obj
    case StringObject(_) => true
    case ListObject(_) => true
    case SetObject(ms) => forall i, j | 0 <= i < j < |ms| :: Text(ms[i]) != Text(ms[j])
    case ZSetObject(es) => forall i, j | 0 <= i < j < |es| :: Text(es[i].0) != Text(es[j].0)
    case HashObject(fs) => forall i, j | 0 <= i < j < |fs| :: Text(fs[i].name) != Text(fs[j].name)
  }

  ghost predicate Represents(v: Value, obj: Object)
  {
    match obj
    case StringObject(t) => v == StringValue(Text(t))
    case ListObject(items) =>
      v.ListValue? && |v.items| == |items| && forall i | 0 <= i < |items| :: v.items[i] == Text(items[i])
    case SetObject(ms) =>
      v.SetValue? && v.members == set i | 0 <= i < |ms| :: Text(ms[i])
    case ZSetObject(es) => v.ZSetValue? && RepresentsScores(v.scores, es)
    case HashObject(fs) => v.HashValue? && RepresentsFields(v.fields, fs)
  }

  ghost predicate RepresentsFields(m: map<Bytes, Field>, fs: seq<HashField>)
  {
    && m.Keys == (set i | 0 <= i < |fs| :: Text(fs[i].name))
    && forall i | 0 <= i < |fs| ::
         Text(fs[i].name) in m && m[Text(fs[i].name)] == Field(Text(fs[i].value), fs[i].expire)
  }

  lemma {:induction false} ListRepresented(items: seq<Elem>)
    ensures Represents(FoldParts(List, EmptyValue(List), Parts(ListObject(items))), ListObject(items))
  {
    if items != [] {
      var n := |items| - 1;
      ListRepresented(items[..n]);
      assert Parts(ListObject(items))[..n] == Parts(ListObject(items[..n]));
    }
  }

  lemma {:induction false} SetRepresented(ms: seq<Elem>)
    ensures Represents(FoldParts(Set, EmptyValue(Set), Parts(SetObject(ms))), SetObject(ms))
  {
    hide Text;
    if ms != [] {
      var n := |ms| - 1;
      SetRepresented(ms[..n]);
      assert Parts(SetObject(ms))[..n] == Parts(SetObject(ms[..n]));
      assert (set i | 0 <= i < |ms| :: Text(ms[i])) == (set i | 0 <= i < n :: Text(ms[..n][i])) + {Text(ms[n])};
    }
  }

  ghost predicate RepresentsScores(m: map<Bytes, Bytes>, es: seq<(Elem, Bytes)>)
  {
    && m.Keys == (set i | 0 <= i < |es| :: Text(es[i].0))
    && forall i | 0 <= i < |es| :: Text(es[i].0) in m && m[Text(es[i].0)] == es[i].1
  }

  lemma AddScore(m: map<Bytes, Bytes>, es: seq<(Elem, Bytes)>)
    requires es != [] && Distinct(ZSetObject(es)) && RepresentsScores(m, es[..|es| - 1])
    ensures RepresentsScores(m[Text(es[|es| - 1].0) := es[|es| - 1].1], es)
  {
    hide Text;
    var n := |es| - 1;
    assert (set i | 0 <= i < |es| :: Text(es[i].0)) == (set i | 0 <= i < n :: Text(es[..n][i].0)) + {Text(es[n].0)};
    assert forall i | 0 <= i < n :: es[..n][i] == es[i];
  }

  lemma {:induction false} ZSetRepresented(es: seq<(Elem, Bytes)>)
    requires Distinct(ZSetObject(es))
    ensures Represents(FoldParts(ZSet, EmptyValue(ZSet), Parts(ZSetObject(es))), ZSetObject(es))
  {
    if es != [] {
      var n := |es| - 1;
      ZSetRepresented(es[..n]);
      assert Parts(ZSetObject(es))[..n] == Parts(ZSetObject(es[..n]));
      var v := FoldParts(ZSet, EmptyValue(ZSet), Parts(ZSetObject(es[..n])));
      AddScore(v.scores, es);
      hide Text, RepresentsScores;
      assert Parts(ZSetObject(es))[n] == [es[n].1, Text(es[n].0)];
    }
  }

  lemma AddField(m: map<Bytes, Field>, fs: seq<HashField>)
    requires fs != [] && Distinct(HashObject(fs)) && RepresentsFields(m, fs[..|fs| - 1])
    ensures var f := fs[|fs| - 1];
            RepresentsFields(m[Text(f.name) := Field(Text(f.value), f.expire)], fs)
  {
    hide Text;
    var n := |fs| - 1;
    assert (set i | 0 <= i < |fs| :: Text(fs[i].name)) ==
           (set i | 0 <= i < n :: Text(fs[..n][i].name)) + {Text(fs[n].name)};
    assert forall i | 0 <= i < n :: fs[..n][i] == fs[i];
  }

  lemma {:induction false} HashRepresented(fs: seq<HashField>)
    requires Distinct(HashObject(fs)) && !HasFieldExpiry(fs)
    ensures Represents(FoldParts(Hash, EmptyValue(Hash), Parts(HashObject(fs))), HashObject(fs))
  {
    if fs != [] {
      var n := |fs| - 1;
      assert !HasFieldExpiry(fs[..n]);
      HashRepresented(fs[..n]);
      assert Parts(HashObject(fs))[..n] == Parts(HashObject(fs[..n]));
      var v := FoldParts(Hash, EmptyValue(Hash), Parts(HashObject(fs[..n])));
      AddField(v.fields, fs);
      hide Text, RepresentsFields;
      assert Parts(HashObject(fs))[n] == [Text(fs[n].name), Text(fs[n].value)];
      assert fs[n].expire == None;
    }
  }

  // One field with its expiry, added to a hash that does not have it (or to no hash at all).
  lemma FieldReplay(db: Db, key: Bytes, f: HashField, m: map<Bytes, Field>)
    requires if key in db then db[key] == Stored(HashValue(m), None) else m == map[]
    ensures NoSelect(FieldCommands(key, f))
    ensures ExecDbAll(db, FieldCommands(key, f)) ==
            db[key := Stored(HashValue(m[Text(f.name) := Field(Text(f.value), f.expire)]), None)]
  {
    hide Text, Signed, Number;
    var name, value := Text(f.name), Text(f.value);
    var set1 := [HMSET, key, name, value];
    assert set1 == [HMSET, key] + [name, value];
    ExecAggCommand(Hash, db, key, [name, value]);
    InsertField(HashValue(m), name, value);
    var db1 := ExecInDb(db, set1);
    assert db1 == db[key := Stored(HashValue(m[name := Field(value, None)]), None)];
    if f.expire.Some? {
      NumberOfSigned(f.expire.value, []);
      assert Signed(f.expire.value) + [] == Signed(f.expire.value);
      var cmd := [HPEXPIREAT, key, Signed(f.expire.value), FIELDS, ONE, name];
      ExpireField(db1, key, f.expire.value, name);
      var db2 := ExecInDb(db1, cmd);
      var m1 := m[name := Field(value, None)];
      assert m1[name := Field(value, f.expire)] == m[name := Field(value, f.expire)];
      assert db2 == db1[key := Stored(HashValue(m1[name := Field(value, f.expire)]), None)];
      assert db2 == db[key := Stored(HashValue(m[name := Field(value, f.expire)]), None)];
      assert FieldCommands(key, f) == [set1] + [cmd];
      ExecCons(db1, cmd, []);
      ExecCons(db, set1, [cmd]);
      assert [cmd] + [] == [cmd];
    } else {
      assert FieldCommands(key, f) == [set1] + [];
      ExecCons(db, set1, []);
    }
  }

  lemma ExpireField(db: Db, key: Bytes, ms: int, name: Bytes)
    requires key in db && db[key].value.HashValue? && name in db[key].value.fields
    ensures var fields := db[key].value.fields;
            ExecInDb(db, [HPEXPIREAT, key, Signed(ms), FIELDS, ONE, name]) ==
            db[key := db[key].(value := HashValue(fields[name := fields[name].(expire := Some(ms))]))]
  {
    hide Signed, Number;
    NumberOfSigned(ms, []);
    assert Signed(ms) + [] == Signed(ms);
  }

  lemma InsertField(v: Value, name: Bytes, value: Bytes)
    requires v.HashValue?
    ensures InsertAll(Hash, v, [name, value]) == HashValue(v.fields[name := Field(value, None)])
  {
    assert [name, value][..2] == [name, value] && [name, value][2..] == [];
  }

  lemma NoFields()
    ensures RepresentsFields(map[], [])
  {}

  lemma {:induction false} FieldsReplay(db: Db, key: Bytes, fs: seq<HashField>)
    requires key !in db && Distinct(HashObject(fs))
    ensures NoSelect(FieldsCommands(key, fs))
    ensures var db1 := ExecDbAll(db, FieldsCommands(key, fs));
            if fs == [] then db1 == db
            else exists m :: db1 == db[key := Stored(HashValue(m), None)] && RepresentsFields(m, fs)
    decreases |fs|
  {
    hide Text, FieldCommands, ExecInDb, RepresentsFields;
    if fs != [] {
      var n := |fs| - 1;
      FieldsReplay(db, key, fs[..n]);
      FieldsCommandsSnoc(key, fs, n);
      assert fs[..n + 1] == fs;
      var db1 := ExecDbAll(db, FieldsCommands(key, fs[..n]));
      var m: map<Bytes, Field> := map[];
      if n > 0 {
        m :| db1 == db[key := Stored(HashValue(m), None)] && RepresentsFields(m, fs[..n]);
      }
      assert RepresentsFields(m, fs[..n]) by { NoFields(); }
      FieldReplay(db1, key, fs[n], m);
      ExecDbAllConcat(db, FieldsCommands(key, fs[..n]), FieldCommands(key, fs[n]));
      AddField(m, fs);
      var m1 := m[Text(fs[n].name) := Field(Text(fs[n].value), fs[n].expire)];
      assert db[key := Stored(HashValue(m), None)][key := Stored(HashValue(m1), None)] ==
             db[key := Stored(HashValue(m1), None)];
    }
  }

  // ---------- the whole dataset ----------

  // An aggregate without elements; the server does not keep such keys.
  predicate Vanishes(obj: Object) { !obj.StringObject? && Parts(obj) == [] }

  predicate ValidEntries(es: seq<Entry>)
  {
    && (forall i | 0 <= i < |es| :: Distinct(es[i].obj))
    && forall i, j | 0 <= i < j < |es| :: es[i].key != es[j].key
  }

  // Replaying an entry's commands where its key is free creates exactly that key, unless the object vanishes.
  ghost predicate Creates(db: Db, db1: Db, e: Entry)
  {
    if Vanishes(e.obj) then db1 == db
    else exists v :: Represents(v, e.obj) && db1 == db[e.key := Stored(v, e.expire)]
  }

  lemma ObjectReplay(db: Db, key: Bytes, obj: Object)
    requires key !in db && Distinct(obj)
    ensures NoSelect(ObjectCommands(key, obj))
    ensures Creates(db, ExecDbAll(db, ObjectCommands(key, obj)), Entry(key, obj, None))
  {
    hide FoldParts, Represents, ExecInDb;
    if obj.StringObject? {
      SetReplay(db, key, obj);
    } else if obj.HashObject? && HasFieldExpiry(obj.fields) {
      FieldsReplay(db, key, obj.fields);
      HashOf(db, key, obj);
    } else {
      PartsWidth(obj);
      ChunksCreate(AggOfObject(obj), db, key, Parts(obj));
      if Parts(obj) != [] {
        AggRepresented(obj);
        assert Represents(FoldParts(AggOfObject(obj), EmptyValue(AggOfObject(obj)), Parts(obj)), obj);
      }
    }
  }

  lemma AggRepresented(obj: Object)
    requires !obj.StringObject? && Distinct(obj) && !(obj.HashObject? && HasFieldExpiry(obj.fields))
    ensures AllWidth(Parts(obj), Width(AggOfObject(obj)))
    ensures Represents(FoldParts(AggOfObject(obj), EmptyValue(AggOfObject(obj)), Parts(obj)), obj)
  {
    hide Represents, FoldParts, Distinct;
    PartsWidth(obj);
    match obj
    case ListObject(items) => ListRepresented(items);
    case SetObject(ms) => SetRepresented(ms);
    case ZSetObject(es) => ZSetRepresented(es);
    case HashObject(fs) => HashRepresented(fs);
  }

  lemma SetReplay(db: Db, key: Bytes, obj: Object)
    requires obj.StringObject?
    ensures NoSelect(ObjectCommands(key, obj))
    ensures Creates(db, ExecDbAll(db, ObjectCommands(key, obj)), Entry(key, obj, None))
  {
    var v := StringValue(Text(obj.text));
    var e := Entry(key, obj, None);
    var cmd := [SET, key, Text(obj.text)];
    assert ExecInDb(db, cmd) == db[key := Stored(v, None)];
    ExecCons(db, cmd, []);
    assert ObjectCommands(key, obj) == [cmd] + [];
    assert Represents(v, e.obj) && ExecDbAll(db, [cmd] + []) == db[e.key := Stored(v, e.expire)];
  }

  lemma HashOf(db: Db, key: Bytes, obj: Object)
    requires obj.HashObject? && NoSelect(FieldsCommands(key, obj.fields)) && obj.fields != []
    requires var db1 := ExecDbAll(db, FieldsCommands(key, obj.fields));
             exists m :: db1 == db[key := Stored(HashValue(m), None)] && RepresentsFields(m, obj.fields)
    ensures Creates(db, ExecDbAll(db, FieldsCommands(key, obj.fields)), Entry(key, obj, None))
  {
    hide ExecDbAll, RepresentsFields;
    var db1 := ExecDbAll(db, FieldsCommands(key, obj.fields));
    var m :| db1 == db[key := Stored(HashValue(m), None)] && RepresentsFields(m, obj.fields);
    assert |Parts(obj)| == |obj.fields|;
    var e := Entry(key, obj, None);
    assert Represents(HashValue(m), e.obj) && db1 == db[e.key := Stored(HashValue(m), e.expire)];
  }

  lemma EntryReplay(db: Db, e: Entry)
    requires e.key !in db && Distinct(e.obj)
    ensures NoSelect(EntryCommands(e))
    ensures Creates(db, ExecDbAll(db, EntryCommands(e)), e)
  {
    hide ObjectCommands, Represents, Vanishes, ExecInDb;
    ObjectReplay(db, e.key, e.obj);
    if e.expire.Some? {
      var cmd := [PEXPIREAT, e.key, Signed(e.expire.value)];
      ExecDbAllConcat(db, ObjectCommands(e.key, e.obj), [cmd]);
      var db1 := ExecDbAll(db, ObjectCommands(e.key, e.obj));
      assert [cmd][1..] == [];
      ExpireKey(db1, e.key, e.expire.value);
      assert ExecDbAll(db, EntryCommands(e)) == ExecInDb(db1, cmd);
      if !Vanishes(e.obj) {
        var v :| Represents(v, e.obj) && db1 == db[e.key := Stored(v, None)];
        assert db1[e.key := Stored(v, e.expire)] == db[e.key := Stored(v, e.expire)];
      }
    } else {
      assert EntryCommands(e) == ObjectCommands(e.key, e.obj);
    }
  }

  lemma ExpireKey(db: Db, key: Bytes, ms: int)
    ensures ExecInDb(db, [PEXPIREAT, key, Signed(ms)]) ==
            if key in db then db[key := db[key].(expire := Some(ms))] else db
  {
    NumberOfSigned(ms, []);
    assert Signed(ms) + [] == Signed(ms);
    hide Signed, Number;
  }

  // The database holds exactly the keys of `es`, each with its object and its expiry.
  ghost predicate DbRepresents(db: Db, es: seq<Entry>)
  {
    && (forall k <- db :: exists i :: 0 <= i < |es| && es[i].key == k)
    && forall i | 0 <= i < |es| ::
         es[i].key in db && Represents(db[es[i].key].value, es[i].obj) && db[es[i].key].expire == es[i].expire
  }

  function Kept(es: seq<Entry>): seq<Entry>
  {
    if es == [] then []
    else Kept(es[..|es| - 1]) + if Vanishes(es[|es| - 1].obj) then [] else [es[|es| - 1]]
  }

  lemma {:induction false} KeptKeys(es: seq<Entry>, k: Bytes)
    requires forall i | 0 <= i < |es| :: es[i].key != k
    ensures forall i | 0 <= i < |Kept(es)| :: Kept(es)[i].key != k
  {
    if es != [] {
      KeptKeys(es[..|es| - 1], k);
    }
  }

  lemma {:induction false} EntriesReplay(es: seq<Entry>)
    requires ValidEntries(es)
    ensures NoSelect(EntriesCommands(es))
    ensures DbRepresents(ExecDbAll(map[], EntriesCommands(es)), Kept(es))
    decreases |es|
  {
    hide EntryCommands, Represents, Vanishes, Distinct, ExecInDb;
    if es != [] {
      var n := |es| - 1;
      var e := es[n];
      EntriesReplay(es[..n]);
      assert es == es[..n] + [e] && [e][1..] == [];
      EntriesCommandsConcat(es[..n], [e]);
      assert EntriesCommands([e]) == EntryCommands(e);
      var db := ExecDbAll(map[], EntriesCommands(es[..n]));
      KeptKeys(es[..n], e.key);
      assert e.key !in db;
      EntryReplay(db, e);
      ExecDbAllConcat(map[], EntriesCommands(es[..n]), EntryCommands(e));
      Extend(db, ExecDbAll(db, EntryCommands(e)), Kept(es[..n]), e);
    }
  }

  lemma Extend(db: Db, db1: Db, es: seq<Entry>, e: Entry)
    requires DbRepresents(db, es) && Creates(db, db1, e) && forall i | 0 <= i < |es| :: es[i].key != e.key
    ensures DbRepresents(db1, es + if Vanishes(e.obj) then [] else [e])
  {
    hide Represents, Vanishes;
    if Vanishes(e.obj) {
      assert es + [] == es;
    } else {
      var v :| Represents(v, e.obj) && db1 == db[e.key := Stored(v, e.expire)];
      var all := es + [e];
      forall k <- db1
        ensures exists i :: 0 <= i < |all| && all[i].key == k
      {
        if k == e.key {
          assert all[|es|].key == k;
        } else {
          var i :| 0 <= i < |es| && es[i].key == k;
          assert all[i].key == k;
        }
      }
    }
  }

  predicate ValidDataset(d: Dataset) { forall j | 0 <= j < |d| :: ValidEntries(d[j]) }

  function Fresh(n: nat): Server { Server(0, seq(n, _ => map[])) }

  ghost predicate Rebuilt(dbs: seq<Db>, d: Dataset)
  {
    |dbs| == |d| && forall j | 0 <= j < |d| :: DbRepresents(dbs[j], d[j])
  }

  lemma SelectReplay(s: Server, j: nat)
    requires j < |s.dbs|
    ensures Exec(s, [SELECT, Decimal(j)]) == s.(selected := j)
  {
    NumberOfDecimal(j, []);
    assert Decimal(j) + [] == Decimal(j);
  }

  lemma DbReplay(s: Server, j: nat, es: seq<Entry>)
    requires j < |s.dbs| && s.dbs[j] == map[] && ValidEntries(es)
    ensures var s1 := ExecAll(s, DbCommands(j, es));
            && |s1.dbs| == |s.dbs| && DbRepresents(s1.dbs[j], Kept(es))
            && forall k | 0 <= k < |s.dbs| && k != j :: s1.dbs[k] == s.dbs[k]
  {
    hide Exec, EntryCommands, DbRepresents, Kept;
    EntriesReplay(es);
    if es == [] {
      NothingKept();
    } else {
      var cmd := [SELECT, Decimal(j)];
      SelectReplay(s, j);
      ExecAllConcat(s, [cmd], EntriesCommands(es));
      assert [cmd][1..] == [];
      ExecSelected(s.(selected := j), EntriesCommands(es));
    }
  }

  lemma NothingKept()
    ensures DbRepresents(map[], Kept([]))
  {}

  lemma {:induction false} DatasetReplay(s: Server, d: Dataset, j: nat)
    requires |s.dbs| == |d| && j <= |d| && ValidDataset(d)
    requires forall k | j <= k < |d| :: s.dbs[k] == map[]
    ensures var s1 := ExecAll(s, DatasetCommands(d, j));
            && |s1.dbs| == |d|
            && (forall k | 0 <= k < j :: s1.dbs[k] == s.dbs[k])
            && forall k | j <= k < |d| :: DbRepresents(s1.dbs[k], Kept(d[k]))
    decreases |d| - j
  {
    hide Exec, DbCommands, DbRepresents, Kept, ValidEntries;
    if j < |d| {
      DbReplay(s, j, d[j]);
      ExecAllConcat(s, DbCommands(j, d[j]), DatasetCommands(d, j + 1));
      DatasetReplay(ExecAll(s, DbCommands(j, d[j])), d, j + 1);
    }
  }

  lemma {:induction false} KeptFrom(es: seq<Entry>, i: nat)
    requires i < |Kept(es)|
    ensures exists i' :: 0 <= i' < |es| && es[i'] == Kept(es)[i] && !Vanishes(es[i'].obj)
    decreases |es|
  {
    hide Vanishes;
    var n := |es| - 1;
    if i < |Kept(es[..n])| {
      KeptFrom(es[..n], i);
      var i' :| 0 <= i' < n && es[..n][i'] == Kept(es[..n])[i] && !Vanishes(es[..n][i'].obj);
      assert es[i'] == Kept(es)[i] && !Vanishes(es[i'].obj);
    } else {
      assert es[n] == Kept(es)[i] && !Vanishes(es[n].obj);
    }
  }

  lemma {:induction false} KeptAll(es: seq<Entry>)
    requires forall i | 0 <= i < |es| :: !Vanishes(es[i].obj)
    ensures Kept(es) == es
  {
    hide Vanishes;
    if es != [] {
      KeptAll(es[..|es| - 1]);
    }
  }

  predicate NothingVanishes(es: seq<Entry>) { forall i | 0 <= i < |es| :: !Vanishes(es[i].obj) }

  lemma KeptRepresents(db: Db, es: seq<Entry>)
    requires ValidEntries(es) && DbRepresents(db, Kept(es))
    ensures DbRepresents(db, es) <==> NothingVanishes(es)
  {
    hide Vanishes, Represents, Distinct, Kept;
    if NothingVanishes(es) {
      KeptAll(es);
    } else {
      var i :| 0 <= i < |es| && Vanishes(es[i].obj);
      if es[i].key in db {
        var k :| 0 <= k < |Kept(es)| && Kept(es)[k].key == es[i].key;
        KeptFrom(es, k);
      }
    }
  }

  // Replaying a rewritten log on an empty server rebuilds every database, if and only if the dataset has no empty
  // aggregate (which the server never keeps).
  lemma RewriteRebuilds(d: Dataset)
    requires ValidDataset(d)
    ensures Rebuilt(ExecAll(Fresh(|d|), DatasetCommands(d, 0)).dbs, d) <==>
            forall j | 0 <= j < |d| :: NothingVanishes(d[j])
  {
    hide DbRepresents, ExecAll, DatasetCommands, NothingVanishes, ValidEntries, Kept;
    DatasetReplay(Fresh(|d|), d, 0);
    var dbs := ExecAll(Fresh(|d|), DatasetCommands(d, 0)).dbs;
    forall j | 0 <= j < |d|
      ensures DbRepresents(dbs[j], d[j]) <==> NothingVanishes(d[j])
    {
      KeptRepresents(dbs[j], d[j]);
    }
  }

  // A dataset is represented by one set of databases only.
  lemma RebuiltUnique(a: seq<Db>, b: seq<Db>, d: Dataset)
    requires Rebuilt(a, d) && Rebuilt(b, d)
    ensures a == b
  {
    hide Represents;
    forall j | 0 <= j < |d|
      ensures a[j] == b[j]
    {
      assert DbRepresents(a[j], d[j]) && DbRepresents(b[j], d[j]);
      forall k <- a[j]
        ensures k in b[j] && a[j][k] == b[j][k]
      {
        var i :| 0 <= i < |d[j]| && d[j][i].key == k;
        RepresentsUnique(a[j][k].value, b[j][k].value, d[j][i].obj);
      }
      forall k <- b[j]
        ensures k in a[j]
      {
        var i :| 0 <= i < |d[j]| && d[j][i].key == k;
      }
    }
  }

  lemma RepresentsUnique(v: Value, w: Value, obj: Object)
    requires Represents(v, obj) && Represents(w, obj)
    ensures v == w
  {
    hide Text;
    match obj
    case StringObject(_) =>
    case ListObject(_) => assert v.items == w.items;
    case SetObject(_) =>
    case ZSetObject(es) =>
      forall k <- v.scores
        ensures v.scores[k] == w.scores[k]
      {
        var i :| 0 <= i < |es| && Text(es[i].0) == k;
      }
      assert v.scores == w.scores;
    case HashObject(fs) =>
      forall k <- v.fields
        ensures v.fields[k] == w.fields[k]
      {
        var i :| 0 <= i < |fs| && Text(fs[i].name) == k;
      }
      assert v.fields == w.fields;
  }

  // ---------- from the bytes back to the dataset ----------

  predicate Fit(b: Bytes) { |b| <= 0x7fffffffffffffff }

  predicate AllFit(args: Command) { forall i | 0 <= i < |args| :: Fit(args[i]) }

  // Texts and expiry times within what the server can hold.
  predicate EntryFits(e: Entry)
  {
    && Fit(e.key)
    && (e.expire.Some? ==> Fit(Signed(e.expire.value)))
    && (e.obj.StringObject? ==> Fit(Text(e.obj.text)))
    && (forall i | 0 <= i < |Parts(e.obj)| :: AllFit(Parts(e.obj)[i]))
    && (e.obj.HashObject? ==> forall i | 0 <= i < |e.obj.fields| ::
          e.obj.fields[i].expire.Some? ==> Fit(Signed(e.obj.fields[i].expire.value)))
  }

  predicate DatasetFits(d: Dataset)
  {
    |d| <= 0x7fffffff && forall j | 0 <= j < |d| :: forall i | 0 <= i < |d[j]| :: EntryFits(d[j][i])
  }

  // The names the rewriter uses are ordinary commands to the loader.
  predicate NamesKnown(lookup: AofLoader.Lookup)
  {
    forall name <- [SELECT, SET, RPUSH, SADD, ZADD, HMSET, PEXPIREAT, HPEXPIREAT] :: lookup(name) == AofLoader.Normal
  }

  predicate Ready(lookup: AofLoader.Lookup, cmds: seq<Command>)
  {
    forall i | 0 <= i < |cmds| :: AofLoader.IsKind(lookup, cmds[i], AofLoader.Normal)
  }

  lemma {:induction false} JoinFits(parts: seq<Command>, w: nat)
    requires AllWidth(parts, w) && forall i | 0 <= i < |parts| :: AllFit(parts[i])
    ensures AllFit(Join(parts))
  {
    if parts != [] {
      JoinFits(parts[1..], w);
      assert AllFit(parts[0]);
    }
  }

  lemma CommandReady(lookup: AofLoader.Lookup, cmd: Command)
    requires NamesKnown(lookup) && AllFit(cmd) && 0 < |cmd| <= 0x7fffffff
    requires cmd[0] in [SELECT, SET, RPUSH, SADD, ZADD, HMSET, PEXPIREAT, HPEXPIREAT]
    ensures AofLoader.IsKind(lookup, cmd, AofLoader.Normal)
  {}

  // No emitted command has more than 2 + 2 * ITEMS_PER_CMD arguments.
  lemma {:induction false} ChunksReady(lookup: AofLoader.Lookup, agg: Agg, key: Bytes, parts: seq<Command>)
    requires NamesKnown(lookup) && Fit(key) && AllWidth(parts, Width(agg))
    requires forall i | 0 <= i < |parts| :: AllFit(parts[i])
    ensures Ready(lookup, Chunks(Name(agg), key, parts))
    decreases |parts|
  {
    hide NamesKnown, Join;
    if parts != [] {
      var n := Min(ITEMS_PER_CMD, |parts|);
      JoinFits(parts[..n], Width(agg));
      JoinLength(parts[..n], Width(agg));
      CommandReady(lookup, [Name(agg), key] + Join(parts[..n]));
      ChunksReady(lookup, agg, key, parts[n..]);
    }
  }

  lemma {:induction false} FieldsReady(lookup: AofLoader.Lookup, key: Bytes, fs: seq<HashField>)
    requires NamesKnown(lookup) && Fit(key)
    requires forall i | 0 <= i < |fs| :: Fit(Text(fs[i].name)) && Fit(Text(fs[i].value)) &&
                                         (fs[i].expire.Some? ==> Fit(Signed(fs[i].expire.value)))
    ensures Ready(lookup, FieldsCommands(key, fs))
  {
    hide NamesKnown, Text, Signed;
    if fs != [] {
      var f := fs[0];
      CommandReady(lookup, [HMSET, key, Text(f.name), Text(f.value)]);
      if f.expire.Some? {
        CommandReady(lookup, [HPEXPIREAT, key, Signed(f.expire.value), FIELDS, ONE, Text(f.name)]);
      }
      FieldsReady(lookup, key, fs[1..]);
    }
  }

  lemma EntryReady(lookup: AofLoader.Lookup, e: Entry)
    requires NamesKnown(lookup) && EntryFits(e)
    ensures Ready(lookup, EntryCommands(e))
  {
    hide NamesKnown, Text, Signed, Chunks, FieldsCommands;
    if e.obj.StringObject? {
      CommandReady(lookup, [SET, e.key, Text(e.obj.text)]);
    } else if e.obj.HashObject? && HasFieldExpiry(e.obj.fields) {
      forall i | 0 <= i < |e.obj.fields|
        ensures Fit(Text(e.obj.fields[i].name)) && Fit(Text(e.obj.fields[i].value))
      {
        assert AllFit(Parts(e.obj)[i]);
        assert Fit(Parts(e.obj)[i][0]) && Fit(Parts(e.obj)[i][1]);
      }
      FieldsReady(lookup, e.key, e.obj.fields);
    } else {
      PartsWidth(e.obj);
      ChunksReady(lookup, AggOfObject(e.obj), e.key, Parts(e.obj));
    }
    if e.expire.Some? {
      CommandReady(lookup, [PEXPIREAT, e.key, Signed(e.expire.value)]);
    }
  }

  lemma {:induction false} EntriesReady(lookup: AofLoader.Lookup, es: seq<Entry>)
    requires NamesKnown(lookup) && forall i | 0 <= i < |es| :: EntryFits(es[i])
    ensures Ready(lookup, EntriesCommands(es))
  {
    hide NamesKnown, EntryFits, EntryCommands, AofLoader.IsKind;
    if es != [] {
      EntryReady(lookup, es[0]);
      EntriesReady(lookup, es[1..]);
    }
  }

  lemma {:induction false} DatasetReady(lookup: AofLoader.Lookup, d: Dataset, j: nat)
    requires NamesKnown(lookup) && DatasetFits(d) && j <= |d|
    ensures Ready(lookup, DatasetCommands(d, j))
    decreases |d| - j
  {
    hide NamesKnown, EntryFits, AofLoader.IsKind, EntriesCommands;
    if j < |d| {
      EntriesReady(lookup, d[j]);
      DecimalSmall(j);
      CommandReady(lookup, [SELECT, Decimal(j)]);
      DatasetReady(lookup, d, j + 1);
    }
  }

  function Singles(cmds: seq<Command>): seq<AofLoader.Unit>
  {
    seq(|cmds|, i requires 0 <= i < |cmds| => AofLoader.Single(cmds[i]))
  }

  lemma {:induction false} SinglesFlatten(cmds: seq<Command>)
    ensures AofLoader.Flatten(Singles(cmds)) == cmds && AofLoader.Effects(Singles(cmds)) == cmds
  {
    if cmds != [] {
      SinglesFlatten(cmds[1..]);
      assert Singles(cmds)[1..] == Singles(cmds[1..]);
    }
  }

  // Loading the rewriter's bytes runs exactly its commands, and those rebuild the dataset.
  lemma RewrittenLogLoads(lookup: AofLoader.Lookup, d: Dataset)
    requires NamesKnown(lookup) && DatasetFits(d) && ValidDataset(d)
    requires forall j | 0 <= j < |d| :: NothingVanishes(d[j])
    ensures var r := AofLoader.LoadFile(lookup, AofLoader.TRUNCATING, Encode(DatasetCommands(d, 0)));
            && (r.status == AofLoader.AofOk || r.status == AofLoader.AofEmpty)
            && Rebuilt(ExecAll(Fresh(|d|), r.executed).dbs, d)
  {
    hide DatasetCommands, Rebuilt, ExecAll, NamesKnown, EntryFits, ValidEntries, NothingVanishes;
    hide AofLoader.IsKind, AofLoader.Load, AofLoader.ApplyAll, AofLoader.Known, Encode, AofLoader.Flatten;
    hide AofLoader.Effects;
    var cmds := DatasetCommands(d, 0);
    DatasetReady(lookup, d, 0);
    SinglesFlatten(cmds);
    var us := Singles(cmds);
    assert AofLoader.AllWellFormed(lookup, us);
    AofLoader.LoadLog(lookup, us, [], |Encode(cmds)|);
    assert AofLoader.Log(us) + [] == Encode(cmds);
    var st := AofLoader.ApplyAll(lookup, AofLoader.TRUNCATING, AofLoader.START, cmds);
    AofLoader.LoadNothing(lookup, st, |Encode(cmds)|);
    AofLoader.LoadNothing(lookup, AofLoader.START, 0);
    RewriteRebuilds(d);
  }
}
