// Loading one append-only file (loadSingleAppendOnlyFile in aof.c), and what a cut file loads to.
module AofLoader {
  import opened AofLog

  // What lookupCommand says about the first argument.
  datatype Kind = Multi | Exec | Normal | Unknown

  type Lookup = Bytes -> Kind

  datatype Status = AofOk | AofTruncated | AofFailed | AofEmpty

  // The outcome of a load: the commands that ran, and the length the file has afterwards.
  datatype Loaded = Loaded(status: Status, executed: seq<Command>, kept: nat)

  // aof-load-truncated, and whether truncate(2) and the seek after it succeed.
  datatype Config = Config(loadTruncated: bool, truncateWorks: bool)

  // The loop's variables and the fake client: `multi` is its CLIENT_MULTI flag.
  datatype State = State(
    pos: nat, validUpTo: nat, validBeforeMulti: nat, multi: bool, queue: seq<Command>, executed: seq<Command>)

  const START := State(0, 0, 0, false, [], [])

  // One command, looked up as `kind`: remember where MULTI started, then queue it or run it.
  function Apply(kind: Kind, cfg: Config, st: State, argv: Command, used: nat): State
  {
    var st1 := if kind == Multi then st.(validBeforeMulti := st.validUpTo) else st;
    var st2 :=
      if st1.multi && kind != Exec then st1.(queue := st1.queue + [argv])
      else match kind
           case Multi => st1.(multi := true, queue := [])
           case Exec =>
             if st1.multi then st1.(executed := st1.executed + st1.queue, multi := false, queue := []) else st1
           case _ => st1.(executed := st1.executed + [argv]);
    var pos := st.pos + used;
    st2.(pos := pos, validUpTo := if cfg.loadTruncated then pos else st2.validUpTo)
  }

  // Unexpected end of file in a file of `size` bytes.
  function CutOff(cfg: Config, st: State, size: nat): Loaded
  {
    if cfg.loadTruncated && cfg.truncateWorks then Loaded(AofTruncated, st.executed, st.validUpTo)
    else Loaded(AofFailed, st.executed, size)
  }

  function Finish(cfg: Config, st: State, size: nat): Loaded
  {
    if st.multi then CutOff(cfg, st.(validUpTo := st.validBeforeMulti), size)
    else Loaded(AofOk, st.executed, size)
  }

  // The load of the bytes `s` still to read.
  function Load(lookup: Lookup, cfg: Config, s: Bytes, st: State, size: nat): Loaded
    decreases |s|
  {
    match ReadCommand(s)
    case End => Finish(cfg, st, size)
    case Annotation(used) => Load(lookup, cfg, s[used..], st.(pos := st.pos + used), size)
    case Cmd(argv, used) =>
      var kind := lookup(argv[0]);
      if kind == Unknown then Loaded(AofFailed, st.executed, size)
      else Load(lookup, cfg, s[used..], Apply(kind, cfg, st, argv, used), size)
    case Short => CutOff(cfg, st, size)
    case Hard => Loaded(AofFailed, st.executed, size)
    case Bad => Loaded(AofFailed, st.executed, size)
  }

  function LoadFile(lookup: Lookup, cfg: Config, file: Bytes): Loaded
  {
    if file == [] then Loaded(AofEmpty, [], 0) else Load(lookup, cfg, file, START, |file|)
  }

  method LoadSingleAppendOnlyFile(lookup: Lookup, cfg: Config, file: Bytes) returns (r: Loaded)
    ensures r == LoadFile(lookup, cfg, file)
  {
    hide ReadCommand;
    if |file| == 0 {
      return Loaded(AofEmpty, [], 0);
    }
    var validUpTo, validBeforeMulti := 0, 0;
    var pos := 0;
    var multi, queue: seq<Command>, executed: seq<Command> := false, [], [];
    assert file[0..] == file;
    while true
      invariant 0 <= pos <= |file|
      invariant Load(lookup, cfg, file[pos..], State(pos, validUpTo, validBeforeMulti, multi, queue, executed), |file|)
                == LoadFile(lookup, cfg, file)
      decreases |file| - pos
    {
      match ReadCommand(file[pos..]) {
        case End =>
          if multi {
            validUpTo := validBeforeMulti;
            break;
          }
          return Loaded(AofOk, executed, |file|);
        case Annotation(used) =>
          assert file[pos..][used..] == file[pos + used..];
          pos := pos + used;
        case Cmd(argv, used) =>
          var kind := lookup(argv[0]);
          if kind == Unknown {
            return Loaded(AofFailed, executed, |file|);
          }
          if kind == Multi {
            validBeforeMulti := validUpTo;
          }
          if multi && kind != Exec {
            queue := queue + [argv];
          } else if kind == Multi {
            multi, queue := true, [];
          } else if kind == Exec {
            if multi {
              executed, multi, queue := executed + queue, false, [];
            }
          } else {
            executed := executed + [argv];
          }
          assert file[pos..][used..] == file[pos + used..];
          pos := pos + used;
          if cfg.loadTruncated {
            validUpTo := pos;
          }
        case Short => break;
        case Hard => return Loaded(AofFailed, executed, |file|);
        case Bad => return Loaded(AofFailed, executed, |file|);
      }
    }
    if cfg.loadTruncated && cfg.truncateWorks {
      r := Loaded(AofTruncated, executed, validUpTo);
    } else {
      r := Loaded(AofFailed, executed, |file|);
    }
  }

  // ---------- logs made of whole units ----------

  // What the server appends: a command on its own, or a transaction.
  datatype Unit = Single(cmd: Command) | Block(begin: Command, body: seq<Command>, end: Command)

  function Commands(u: Unit): seq<Command>
  {
    match u
    case Single(cmd) => [cmd]
    case Block(begin, body, end) => [begin] + body + [end]
  }

  // The commands a unit runs.
  function Effect(u: Unit): seq<Command>
  {
    match u
    case Single(cmd) => [cmd]
    case Block(_, body, _) => body
  }

  function Flatten(us: seq<Unit>): seq<Command>
  {
    if us == [] then [] else Commands(us[0]) + Flatten(us[1..])
  }

  function Effects(us: seq<Unit>): seq<Command>
  {
    if us == [] then [] else Effect(us[0]) + Effects(us[1..])
  }

  predicate IsKind(lookup: Lookup, cmd: Command, kind: Kind) { Loggable(cmd) && lookup(cmd[0]) == kind }

  predicate WellFormed(lookup: Lookup, u: Unit)
  {
    match u
    case Single(cmd) => IsKind(lookup, cmd, Normal)
    case Block(begin, body, end) =>
      && IsKind(lookup, begin, Multi)
      && IsKind(lookup, end, Exec)
      && forall i | 0 <= i < |body| :: IsKind(lookup, body[i], Normal)
  }

  predicate AllWellFormed(lookup: Lookup, us: seq<Unit>) { forall i | 0 <= i < |us| :: WellFormed(lookup, us[i]) }

  function Log(us: seq<Unit>): Bytes { Encode(Flatten(us)) }

  predicate Known(lookup: Lookup, cmds: seq<Command>)
  {
    forall i | 0 <= i < |cmds| :: Loggable(cmds[i]) && lookup(cmds[i][0]) != Unknown
  }

  // The state after reading `cmds`.
  function ApplyAll(lookup: Lookup, cfg: Config, st: State, cmds: seq<Command>): State
    requires Known(lookup, cmds)
    decreases |cmds|
  {
    if cmds == [] then st
    else
      var st1 := Apply(lookup(cmds[0][0]), cfg, st, cmds[0], |EncodeCommand(cmds[0])|);
      ApplyAll(lookup, cfg, st1, cmds[1..])
  }

  // Complete commands are read one after the other, whatever bytes follow.
  lemma {:induction false} LoadCommands(
      lookup: Lookup, cfg: Config, cmds: seq<Command>, tail: Bytes, st: State, size: nat)
    requires Known(lookup, cmds)
    ensures Load(lookup, cfg, Encode(cmds) + tail, st, size) ==
            Load(lookup, cfg, tail, ApplyAll(lookup, cfg, st, cmds), size)
    decreases |cmds|
  {
    hide ReadCommand, EncodeCommand, Apply;
    if cmds == [] {
      assert Encode(cmds) + tail == tail;
    } else {
      var e := EncodeCommand(cmds[0]);
      var rest := Encode(cmds[1..]) + tail;
      var s := Encode(cmds) + tail;
      assert s == e + rest;
      ReadCommandExact(cmds[0], rest);
      assert s[|e|..] == rest;
      LoadCommands(lookup, cfg, cmds[1..], tail, Apply(lookup(cmds[0][0]), cfg, st, cmds[0], |e|), size);
    }
  }

  lemma {:induction false} ApplyAllConcat(lookup: Lookup, cfg: Config, st: State, a: seq<Command>, b: seq<Command>)
    requires Known(lookup, a) && Known(lookup, b)
    ensures Known(lookup, a + b)
    ensures ApplyAll(lookup, cfg, st, a + b) == ApplyAll(lookup, cfg, ApplyAll(lookup, cfg, st, a), b)
    decreases |a|
  {
    hide Apply, EncodeCommand;
    if a == [] {
      assert a + b == b;
    } else {
      assert (a + b)[1..] == a[1..] + b;
      ApplyAllConcat(lookup, cfg, Apply(lookup(a[0][0]), cfg, st, a[0], |EncodeCommand(a[0])|), a[1..], b);
    }
  }

  // Inside a transaction commands are only queued.
  lemma {:induction false} ApplyQueued(lookup: Lookup, cfg: Config, st: State, body: seq<Command>)
    requires st.multi && cfg.loadTruncated
    requires forall i | 0 <= i < |body| :: IsKind(lookup, body[i], Normal)
    ensures Known(lookup, body)
    ensures var pos := st.pos + |Encode(body)|;
            ApplyAll(lookup, cfg, st, body) ==
            if body == [] then st else st.(pos := pos, validUpTo := pos, queue := st.queue + body)
    decreases |body|
  {
    hide EncodeCommand;
    if body != [] {
      var st1 := Apply(Normal, cfg, st, body[0], |EncodeCommand(body[0])|);
      ApplyQueued(lookup, cfg, st1, body[1..]);
      assert st.queue + body == (st.queue + [body[0]]) + body[1..];
    }
  }

  lemma ApplyOne(lookup: Lookup, cfg: Config, st: State, cmd: Command)
    requires Known(lookup, [cmd])
    ensures ApplyAll(lookup, cfg, st, [cmd]) == Apply(lookup(cmd[0]), cfg, st, cmd, |EncodeCommand(cmd)|)
    ensures Encode([cmd]) == EncodeCommand(cmd)
  {
    hide Apply, EncodeCommand;
    assert [cmd][1..] == [];
  }

  // After MULTI and some of the commands of its block: everything is queued, nothing has run.
  lemma ApplyOpen(lookup: Lookup, cfg: Config, st: State, begin: Command, body: seq<Command>)
    requires !st.multi && cfg.loadTruncated && IsKind(lookup, begin, Multi)
    requires forall i | 0 <= i < |body| :: IsKind(lookup, body[i], Normal)
    ensures Known(lookup, [begin] + body)
    ensures var pos := st.pos + |Encode([begin] + body)|;
            ApplyAll(lookup, cfg, st, [begin] + body) ==
            State(pos, pos, st.validUpTo, true, body, st.executed)
  {
    hide EncodeCommand, Encode, ApplyAll;
    var st1 := st.(pos := st.pos + |Encode([begin])|, validUpTo := st.pos + |Encode([begin])|,
                   validBeforeMulti := st.validUpTo, multi := true, queue := []);
    KnownOne(lookup, begin);
    ApplyOne(lookup, cfg, st, begin);
    assert ApplyAll(lookup, cfg, st, [begin]) == st1;
    hide Apply;
    ApplyQueued(lookup, cfg, st1, body);
    ApplyAllConcat(lookup, cfg, st, [begin], body);
    EncodeConcat([begin], body);
    assert body == [] ==> [begin] + body == [begin];
    assert [] + body == body;
  }

  lemma KnownOne(lookup: Lookup, cmd: Command)
    requires Loggable(cmd) && lookup(cmd[0]) != Unknown
    ensures Known(lookup, [cmd])
  {}

  // A whole unit takes an idle client to an idle client and runs the unit's commands.
  lemma ApplyUnit(lookup: Lookup, cfg: Config, st: State, u: Unit)
    requires !st.multi && st.queue == [] && cfg.loadTruncated && WellFormed(lookup, u)
    ensures Known(lookup, Commands(u))
    ensures var st1 := ApplyAll(lookup, cfg, st, Commands(u));
            && !st1.multi && st1.queue == [] && st1.executed == st.executed + Effect(u)
            && st1.pos == st1.validUpTo == st.pos + |Encode(Commands(u))|
  {
    hide EncodeCommand, ApplyAll;
    match u {
      case Single(cmd) =>
        ApplyOne(lookup, cfg, st, cmd);
      case Block(begin, body, end) =>
        ApplyOpen(lookup, cfg, st, begin, body);
        ApplyAllConcat(lookup, cfg, st, [begin] + body, [end]);
        ApplyOne(lookup, cfg, ApplyAll(lookup, cfg, st, [begin] + body), end);
        EncodeConcat([begin] + body, [end]);
    }
  }

  lemma ApplyNone(lookup: Lookup, cfg: Config, st: State)
    ensures Known(lookup, []) && ApplyAll(lookup, cfg, st, []) == st
  {}

  predicate Idle(st: State) { !st.multi && st.queue == [] && st.validUpTo == st.pos }

  lemma {:induction false} ApplyUnits(lookup: Lookup, cfg: Config, st: State, us: seq<Unit>)
    requires Idle(st) && cfg.loadTruncated && AllWellFormed(lookup, us)
    ensures Known(lookup, Flatten(us))
    ensures var st1 := ApplyAll(lookup, cfg, st, Flatten(us));
            Idle(st1) && st1.executed == st.executed + Effects(us) && st1.pos == st.pos + |Log(us)|
    decreases |us|
  {
    hide Apply, ApplyAll, Known, WellFormed, Encode, Commands, Effect;
    if us == [] {
      EmptyLog();
      ApplyNone(lookup, cfg, st);
    } else {
      ApplyUnit(lookup, cfg, st, us[0]);
      var st1 := ApplyAll(lookup, cfg, st, Commands(us[0]));
      ApplyUnits(lookup, cfg, st1, us[1..]);
      ApplyAllConcat(lookup, cfg, st, Commands(us[0]), Flatten(us[1..]));
      assert st1.executed + Effects(us[1..]) == st.executed + Effects(us);
      EncodeConcat(Commands(us[0]), Flatten(us[1..]));
    }
  }

  // ---------- a log cut at any byte ----------

  // How many whole commands the first `n` bytes hold.
  function WholeCommands(cmds: seq<Command>, n: nat): (k: nat)
    ensures k <= |cmds|
  {
    if cmds == [] || n < |EncodeCommand(cmds[0])| then 0
    else 1 + WholeCommands(cmds[1..], n - |EncodeCommand(cmds[0])|)
  }

  // How many whole units the first `n` bytes hold.
  function WholeUnits(us: seq<Unit>, n: nat): (k: nat)
    ensures k <= |us|
  {
    if us == [] || n < |Encode(Commands(us[0]))| then 0
    else 1 + WholeUnits(us[1..], n - |Encode(Commands(us[0]))|)
  }

  lemma {:induction false} CutCommands(cmds: seq<Command>, n: nat)
    requires n <= |Encode(cmds)|
    ensures var k := WholeCommands(cmds, n);
            var done := Encode(cmds[..k]);
            && done <= Encode(cmds) && |done| <= n
            && (k == |cmds| ==> n == |done| == |Encode(cmds)|)
            && (k < |cmds| ==> && n - |done| < |EncodeCommand(cmds[k])|
                               && Encode(cmds)[|done|..n] <= EncodeCommand(cmds[k]))
    decreases |cmds|
  {
    hide EncodeCommand, Encode;
    NoneEncoded();
    if cmds == [] || n < |EncodeCommand(cmds[0])| {
      assert cmds[..0] == [];
      if cmds != [] {
        EncodeFirst(cmds);
      }
    } else {
      var e := EncodeCommand(cmds[0]);
      var k := WholeCommands(cmds[1..], n - |e|);
      EncodeFirst(cmds);
      CutCommands(cmds[1..], n - |e|);
      EncodeFirst(cmds[..k + 1]);
      assert cmds[..k + 1][1..] == cmds[1..][..k];
      Shift(e, Encode(cmds[1..]), Encode(cmds[1..][..k]), n - |e|);
    }
  }

  lemma NoneEncoded()
    ensures Encode([]) == []
  {}

  lemma EncodeFirst(cmds: seq<Command>)
    requires cmds != []
    ensures Encode(cmds) == EncodeCommand(cmds[0]) + Encode(cmds[1..])
  {
    hide EncodeCommand;
  }

  // A cut behind `e` is a cut of the rest.
  lemma Shift(e: Bytes, rest: Bytes, done: Bytes, n: nat)
    requires done <= rest && |done| <= n <= |rest|
    ensures e + done <= e + rest && (e + rest)[|e + done|..|e| + n] == rest[|done|..n]
  {}

  lemma {:induction false} CutUnits(us: seq<Unit>, n: nat)
    requires n <= |Log(us)|
    ensures var k := WholeUnits(us, n);
            var done := Log(us[..k]);
            && done <= Log(us) && |done| <= n
            && (k == |us| ==> n == |done| == |Log(us)|)
            && (k < |us| ==> && n - |done| < |Encode(Commands(us[k]))|
                             && Log(us)[|done|..n] <= Encode(Commands(us[k])))
    decreases |us|
  {
    hide Encode, Commands;
    if us == [] {
      EmptyLog();
    } else {
      var e := Encode(Commands(us[0]));
      EncodeConcat(Commands(us[0]), Flatten(us[1..]));
      assert Log(us) == e + Log(us[1..]);
      if n < |e| {
        assert us[..0] == [];
        assert Log(us[..0]) == [] by { EmptyLog(); }
      } else {
        var k := WholeUnits(us[1..], n - |e|);
        CutUnits(us[1..], n - |e|);
        assert us[..k + 1][1..] == us[1..][..k];
        var done := Log(us[1..][..k]);
        EncodeConcat(Commands(us[0]), Flatten(us[1..][..k]));
        assert Log(us[..k + 1]) == e + done;
        Shift(e, Log(us[1..]), done, n - |e|);
      }
    }
  }

  lemma EmptyLog()
    ensures Log([]) == []
  {}

  // The cut at byte `n` falls strictly inside a command of a transaction whose MULTI is complete.
  predicate CutInsideBlock(us: seq<Unit>, n: nat)
  {
    var k := WholeUnits(us, n);
    && k < |us|
    && us[k].Block?
    && |Log(us[..k])| <= n
    && var cmds := Commands(us[k]);
       var m := n - |Log(us[..k])|;
       var j := WholeCommands(cmds, m);
       j > 0 && |Encode(cmds[..j])| < m
  }

  // Where the loader truncates a log cut at byte `n`.
  function KeptLength(us: seq<Unit>, n: nat): nat
  {
    var k := WholeUnits(us, n);
    var whole := |Log(us[..k])|;
    if CutInsideBlock(us, n) then
      var cmds := Commands(us[k]);
      whole + |Encode(cmds[..WholeCommands(cmds, n - whole)])|
    else whole
  }

  const TRUNCATING := Config(true, true)

  lemma LoadLog(lookup: Lookup, us: seq<Unit>, tail: Bytes, size: nat)
    requires AllWellFormed(lookup, us)
    ensures Known(lookup, Flatten(us))
    ensures var st := ApplyAll(lookup, TRUNCATING, START, Flatten(us));
            && Idle(st) && st.executed == Effects(us) && st.pos == |Log(us)|
            && Load(lookup, TRUNCATING, Log(us) + tail, START, size) == Load(lookup, TRUNCATING, tail, st, size)
  {
    ApplyUnits(lookup, TRUNCATING, START, us);
    hide Load, ApplyAll, Known;
    LoadCommands(lookup, TRUNCATING, Flatten(us), tail, START, size);
    assert [] + Effects(us) == Effects(us);
  }

  // The bytes left of a unit after a cut inside it: no command of the unit runs.
  lemma LoadCutUnit(lookup: Lookup, st: State, u: Unit, m: nat, size: nat)
    requires Idle(st) && WellFormed(lookup, u) && 0 < m < |Encode(Commands(u))|
    ensures var cmds := Commands(u);
            var j := WholeCommands(cmds, m);
            var done := |Encode(cmds[..j])|;
            Load(lookup, TRUNCATING, Encode(cmds)[..m], st, size) ==
            Loaded(AofTruncated, st.executed, st.pos + if u.Block? && j > 0 && done < m then done else 0)
  {
    hide Load, EncodeCommand, ReadCommand, Apply;
    var cmds := Commands(u);
    var j := WholeCommands(cmds, m);
    var done := Encode(cmds[..j]);
    CutCommands(cmds, m);
    var cut := Encode(cmds)[|done|..m];
    assert Encode(cmds)[..m] == done + cut;
    KnownUnit(lookup, u);
    LoadCommands(lookup, TRUNCATING, cmds[..j], cut, st, size);
    if j > 0 {
      match u {
        case Single(cmd) =>
        case Block(begin, body, end) =>
          BlockPrefix(u, j);
          ApplyOpen(lookup, TRUNCATING, st, begin, body[..j - 1]);
      }
    } else {
      assert cmds[..0] == [];
    }
    var st1 := ApplyAll(lookup, TRUNCATING, st, cmds[..j]);
    LoadTail(lookup, st1, cmds[j], cut, size);
  }

  lemma BlockPrefix(u: Unit, j: nat)
    requires u.Block? && 0 < j < |Commands(u)|
    ensures j <= |u.body| + 1 && Commands(u)[..j] == [u.begin] + u.body[..j - 1]
  {}

  lemma KnownUnit(lookup: Lookup, u: Unit)
    requires WellFormed(lookup, u)
    ensures Known(lookup, Commands(u))
  {}

  lemma LoadTail(lookup: Lookup, st: State, cmd: Command, cut: Bytes, size: nat)
    requires Loggable(cmd) && cut <= EncodeCommand(cmd) && |cut| < |EncodeCommand(cmd)|
    ensures Load(lookup, TRUNCATING, cut, st, size) ==
            if cut == [] then Finish(TRUNCATING, st, size) else CutOff(TRUNCATING, st, size)
  {
    hide EncodeCommand;
    if cut == [] {
    } else {
      ReadCommandCut(cmd, cut);
      hide ReadCommand;
    }
  }

  // Loading any prefix of a log runs exactly the units that are whole in it, never part of a transaction.
  lemma LoadCutLog(lookup: Lookup, us: seq<Unit>, n: nat)
    requires AllWellFormed(lookup, us) && 0 < n <= |Log(us)|
    ensures var k := WholeUnits(us, n);
            LoadFile(lookup, TRUNCATING, Log(us)[..n]) ==
            Loaded(if n == |Log(us[..k])| then AofOk else AofTruncated, Effects(us[..k]), KeptLength(us, n))
  {
    hide Load, Log, Commands;
    var k := WholeUnits(us, n);
    var done := Log(us[..k]);
    CutUnits(us, n);
    var cut := Log(us)[|done|..n];
    assert Log(us)[..n] == done + cut;
    LoadLog(lookup, us[..k], cut, n);
    var st := ApplyAll(lookup, TRUNCATING, START, Flatten(us[..k]));
    if cut == [] {
      LoadNothing(lookup, st, n);
      NoCutInside(us, n);
    } else {
      var e := Encode(Commands(us[k]));
      assert cut == e[..|cut|];
      LoadCutUnit(lookup, st, us[k], |cut|, n);
    }
  }

  lemma LoadNothing(lookup: Lookup, st: State, size: nat)
    ensures Load(lookup, TRUNCATING, [], st, size) == Finish(TRUNCATING, st, size)
  {}

  lemma NoCutInside(us: seq<Unit>, n: nat)
    requires n == |Log(us[..WholeUnits(us, n)])|
    ensures !CutInsideBlock(us, n)
  {}

  // ---------- what happens to commands appended after a repaired log ----------

  lemma {:induction false} FlattenConcat(us: seq<Unit>, vs: seq<Unit>)
    ensures Flatten(us + vs) == Flatten(us) + Flatten(vs)
    decreases |us|
  {
    hide Commands;
    if us == [] {
      assert us + vs == vs;
    } else {
      assert (us + vs)[1..] == us[1..] + vs;
      FlattenConcat(us[1..], vs);
    }
  }

  lemma {:induction false} EffectsConcat(us: seq<Unit>, vs: seq<Unit>)
    ensures Effects(us + vs) == Effects(us) + Effects(vs)
    decreases |us|
  {
    hide Effect;
    if us == [] {
      assert us + vs == vs;
    } else {
      assert (us + vs)[1..] == us[1..] + vs;
      EffectsConcat(us[1..], vs);
    }
  }

  // The file after loading a log cut at byte `n` and appending `vs`.
  function Repaired(us: seq<Unit>, n: nat, vs: seq<Unit>): Bytes
    requires n <= |Log(us)| && KeptLength(us, n) <= n
  {
    Log(us)[..n][..KeptLength(us, n)] + Log(vs)
  }

  lemma KeptFits(us: seq<Unit>, n: nat)
    requires n <= |Log(us)|
    ensures KeptLength(us, n) <= n
    ensures var k := WholeUnits(us, n);
            var whole := Log(us[..k]);
            Log(us)[..KeptLength(us, n)] ==
            whole + if CutInsideBlock(us, n)
                    then Encode(Commands(us[k])[..WholeCommands(Commands(us[k]), n - |whole|)]) else []
  {
    hide Log, Commands, Encode;
    CutUnits(us, n);
    var k := WholeUnits(us, n);
    var whole := Log(us[..k]);
    if CutInsideBlock(us, n) {
      var cmds := Commands(us[k]);
      var m := n - |whole|;
      CutCommands(cmds, m);
      var done := Encode(cmds[..WholeCommands(cmds, m)]);
      assert Log(us)[|whole|..n] == Encode(cmds)[..m];
      assert Log(us)[..|whole| + |done|] == whole + Log(us)[|whole|..n][..|done|];
    }
  }

  // Nothing is lost when the cut left no transaction open in the kept part.
  lemma AppendSurvives(lookup: Lookup, us: seq<Unit>, n: nat, vs: seq<Unit>)
    requires AllWellFormed(lookup, us) && AllWellFormed(lookup, vs) && n <= |Log(us)|
    requires !CutInsideBlock(us, n)
    ensures KeptLength(us, n) <= n
    ensures LoadFile(lookup, TRUNCATING, Repaired(us, n, vs)).executed ==
            Effects(us[..WholeUnits(us, n)]) + Effects(vs)
  {
    hide Load, Encode, Flatten, WholeUnits, KeptLength, CutInsideBlock, Effects, ApplyAll, Known, WellFormed, Commands;
    var done := us[..WholeUnits(us, n)];
    KeptFits(us, n);
    FlattenConcat(done, vs);
    EffectsConcat(done, vs);
    EncodeConcat(Flatten(done), Flatten(vs));
    assert Log(us)[..KeptLength(us, n)] == Log(done) + [] == Log(us)[..n][..KeptLength(us, n)];
    assert Repaired(us, n, vs) == Log(done + vs) + [];
    LoadLog(lookup, done + vs, [], |Log(done + vs)|);
    LoadNothing(lookup, ApplyAll(lookup, TRUNCATING, START, Flatten(done + vs)), |Log(done + vs)|);
    if Repaired(us, n, vs) == [] {
      assert Load(lookup, TRUNCATING, [], START, 0).executed == [] by { LoadNothing(lookup, START, 0); }
    }
  }

  // What a load runs of `vs` behind an open MULTI with `queued` in its queue: nothing until the first EXEC, which runs
  // the queue. The MULTI of that transaction is in the queue too; run there it is only an error.
  function Reached(queued: seq<Command>, vs: seq<Unit>): seq<Command>
    decreases |vs|
  {
    if vs == [] then []
    else
      match vs[0]
      case Single(cmd) => Reached(queued + [cmd], vs[1..])
      case Block(begin, body, _) => queued + [begin] + body + Effects(vs[1..])
  }

  // One command behind an open MULTI.
  lemma LoadQueued(lookup: Lookup, st: State, cmd: Command, tail: Bytes, size: nat) returns (st1: State)
    requires st.multi && Loggable(cmd) && lookup(cmd[0]) != Unknown && lookup(cmd[0]) != Exec
    ensures st1.multi && st1.queue == st.queue + [cmd] && st1.executed == st.executed && st1.validUpTo == st1.pos
    ensures Load(lookup, TRUNCATING, EncodeCommand(cmd) + tail, st, size) ==
            Load(lookup, TRUNCATING, tail, st1, size)
  {
    hide Load, EncodeCommand, Encode;
    KnownOne(lookup, cmd);
    ApplyOne(lookup, TRUNCATING, st, cmd);
    LoadCommands(lookup, TRUNCATING, [cmd], tail, st, size);
    st1 := ApplyAll(lookup, TRUNCATING, st, [cmd]);
    hide ApplyAll;
  }

  lemma {:induction false} LoadQueuedAll(lookup: Lookup, st: State, cmds: seq<Command>, tail: Bytes, size: nat)
    returns (st1: State)
    requires st.multi && forall i | 0 <= i < |cmds| :: IsKind(lookup, cmds[i], Normal)
    ensures st1.multi && st1.queue == st.queue + cmds && st1.executed == st.executed
    ensures Load(lookup, TRUNCATING, Encode(cmds) + tail, st, size) == Load(lookup, TRUNCATING, tail, st1, size)
    decreases |cmds|
  {
    hide Load, EncodeCommand, Encode;
    if cmds == [] {
      NoneEncoded();
      assert [] + tail == tail && st.queue + [] == st.queue;
      st1 := st;
    } else {
      EncodeFirst(cmds);
      assert Encode(cmds) + tail == EncodeCommand(cmds[0]) + (Encode(cmds[1..]) + tail);
      assert IsKind(lookup, cmds[0], Normal);
      st1 := LoadQueued(lookup, st, cmds[0], Encode(cmds[1..]) + tail, size);
      assert st.queue + cmds == st.queue + [cmds[0]] + cmds[1..];
      st1 := LoadQueuedAll(lookup, st1, cmds[1..], tail, size);
    }
  }

  // The EXEC that ends it runs the queue.
  lemma LoadExec(lookup: Lookup, st: State, end: Command, tail: Bytes, size: nat) returns (st1: State)
    requires st.multi && IsKind(lookup, end, Exec)
    ensures Idle(st1) && st1.executed == st.executed + st.queue
    ensures Load(lookup, TRUNCATING, EncodeCommand(end) + tail, st, size) ==
            Load(lookup, TRUNCATING, tail, st1, size)
  {
    hide Load, EncodeCommand, Encode;
    KnownOne(lookup, end);
    ApplyOne(lookup, TRUNCATING, st, end);
    LoadCommands(lookup, TRUNCATING, [end], tail, st, size);
    st1 := ApplyAll(lookup, TRUNCATING, st, [end]);
    hide ApplyAll;
  }

  // Whole units from an idle client to the end of the file.
  lemma LoadRest(lookup: Lookup, st: State, us: seq<Unit>, size: nat)
    requires Idle(st) && AllWellFormed(lookup, us)
    ensures Load(lookup, TRUNCATING, Log(us), st, size).executed == st.executed + Effects(us)
  {
    hide Load, Encode, ApplyAll, Flatten, Known, WellFormed;
    ApplyUnits(lookup, TRUNCATING, st, us);
    LoadCommands(lookup, TRUNCATING, Flatten(us), [], st, size);
    assert Log(us) + [] == Log(us);
    LoadNothing(lookup, ApplyAll(lookup, TRUNCATING, st, Flatten(us)), size);
  }

  // A transaction read while another is open ends both.
  lemma LoadNested(lookup: Lookup, st: State, u: Unit, rest: seq<Unit>, size: nat)
    requires st.multi && u.Block? && WellFormed(lookup, u) && AllWellFormed(lookup, rest)
    ensures Load(lookup, TRUNCATING, Encode(Commands(u)) + Log(rest), st, size).executed ==
            st.executed + (st.queue + [u.begin] + u.body + Effects(rest))
  {
    hide Load, EncodeCommand, Encode, Log, Effects, Idle, AllWellFormed;
    var tail := EncodeCommand(u.end) + Log(rest);
    BlockBytes(u);
    assert Encode(Commands(u)) + Log(rest) == EncodeCommand(u.begin) + (Encode(u.body) + tail);
    var st1 := LoadQueued(lookup, st, u.begin, Encode(u.body) + tail, size);
    var st2 := LoadQueuedAll(lookup, st1, u.body, tail, size);
    var st3 := LoadExec(lookup, st2, u.end, Log(rest), size);
    LoadRest(lookup, st3, rest, size);
    assert st3.executed + Effects(rest) == st.executed + (st.queue + [u.begin] + u.body + Effects(rest));
  }

  lemma BlockBytes(u: Unit)
    requires u.Block?
    ensures Encode(Commands(u)) == EncodeCommand(u.begin) + Encode(u.body) + EncodeCommand(u.end)
  {
    hide EncodeCommand, Encode;
    EncodeConcat([u.begin] + u.body, [u.end]);
    EncodeConcat([u.begin], u.body);
    NoneEncoded();
    EncodeFirst([u.begin]);
    EncodeFirst([u.end]);
    assert [u.begin][1..] == [] && [u.end][1..] == [];
  }

  // Units appended behind an open MULTI.
  lemma {:induction false} LoadBehindMulti(lookup: Lookup, st: State, vs: seq<Unit>, size: nat)
    requires st.multi && AllWellFormed(lookup, vs)
    ensures Load(lookup, TRUNCATING, Log(vs), st, size).executed == st.executed + Reached(st.queue, vs)
    decreases |vs|
  {
    hide Load, EncodeCommand, Encode, Effects, WellFormed, Idle;
    if vs == [] {
      EmptyLog();
      LoadNothing(lookup, st, size);
    } else {
      LogFirst(vs);
      assert WellFormed(lookup, vs[0]) && AllWellFormed(lookup, vs[1..]);
      match vs[0] {
        case Single(cmd) =>
          SingleBytes(lookup, vs[0]);
          var st1 := LoadQueued(lookup, st, cmd, Log(vs[1..]), size);
          LoadBehindMulti(lookup, st1, vs[1..], size);
        case Block(begin, body, end) =>
          hide Commands, Log;
          LoadNested(lookup, st, vs[0], vs[1..], size);
      }
    }
  }

  lemma LogFirst(vs: seq<Unit>)
    requires vs != []
    ensures Log(vs) == Encode(Commands(vs[0])) + Log(vs[1..])
  {
    hide Encode, Commands;
    EncodeConcat(Commands(vs[0]), Flatten(vs[1..]));
  }

  lemma SingleBytes(lookup: Lookup, u: Unit)
    requires u.Single? && WellFormed(lookup, u)
    ensures Encode(Commands(u)) == EncodeCommand(u.cmd)
    ensures IsKind(lookup, u.cmd, Normal)
  {
    hide EncodeCommand, Encode;
    NoneEncoded();
    EncodeFirst([u.cmd]);
    assert [u.cmd][1..] == [];
  }

  // The commands of the cut transaction that stay in the repaired file behind its MULTI.
  function KeptBody(us: seq<Unit>, n: nat): seq<Command>
  {
    var k := WholeUnits(us, n);
    if CutInsideBlock(us, n) then
      Commands(us[k])[1..WholeCommands(Commands(us[k]), n - |Log(us[..k])|)]
    else []
  }

  // After a cut inside a transaction's command, what is appended since goes into the queue behind the MULTI and the
  // commands that were kept. The next load drops all of it, unless a transaction was appended: its EXEC runs the kept
  // part of the cut transaction, and what was appended before it, as one.
  lemma AppendLost(lookup: Lookup, us: seq<Unit>, n: nat, vs: seq<Unit>)
    requires AllWellFormed(lookup, us) && AllWellFormed(lookup, vs) && n <= |Log(us)|
    requires CutInsideBlock(us, n)
    ensures KeptLength(us, n) <= n
    ensures LoadFile(lookup, TRUNCATING, Repaired(us, n, vs)).executed ==
            Effects(us[..WholeUnits(us, n)]) + Reached(KeptBody(us, n), vs)
    ensures (forall i | 0 <= i < |vs| :: vs[i].Single?) ==> Reached(KeptBody(us, n), vs) == []
  {
    hide Load, Encode, CutInsideBlock, Commands, Flatten, WholeUnits, WholeCommands, KeptLength, IsKind, Reached;
    hide KeptBody, WellFormed;
    KeptFits(us, n);
    var j := OpenBlock(lookup, us, n);
    var done, u := us[..WholeUnits(us, n)], us[WholeUnits(us, n)];
    var cmds := [u.begin] + u.body[..j - 1];
    assert Log(us)[..n][..KeptLength(us, n)] == Log(us)[..KeptLength(us, n)];
    var tail := Encode(cmds) + Log(vs);
    assert Repaired(us, n, vs) == Log(done) + tail;
    var size := |Repaired(us, n, vs)|;
    LoadLog(lookup, done, tail, size);
    var st := ApplyAll(lookup, TRUNCATING, START, Flatten(done));
    LoadOpened(lookup, st, u.begin, u.body[..j - 1], vs, size);
    NonEmptyEncode(cmds);
    NoneReached(KeptBody(us, n), vs);
  }

  lemma LoadOpened(lookup: Lookup, st: State, begin: Command, body: seq<Command>, vs: seq<Unit>, size: nat)
    requires !st.multi && IsKind(lookup, begin, Multi) && AllWellFormed(lookup, vs)
    requires forall i | 0 <= i < |body| :: IsKind(lookup, body[i], Normal)
    ensures Load(lookup, TRUNCATING, Encode([begin] + body) + Log(vs), st, size).executed ==
            st.executed + Reached(body, vs)
  {
    hide Load, Apply, ApplyAll, Encode, EncodeCommand, IsKind, Log, Reached, AllWellFormed;
    ApplyOpen(lookup, TRUNCATING, st, begin, body);
    LoadCommands(lookup, TRUNCATING, [begin] + body, Log(vs), st, size);
    LoadBehindMulti(lookup, ApplyAll(lookup, TRUNCATING, st, [begin] + body), vs, size);
  }

  lemma {:induction false} NoneReached(queued: seq<Command>, vs: seq<Unit>)
    ensures (forall i | 0 <= i < |vs| :: vs[i].Single?) ==> Reached(queued, vs) == []
    ensures !(forall i | 0 <= i < |vs| :: vs[i].Single?) ==>
              queued <= Reached(queued, vs) && |Reached(queued, vs)| >= |queued| + 1 + |Effects(vs)|
    decreases |vs|
  {
    if vs != [] {
      assert forall i | 0 <= i < |vs[1..]| :: vs[1..][i] == vs[i + 1];
      match vs[0] {
        case Single(cmd) => NoneReached(queued + [cmd], vs[1..]);
        case Block(begin, body, end) =>
      }
    }
  }

  lemma NonEmptyEncode(cmds: seq<Command>)
    requires cmds != []
    ensures Encode(cmds) != []
  {}

  lemma OpenBlock(lookup: Lookup, us: seq<Unit>, n: nat) returns (j: nat)
    requires AllWellFormed(lookup, us) && n <= |Log(us)| && CutInsideBlock(us, n)
    ensures WholeUnits(us, n) < |us|
    ensures var u := us[WholeUnits(us, n)];
            && u.Block? && IsKind(lookup, u.begin, Multi) && 0 < j <= |u.body| + 1
            && (forall i | 0 <= i < j - 1 :: IsKind(lookup, u.body[i], Normal))
            && Commands(u)[..WholeCommands(Commands(u), n - |Log(us[..WholeUnits(us, n)])|)] ==
               [u.begin] + u.body[..j - 1]
            && KeptBody(us, n) == u.body[..j - 1]
  {
    hide Encode, Log, Commands, WholeCommands, IsKind;
    CutUnits(us, n);
    var k := WholeUnits(us, n);
    var u := us[k];
    var m := n - |Log(us[..k])|;
    CutCommands(Commands(u), m);
    j := WholeCommands(Commands(u), m);
    BlockPrefix(u, j);
    assert WellFormed(lookup, u);
  }

  // What was appended to a repaired log is run by the next load, and nothing else, if and only if the cut was not
  // inside a command of an open transaction or nothing was appended.
  lemma AppendExactly(lookup: Lookup, us: seq<Unit>, n: nat, vs: seq<Unit>)
    requires AllWellFormed(lookup, us) && AllWellFormed(lookup, vs) && n <= |Log(us)|
    ensures KeptLength(us, n) <= n
    ensures (LoadFile(lookup, TRUNCATING, Repaired(us, n, vs)).executed ==
             Effects(us[..WholeUnits(us, n)]) + Effects(vs)) <==> !CutInsideBlock(us, n) || vs == []
  {
    hide LoadFile, Repaired, CutInsideBlock, WholeUnits, KeptLength, KeptBody, Reached, Effects, AllWellFormed, Log;
    KeptFits(us, n);
    if CutInsideBlock(us, n) {
      AppendLost(lookup, us, n, vs);
      NotAsAppended(KeptBody(us, n), vs);
      var done := Effects(us[..WholeUnits(us, n)]);
      assert (done + Effects(vs))[|done|..] == Effects(vs);
      assert (done + Reached(KeptBody(us, n), vs))[|done|..] == Reached(KeptBody(us, n), vs);
    } else {
      AppendSurvives(lookup, us, n, vs);
    }
  }

  // Behind an open MULTI no unit runs as it was appended.
  lemma NotAsAppended(queued: seq<Command>, vs: seq<Unit>)
    ensures Reached(queued, vs) == Effects(vs) <==> vs == []
  {
    NoneReached(queued, vs);
    hide Reached;
    if vs != [] && forall i | 0 <= i < |vs| :: vs[i].Single? {
      assert Effects(vs) == [vs[0].cmd] + Effects(vs[1..]);
    }
  }

  // A repaired log keeps whatever is appended to it if and only if the cut was not inside a command of an open
  // transaction.
  lemma RepairIsDurable(lookup: Lookup, us: seq<Unit>, n: nat, cmd: Command)
    requires AllWellFormed(lookup, us) && n <= |Log(us)| && IsKind(lookup, cmd, Normal)
    ensures KeptLength(us, n) <= n
    ensures (forall vs | AllWellFormed(lookup, vs) ::
               LoadFile(lookup, TRUNCATING, Repaired(us, n, vs)).executed ==
               Effects(us[..WholeUnits(us, n)]) + Effects(vs)) <==> !CutInsideBlock(us, n)
  {
    hide LoadFile, Repaired, CutInsideBlock, WholeUnits, KeptLength, Effects;
    KeptFits(us, n);
    var one := [Single(cmd)];
    assert AllWellFormed(lookup, one);
    forall vs | AllWellFormed(lookup, vs)
      ensures (LoadFile(lookup, TRUNCATING, Repaired(us, n, vs)).executed ==
               Effects(us[..WholeUnits(us, n)]) + Effects(vs)) <==> !CutInsideBlock(us, n) || vs == []
    {
      AppendExactly(lookup, us, n, vs);
    }
  }

  // The next load runs the whole units and then the commands kept of the cut transaction, some at least.
  predicate RunsPart(lookup: Lookup, us: seq<Unit>, n: nat, vs: seq<Unit>)
    requires n <= |Log(us)| && KeptLength(us, n) <= n
  {
    && KeptBody(us, n) != []
    && Effects(us[..WholeUnits(us, n)]) + KeptBody(us, n) <=
       LoadFile(lookup, TRUNCATING, Repaired(us, n, vs)).executed
  }

  lemma PartRuns(lookup: Lookup, us: seq<Unit>, n: nat, vs: seq<Unit>)
    requires AllWellFormed(lookup, us) && AllWellFormed(lookup, vs) && n <= |Log(us)|
    ensures KeptLength(us, n) <= n
    ensures RunsPart(lookup, us, n, vs) <==> KeptBody(us, n) != [] && exists i :: 0 <= i < |vs| && vs[i].Block?
  {
    hide LoadFile, Repaired, CutInsideBlock, WholeUnits, KeptLength, KeptBody, Reached, Effects, AllWellFormed, Log;
    KeptFits(us, n);
    if KeptBody(us, n) != [] {
      KeptInside(us, n);
      AppendLost(lookup, us, n, vs);
      NoneReached(KeptBody(us, n), vs);
      assert (exists i :: 0 <= i < |vs| && vs[i].Block?) <==> !(forall i | 0 <= i < |vs| :: vs[i].Single?);
    }
  }

  lemma KeptInside(us: seq<Unit>, n: nat)
    requires KeptBody(us, n) != []
    ensures CutInsideBlock(us, n)
  {}

  // Part of a cut transaction can run on a later load if and only if a whole command of it, behind its MULTI, was kept:
  // only then is the repair not atomic, and any appended transaction shows it.
  lemma RepairIsAtomic(lookup: Lookup, us: seq<Unit>, n: nat)
    requires AllWellFormed(lookup, us) && n <= |Log(us)|
    ensures KeptLength(us, n) <= n
    ensures (forall vs | AllWellFormed(lookup, vs) :: !RunsPart(lookup, us, n, vs)) <==> KeptBody(us, n) == []
  {
    hide RunsPart, AllWellFormed, KeptLength;
    KeptFits(us, n);
    forall vs: seq<Unit> | AllWellFormed(lookup, vs)
      ensures RunsPart(lookup, us, n, vs) <==>
              KeptBody(us, n) != [] && exists i :: 0 <= i < |vs| && vs[i].Block?
    {
      PartRuns(lookup, us, n, vs);
    }
    if KeptBody(us, n) != [] {
      var u := us[WholeUnits(us, n)];
      OneUnit(lookup, us, WholeUnits(us, n));
      assert [u][0].Block?;
    }
  }

  lemma OneUnit(lookup: Lookup, us: seq<Unit>, k: nat)
    requires AllWellFormed(lookup, us) && k < |us|
    ensures AllWellFormed(lookup, [us[k]])
  {}

  const MULTI: Bytes := [77, 85, 76, 84, 73]
  const EXEC: Bytes := [69, 88, 69, 67]
  const INCR: Command := [[73, 78, 67, 82], [107]]

  function KindOf(name: Bytes): Kind { if name == MULTI then Multi else if name == EXEC then Exec else Normal }

  const TRANSACTION: Unit := Block([MULTI], [INCR, INCR], [EXEC])

  // For example MULTI, INCR k, INCR k, EXEC cut one byte into the first INCR: after the repair another INCR k is
  // appended, and the next load does not run it.
  lemma LostExample()
    ensures var us, n := [TRANSACTION], |Encode(Commands(TRANSACTION)[..1])| + 1;
            && AllWellFormed(KindOf, us) && n <= |Log(us)| && CutInsideBlock(us, n) && KeptLength(us, n) <= n
            && LoadFile(KindOf, TRUNCATING, Repaired(us, n, [Single(INCR)])).executed == []
  {
    hide EncodeCommand, Encode, LoadFile, Repaired, KeptLength, WholeUnits, CutInsideBlock, Log, KeptBody, Commands;
    FourCommands();
    var us, n := [TRANSACTION], |Encode(Commands(TRANSACTION)[..1])| + 1;
    ExampleWellFormed();
    CutBehind(TRANSACTION, 1);
    AppendLost(KindOf, us, n, [Single(INCR)]);
    assert us[..0] == [];
    NoEffects();
  }

  // Cut one byte into the second INCR: after the repair the same transaction is appended whole, and the next load runs
  // the INCR that was kept, the nested MULTI, and the two others.
  lemma PartExample()
    ensures var us, n := [TRANSACTION], |Encode(Commands(TRANSACTION)[..2])| + 1;
            && AllWellFormed(KindOf, us) && n <= |Log(us)| && KeptBody(us, n) == [INCR] && KeptLength(us, n) <= n
            && LoadFile(KindOf, TRUNCATING, Repaired(us, n, us)).executed == [INCR, [MULTI], INCR, INCR]
  {
    hide EncodeCommand, Encode, LoadFile, Repaired, KeptLength, WholeUnits, CutInsideBlock, Log, KeptBody, Commands;
    FourCommands();
    var us, n := [TRANSACTION], |Encode(Commands(TRANSACTION)[..2])| + 1;
    ExampleWellFormed();
    CutBehind(TRANSACTION, 2);
    AppendLost(KindOf, us, n, us);
    assert us[..0] == [] && us[1..] == [];
    NoEffects();
    assert Commands(TRANSACTION)[1..2] == [INCR];
    assert [INCR] + [[MULTI]] + [INCR, INCR] + [] == [INCR, [MULTI], INCR, INCR];
  }

  lemma ExampleWellFormed()
    ensures AllWellFormed(KindOf, [TRANSACTION]) && AllWellFormed(KindOf, [Single(INCR)])
  {
    assert WellFormed(KindOf, Single(INCR)) && WellFormed(KindOf, TRANSACTION);
  }

  lemma FourCommands()
    ensures Commands(TRANSACTION) == [[MULTI], INCR, INCR, [EXEC]]
  {}

  lemma NoEffects()
    ensures Effects([]) == []
  {}

  lemma LongEnough(cmd: Command)
    ensures |EncodeCommand(cmd)| >= 3
  {}

  // One byte behind its first `j` commands a list of commands holds those whole.
  lemma {:induction false} WholeBehind(cmds: seq<Command>, j: nat)
    requires j < |cmds|
    ensures |Encode(cmds[..j])| + 1 < |Encode(cmds)| && WholeCommands(cmds, |Encode(cmds[..j])| + 1) == j
    decreases j
  {
    hide EncodeCommand, Encode;
    LongEnough(cmds[0]);
    EncodeFirst(cmds);
    NoneEncoded();
    if j == 0 {
      assert cmds[..0] == [];
    } else {
      EncodeFirst(cmds[..j]);
      assert cmds[..j][1..] == cmds[1..][..j - 1];
      WholeBehind(cmds[1..], j - 1);
    }
  }

  lemma CutBehind(u: Unit, j: nat)
    requires u.Block? && 0 < j < |Commands(u)|
    ensures var n := |Encode(Commands(u)[..j])| + 1;
            && WholeUnits([u], n) == 0 && CutInsideBlock([u], n) && n <= |Log([u])|
            && KeptBody([u], n) == Commands(u)[1..j]
  {
    hide EncodeCommand, Encode, WholeCommands, Commands;
    WholeBehind(Commands(u), j);
    EmptyLog();
    assert [u][..0] == [] && [u][1..] == [] && Flatten([u]) == Commands(u) + [];
    assert Commands(u) + [] == Commands(u);
  }
}
