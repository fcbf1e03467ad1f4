// Hash slots of cluster.h and cluster.c: the slot of a key, the slot of a pattern, and the ranges of CLUSTER SLOTS.
module Cluster {
  import opened Options
  import Crc = Crc16

  type Bytes = seq<bv8>

  const OPEN: bv8 := 123
  const CLOSE: bv8 := 125
  const STAR: bv8 := 42
  const QUESTION: bv8 := 63
  const BRACKET: bv8 := 91
  const BACKSLASH: bv8 := 92

  // ---------- keys ----------

  // Where `c` first occurs at or after `from`; the length if it does not.
  function Find(s: Bytes, c: bv8, from: nat): (i: nat)
    requires from <= |s|
    ensures from <= i <= |s| && (i < |s| ==> s[i] == c) && forall j | from <= j < i :: s[j] != c
    decreases |s| - from
  {
    if from == |s| || s[from] == c then from else Find(s, c, from + 1)
  }

  // The part of a key that is hashed: what is between the first '{' and the first '}' after it, if that is something.
  function HashTag(key: Bytes): Bytes
  {
    var s := Find(key, OPEN, 0);
    if s == |key| then key
    else
      var e := Find(key, CLOSE, s + 1);
      if e == |key| || e == s + 1 then key else key[s + 1..e]
  }

  // crc16 & 0x3FFF
  function Mask(crc: bv16): bv16 { crc & 0x3fff }

  function SlotOf(data: Bytes): bv16 { Mask(Crc.Fold(0, data)) }

  lemma FindStep(s: Bytes, c: bv8, from: nat)
    requires from <= |s|
    ensures Find(s, c, from) == if from < |s| && s[from] != c then Find(s, c, from + 1) else from
  {}

  // keyHashSlot
  method KeyHashSlot(key: Bytes) returns (slot: bv16)
    ensures slot == SlotOf(HashTag(key)) && slot < 16384
  {
    hide *;
    var s := 0;
    while s < |key| && key[s] != OPEN
      invariant s <= |key| && Find(key, OPEN, s) == Find(key, OPEN, 0)
    {
      FindStep(key, OPEN, s);
      s := s + 1;
    }
    FindStep(key, OPEN, s);
    var e := s + 1;
    while e < |key| && key[e] != CLOSE
      invariant s < e && (s < |key| ==> e <= |key| && Find(key, CLOSE, e) == Find(key, CLOSE, s + 1))
    {
      FindStep(key, CLOSE, e);
      e := e + 1;
    }
    if e <= |key| {
      FindStep(key, CLOSE, e);
    }
    var data := if s == |key| || e == |key| || e == s + 1 then key else key[s + 1..e];
    HashTagAt(key, s, e);
    var crc := Crc.Crc16(data);
    slot := Mask(crc);
    SlotIs(data);
  }

  lemma SlotIs(data: Bytes)
    ensures SlotOf(data) == Mask(Crc.Fold(0, data)) && SlotOf(data) < 16384
  {
    hide Crc.Fold;
    assert Crc.Fold(0, data) & 0x3fff < 16384;
  }

  // A slot is the checksum modulo the 16384 slots.
  lemma SlotIsRemainder(data: Bytes)
    ensures SlotOf(data) == Crc.Fold(0, data) % 16384
  {
    hide Crc.Fold;
    MaskIsRemainder(Crc.Fold(0, data));
  }

  lemma MaskIsRemainder(crc: bv16)
    ensures Mask(crc) == crc % 16384
  {}

  // The bytes of a text.
  function Text(s: string): Bytes
    requires forall i | 0 <= i < |s| :: s[i] < 128 as char
  {
    seq(|s|, i requires 0 <= i < |s| => (s[i] as int) as bv8)
  }

  // The tag stands between the first '{' and the first '}' behind it.
  predicate TagAt(key: Bytes, s: nat, e: nat)
  {
    && s < e < |key| && key[s] == Text("{")[0] && key[e] == Text("}")[0]
    && (forall i | 0 <= i < s :: key[i] != Text("{")[0]) && forall i | s < i < e :: key[i] != Text("}")[0]
  }

  // What is hashed is the tag, if there is one with something in it, and otherwise the whole key.
  lemma HashTagExactly(key: Bytes)
    ensures forall s: nat, e: nat | TagAt(key, s, e) && e > s + 1 :: HashTag(key) == key[s + 1..e]
    ensures (forall s: nat, e: nat | TagAt(key, s, e) :: e == s + 1) ==> HashTag(key) == key
  {
    forall s: nat, e: nat | TagAt(key, s, e)
      ensures s == Find(key, OPEN, 0) && e == Find(key, CLOSE, s + 1)
    {
      assert key[s] == OPEN && key[e] == CLOSE;
    }
    var s := Find(key, OPEN, 0);
    if s < |key| && Find(key, CLOSE, s + 1) < |key| {
      assert TagAt(key, s, Find(key, CLOSE, s + 1));
    }
  }

  lemma SpecialIs(b: bv8)
    ensures Special(b) <==> b in Text("*?[\\")
  {
    assert Text("*?[\\") == [STAR, QUESTION, BRACKET, BACKSLASH];
  }

  lemma HashTagAt(key: Bytes, s: nat, e: nat)
    requires s == Find(key, OPEN, 0) && (s < |key| ==> e == Find(key, CLOSE, s + 1))
    ensures HashTag(key) == if s == |key| || e == |key| || e == s + 1 then key else key[s + 1..e]
  {}

  // ---------- patterns ----------

  predicate Special(c: bv8) { c == STAR || c == QUESTION || c == BRACKET || c == BACKSLASH }

  // Which keys a glob pattern may match: '*' any bytes, '?' any byte, '\' the byte after it, and any other byte itself.
  // A character class may match any byte and end anywhere, which allows at least what the real matcher allows.
  ghost predicate Matches(p: Bytes, key: Bytes)
    decreases |p|
  {
    if p == [] then key == []
    else if p[0] == STAR then exists i :: 0 <= i <= |key| && Matches(p[1..], key[i..])
    else if key == [] then false
    else if p[0] == QUESTION then Matches(p[1..], key[1..])
    else if p[0] == BRACKET then exists i :: 0 < i <= |p| && Matches(p[i..], key[1..])
    else if p[0] == BACKSLASH && |p| > 1 then key[0] == p[1] && Matches(p[2..], key[1..])
    else key[0] == p[0] && Matches(p[1..], key[1..])
  }

  predicate Literal(p: Bytes) { forall i | 0 <= i < |p| :: !Special(p[i]) }

  // A key that matches starts with the literal bytes the pattern starts with.
  lemma {:induction false} LiteralPrefix(p: Bytes, k: nat, key: Bytes)
    requires k <= |p| && Literal(p[..k]) && Matches(p, key)
    ensures k <= |key| && key[..k] == p[..k] && (k == |p| ==> key == p)
    decreases k
  {
    if k > 0 {
      assert !Special(p[..k][0]);
      assert p[1..][..k - 1] == p[..k][1..];
      LiteralPrefix(p[1..], k - 1, key[1..]);
      assert key[..k] == [key[0]] + key[1..][..k - 1];
      assert p[..k] == [p[0]] + p[1..][..k - 1];
      if k == |p| {
        assert key == [key[0]] + key[1..] && p == [p[0]] + p[1..];
      }
    }
  }

  // The loop of patternHashSlot from index `i`; `s` is the index of the open brace, -1 before it and -2 once an empty
  // tag was seen.
  function PatternSlot(p: Bytes, i: nat, s: int): Option<bv16>
    requires i <= |p| && s < i
    decreases |p| - i
  {
    if i == |p| then Some(SlotOf(p))
    else if Special(p[i]) then None
    else if s == -1 && p[i] == OPEN then PatternSlot(p, i + 1, i)
    else if s >= 0 && p[i] == CLOSE && i == s + 1 then PatternSlot(p, i + 1, -2)
    else if s >= 0 && p[i] == CLOSE then Some(SlotOf(p[s + 1..i]))
    else PatternSlot(p, i + 1, s)
  }

  // What the loop knows about the bytes it has passed.
  predicate Scanned(p: Bytes, i: nat, s: int)
    requires i <= |p| && s < i
  {
    && Literal(p[..i])
    && (s == -1 ==> forall j | 0 <= j < i :: p[j] != OPEN)
    && (s >= 0 ==> p[s] == OPEN && (forall j | 0 <= j < s :: p[j] != OPEN) && forall j | s < j < i :: p[j] != CLOSE)
    && (s == -2 ==> exists j | 0 <= j < i - 1 :: EmptyTagAt(p, j))
    && s >= -2
  }

  predicate EmptyTagAt(p: Bytes, j: nat)
    requires j + 1 < |p|
  {
    p[j] == OPEN && p[j + 1] == CLOSE && forall k | 0 <= k < j :: p[k] != OPEN
  }

  lemma {:induction false} PatternSound(p: Bytes, i: nat, s: int, key: Bytes)
    requires i <= |p| && s < i && Scanned(p, i, s) && Matches(p, key) && PatternSlot(p, i, s).Some?
    ensures SlotOf(HashTag(key)) == PatternSlot(p, i, s).value
    decreases |p| - i
  {
    hide Crc.Fold, SlotOf, HashTag, Matches;
    if i == |p| {
      assert p[..i] == p;
      LiteralPrefix(p, i, key);
      WholeKey(p, s);
    } else {
      assert p[..i + 1] == p[..i] + [p[i]];
      if s == -1 && p[i] == OPEN {
        PatternSound(p, i + 1, i, key);
      } else if s >= 0 && p[i] == CLOSE && i == s + 1 {
        assert EmptyTagAt(p, s);
        PatternSound(p, i + 1, -2, key);
      } else if s >= 0 && p[i] == CLOSE {
        TagOfKey(p, i, s, key);
      } else {
        PatternSound(p, i + 1, s, key);
      }
    }
  }

  // A closed tag in the literal beginning of a pattern is the tag of every key that matches.
  lemma TagOfKey(p: Bytes, i: nat, s: nat, key: Bytes)
    requires s + 1 < i < |p| && Scanned(p, i, s) && p[i] == CLOSE && Matches(p, key)
    ensures HashTag(key) == p[s + 1..i]
  {
    assert p[..i + 1] == p[..i] + [p[i]];
    LiteralPrefix(p, i + 1, key);
    hide Matches;
    forall j | 0 <= j <= i
      ensures key[j] == p[j]
    {
      assert key[j] == key[..i + 1][j] && p[j] == p[..i + 1][j];
    }
    assert Find(key, OPEN, 0) == s;
    assert Find(key, CLOSE, s + 1) == i;
    assert key[s + 1..i] == p[s + 1..i];
  }

  // A key without a non-empty closed tag is hashed whole.
  lemma WholeKey(p: Bytes, s: int)
    requires s < |p| && Scanned(p, |p|, s)
    ensures HashTag(p) == p
  {
    if s == -2 {
      var j :| 0 <= j < |p| - 1 && EmptyTagAt(p, j);
      assert Find(p, OPEN, 0) == j;
      assert Find(p, CLOSE, j + 1) == j + 1;
    } else if s >= 0 {
      assert Find(p, OPEN, 0) == s;
    }
  }

  // patternHashSlot
  method PatternHashSlot(pattern: Bytes) returns (slot: Option<bv16>)
    ensures slot == PatternSlot(pattern, 0, -1)
    ensures slot.Some? ==> forall key | Matches(pattern, key) :: SlotOf(HashTag(key)) == slot.value
  {
    hide Crc.Fold, Crc.Remainder;
    if PatternSlot(pattern, 0, -1).Some? {
      forall key | Matches(pattern, key)
        ensures SlotOf(HashTag(key)) == PatternSlot(pattern, 0, -1).value
      {
        PatternSound(pattern, 0, -1, key);
      }
    }
    var s := -1;
    for i := 0 to |pattern|
      invariant s < i && PatternSlot(pattern, i, s) == PatternSlot(pattern, 0, -1)
    {
      if pattern[i] == STAR || pattern[i] == QUESTION || pattern[i] == BRACKET {
        return None;
      } else if pattern[i] == BACKSLASH {
        return None;
      } else if s == -1 && pattern[i] == OPEN {
        s := i;
      } else if s >= 0 && pattern[i] == CLOSE && i == s + 1 {
        s := -2;
      } else if s >= 0 && pattern[i] == CLOSE {
        var crc := Crc.Crc16(pattern[s + 1..i]);
        return Some(Mask(crc));
      }
    }
    var crc := Crc.Crc16(pattern);
    slot := Some(Mask(crc));
  }

  // When it gives up: a special byte stands before any closed non-empty tag.
  predicate Blocked(p: Bytes, i: nat)
    requires i < |p|
  {
    Special(p[i]) && Literal(p[..i]) && HashTag(p[..i]) == p[..i]
  }

  lemma GivesUp(p: Bytes)
    ensures PatternSlot(p, 0, -1).None? <==> exists i | 0 <= i < |p| :: Blocked(p, i)
  {
    GivesUpFrom(p, 0, -1);
  }

  // What has been passed is hashed whole.
  lemma PassedWhole(p: Bytes, i: nat, s: int)
    requires s < i <= |p| && Scanned(p, i, s)
    ensures HashTag(p[..i]) == p[..i]
  {
    var q := p[..i];
    if s == -2 {
      var j :| 0 <= j < i - 1 && EmptyTagAt(p, j);
      assert EmptyTagAt(q, j);
    }
    assert q[..|q|] == q;
    WholeKey(q, s);
  }

  lemma ClosedTag(p: Bytes, s: nat, i: nat, k: nat)
    requires s + 1 < i < k < |p| && Scanned(p, i, s) && p[i] == CLOSE
    ensures !Blocked(p, k)
  {
    var r := p[..k];
    assert forall j | 0 <= j < k :: r[j] == p[j];
    assert Find(r, OPEN, 0) == s;
    assert Find(r, CLOSE, s + 1) == i;
    assert |HashTag(r)| < |r|;
  }

  lemma {:induction false} GivesUpFrom(p: Bytes, i: nat, s: int)
    requires i <= |p| && s < i && Scanned(p, i, s)
    ensures PatternSlot(p, i, s).None? <==> exists k | i <= k < |p| :: Blocked(p, k)
    decreases |p| - i
  {
    hide SlotOf, HashTag;
    if i < |p| {
      assert p[..i + 1] == p[..i] + [p[i]];
      PassedWhole(p, i, s);
      assert Blocked(p, i) <==> Special(p[i]);
      if !Special(p[i]) {
        hide Blocked;
        if s == -1 && p[i] == OPEN {
          GivesUpFrom(p, i + 1, i);
        } else if s >= 0 && p[i] == CLOSE && i == s + 1 {
          assert EmptyTagAt(p, s);
          GivesUpFrom(p, i + 1, -2);
        } else if s >= 0 && p[i] == CLOSE {
          forall k | i < k < |p|
            ensures !Blocked(p, k)
          {
            ClosedTag(p, s, i, k);
          }
        } else {
          GivesUpFrom(p, i + 1, s);
        }
      }
    }
  }

  // ---------- slot ranges ----------

  type Node = nat

  // The owner of every slot; the source has 16384 of them.
  type Owners = seq<Option<Node>>

  datatype Range = Range(node: Node, first: nat, last: nat)

  // A longest run of slots of one node.
  predicate Maximal(owners: Owners, r: Range)
  {
    && r.first <= r.last < |owners|
    && (forall i | r.first <= i <= r.last :: owners[i] == Some(r.node))
    && (r.first > 0 ==> owners[r.first - 1] != Some(r.node))
    && (r.last + 1 < |owners| ==> owners[r.last + 1] != Some(r.node))
  }

  predicate Covered(out: seq<Range>, i: nat) { exists k | 0 <= k < |out| :: out[k].first <= i <= out[k].last }

  // The reply lists exactly the longest runs, in order.
  predicate Reply(owners: Owners, out: seq<Range>)
  {
    && (forall k | 0 <= k < |out| :: Maximal(owners, out[k]))
    && (forall j, k | 0 <= j < k < |out| :: out[j].last < out[k].first)
    && forall i | 0 <= i < |owners| :: owners[i].Some? ==> Covered(out, i)
  }

  // The reply so far, for the slots before `done`.
  predicate ReplySoFar(owners: Owners, out: seq<Range>, done: nat)
    requires done <= |owners|
  {
    && (forall k | 0 <= k < |out| :: Maximal(owners, out[k]) && out[k].last < done)
    && (forall j, k | 0 <= j < k < |out| :: out[j].last < out[k].first)
    && forall i | 0 <= i < done :: owners[i].Some? ==> Covered(out, i)
  }

  lemma AddRange(owners: Owners, out: seq<Range>, r: Range)
    requires Maximal(owners, r) && ReplySoFar(owners, out, r.first)
    ensures ReplySoFar(owners, out + [r], r.last + 1)
  {
    forall i | 0 <= i <= r.last && owners[i].Some?
      ensures Covered(out + [r], i)
    {
      if i < r.first {
        var k :| 0 <= k < |out| && out[k].first <= i <= out[k].last;
        assert (out + [r])[k] == out[k];
      } else {
        assert (out + [r])[|out|] == r;
      }
    }
  }

  // clusterCommandSlots
  method ClusterCommandSlots(owners: Owners) returns (out: seq<Range>, numMasters: nat)
    ensures Reply(owners, out) && numMasters == |out|
  {
    hide ReplySoFar;
    var n: Option<Node> := None;
    var start := 0;
    out := [];
    numMasters := 0;
    NothingYet(owners);
    for i := 0 to |owners| + 1
      invariant numMasters == |out|
      invariant i == |owners| + 1 ==> n.None?
      invariant n.Some? ==>
                  && start < i && (forall j | start <= j < i :: owners[j] == n)
                  && (start > 0 ==> owners[start - 1] != n)
                  && ReplySoFar(owners, out, start)
      invariant n.None? ==> ReplySoFar(owners, out, if i <= |owners| then i else |owners|)
      invariant n.None? && 0 < i <= |owners| ==> owners[i - 1].None?
    {
      if n.None? {
        if i == |owners| {
          break;
        }
        n := owners[i];
        start := i;
        if n.None? {
          SkipSlot(owners, out, i);
        }
        continue;
      }
      if i == |owners| || n != owners[i] {
        AddRange(owners, out, Range(n.value, start, i - 1));
        out := out + [Range(n.value, start, i - 1)];
        numMasters := numMasters + 1;
        if i == |owners| {
          break;
        }
        n := owners[i];
        start := i;
        if n.None? {
          SkipSlot(owners, out, i);
        }
      }
    }
    SoFarIsReply(owners, out);
  }

  lemma NothingYet(owners: Owners)
    ensures ReplySoFar(owners, [], 0)
  {}

  lemma SkipSlot(owners: Owners, out: seq<Range>, i: nat)
    requires i < |owners| && owners[i].None? && ReplySoFar(owners, out, i)
    ensures ReplySoFar(owners, out, i + 1)
  {}

  lemma SoFarIsReply(owners: Owners, out: seq<Range>)
    requires ReplySoFar(owners, out, |owners|)
    ensures Reply(owners, out)
  {}
}
