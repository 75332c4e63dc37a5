/** The cache of handshake messages both ends hash (rtc-dtls/src/handshake/handshake_cache.rs). */
module DtlsCache {
  import opened Bytes
  import opened DtlsRecord

  datatype Item = Item(typ: HandshakeType, isClient: bool, epoch: nat, messageSequence: U16, data: Bytes)

  datatype Rule = Rule(typ: HandshakeType, epoch: nat, isClient: bool, optional: bool)

  predicate SameSlot(a: Item, messageSequence: U16, isClient: bool) {
    a.messageSequence == messageSequence && a.isClient == isClient
  }

  predicate Holds(cache: seq<Item>, messageSequence: U16, isClient: bool) {
    exists i :: 0 <= i < |cache| && SameSlot(cache[i], messageSequence, isClient)
  }

  /** No two cached messages share sender and message sequence. */
  ghost predicate Unique(cache: seq<Item>) {
    forall i, j :: 0 <= i < j < |cache| ==> !SameSlot(cache[i], cache[j].messageSequence, cache[j].isClient)
  }

  function Pushed(cache: seq<Item>, x: Item): seq<Item> {
    if Holds(cache, x.messageSequence, x.isClient) then cache else cache + [x]
  }

  predicate Matches(c: Item, r: Rule) {
    c.typ == r.typ && c.isClient == r.isClient && c.epoch == r.epoch
  }

  function Better(item: Option<Item>, c: Item, r: Rule): Option<Item> {
    if Matches(c, r) && (item == None || item.value.messageSequence < c.messageSequence) then Some(c) else item
  }

  /** The scan of the cache for one rule, from `item` found so far. */
  function Scan(cache: seq<Item>, r: Rule, item: Option<Item>): Option<Item> {
    if cache == [] then item else Scan(cache[1..], r, Better(item, cache[0], r))
  }

  function Best(cache: seq<Item>, r: Rule): Option<Item> {
    Scan(cache, r, None)
  }

  /** What a scan is for: the matching message with the highest sequence number. */
  ghost predicate IsBest(cache: seq<Item>, r: Rule, x: Option<Item>) {
    match x
    case None => forall c :: c in cache ==> !Matches(c, r)
    case Some(b) =>
      && b in cache && Matches(b, r)
      && forall c :: c in cache && Matches(c, r) ==> c.messageSequence <= b.messageSequence
  }

  lemma {:induction false} ScanIsBest(seen: seq<Item>, cache: seq<Item>, r: Rule, item: Option<Item>)
    requires IsBest(seen, r, item)
    ensures IsBest(seen + cache, r, Scan(cache, r, item))
    decreases |cache|
  {
    if cache == [] {
      assert seen + cache == seen;
    } else {
      assert IsBest(seen + [cache[0]], r, Better(item, cache[0], r));
      ScanIsBest(seen + [cache[0]], cache[1..], r, Better(item, cache[0], r));
      assert seen + [cache[0]] + cache[1..] == seen + cache;
    }
  }

  lemma BestIsBest(cache: seq<Item>, r: Rule)
    ensures IsBest(cache, r, Best(cache, r))
  {
    ScanIsBest([], cache, r, None);
    assert [] + cache == cache;
  }

  function PullSpec(cache: seq<Item>, rules: seq<Rule>): seq<Item> {
    if rules == [] then []
    else (match Best(cache, rules[0]) case None => [] case Some(c) => [c]) + PullSpec(cache, rules[1..])
  }

  function MergeSpec(items: seq<Item>): Bytes {
    if items == [] then [] else items[0].data + MergeSpec(items[1..])
  }

  /** The transcript bytes for a list of rules. */
  function Transcript(cache: seq<Item>, rules: seq<Rule>): Bytes {
    MergeSpec(PullSpec(cache, rules))
  }

  /** Result of `full_pull_map`: the next expected sequence number and the messages by type. */
  datatype Pulled<M> = Missing | Gap | Undecodable | Messages(next: int, byType: map<HandshakeType, M>)

  function Collect(cache: seq<Item>, rules: seq<Rule>, ci: map<HandshakeType, Item>): Option<map<HandshakeType, Item>> {
    if rules == [] then Some(ci)
    else
      match Best(cache, rules[0])
      case None => if rules[0].optional then Collect(cache, rules[1..], ci) else None
      case Some(c) => Collect(cache, rules[1..], ci[rules[0].typ := c])
  }

  function InOrder<M>(ci: map<HandshakeType, Item>, rules: seq<Rule>, next: int,
                            out: map<HandshakeType, M>, decode: Bytes -> Option<(U16, M)>): Pulled<M>
  {
    if rules == [] then Messages(next, out)
    else if rules[0].typ !in ci then InOrder(ci, rules[1..], next, out, decode)
    else
      match decode(ci[rules[0].typ].data)
      case None => Undecodable
      case Some((n, m)) =>
        if next % 0x1_0000 != n then Gap
        else InOrder(ci, rules[1..], next + 1, out[rules[0].typ := m], decode)
  }

  function FullPull<M>(cache: seq<Item>, startSeq: int, rules: seq<Rule>,
                             decode: Bytes -> Option<(U16, M)>): Pulled<M>
  {
    match Collect(cache, rules, map[])
    case None => Missing
    case Some(ci) => InOrder(ci, rules, startSeq, map[], decode)
  }

  class HandshakeCache {
    var cache: seq<Item>

    constructor ()
      ensures cache == []
    {
      cache := [];
    }

    method Push(x: Item) returns (added: bool)
      modifies this
      ensures cache == Pushed(old(cache), x)
      ensures added <==> !Holds(old(cache), x.messageSequence, x.isClient)
    {
      var i := 0;
      while i < |cache|
        invariant 0 <= i <= |cache|
        invariant forall k :: 0 <= k < i ==> !SameSlot(cache[k], x.messageSequence, x.isClient)
      {
        if cache[i].messageSequence == x.messageSequence && cache[i].isClient == x.isClient {
          assert SameSlot(cache[i], x.messageSequence, x.isClient);
          return false;
        }
        i := i + 1;
      }
      cache := cache + [x];
      return true;
    }

    method FindBest(r: Rule) returns (item: Option<Item>)
      ensures item == Best(cache, r)
    {
      item := None;
      var i := 0;
      while i < |cache|
        invariant 0 <= i <= |cache|
        invariant Best(cache, r) == Scan(cache[i..], r, item)
      {
        var c := cache[i];
        assert cache[i..][0] == c && cache[i..][1..] == cache[i + 1..];
        if c.typ == r.typ && c.isClient == r.isClient && c.epoch == r.epoch {
          if item.Some? {
            if item.value.messageSequence < c.messageSequence {
              item := Some(c);
            }
          } else {
            item := Some(c);
          }
        }
        i := i + 1;
      }
    }

    method Pull(rules: seq<Rule>) returns (out: seq<Item>)
      ensures out == PullSpec(cache, rules)
    {
      out := [];
      var k := 0;
      while k < |rules|
        invariant 0 <= k <= |rules|
        invariant PullSpec(cache, rules) == out + PullSpec(cache, rules[k..])
      {
        assert rules[k..][0] == rules[k] && rules[k..][1..] == rules[k + 1..];
        var item := FindBest(rules[k]);
        if item.Some? {
          out := out + [item.value];
        }
        k := k + 1;
      }
    }

    method PullAndMerge(rules: seq<Rule>) returns (merged: Bytes)
      ensures merged == Transcript(cache, rules)
    {
      hide PullSpec;
      merged := [];
      var items := Pull(rules);
      var k := 0;
      assert items[0..] == items;
      while k < |items|
        invariant 0 <= k <= |items|
        invariant MergeSpec(items) == merged + MergeSpec(items[k..])
      {
        assert items[k..][0] == items[k] && items[k..][1..] == items[k + 1..];
        assert MergeSpec(items[k..]) == items[k].data + MergeSpec(items[k + 1..]);
        Assoc(merged, items[k].data, MergeSpec(items[k + 1..]));
        merged := merged + items[k].data;
        k := k + 1;
      }
    }

    method FullPullMap<M>(startSeq: int, rules: seq<Rule>, decode: Bytes -> Option<(U16, M)>) returns (r: Pulled<M>)
      ensures r == FullPull(cache, startSeq, rules, decode)
    {
      var ci: map<HandshakeType, Item> := map[];
      var k := 0;
      while k < |rules|
        invariant 0 <= k <= |rules|
        invariant Collect(cache, rules, map[]) == Collect(cache, rules[k..], ci)
      {
        assert rules[k..][0] == rules[k] && rules[k..][1..] == rules[k + 1..];
        var item := FindBest(rules[k]);
        if !rules[k].optional && item == None {
          return Missing;
        }
        if item.Some? {
          ci := ci[rules[k].typ := item.value];
        }
        k := k + 1;
      }
      var out: map<HandshakeType, M> := map[];
      var next := startSeq;
      k := 0;
      while k < |rules|
        invariant 0 <= k <= |rules|
        invariant InOrder(ci, rules, startSeq, map[], decode) == InOrder(ci, rules[k..], next, out, decode)
      {
        assert rules[k..][0] == rules[k] && rules[k..][1..] == rules[k + 1..];
        var t := rules[k].typ;
        if t in ci {
          var raw := decode(ci[t].data);
          if raw == None {
            return Undecodable;
          }
          if next % 0x1_0000 != raw.value.0 {
            return Gap;
          }
          next := next + 1;
          out := out[t := raw.value.1];
        }
        k := k + 1;
      }
      return Messages(next, out);
    }
  }

  // ---------------------------------------------------------------- what the cache keeps

  /** The first copy of a message stays: pushing keeps everything cached and the slots distinct. */
  lemma PushKeeps(cache: seq<Item>, x: Item)
    requires Unique(cache)
    ensures Unique(Pushed(cache, x)) && cache <= Pushed(cache, x)
    ensures Holds(Pushed(cache, x), x.messageSequence, x.isClient)
  {
    var more := Pushed(cache, x);
    if more != cache {
      assert SameSlot(more[|cache|], x.messageSequence, x.isClient);
    }
  }

  /** Two caches hold the same messages as far as the rules can see. */
  ghost predicate AgreeOn(a: seq<Item>, b: seq<Item>, rules: seq<Rule>) {
    forall x, r :: r in rules && Matches(x, r) ==> (x in a <==> x in b)
  }

  lemma BestDependsOnContents(a: seq<Item>, b: seq<Item>, r: Rule)
    requires Unique(a) && Unique(b)
    requires forall x :: Matches(x, r) ==> (x in a <==> x in b)
    ensures Best(a, r) == Best(b, r)
  {
    BestIsBest(a, r);
    BestIsBest(b, r);
    var x, y := Best(a, r), Best(b, r);
    if x.Some? && y.Some? {
      assert x.value in b && y.value in a;
      var i :| 0 <= i < |a| && a[i] == x.value;
      var j :| 0 <= j < |a| && a[j] == y.value;
      assert SameSlot(a[i], a[j].messageSequence, a[j].isClient);
      assert SameSlot(a[j], a[i].messageSequence, a[i].isClient);
    }
  }

  /** A transcript depends on which messages are cached, never on the order they arrived in. */
  lemma {:induction false} TranscriptDependsOnContents(a: seq<Item>, b: seq<Item>, rules: seq<Rule>)
    requires Unique(a) && Unique(b) && AgreeOn(a, b, rules)
    ensures PullSpec(a, rules) == PullSpec(b, rules)
    ensures Transcript(a, rules) == Transcript(b, rules)
  {
    if rules != [] {
      BestDependsOnContents(a, b, rules[0]);
      TranscriptDependsOnContents(a, b, rules[1..]);
    }
  }

  // ---------------------------------------------------------------- what `full_pull_map` hands out

  /** A cached message that satisfies a rule for type `t` and decodes to `m`. */
  ghost predicate Cached<M>(cache: seq<Item>, r: Rule, m: M, decode: Bytes -> Option<(U16, M)>) {
    exists i, n :: 0 <= i < |cache| && Matches(cache[i], r) && decode(cache[i].data) == Some((n, m))
  }

  ghost predicate FromRules(cache: seq<Item>, rules: seq<Rule>, ci: map<HandshakeType, Item>) {
    forall t :: t in ci ==> exists r :: r in rules && r.typ == t && ci[t] in cache && Matches(ci[t], r)
  }

  lemma {:induction false} CollectFromRules(cache: seq<Item>, all: seq<Rule>, k: nat, ci: map<HandshakeType, Item>)
    requires k <= |all| && FromRules(cache, all, ci) && Collect(cache, all[k..], ci).Some?
    ensures FromRules(cache, all, Collect(cache, all[k..], ci).value)
    ensures ci.Keys <= Collect(cache, all[k..], ci).value.Keys
    ensures forall j :: k <= j < |all| && !all[j].optional ==> all[j].typ in Collect(cache, all[k..], ci).value
    decreases |all| - k
  {
    if k < |all| {
      var r := all[k];
      assert all[k..][0] == r && all[k..][1..] == all[k + 1..];
      BestIsBest(cache, r);
      var best := Best(cache, r);
      var ci' := if best.Some? then ci[r.typ := best.value] else ci;
      assert r in all;
      assert FromRules(cache, all, ci');
      CollectFromRules(cache, all, k + 1, ci');
    }
  }

  ghost predicate Decoded<M>(ci: map<HandshakeType, Item>, out: map<HandshakeType, M>,
                             decode: Bytes -> Option<(U16, M)>) {
    forall t :: t in out ==> t in ci && exists n :: decode(ci[t].data) == Some((n, out[t]))
  }

  lemma {:induction false} InOrderDecoded<M>(ci: map<HandshakeType, Item>, rules: seq<Rule>, next: int,
                                             out: map<HandshakeType, M>, decode: Bytes -> Option<(U16, M)>)
    requires Decoded(ci, out, decode) && InOrder(ci, rules, next, out, decode).Messages?
    ensures Decoded(ci, InOrder(ci, rules, next, out, decode).byType, decode)
    ensures out.Keys <= InOrder(ci, rules, next, out, decode).byType.Keys
    ensures forall j :: 0 <= j < |rules| && rules[j].typ in ci ==>
              rules[j].typ in InOrder(ci, rules, next, out, decode).byType
    decreases |rules|
  {
    if rules != [] {
      var t := rules[0].typ;
      if t in ci {
        var (n, m) := decode(ci[t].data).value;
        InOrderDecoded(ci, rules[1..], next + 1, out[t := m], decode);
      } else {
        InOrderDecoded(ci, rules[1..], next, out, decode);
      }
    }
  }

  /** Every message handed out is a cached one that a rule of its type asked for. */
  lemma PulledIsCached<M>(cache: seq<Item>, start: int, rules: seq<Rule>, decode: Bytes -> Option<(U16, M)>,
                          t: HandshakeType)
    requires FullPull(cache, start, rules, decode).Messages? && t in FullPull(cache, start, rules, decode).byType
    ensures exists r ::
              r in rules && r.typ == t && Cached(cache, r, FullPull(cache, start, rules, decode).byType[t], decode)
  {
    assert rules[0..] == rules;
    CollectFromRules(cache, rules, 0, map[]);
    var ci := Collect(cache, rules, map[]).value;
    InOrderDecoded(ci, rules, start, map[], decode);
    var m := FullPull(cache, start, rules, decode).byType[t];
    var r :| r in rules && r.typ == t && ci[t] in cache && Matches(ci[t], r);
    var i :| 0 <= i < |cache| && cache[i] == ci[t];
    var n :| decode(ci[t].data) == Some((n, m));
    assert Cached(cache, r, m, decode);
  }

  /** A rule that is not optional has its message among those handed out. */
  lemma MandatoryIsPulled<M>(cache: seq<Item>, start: int, rules: seq<Rule>, decode: Bytes -> Option<(U16, M)>, j: nat)
    requires FullPull(cache, start, rules, decode).Messages? && j < |rules| && !rules[j].optional
    ensures rules[j].typ in FullPull(cache, start, rules, decode).byType
  {
    assert rules[0..] == rules;
    CollectFromRules(cache, rules, 0, map[]);
    InOrderDecoded(Collect(cache, rules, map[]).value, rules, start, map[], decode);
  }

  lemma CachedStays<M>(a: seq<Item>, b: seq<Item>, r: Rule, m: M, decode: Bytes -> Option<(U16, M)>)
    requires Cached(a, r, m, decode) && a <= b
    ensures Cached(b, r, m, decode)
  {
    var i, n :| 0 <= i < |a| && Matches(a[i], r) && decode(a[i].data) == Some((n, m));
    assert b[i] == a[i];
  }
}
