/**
 The transcript a client hashes before it has sent its last flight, and the one the server pulls
 after receiving it (rtc-dtls/src/flight/flight5.rs:296-393, handshaker.rs:136-149,
 handshake_cache.rs:143-228).
 */
module DtlsTranscript {
  import opened Bytes
  import opened DtlsRecord
  import opened DtlsFragment
  import opened DtlsCache

  /** A handshake message that has no sequence number yet. */
  datatype Pending = Pending(typ: HandshakeType, body: Bytes)

  ghost predicate WfPending(p: Pending) {
    |p.body| < 0x100_0000
  }

  ghost predicate AllWf(ps: seq<Pending>) {
    forall i :: 0 <= i < |ps| ==> WfPending(ps[i])
  }

  function Numbered(p: Pending, n: nat): Message {
    Message(p.typ, n % 0x1_0000, p.body)
  }

  /** Each message marshalled under its number `n`, `n + 1`, ... */
  function Parts(ps: seq<Pending>, n: nat): (r: seq<Bytes>)
    requires AllWf(ps)
    ensures |r| == |ps|
    ensures forall i :: 0 <= i < |r| ==> WfPending(ps[i]) && r[i] == FullBytes(Numbered(ps[i], n + i))
  {
    if ps == [] then []
    else
      assert WfPending(ps[0]);
      [FullBytes(Numbered(ps[0], n))] + Parts(ps[1..], n + 1)
  }

  /** The marshalled messages one after the other. */
  function Marshalled(ps: seq<Pending>, n: nat): Bytes
    requires AllWf(ps)
  {
    Flatten(Parts(ps, n))
  }

  /** What the sender caches for these messages once they carry the numbers `n`, `n + 1`, ... */
  function Items(ps: seq<Pending>, n: nat, epoch: nat, isClient: bool): (r: seq<Item>)
    requires AllWf(ps)
    ensures |r| == |ps|
    ensures forall i :: 0 <= i < |r| ==>
              WfPending(ps[i])
              && r[i] == Item(ps[i].typ, isClient, epoch, (n + i) % 0x1_0000, FullBytes(Numbered(ps[i], n + i)))
  {
    if ps == [] then []
    else
      assert WfPending(ps[0]);
      var m := Numbered(ps[0], n);
      [Item(m.typ, isClient, epoch, m.sequence, FullBytes(m))] + Items(ps[1..], n + 1, epoch, isClient)
  }

  /** Numbers are kept in 16 bits. */
  function Predicted(n: nat): U16 {
    n % 0x1_0000
  }

  lemma NextPredicted(n: nat)
    ensures Predicted(Predicted(n) + 1) == Predicted(n + 1)
  {
  }

  /** One more message behind those marshalled already. */
  lemma MergeStep(ps: seq<Pending>, n: nat, i: nat)
    requires AllWf(ps) && i < |ps| && |ps[i].body| < 0x100_0000
    ensures Flatten(Parts(ps, n)[..i + 1])
         == Flatten(Parts(ps, n)[..i]) + FullBytes(Message(ps[i].typ, Predicted(n + i), ps[i].body))
  {
    hide FullBytes, Parts, Flatten;
    var parts := Parts(ps, n);
    assert parts[..i + 1] == parts[..i] + [parts[i]];
    FlattenSnoc(parts[..i], parts[i]);
  }

  lemma MergeEnds(ps: seq<Pending>, n: nat)
    requires AllWf(ps)
    ensures Flatten(Parts(ps, n)[..0]) == [] && Flatten(Parts(ps, n)[..|ps|]) == Marshalled(ps, n)
  {
    assert Parts(ps, n)[..|ps|] == Parts(ps, n);
    hide Parts;
  }

  /** Flight 5 marshals its unsent messages under predicted numbers. */
  method MergeUnsent(ps: seq<Pending>, sendSequence: nat) returns (merged: Bytes)
    requires forall i :: 0 <= i < |ps| ==> |ps[i].body| < 0x100_0000
    ensures AllWf(ps) && merged == Marshalled(ps, sendSequence)
  {
    merged := [];
    var predicted: nat := Predicted(sendSequence);
    assert AllWf(ps);
    MergeEnds(ps, sendSequence);
    hide FullBytes, Parts, Flatten, Predicted, AllWf, Marshalled;
    var i := 0;
    while i < |ps|
      invariant 0 <= i <= |ps|
      invariant predicted == Predicted(sendSequence + i)
      invariant merged == Flatten(Parts(ps, sendSequence)[..i])
    {
      MergeStep(ps, sendSequence, i);
      merged := merged + FullBytes(Message(ps[i].typ, predicted, ps[i].body));
      NextPredicted(sendSequence + i);
      predicted := Predicted(predicted + 1);
      i := i + 1;
    }
  }

  // ---------------------------------------------------------------- numbering in `prepare`

  /** A packet of a flight: a handshake message, or a change of cipher spec which takes no number. */
  datatype FlightPacket = FlightHandshake(pending: Pending, epoch: nat) | FlightCipherSpec(epoch: nat)

  datatype Prepared = PreparedHandshake(message: Message, epoch: nat) | PreparedCipherSpec(epoch: nat)

  /** Handshakes take consecutive numbers; epochs move by the configured first epoch. */
  function PreparedFrom(pkts: seq<FlightPacket>, n: nat, initialEpoch: nat): seq<Prepared> {
    if pkts == [] then []
    else
      match pkts[0]
      case FlightCipherSpec(e) => [PreparedCipherSpec(e + initialEpoch)] + PreparedFrom(pkts[1..], n, initialEpoch)
      case FlightHandshake(p, e) =>
        [PreparedHandshake(Numbered(p, n), e + initialEpoch)] + PreparedFrom(pkts[1..], n + 1, initialEpoch)
  }

  function Handshakes(pkts: seq<FlightPacket>): nat {
    if pkts == [] then 0 else (if pkts[0].FlightHandshake? then 1 else 0) + Handshakes(pkts[1..])
  }

  /** The highest epoch among the packets, at least `e`. */
  function HighestEpoch(pkts: seq<Prepared>, e: nat): (top: nat) {
    if pkts == [] then e
    else
      var top := HighestEpoch(pkts[..|pkts| - 1], e);
      if pkts[|pkts| - 1].epoch > top then pkts[|pkts| - 1].epoch else top
  }

  /** The numbering loop of `prepare`; `next` is the send sequence afterwards. */
  method Prepare(pkts: seq<FlightPacket>, sendSequence: nat, initialEpoch: nat)
    returns (out: seq<Prepared>, next: nat, localEpoch: nat)
    ensures out == PreparedFrom(pkts, sendSequence, initialEpoch)
    ensures next == sendSequence + Handshakes(pkts)
    ensures localEpoch == HighestEpoch(out, initialEpoch)
  {
    out, next, localEpoch := [], sendSequence, initialEpoch;
    var i := 0;
    assert pkts[i..] == pkts;
    while i < |pkts|
      invariant 0 <= i <= |pkts|
      invariant next + Handshakes(pkts[i..]) == sendSequence + Handshakes(pkts)
      invariant PreparedFrom(pkts, sendSequence, initialEpoch) == out + PreparedFrom(pkts[i..], next, initialEpoch)
      invariant localEpoch == HighestEpoch(out, initialEpoch)
    {
      assert pkts[i..][0] == pkts[i] && pkts[i..][1..] == pkts[i + 1..];
      var epoch := pkts[i].epoch + initialEpoch;
      var packet;
      match pkts[i] {
        case FlightCipherSpec(_) =>
          packet := PreparedCipherSpec(epoch);
        case FlightHandshake(p, _) =>
          packet := PreparedHandshake(Numbered(p, next), epoch);
          next := next + 1;
      }
      Assoc(out, [packet], PreparedFrom(pkts[i + 1..], next, initialEpoch));
      assert (out + [packet])[..|out|] == out;
      if epoch > localEpoch {
        localEpoch := epoch;
      }
      out := out + [packet];
      i := i + 1;
    }
  }

  function InFlight(ps: seq<Pending>, epoch: nat): (r: seq<FlightPacket>)
    ensures |r| == |ps| && forall i :: 0 <= i < |r| ==> r[i] == FlightHandshake(ps[i], epoch)
  {
    if ps == [] then [] else [FlightHandshake(ps[0], epoch)] + InFlight(ps[1..], epoch)
  }

  /** `prepare` gives every leading handshake of a flight exactly the number that was predicted for it. */
  lemma {:induction false} PrepareAssignsPredicted(ps: seq<Pending>, rest: seq<FlightPacket>, n: nat,
                                                   initialEpoch: nat, i: nat)
    requires i < |ps|
    ensures |PreparedFrom(InFlight(ps, 0) + rest, n, initialEpoch)| >= |ps|
    ensures PreparedFrom(InFlight(ps, 0) + rest, n, initialEpoch)[i]
            == PreparedHandshake(Numbered(ps[i], n + i), initialEpoch)
    decreases |ps|
  {
    hide Numbered;
    var pkts := InFlight(ps, 0) + rest;
    assert pkts[0] == FlightHandshake(ps[0], 0) && pkts[1..] == InFlight(ps[1..], 0) + rest;
    if i > 0 {
      PrepareAssignsPredicted(ps[1..], rest, n + 1, initialEpoch, i - 1);
    } else if |ps| > 1 {
      PrepareAssignsPredicted(ps[1..], rest, n + 1, initialEpoch, 0);
    }
  }

  // ---------------------------------------------------------------- rules

  /** Messages up to ServerHelloDone, in protocol order. */
  function HelloRules(e: nat): seq<Rule> {
    [Rule(CLIENT_HELLO, e, true, false), Rule(SERVER_HELLO, e, false, false), Rule(CERTIFICATE, e, false, false),
     Rule(SERVER_KEY_EXCHANGE, e, false, false), Rule(CERTIFICATE_REQUEST, e, false, false),
     Rule(SERVER_HELLO_DONE, e, false, false)]
  }

  function KeyRules(e: nat): seq<Rule> {
    [Rule(CERTIFICATE, e, true, false), Rule(CLIENT_KEY_EXCHANGE, e, true, false)]
  }

  function FinishRules(e: nat): seq<Rule> {
    [Rule(CERTIFICATE_VERIFY, e, true, false), Rule(FINISHED, e + 1, true, false)]
  }

  /** Input of the session hash and of the CertificateVerify signature. */
  function SessionRules(e: nat): seq<Rule> {
    HelloRules(e) + KeyRules(e)
  }

  /** Input of the Finished hashes. */
  function FinishedRules(e: nat): seq<Rule> {
    SessionRules(e) + FinishRules(e)
  }

  /** The session hash's input at either end; `additional` is what has not been cached yet. */
  function SessionHashInput(cache: seq<Item>, e: nat, additional: Bytes): Bytes {
    Transcript(cache, SessionRules(e)) + additional
  }

  lemma {:induction false} TranscriptAppend(cache: seq<Item>, a: seq<Rule>, b: seq<Rule>)
    ensures Transcript(cache, a + b) == Transcript(cache, a) + Transcript(cache, b)
  {
    if a == [] {
      assert a + b == b;
    } else {
      assert (a + b)[1..] == a[1..] + b;
      TranscriptAppend(cache, a[1..], b);
      TranscriptCons(cache, a + b);
      TranscriptCons(cache, a);
      Assoc(DataOf(Best(cache, a[0])), Transcript(cache, a[1..]), Transcript(cache, b));
    }
  }

  function DataOf(x: Option<Item>): Bytes {
    if x.Some? then x.value.data else []
  }

  lemma TranscriptCons(cache: seq<Item>, rules: seq<Rule>)
    requires rules != []
    ensures Transcript(cache, rules) == DataOf(Best(cache, rules[0])) + Transcript(cache, rules[1..])
  {
    match Best(cache, rules[0])
    case None => assert PullSpec(cache, rules) == PullSpec(cache, rules[1..]);
    case Some(c) =>
      assert PullSpec(cache, rules) == [c] + PullSpec(cache, rules[1..]);
      assert ([c] + PullSpec(cache, rules[1..]))[1..] == PullSpec(cache, rules[1..]);
  }

  lemma TranscriptOfTwo(cache: seq<Item>, r: Rule, q: Rule)
    ensures Transcript(cache, [r, q]) == DataOf(Best(cache, r)) + DataOf(Best(cache, q))
  {
    TranscriptCons(cache, [r, q]);
    assert [r, q][1..] == [q];
    TranscriptCons(cache, [q]);
    assert [q][1..] == [] && Transcript(cache, []) == [];
  }

  // ---------------------------------------------------------------- the last flight of the client

  /** Certificate if requested, ClientKeyExchange, CertificateVerify if there is a certificate to prove. */
  function Unsent(cert: Option<Bytes>, key: Bytes, verify: Option<Bytes>): seq<Pending> {
    (if cert.Some? then [Pending(CERTIFICATE, cert.value)] else [])
    + [Pending(CLIENT_KEY_EXCHANGE, key)]
    + (if verify.Some? then [Pending(CERTIFICATE_VERIFY, verify.value)] else [])
  }

  /** None of the client's last flight is cached yet. */
  ghost predicate NotYetSent(cache: seq<Item>, e: nat) {
    forall r :: r in KeyRules(e) + FinishRules(e) ==> NoneMatch(cache, r)
  }

  ghost predicate NoneMatch(cache: seq<Item>, r: Rule) {
    forall i :: 0 <= i < |cache| ==> !Matches(cache[i], r)
  }

  lemma BestNone(cache: seq<Item>, r: Rule)
    requires NoneMatch(cache, r)
    ensures Best(cache, r) == None
  {
    BestIsBest(cache, r);
  }

  /** When exactly one cached message matches, it is the one pulled. */
  lemma BestOnly(cache: seq<Item>, r: Rule, k: nat)
    requires k < |cache| && Matches(cache[k], r)
    requires forall i :: 0 <= i < |cache| && i != k ==> !Matches(cache[i], r)
    ensures Best(cache, r) == Some(cache[k])
  {
    BestIsBest(cache, r);
    assert cache[k] in cache;
  }

  /** What a rule finds once `ps` were sent: the message of its type, and nothing it could find before. */
  lemma BestOfSent(cache: seq<Item>, ps: seq<Pending>, n: nat, e: nat, r: Rule, k: Option<nat>)
    requires AllWf(ps) && NoneMatch(cache, r)
    requires r.isClient && (r.epoch == e || (k == None && forall i :: 0 <= i < |ps| ==> ps[i].typ != r.typ))
    requires match k
             case None => forall i :: 0 <= i < |ps| ==> ps[i].typ != r.typ
             case Some(j) => j < |ps| && forall i :: 0 <= i < |ps| ==> (ps[i].typ == r.typ <==> i == j)
    ensures Best(cache + Items(ps, n, e, true), r) == if k == None then None else Some(Items(ps, n, e, true)[k.value])
  {
    var after := cache + Items(ps, n, e, true);
    match k
    case None => BestNone(after, r);
    case Some(j) => BestOnly(after, r, |cache| + j);
  }

  lemma HelloUnaffected(cache: seq<Item>, ps: seq<Pending>, n: nat, e: nat)
    requires AllWf(ps) && forall i :: 0 <= i < |ps| ==> ps[i].typ != CLIENT_HELLO
    ensures AgreeOn(cache, cache + Items(ps, n, e, true), HelloRules(e))
  {
  }

  lemma MarshalledOne(p: Pending, n: nat)
    requires WfPending(p)
    ensures Marshalled([p], n) == FullBytes(Numbered(p, n))
  {
    assert Parts([p], n) == [FullBytes(Numbered(p, n))];
    FlattenSnoc([], FullBytes(Numbered(p, n)));
  }

  lemma PartsAppend(a: seq<Pending>, b: seq<Pending>, n: nat)
    requires AllWf(a) && AllWf(b) && AllWf(a + b)
    ensures Parts(a + b, n) == Parts(a, n) + Parts(b, n + |a|)
  {
    hide FullBytes, Parts, AllWf, Numbered;
    forall i | 0 <= i < |a + b|
      ensures Parts(a + b, n)[i] == (Parts(a, n) + Parts(b, n + |a|))[i]
    {
      if i < |a| {
        assert (a + b)[i] == a[i];
      } else {
        assert (a + b)[i] == b[i - |a|] && n + i == n + |a| + (i - |a|);
      }
    }
  }

  lemma MarshalledAppend(a: seq<Pending>, b: seq<Pending>, n: nat)
    requires AllWf(a) && AllWf(b)
    ensures AllWf(a + b) && Marshalled(a + b, n) == Marshalled(a, n) + Marshalled(b, n + |a|)
  {
    assert AllWf(a + b);
    PartsAppend(a, b, n);
    hide Parts, Flatten, AllWf;
    FlattenAppend(Parts(a, n), Parts(b, n + |a|));
  }

  lemma MarshalledTwo(p: Pending, q: Pending, n: nat)
    requires WfPending(p) && WfPending(q)
    ensures AllWf([p, q]) && Marshalled([p, q], n) == FullBytes(Numbered(p, n)) + FullBytes(Numbered(q, n + 1))
  {
    assert [p, q] == [p] + [q];
    MarshalledAppend([p], [q], n);
    MarshalledOne(p, n);
    MarshalledOne(q, n + 1);
  }

  lemma KeyTranscript(cache: seq<Item>, cert: Option<Bytes>, key: Bytes, verify: Option<Bytes>, n: nat, e: nat)
    requires AllWf(Unsent(cert, key, verify)) && NotYetSent(cache, e)
    requires AllWf(Unsent(cert, key, None))
    ensures Transcript(cache + Items(Unsent(cert, key, verify), n, e, true), KeyRules(e))
            == Marshalled(Unsent(cert, key, None), n)
  {
    var ps := Unsent(cert, key, verify);
    var items := Items(ps, n, e, true);
    var rules := KeyRules(e);
    assert rules[0] in rules + FinishRules(e) && rules[1] in rules + FinishRules(e);
    TranscriptOfTwo(cache + items, rules[0], rules[1]);
    if cert.Some? {
      KeyTranscriptWithCertificate(cache, cert.value, key, verify, n, e);
    } else {
      BestOfSent(cache, ps, n, e, rules[0], None);
      BestOfSent(cache, ps, n, e, rules[1], Some(0));
      assert WfPending(ps[0]);
      MarshalledOne(ps[0], n);
      assert Unsent(cert, key, None) == [ps[0]];
    }
  }

  lemma KeyTranscriptWithCertificate(cache: seq<Item>, cert: Bytes, key: Bytes, verify: Option<Bytes>, n: nat, e: nat)
    requires AllWf(Unsent(Some(cert), key, verify)) && NotYetSent(cache, e)
    requires AllWf(Unsent(Some(cert), key, None))
    ensures var after := cache + Items(Unsent(Some(cert), key, verify), n, e, true);
            DataOf(Best(after, KeyRules(e)[0])) + DataOf(Best(after, KeyRules(e)[1]))
              == Marshalled(Unsent(Some(cert), key, None), n)
  {
    hide FullBytes, Best, Marshalled, Items;
    var ps := Unsent(Some(cert), key, verify);
    var rules := KeyRules(e);
    assert rules[0] in rules + FinishRules(e) && rules[1] in rules + FinishRules(e);
    BestOfSent(cache, ps, n, e, rules[0], Some(0));
    BestOfSent(cache, ps, n, e, rules[1], Some(1));
    assert WfPending(ps[0]) && WfPending(ps[1]);
    MarshalledTwo(ps[0], ps[1], n);
    assert Unsent(Some(cert), key, None) == [ps[0], ps[1]];
  }

  lemma {:induction false} NothingToPull(cache: seq<Item>, rules: seq<Rule>)
    requires forall r :: r in rules ==> NoneMatch(cache, r)
    ensures Transcript(cache, rules) == []
  {
    if rules != [] {
      BestNone(cache, rules[0]);
      TranscriptCons(cache, rules);
      NothingToPull(cache, rules[1..]);
    }
  }

  /**
   The session hash and the CertificateVerify signature: the client hashes its cache followed by
   the messages it has not sent yet, under predicted numbers; the server, holding the same messages
   in any order, pulls exactly those bytes.
   */
  lemma SessionTranscriptsAgree(client: seq<Item>, server: seq<Item>, cert: Option<Bytes>, key: Bytes,
                                verify: Option<Bytes>, n: nat, e: nat)
    requires AllWf(Unsent(cert, key, verify)) && AllWf(Unsent(cert, key, None)) && NotYetSent(client, e)
    requires Unique(client + Items(Unsent(cert, key, verify), n, e, true)) && Unique(server)
    requires AgreeOn(server, client + Items(Unsent(cert, key, verify), n, e, true), SessionRules(e))
    ensures SessionHashInput(server, e, []) == SessionHashInput(client, e, Marshalled(Unsent(cert, key, None), n))
  {
    var after := client + Items(Unsent(cert, key, verify), n, e, true);
    TranscriptDependsOnContents(server, after, SessionRules(e));
    TranscriptAppend(after, HelloRules(e), KeyRules(e));
    TranscriptAppend(client, HelloRules(e), KeyRules(e));
    KeyTranscript(client, cert, key, verify, n, e);
    UnsentTypes(cert, key, verify);
    HelloUnaffected(client, Unsent(cert, key, verify), n, e);
    UniquePrefix(client, Items(Unsent(cert, key, verify), n, e, true));
    TranscriptDependsOnContents(client, after, HelloRules(e));
    forall r | r in KeyRules(e)
      ensures NoneMatch(client, r)
    {
      assert r in KeyRules(e) + FinishRules(e);
    }
    NothingToPull(client, KeyRules(e));
    assert Transcript(after, SessionRules(e)) + [] == Transcript(after, SessionRules(e));
    assert Transcript(client, HelloRules(e)) + [] == Transcript(client, HelloRules(e));
  }

  lemma UnsentTypes(cert: Option<Bytes>, key: Bytes, verify: Option<Bytes>)
    ensures forall i :: 0 <= i < |Unsent(cert, key, verify)| ==>
              Unsent(cert, key, verify)[i].typ in {CERTIFICATE, CLIENT_KEY_EXCHANGE, CERTIFICATE_VERIFY}
  {
  }

  lemma UniquePrefix(a: seq<Item>, b: seq<Item>)
    requires Unique(a + b)
    ensures Unique(a)
  {
    forall i, j | 0 <= i < j < |a|
      ensures !SameSlot(a[i], a[j].messageSequence, a[j].isClient)
    {
      assert (a + b)[i] == a[i] && (a + b)[j] == a[j];
    }
  }

  lemma FinishTranscript(cache: seq<Item>, cert: Option<Bytes>, key: Bytes, verify: Option<Bytes>, n: nat, e: nat)
    requires AllWf(Unsent(cert, key, verify)) && NotYetSent(cache, e)
    requires verify.Some? ==> |verify.value| < 0x100_0000
    ensures Transcript(cache + Items(Unsent(cert, key, verify), n, e, true), FinishRules(e)) ==
            VerifyBytes(verify, n + |Unsent(cert, key, None)|)
  {
    var ps := Unsent(cert, key, verify);
    var rules := FinishRules(e);
    assert rules[0] in KeyRules(e) + rules && rules[1] in KeyRules(e) + rules;
    var at := |Unsent(cert, key, None)|;
    BestOfSent(cache, ps, n, e, rules[0], if verify.Some? then Some(at) else None);
    BestOfSent(cache, ps, n, e, rules[1], None);
    TranscriptOfTwo(cache + Items(ps, n, e, true), rules[0], rules[1]);
    if verify.Some? {
      MarshalledOne(Pending(CERTIFICATE_VERIFY, verify.value), n + at);
    }
  }

  /**
   The client's Finished hash: the client hashes its cache followed by its unsent messages; any
   cache that holds the same messages, before the Finished itself, gives the same bytes.
   */
  lemma FinishedTranscriptsAgree(client: seq<Item>, server: seq<Item>, cert: Option<Bytes>, key: Bytes,
                                 verify: Option<Bytes>, n: nat, e: nat)
    requires AllWf(Unsent(cert, key, verify)) && NotYetSent(client, e)
    requires Unique(client + Items(Unsent(cert, key, verify), n, e, true)) && Unique(server)
    requires AgreeOn(server, client + Items(Unsent(cert, key, verify), n, e, true), FinishedRules(e))
    ensures Transcript(server, FinishedRules(e)) ==
            Transcript(client, FinishedRules(e)) + Marshalled(Unsent(cert, key, verify), n)
  {
    var ps := Unsent(cert, key, verify);
    UnsentWf(cert, key, verify);
    var after := client + Items(ps, n, e, true);
    TranscriptDependsOnContents(server, after, FinishedRules(e));
    TranscriptAppend(after, SessionRules(e), FinishRules(e));
    TranscriptAppend(client, SessionRules(e), FinishRules(e));
    SelfAgree(after, e);
    SessionTranscriptsAgree(client, after, cert, key, verify, n, e);
    FinishTranscript(client, cert, key, verify, n, e);
    forall r | r in FinishRules(e)
      ensures NoneMatch(client, r)
    {
      assert r in KeyRules(e) + FinishRules(e);
    }
    NothingToPull(client, FinishRules(e));
    UnsentSplit(cert, key, verify, n);
    SplitInput(client, after, e, Marshalled(Unsent(cert, key, None), n));
    Rejoin(Transcript(client, SessionRules(e)), Marshalled(Unsent(cert, key, None), n),
           VerifyBytes(verify, n + |Unsent(cert, key, None)|));
  }

  /** The CertificateVerify message under number `n`, if there is one. */
  function VerifyBytes(verify: Option<Bytes>, n: nat): Bytes
    requires verify.Some? ==> |verify.value| < 0x100_0000
  {
    if verify.Some? then Marshalled([Pending(CERTIFICATE_VERIFY, verify.value)], n) else []
  }

  lemma UnsentSplit(cert: Option<Bytes>, key: Bytes, verify: Option<Bytes>, n: nat)
    requires AllWf(Unsent(cert, key, verify)) && AllWf(Unsent(cert, key, None))
    requires verify.Some? ==> |verify.value| < 0x100_0000
    ensures Marshalled(Unsent(cert, key, verify), n) ==
            Marshalled(Unsent(cert, key, None), n) + VerifyBytes(verify, n + |Unsent(cert, key, None)|)
  {
    var front := Unsent(cert, key, None);
    if verify.Some? {
      var last := Pending(CERTIFICATE_VERIFY, verify.value);
      UnsentWithVerify(cert, key, verify.value);
      MarshalledAppend(front, [last], n);
    } else {
      NothingAfter(Marshalled(front, n));
    }
  }

  lemma UnsentWithVerify(cert: Option<Bytes>, key: Bytes, verify: Bytes)
    ensures Unsent(cert, key, Some(verify)) == Unsent(cert, key, None) + [Pending(CERTIFICATE_VERIFY, verify)]
  {
  }

  lemma NothingAfter(b: Bytes)
    ensures b + [] == b
  {
  }

  lemma Rejoin(a: Bytes, b: Bytes, c: Bytes)
    ensures a + b + c == a + [] + (b + c)
  {
  }

  lemma SplitInput(client: seq<Item>, after: seq<Item>, e: nat, merged: Bytes)
    requires SessionHashInput(after, e, []) == SessionHashInput(client, e, merged)
    ensures Transcript(after, SessionRules(e)) == Transcript(client, SessionRules(e)) + merged
  {
    assert Transcript(after, SessionRules(e)) + [] == Transcript(after, SessionRules(e));
  }

  lemma SelfAgree(after: seq<Item>, e: nat)
    ensures AgreeOn(after, after, SessionRules(e))
  {
  }

  lemma UnsentWf(cert: Option<Bytes>, key: Bytes, verify: Option<Bytes>)
    requires AllWf(Unsent(cert, key, verify))
    ensures AllWf(Unsent(cert, key, None))
    ensures verify.Some? ==> |verify.value| < 0x100_0000
  {
    var ps := Unsent(cert, key, verify);
    var qs := Unsent(cert, key, None);
    assert forall i :: 0 <= i < |qs| ==> qs[i] == ps[i];
    if verify.Some? {
      assert ps[|qs|] == Pending(CERTIFICATE_VERIFY, verify.value) && WfPending(ps[|qs|]);
    }
    forall i | 0 <= i < |qs|
      ensures WfPending(qs[i])
    {
      assert WfPending(ps[i]);
    }
  }
}
