/**
 End-to-end delivery of handshake messages over a network that drops, duplicates and reorders
 datagrams, seen from the receiver of DtlsReceiver.
 */
module DtlsDelivery {
  import opened Bytes
  import opened DtlsRecord
  import opened DtlsFragment
  import opened DtlsReceiver
  import Cache = DtlsCache

  /** A record before it goes on the wire; `nonce` is the cipher's random input if it is encrypted. */
  datatype Sent = Sent(contentType: ContentType, epoch: U16, number: nat, content: Bytes, nonce: nat, encrypt: bool)

  /** Content and number fit their header fields. */
  predicate Fits(x: Sent) {
    |x.content| < 0x1_0000 && x.number <= MAX_SEQUENCE_NUMBER
  }

  /**
   What connections send: an encrypted record leaves room for the `overhead` its cipher adds, a
   plain one is not empty, and a change of cipher spec is never encrypted.
   */
  ghost predicate Sendable(x: Sent, overhead: nat) {
    && Fits(x) && x.contentType != Invalid
    && (if x.encrypt then |x.content| + overhead < 0x1_0000 else x.content != [])
    && (x.contentType == ChangeCipherSpec ==> !x.encrypt)
  }

  function Plain(x: Sent): Bytes
    requires Fits(x)
  {
    EncodeRecordHeader(RecordHeader(x.contentType, PROTOCOL_VERSION1_2, x.epoch, x.number, |x.content|)) + x.content
  }

  /**
   What one side sends in a handshake: message `i` has sequence number `i`, always the same body,
   and goes out under `epochs[i]`; `released` are the messages that have been handed to the network.
   */
  datatype Session = Session(
    msgs: seq<Message>,
    epochs: seq<U16>,
    released: set<nat>,
    mtu: nat,
    fromClient: bool,
    overhead: nat,
    seal: (Bytes, nat) -> Bytes,
    keys: Keys)

  /** The bytes of a record: sealed if it is to be encrypted, whatever its epoch. */
  ghost function OnWire(s: Session, x: Sent): Bytes
    requires Fits(x)
  {
    if x.encrypt then s.seal(Plain(x), x.nonce) else Plain(x)
  }

  /** A record of the expected type, epoch and content, whatever its other header fields. */
  ghost predicate Carries(b: Bytes, x: Sent) {
    && |b| >= RECORD_LAYER_HEADER_SIZE
    && DecodeRecordHeader(b).Ok?
    && DecodeRecordHeader(b).value.contentType == x.contentType
    && DecodeRecordHeader(b).value.epoch == x.epoch
    && b[RECORD_LAYER_HEADER_SIZE..] == x.content
  }

  /** Sealing yields one well-formed record of the same type and epoch, and opening that gives `x` back. */
  ghost predicate SealedOpens(w: Bytes, x: Sent, open: Bytes -> Option<Bytes>) {
    && WfRecord(w) && DecodeRecordHeader(w).Ok?
    && DecodeRecordHeader(w).value.epoch == x.epoch && DecodeRecordHeader(w).value.contentType == x.contentType
    && open(w).Some? && Carries(open(w).value, x)
  }

  /** Whatever opens, sealed by the peer or not, keeps its record header. */
  ghost predicate KeepsHeader(w: Bytes, open: Bytes -> Option<Bytes>) {
    open(w).Some? ==>
      |w| >= RECORD_LAYER_HEADER_SIZE && |open(w).value| >= RECORD_LAYER_HEADER_SIZE
      && open(w).value[..RECORD_LAYER_HEADER_SIZE] == w[..RECORD_LAYER_HEADER_SIZE]
  }

  /** What delivery needs of a cipher suite; DtlsCipher shows that the repository's suites provide it. */
  ghost predicate GoodCipher(seal: (Bytes, nat) -> Bytes, open: Bytes -> Option<Bytes>, overhead: nat) {
    && (forall x :: Sendable(x, overhead) && x.encrypt ==> SealedOpens(seal(Plain(x), x.nonce), x, open))
    && (forall w :: KeepsHeader(w, open))
  }

  ghost predicate Protected(s: Session) {
    GoodCipher(s.seal, s.keys.open, s.overhead)
  }

  ghost predicate WfSession(s: Session) {
    && s.mtu > 0
    && |s.msgs| == |s.epochs| < 0x1_0000
    && (forall i :: 0 <= i < |s.msgs| ==> s.msgs[i].sequence == i && WfMessage(s.msgs[i]))
  }

  ghost predicate IsPiece(s: Session, i: nat, p: Piece)
    requires s.mtu > 0
  {
    i < |s.msgs| && i in s.released && p in Pieces(s.msgs[i].body, s.mtu, 0)
  }

  lemma PieceInside(s: Session, i: nat, p: Piece)
    requires WfSession(s) && IsPiece(s, i, p)
    ensures p.offset + |p.data| <= |s.msgs[i].body| < 0x100_0000
  {
    PiecesWithin(s.msgs[i].body, s.mtu, 0);
    assert WfMessage(s.msgs[i]);
  }

  /**
   A record the sender may put on the wire: handshake records carry one fragment of one message,
   in the clear in epoch 0 and encrypted afterwards.
   */
  ghost predicate Legit(s: Session, x: Sent)
    requires WfSession(s)
  {
    && Sendable(x, s.overhead)
    && (x.contentType == Handshake ==> exists i, p :: CarriesPiece(s, x, i, p))
  }

  ghost predicate CarriesPiece(s: Session, x: Sent, i: nat, p: Piece)
    requires WfSession(s)
  {
    && IsPiece(s, i, p)
    && x.epoch == s.epochs[i] && (x.encrypt <==> x.epoch != 0)
    && (PieceInside(s, i, p); x.content == FragmentBytes(s.msgs[i], p))
  }

  ghost predicate IsWire(s: Session, w: Bytes)
    requires WfSession(s)
  {
    exists x :: Legit(s, x) && w == OnWire(s, x)
  }

  // ---------------------------------------------------------------- reassembly of genuine fragments

  ghost predicate Genuine(s: Session, q: nat, f: Fragment)
    requires WfSession(s)
  {
    var p := Piece(f.header.fragmentOffset, f.data);
    && IsPiece(s, q, p)
    && f.epoch == s.epochs[q]
    && (PieceInside(s, q, p); f.header == FragmentHeader(s.msgs[q], p))
  }

  ghost predicate AllGenuine(s: Session, q: nat, frags: seq<Fragment>)
    requires WfSession(s)
  {
    forall i :: 0 <= i < |frags| ==> Genuine(s, q, frags[i])
  }

  ghost predicate GenuineBuffer(s: Session, b: BufferState)
    requires WfSession(s)
  {
    forall q :: q in b.cache ==> AllGenuine(s, q, b.cache[q])
  }

  /** A piece is determined by where it starts. */
  lemma {:induction false} PieceSelf(body: Bytes, mtu: nat, at: nat, p: Piece)
    requires mtu > 0 && at <= |body| && p in Pieces(body, mtu, at)
    ensures p.offset <= |body| && p == Pieces(body, mtu, p.offset)[0]
    decreases |body| - at
  {
    if p != Pieces(body, mtu, at)[0] {
      PieceSelf(body, mtu, at + mtu, p);
    }
  }

  lemma FirstAtGenuine(s: Session, q: nat, frags: seq<Fragment>, at: nat)
    requires WfSession(s) && q < |s.msgs| && AllGenuine(s, q, frags)
    requires FirstAt(frags, at).Some?
    ensures var body := s.msgs[q].body;
            var f := FirstAt(frags, at).value;
            && at <= |body| == f.header.length
            && f.header.fragmentOffset == at && f.header.fragmentLength == |f.data|
            && Piece(at, f.data) == Pieces(body, s.mtu, at)[0]
  {
    var f := FirstAt(frags, at).value;
    var i :| 0 <= i < |frags| && frags[i] == f;
    assert Genuine(s, q, frags[i]);
    PieceSelf(s.msgs[q].body, s.mtu, 0, Piece(at, f.data));
  }

  /** Whatever genuine fragments reassembly finds, it rebuilds exactly the rest of the body. */
  lemma {:induction false} AssembleGenuine(s: Session, q: nat, frags: seq<Fragment>, at: nat)
    requires WfSession(s) && q < |s.msgs| && AllGenuine(s, q, frags)
    requires at <= OFFSET_BOUND
    ensures Assemble(frags, at).Some? ==> at <= |s.msgs[q].body| && Assemble(frags, at).value == s.msgs[q].body[at..]
    decreases OFFSET_BOUND - at
  {
    hide AllGenuine, FirstAt;
    if FirstAt(frags, at).Some? {
      FirstAtGenuine(s, q, frags, at);
      var body := s.msgs[q].body;
      if at + s.mtu < |body| {
        AssembleGenuine(s, q, frags, at + s.mtu);
        assert body[at..] == body[at..at + s.mtu] + body[at + s.mtu..];
      }
    }
  }

  /** Every piece from `at` on has a fragment among `frags`. */
  ghost predicate Complete(body: Bytes, mtu: nat, at: nat, frags: seq<Fragment>)
    requires mtu > 0 && at <= |body|
  {
    forall i :: 0 <= i < |Pieces(body, mtu, at)| ==> FirstAt(frags, Pieces(body, mtu, at)[i].offset).Some?
  }

  lemma CompleteStep(body: Bytes, mtu: nat, at: nat, frags: seq<Fragment>)
    requires mtu > 0 && at + mtu < |body|
    ensures Complete(body, mtu, at, frags) <==> FirstAt(frags, at).Some? && Complete(body, mtu, at + mtu, frags)
  {
    var ps := Pieces(body, mtu, at);
    var rest := Pieces(body, mtu, at + mtu);
    assert forall i :: 0 <= i < |rest| ==> rest[i] == ps[i + 1];
    assert forall i :: 1 <= i < |ps| ==> ps[i] == rest[i - 1];
    assert ps[0].offset == at;
  }

  /** Reassembly from `at` succeeds exactly when no piece is missing. */
  lemma {:induction false} AssembleIff(s: Session, q: nat, frags: seq<Fragment>, at: nat)
    requires WfSession(s) && q < |s.msgs| && AllGenuine(s, q, frags)
    requires at <= |s.msgs[q].body| <= OFFSET_BOUND
    ensures Assemble(frags, at).Some? <==> Complete(s.msgs[q].body, s.mtu, at, frags)
    decreases OFFSET_BOUND - at
  {
    hide Genuine;
    var body := s.msgs[q].body;
    assert Pieces(body, s.mtu, at)[0].offset == at;
    if FirstAt(frags, at).Some? {
      FirstAtGenuine(s, q, frags, at);
    }
    if at + s.mtu < |body| {
      CompleteStep(body, s.mtu, at, frags);
      AssembleIff(s, q, frags, at + s.mtu);
    }
  }

  /** What popping a buffer of genuine fragments gives: the very bytes of the current message. */
  lemma PopGenuine(s: Session, b: BufferState)
    requires WfSession(s) && GenuineBuffer(s, b) && PopResult(b).Ok?
    ensures b.current < |s.msgs| && b.current in s.released
    ensures WfMessage(s.msgs[b.current])
    ensures PopResult(b).value == (FullBytes(s.msgs[b.current]), s.epochs[b.current])
    ensures GenuineBuffer(s, Popped(b))
  {
    var q := b.current;
    var frags := b.cache[q];
    assert AllGenuine(s, q, frags) && Genuine(s, q, frags[0]);
    AssembleGenuine(s, q, frags, 0);
    assert s.msgs[q].body[0..] == s.msgs[q].body;
    assert WfMessage(s.msgs[q]);
  }

  /** `pop` succeeds if and only if every piece of the current message is buffered. */
  lemma PopIff(s: Session, b: BufferState)
    requires WfSession(s) && GenuineBuffer(s, b) && b.current < |s.msgs|
    ensures PopResult(b).Ok? <==>
            b.current in b.cache && Complete(s.msgs[b.current].body, s.mtu, 0, b.cache[b.current])
  {
    if b.current in b.cache {
      assert WfMessage(s.msgs[b.current]) && AllGenuine(s, b.current, b.cache[b.current]);
      AssembleIff(s, b.current, b.cache[b.current], 0);
    }
  }

  // ---------------------------------------------------------------- pushing genuine records

  /** A record with one genuine fragment adds exactly that fragment. */
  lemma AddAllOfPiece(s: Session, cache: DtlsFragment.Cache, i: nat, p: Piece)
    requires WfSession(s) && IsPiece(s, i, p)
    ensures p.offset + |p.data| <= |s.msgs[i].body| < 0x100_0000
    ensures var m := s.msgs[i];
            AddAll(cache, s.epochs[i], FragmentBytes(m, p))
            == (Add(cache, Fragment(s.epochs[i], FragmentHeader(m, p), p.data)), Ok(true))
  {
    PieceInside(s, i, p);
    var m := s.msgs[i];
    var buf := FragmentBytes(m, p);
    HandshakeHeaderRoundTrip(FragmentHeader(m, p), p.data);
    var end := EndOf(FragmentHeader(m, p), buf);
    assert end == |buf| && buf[HANDSHAKE_HEADER_LENGTH..end] == p.data && buf[end..] == [];
  }

  lemma AddGenuine(s: Session, cache: DtlsFragment.Cache, i: nat, p: Piece)
    requires WfSession(s) && IsPiece(s, i, p)
    requires forall q :: q in cache ==> AllGenuine(s, q, cache[q])
    ensures p.offset + |p.data| <= |s.msgs[i].body| < 0x100_0000
    ensures var cache' := Add(cache, Fragment(s.epochs[i], FragmentHeader(s.msgs[i], p), p.data));
            forall q :: q in cache' ==> AllGenuine(s, q, cache'[q])
  {
    PieceInside(s, i, p);
    var f := Fragment(s.epochs[i], FragmentHeader(s.msgs[i], p), p.data);
    assert Piece(p.offset, p.data) == p && Genuine(s, i, f);
  }

  /** Pushing a record with one piece adds its fragment, unless the buffer is full. */
  lemma PushedPiece(s: Session, b: BufferState, buf: Bytes, x: Sent, i: nat, p: Piece)
    requires WfSession(s) && Carries(buf, x) && x.contentType == Handshake && CarriesPiece(s, x, i, p)
    ensures p.offset + |p.data| <= |s.msgs[i].body| < 0x100_0000
    ensures var f := Fragment(s.epochs[i], FragmentHeader(s.msgs[i], p), p.data);
            || Pushed(b, buf) == (b, Err(FragmentBufferOverflow))
            || Pushed(b, buf) == (b.(cache := Add(b.cache, f)), Ok(true))
  {
    AddAllOfPiece(s, b.cache, i, p);
    hide AddAll, Add, CacheSize, WfSession;
  }

  lemma PushGenuine(s: Session, b: BufferState, buf: Bytes, x: Sent)
    requires WfSession(s) && GenuineBuffer(s, b) && Legit(s, x) && Carries(buf, x)
    ensures GenuineBuffer(s, Pushed(b, buf).0) && Pushed(b, buf).0.current == b.current
    ensures Pushed(b, buf).1 == Ok(true) ==> x.contentType == Handshake
    ensures Pushed(b, buf).1 == Ok(false) ==> x.contentType != Handshake
  {
    if x.contentType == Handshake {
      var i, p :| CarriesPiece(s, x, i, p);
      PushedPiece(s, b, buf, x, i, p);
      AddGenuine(s, b.cache, i, p);
      hide Pushed, Add, AllGenuine;
    }
  }

  // ---------------------------------------------------------------- the receiver's invariant

  ghost function SenderItem(s: Session, i: nat): Cache.Item
    requires WfSession(s) && i < |s.msgs|
  {
    assert WfMessage(s.msgs[i]);
    Cache.Item(s.msgs[i].typ, s.fromClient, s.epochs[i], s.msgs[i].sequence, FullBytes(s.msgs[i]))
  }

  /** The popped messages are the first ones sent, in order and byte for byte, and were all released. */
  ghost predicate InOrderPrefix(s: Session, popped: seq<(Bytes, U16)>)
    requires WfSession(s)
  {
    && |popped| <= |s.msgs|
    && forall i :: 0 <= i < |popped| ==> i in s.released && popped[i] == (SenderItem(s, i).data, s.epochs[i])
  }

  /** What is cached under the sender's name is what the sender cached itself. */
  ghost predicate CachedCopies(s: Session, cache: seq<Cache.Item>, n: nat)
    requires WfSession(s) && n <= |s.msgs|
  {
    forall j :: 0 <= j < |cache| && cache[j].isClient == s.fromClient ==>
      cache[j].messageSequence < n && cache[j] == SenderItem(s, cache[j].messageSequence)
  }

  /** A message that was taken and parses has been cached. */
  ghost predicate TakenAreCached(s: Session, cache: seq<Cache.Item>, n: nat)
    requires WfSession(s) && n <= |s.msgs|
  {
    forall i :: 0 <= i < n && s.keys.parses(SenderItem(s, i).data) ==> SenderItem(s, i) in cache
  }

  ghost predicate QueuedFromWire(s: Session, queued: seq<Bytes>)
    requires WfSession(s)
  {
    forall j :: 0 <= j < |queued| ==> IsWire(s, queued[j])
  }

  ghost predicate Inv(s: Session, r: Receiver)
    requires WfSession(s)
  {
    && r.isClient != s.fromClient
    && InOrderPrefix(s, r.popped) && r.buffer.current == |r.popped|
    && GenuineBuffer(s, r.buffer)
    && CachedCopies(s, r.cache, |r.popped|) && TakenAreCached(s, r.cache, |r.popped|)
    && QueuedFromWire(s, r.queued)
  }

  lemma PrefixGrows(s: Session, popped: seq<(Bytes, U16)>)
    requires WfSession(s) && InOrderPrefix(s, popped) && |popped| < |s.msgs| && |popped| in s.released
    ensures InOrderPrefix(s, popped + [(SenderItem(s, |popped|).data, s.epochs[|popped|])])
  {
  }

  lemma CopiesGrow(s: Session, cache: seq<Cache.Item>, n: nat)
    requires WfSession(s) && n < |s.msgs| && CachedCopies(s, cache, n)
    ensures CachedCopies(s, cache, n + 1)
    ensures CachedCopies(s, Cache.Pushed(cache, SenderItem(s, n)), n + 1)
  {
  }

  lemma CachedGrow(s: Session, cache: seq<Cache.Item>, n: nat)
    requires WfSession(s) && n < |s.msgs| && CachedCopies(s, cache, n) && TakenAreCached(s, cache, n)
    ensures !s.keys.parses(SenderItem(s, n).data) ==> TakenAreCached(s, cache, n + 1)
    ensures TakenAreCached(s, Cache.Pushed(cache, SenderItem(s, n)), n + 1)
  {
    var item := SenderItem(s, n);
    assert !Cache.Holds(cache, item.messageSequence, item.isClient);
  }

  lemma FullHeader(m: Message)
    requires WfMessage(m)
    ensures DecodeHandshakeHeader(FullBytes(m)) == Ok(HandshakeHeader(m.typ, |m.body|, m.sequence, 0, |m.body|))
  {
    HandshakeHeaderRoundTrip(HandshakeHeader(m.typ, |m.body|, m.sequence, 0, |m.body|), m.body);
  }

  lemma TakenOfItem(s: Session, r: Receiver, n: nat)
    requires WfSession(s) && n < |s.msgs| && r.isClient != s.fromClient
    ensures var item := SenderItem(s, n);
            var t := Taken(r, item.data, s.epochs[n], s.keys);
            && t.cache == (if s.keys.parses(item.data) then Cache.Pushed(r.cache, item) else r.cache)
            && t == r.(buffer := Popped(r.buffer), popped := r.popped + [(item.data, s.epochs[n])], cache := t.cache)
  {
    assert WfMessage(s.msgs[n]);
    FullHeader(s.msgs[n]);
  }

  lemma PoppedItem(s: Session, b: BufferState)
    requires WfSession(s) && GenuineBuffer(s, b) && PopResult(b).Ok?
    ensures b.current < |s.msgs| && b.current in s.released
    ensures PopResult(b).value == (SenderItem(s, b.current).data, s.epochs[b.current])
    ensures GenuineBuffer(s, Popped(b)) && Popped(b).current == b.current + 1
  {
    PopGenuine(s, b);
  }

  lemma TakenKeeps(s: Session, r: Receiver)
    requires WfSession(s) && Inv(s, r) && PopResult(r.buffer).Ok?
    ensures Inv(s, Taken(r, PopResult(r.buffer).value.0, PopResult(r.buffer).value.1, s.keys))
  {
    PoppedItem(s, r.buffer);
    TakenOfItem(s, r, |r.popped|);
    PrefixGrows(s, r.popped);
    CopiesGrow(s, r.cache, |r.popped|);
    CachedGrow(s, r.cache, |r.popped|);
  }

  lemma {:induction false} TakeAllKeeps(s: Session, r: Receiver)
    requires WfSession(s) && Inv(s, r)
    ensures Inv(s, TakeAll(r, s.keys))
    decreases |r.buffer.cache|
  {
    hide Inv, WfSession;
    match PopResult(r.buffer)
    case Err(_) =>
    case Ok((out, epoch)) =>
      TakenKeeps(s, r);
      TakeAllKeeps(s, Taken(r, out, epoch, s.keys));
  }

  /** An opened record: if it is a handshake, it is one of the sender's. */
  ghost predicate Opened(s: Session, buf: Bytes)
    requires WfSession(s)
  {
    && DecodeRecordHeader(buf).Ok?
    && (DecodeRecordHeader(buf).value.contentType == Handshake ==>
          exists x :: Legit(s, x) && x.contentType == Handshake && Carries(buf, x))
  }

  lemma PushOpened(s: Session, b: BufferState, buf: Bytes)
    requires WfSession(s) && GenuineBuffer(s, b) && Opened(s, buf)
    ensures GenuineBuffer(s, Pushed(b, buf).0) && Pushed(b, buf).0.current == b.current
    ensures Pushed(b, buf).1 == Ok(false) ==> |buf| >= RECORD_LAYER_HEADER_SIZE
  {
    if DecodeRecordHeader(buf).value.contentType == Handshake {
      var x :| Legit(s, x) && x.contentType == Handshake && Carries(buf, x);
      PushGenuine(s, b, buf, x);
    }
  }

  lemma ContentKeeps(s: Session, r: Receiver, h: RecordHeader, buf: Bytes, enqueue: bool)
    requires WfSession(s) && Inv(s, r) && |buf| >= RECORD_LAYER_HEADER_SIZE
    requires h.epoch != 0 ==> r.cipherReady
    requires h.epoch == 0 ==> IsWire(s, buf)
    ensures Inv(s, HandleContent(r, h, buf, enqueue).receiver)
  {
    hide IsWire, GenuineBuffer, InOrderPrefix, CachedCopies, TakenAreCached;
  }

  lemma PlainKeeps(s: Session, r: Receiver, h: RecordHeader, buf: Bytes, enqueue: bool)
    requires WfSession(s) && Inv(s, r) && Opened(s, buf)
    requires h.epoch != 0 ==> r.cipherReady
    requires h.epoch == 0 ==> IsWire(s, buf)
    ensures Inv(s, HandlePlain(r, h, buf, enqueue, s.keys).receiver)
  {
    hide Pushed, TakeAll, HandleContent, DecodeRecordHeader, Opened, IsWire, InOrderPrefix, CachedCopies,
      TakenAreCached, GenuineBuffer;
    PushOpened(s, r.buffer, buf);
    var r1 := r.(buffer := Pushed(r.buffer, buf).0);
    TakeAllKeeps(s, r1);
    if |buf| >= RECORD_LAYER_HEADER_SIZE {
      ContentKeeps(s, r1, h, buf, enqueue);
    }
  }

  /** A record on the wire is one well-formed record that still shows its type and epoch. */
  lemma WireDecodes(s: Session, x: Sent)
    requires Protected(s) && Sendable(x, s.overhead)
    ensures var w := OnWire(s, x);
            && WfRecord(w) && DecodeRecordHeader(w).Ok?
            && DecodeRecordHeader(w).value.epoch == x.epoch
            && DecodeRecordHeader(w).value.contentType == x.contentType
            && (if x.encrypt then s.keys.open(w).Some? && Carries(s.keys.open(w).value, x) else Carries(w, x))
  {
    if x.encrypt {
      assert SealedOpens(s.seal(Plain(x), x.nonce), x, s.keys.open);
    } else {
      var h := RecordHeader(x.contentType, PROTOCOL_VERSION1_2, x.epoch, x.number, |x.content|);
      RecordHeaderRoundTrip(h, x.content);
      var w := Plain(x);
      assert w[11..13] == PutU16(|x.content|);
    }
  }

  /** Two records with the same first 13 bytes have the same header. */
  lemma SameHeader(a: Bytes, b: Bytes)
    requires |a| >= RECORD_LAYER_HEADER_SIZE && |b| >= RECORD_LAYER_HEADER_SIZE
    requires a[..RECORD_LAYER_HEADER_SIZE] == b[..RECORD_LAYER_HEADER_SIZE]
    ensures DecodeRecordHeader(a) == DecodeRecordHeader(b)
  {
    assert forall i :: 0 <= i < RECORD_LAYER_HEADER_SIZE ==>
        a[i] == a[..RECORD_LAYER_HEADER_SIZE][i] == b[..RECORD_LAYER_HEADER_SIZE][i] == b[i];
  }

  /** What the receiver works on, decrypted unless the epoch is 0, is a handshake only if the sender sent it. */
  lemma WireOpens(s: Session, x: Sent)
    requires WfSession(s) && Protected(s) && Legit(s, x)
    ensures x.epoch == 0 ==> Opened(s, OnWire(s, x))
    ensures x.epoch != 0 && s.keys.open(OnWire(s, x)).Some? ==> Opened(s, s.keys.open(OnWire(s, x)).value)
  {
    hide DecodeRecordHeader, Carries, WfRecord, Plain, SealedOpens;
    WireDecodes(s, x);
    var w := OnWire(s, x);
    if x.epoch != 0 && s.keys.open(w).Some? {
      assert KeepsHeader(w, s.keys.open);
      SameHeader(s.keys.open(w).value, w);
    }
  }

  lemma RecordKeeps(s: Session, r: Receiver, w: Bytes, enqueue: bool, fresh_: bool)
    requires WfSession(s) && Protected(s) && Inv(s, r) && IsWire(s, w)
    ensures Inv(s, HandleRecord(r, w, enqueue, fresh_, s.keys).receiver)
  {
    hide Opened, HandlePlain, Protected, DecodeRecordHeader;
    var x :| Legit(s, x) && w == OnWire(s, x);
    WireDecodes(s, x);
    WireOpens(s, x);
    var h := DecodeRecordHeader(w).value;
    if h.epoch <= r.remoteEpoch && fresh_ {
      if x.epoch == 0 {
        PlainKeeps(s, r, h, w, enqueue);
      } else if r.cipherReady && s.keys.open(w).Some? {
        PlainKeeps(s, r, h, s.keys.open(w).value, enqueue);
      }
    }
  }

  lemma {:induction false} AllKeep(s: Session, r: Receiver, ws: seq<Bytes>, enqueue: bool, fresh_: nat -> bool)
    requires WfSession(s) && Protected(s) && Inv(s, r) && QueuedFromWire(s, ws)
    ensures Inv(s, HandleAll(r, ws, enqueue, fresh_, s.keys))
    decreases |ws|
  {
    if ws != [] {
      RecordKeeps(s, r, ws[0], enqueue, fresh_(|ws|));
      AllKeep(s, HandleRecord(r, ws[0], enqueue, fresh_(|ws|), s.keys).receiver, ws[1..], enqueue, fresh_);
    }
  }

  lemma {:induction false} RereadKeeps(s: Session, r: Receiver, fresh_: nat -> bool)
    requires WfSession(s) && Protected(s) && Inv(s, r)
    ensures Inv(s, Reread(r, fresh_, s.keys))
    decreases |r.queued|
  {
    if r.queued != [] {
      var rest := r.(queued := r.queued[1..]);
      RecordKeeps(s, rest, r.queued[0], false, fresh_(|r.queued|));
      RereadKeepsQueue(rest, r.queued[0], fresh_(|r.queued|), s.keys);
      RereadKeeps(s, HandleRecord(rest, r.queued[0], false, fresh_(|r.queued|), s.keys).receiver, fresh_);
    }
  }

  // ---------------------------------------------------------------- runs

  /** A datagram the sender may emit: some of its records, one after the other. */
  ghost predicate Emitted(s: Session, d: Bytes)
    requires WfSession(s)
  {
    exists ws: seq<Bytes> :: QueuedFromWire(s, ws) && d == Flatten(ws)
  }

  /** What can happen at the receiver between two events; the network repeats, omits and reorders freely. */
  datatype NetOp =
    | Deliver(datagram: Bytes, replayOk: nat -> bool)
    | RereadQueue(rereadOk: nat -> bool)
    | CipherInitialised
    | CacheOwn(item: Cache.Item)

  ghost predicate Possible(s: Session, op: NetOp)
    requires WfSession(s)
  {
    match op
    case Deliver(d, _) => Emitted(s, d)
    case CacheOwn(item) => item.isClient != s.fromClient
    case _ => true
  }

  ghost function Receive(s: Session, r: Receiver, op: NetOp): Receiver {
    match op
    case Deliver(d, f) => ReadDatagram(r, d, f, s.keys)
    case RereadQueue(f) => Reread(r, f, s.keys)
    case CipherInitialised => r.(cipherReady := true)
    case CacheOwn(item) => r.(cache := Cache.Pushed(r.cache, item))
  }

  ghost function RunNetwork(s: Session, r: Receiver, ops: seq<NetOp>): Receiver
    decreases |ops|
  {
    if ops == [] then r else RunNetwork(s, Receive(s, r, ops[0]), ops[1..])
  }

  ghost predicate PossibleRun(s: Session, ops: seq<NetOp>)
    requires WfSession(s)
  {
    forall i :: 0 <= i < |ops| ==> Possible(s, ops[i])
  }

  lemma WireWellFormed(s: Session, ws: seq<Bytes>)
    requires WfSession(s) && Protected(s) && QueuedFromWire(s, ws)
    ensures AllWf(ws)
  {
    forall w | w in ws
      ensures WfRecord(w)
    {
      var j :| 0 <= j < |ws| && ws[j] == w;
      assert IsWire(s, ws[j]);
      var x :| Legit(s, x) && ws[j] == OnWire(s, x);
      WireDecodes(s, x);
    }
  }

  lemma DeliverKeeps(s: Session, r: Receiver, d: Bytes, f: nat -> bool)
    requires WfSession(s) && Protected(s) && Inv(s, r) && Emitted(s, d)
    ensures Inv(s, ReadDatagram(r, d, f, s.keys))
  {
    var ws: seq<Bytes> :| QueuedFromWire(s, ws) && d == Flatten(ws);
    WireWellFormed(s, ws);
    UnpackOfRecords(ws);
    AllKeep(s, r, ws, true, f);
  }

  lemma ReceiveKeeps(s: Session, r: Receiver, op: NetOp)
    requires WfSession(s) && Protected(s) && Inv(s, r) && Possible(s, op)
    ensures Inv(s, Receive(s, r, op))
  {
    match op
    case Deliver(d, f) => DeliverKeeps(s, r, d, f);
    case RereadQueue(f) => RereadKeeps(s, r, f);
    case CipherInitialised =>
    case CacheOwn(item) =>
  }

  lemma {:induction false} NetworkKeeps(s: Session, r: Receiver, ops: seq<NetOp>)
    requires WfSession(s) && Protected(s) && Inv(s, r) && PossibleRun(s, ops)
    ensures Inv(s, RunNetwork(s, r, ops))
    decreases |ops|
  {
    if ops != [] {
      assert Possible(s, ops[0]);
      ReceiveKeeps(s, r, ops[0]);
      NetworkKeeps(s, Receive(s, r, ops[0]), ops[1..]);
    }
  }

  /**
   For every way the network can drop, repeat and reorder the sender's datagrams, the messages the
   receiver takes are a gap-free, in-order prefix of those sent, each with the bytes and epoch the
   sender caches, none before it was sent; every message cached under the sender's name is the
   sender's own copy, and every taken message that parses is cached.
   */
  lemma EndToEndDelivery(s: Session, ops: seq<NetOp>)
    requires WfSession(s) && Protected(s) && PossibleRun(s, ops)
    ensures var r := RunNetwork(s, NewReceiver(!s.fromClient), ops);
            && InOrderPrefix(s, r.popped)
            && CachedCopies(s, r.cache, |r.popped|) && TakenAreCached(s, r.cache, |r.popped|)
  {
    NetworkKeeps(s, NewReceiver(!s.fromClient), ops);
  }

  // ---------------------------------------------------------------- exactly when a message is complete

  /** A fragment buffer with the pieces it accepted so far, as (message, offset) pairs. */
  datatype Buffered = Buffered(buffer: BufferState, accepted: set<(nat, nat)>)

  datatype FragmentOp = Arrive(record: Bytes, x: Sent, i: nat, p: Piece) | TryPop

  ghost predicate Arrives(s: Session, op: FragmentOp)
    requires WfSession(s)
  {
    op.Arrive? ==>
      && Sendable(op.x, s.overhead) && op.x.contentType == Handshake
      && Carries(op.record, op.x) && CarriesPiece(s, op.x, op.i, op.p)
  }

  ghost function StepBuffer(w: Buffered, op: FragmentOp): Buffered {
    match op
    case TryPop => w.(buffer := Popped(w.buffer))
    case Arrive(record, _, i, p) =>
      var (buffer, r) := Pushed(w.buffer, record);
      Buffered(buffer, if r == Ok(true) then w.accepted + {(i, p.offset)} else w.accepted)
  }

  ghost function RunFragments(w: Buffered, ops: seq<FragmentOp>): Buffered
    decreases |ops|
  {
    if ops == [] then w else RunFragments(StepBuffer(w, ops[0]), ops[1..])
  }

  ghost predicate HasPiece(b: BufferState, q: nat, offset: nat) {
    q in b.cache && FirstAt(b.cache[q], offset).Some?
  }

  ghost predicate Recorded(w: Buffered, q: nat, offset: nat) {
    q >= w.buffer.current ==> ((q, offset) in w.accepted <==> HasPiece(w.buffer, q, offset))
  }

  ghost predicate BufferedInv(s: Session, w: Buffered)
    requires WfSession(s)
  {
    && GenuineBuffer(s, w.buffer)
    && w.buffer.current <= |s.msgs|
    && forall q: nat, offset: nat :: Recorded(w, q, offset)
  }

  lemma {:induction false} FirstAtSnoc(frags: seq<Fragment>, f: Fragment, offset: nat)
    ensures FirstAt(frags + [f], offset).Some? <==> FirstAt(frags, offset).Some? || f.header.fragmentOffset == offset
  {
    if frags != [] {
      assert (frags + [f])[1..] == frags[1..] + [f];
      FirstAtSnoc(frags[1..], f, offset);
    } else {
      assert frags + [f] == [f];
    }
  }

  lemma ArriveAt(s: Session, b: BufferState, record: Bytes, x: Sent, i: nat, p: Piece, q: nat, offset: nat)
    requires WfSession(s) && Arrives(s, Arrive(record, x, i, p))
    ensures var (b', r) := Pushed(b, record);
            && (r == Ok(true) ==> (HasPiece(b', q, offset) <==> HasPiece(b, q, offset) || (q, offset) == (i, p.offset)))
            && (r != Ok(true) ==> b' == b) && b'.current == b.current
  {
    hide Pushed, Carries, FirstAt;
    PushedPiece(s, b, record, x, i, p);
    assert s.msgs[i].sequence == i;
    hide WfSession, Arrives;
    var f := Fragment(s.epochs[i], FragmentHeader(s.msgs[i], p), p.data);
    if i in b.cache {
      FirstAtSnoc(b.cache[i], f, offset);
    } else {
      FirstAtSnoc([], f, offset);
    }
  }

  lemma ArriveRecorded(s: Session, w: Buffered, op: FragmentOp, q: nat, offset: nat)
    requires WfSession(s) && op.Arrive? && Arrives(s, op) && Recorded(w, q, offset)
    ensures Recorded(StepBuffer(w, op), q, offset)
  {
    hide Pushed, Arrives, WfSession, HasPiece;
    ArriveAt(s, w.buffer, op.record, op.x, op.i, op.p, q, offset);
  }

  lemma ArriveKeeps(s: Session, w: Buffered, op: FragmentOp)
    requires WfSession(s) && BufferedInv(s, w) && op.Arrive? && Arrives(s, op)
    ensures BufferedInv(s, StepBuffer(w, op))
  {
    var w' := StepBuffer(w, op);
    assert GenuineBuffer(s, w'.buffer) && w'.buffer.current == w.buffer.current by {
      PushGenuine(s, w.buffer, op.record, op.x);
    }
    forall q: nat, offset: nat
      ensures Recorded(w', q, offset)
    {
      assert Recorded(w, q, offset);
      ArriveRecorded(s, w, op, q, offset);
    }
  }

  lemma PopKeeps(s: Session, w: Buffered)
    requires WfSession(s) && BufferedInv(s, w)
    ensures BufferedInv(s, StepBuffer(w, TryPop))
  {
    if PopResult(w.buffer).Ok? {
      PoppedItem(s, w.buffer);
      var w' := StepBuffer(w, TryPop);
      forall q: nat, offset: nat
        ensures Recorded(w', q, offset)
      {
        assert Recorded(w, q, offset);
      }
    }
  }

  lemma {:induction false} FragmentsKeep(s: Session, w: Buffered, ops: seq<FragmentOp>)
    requires WfSession(s) && BufferedInv(s, w)
    requires forall j :: 0 <= j < |ops| ==> Arrives(s, ops[j])
    ensures BufferedInv(s, RunFragments(w, ops))
    decreases |ops|
  {
    if ops != [] {
      if ops[0].Arrive? {
        ArriveKeeps(s, w, ops[0]);
      } else {
        PopKeeps(s, w);
      }
      FragmentsKeep(s, StepBuffer(w, ops[0]), ops[1..]);
    }
  }

  ghost predicate AllAccepted(s: Session, w: Buffered, q: nat)
    requires WfSession(s) && q < |s.msgs|
  {
    var ps := Pieces(s.msgs[q].body, s.mtu, 0);
    forall j :: 0 <= j < |ps| ==> (q, ps[j].offset) in w.accepted
  }

  /**
   Whatever the order of arrival, the duplicates and the pops in between, `pop` succeeds if and
   only if every fragment of the current message has been accepted.
   */
  lemma PopIffAllAccepted(s: Session, ops: seq<FragmentOp>)
    requires WfSession(s)
    requires forall j :: 0 <= j < |ops| ==> Arrives(s, ops[j])
    ensures var w := RunFragments(Buffered(NEW_BUFFER, {}), ops);
            var q := w.buffer.current;
            q < |s.msgs| ==> (PopResult(w.buffer).Ok? <==> AllAccepted(s, w, q))
  {
    FragmentsKeep(s, Buffered(NEW_BUFFER, {}), ops);
    var w := RunFragments(Buffered(NEW_BUFFER, {}), ops);
    var q := w.buffer.current;
    if q < |s.msgs| {
      AcceptedIffPop(s, w);
    }
  }

  lemma AcceptedIffPop(s: Session, w: Buffered)
    requires WfSession(s) && BufferedInv(s, w) && w.buffer.current < |s.msgs|
    ensures PopResult(w.buffer).Ok? <==> AllAccepted(s, w, w.buffer.current)
  {
    var q := w.buffer.current;
    var ps := Pieces(s.msgs[q].body, s.mtu, 0);
    PopIff(s, w.buffer);
    forall j | 0 <= j < |ps|
      ensures (q, ps[j].offset) in w.accepted <==> HasPiece(w.buffer, q, ps[j].offset)
    {
      assert Recorded(w, q, ps[j].offset);
    }
    assert 0 < |ps|;
    if PopResult(w.buffer).Ok? {
      assert forall j :: 0 <= j < |ps| ==> HasPiece(w.buffer, q, ps[j].offset);
    }
    if AllAccepted(s, w, q) {
      assert HasPiece(w.buffer, q, ps[0].offset);
      assert forall j :: 0 <= j < |ps| ==> HasPiece(w.buffer, q, ps[j].offset);
    }
  }
}
