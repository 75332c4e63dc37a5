/** What must have happened before a DTLS handshake completes, on either side, over whole runs. */
module DtlsCompletion {
  import opened Bytes
  import opened DtlsRecord
  import opened DtlsCache
  import opened DtlsTranscript
  import opened DtlsFlights
  import opened DtlsHandshaker

  /** A ClientHello that echoes the cookie has been received. */
  ghost predicate Echoed(cache: seq<Item>, cookie: Bytes, cfg: Config, cr: Crypto) {
    && cookie != []
    && exists h: Msg :: h.ClientHello? && h.cookie == cookie && Cached(cache, ClientHelloRule(cfg), h, cr.decode)
  }

  /** The client's Finished, of the encrypted epoch, has been received. */
  ghost predicate FinishedReceived(cache: seq<Item>, cfg: Config, cr: Crypto) {
    exists h: Msg :: h.Finished? && Cached(cache, ClientFinishedRule(cfg), h, cr.decode)
  }

  /** The server's Finished carries the PRF of the master secret over the whole transcript. */
  ghost predicate ServerVerified(cache: seq<Item>, master: Bytes, cfg: Config, cr: Crypto) {
    exists v ::
      && Cached(cache, ServerFinishedRule(cfg), Finished(v), cr.decode)
      && cr.serverVerifyData(master, Transcript(cache, FinishedRules(cfg.initialEpoch))) == Some(v)
  }

  ghost predicate EmsHonoured(ems: bool, cfg: Config) {
    cfg.ems == Require ==> ems
  }

  // ---------------------------------------------------------------- flights 0 and 2

  lemma {:induction false} ClientExtensionsKeep(st: State, exts: seq<Extension>, cfg: Config)
    ensures var st' := ClientExtensions(st, exts, cfg).0;
            st'.cookie == st.cookie && (st.ems ==> st'.ems)
    decreases |exts|
  {
    if exts != [] {
      match exts[0]
      case SupportedEllipticCurves(curves) =>
        if curves != [] {
          ClientExtensionsKeep(st.(curve := curves[0]), exts[1..], cfg);
        }
      case UseSrtp(profiles) =>
        ClientExtensionsKeep(st.(srtp := FirstCommon(profiles, cfg.srtpProfiles)), exts[1..], cfg);
      case UseExtendedMasterSecret => ClientExtensionsKeep(st.(ems := st.ems || cfg.ems != Disable), exts[1..], cfg);
      case ServerName(name) => ClientExtensionsKeep(st.(serverName := name), exts[1..], cfg);
      case OtherExtension => ClientExtensionsKeep(st, exts[1..], cfg);
    }
  }

  lemma AcceptHelloKeeps(st: State, h: Msg, cfg: Config, cr: Crypto)
    requires h.ClientHello?
    ensures var (st', out) := AcceptHello(st, h, cfg, cr);
            && st'.cookie == st.cookie && (st.ems ==> st'.ems)
            && (out.Next? ==> out.flight == 2 && EmsHonoured(st'.ems, cfg))
  {
    var st1 := st.(remoteRandom := h.random);
    var id := FirstCommon(h.suites, cfg.suites);
    ClientExtensionsKeep(st1, h.extensions, cfg);
    if id.Some? {
      ClientExtensionsKeep(st1.(suite := Some(Suite(id.value, false))), h.extensions, cfg);
    }
  }

  lemma Parse0Keeps(st: State, cache: seq<Item>, cfg: Config, cr: Crypto)
    ensures var (st', out) := Parse0(st, cache, cfg, cr);
            && st'.cookie == st.cookie && (st.ems ==> st'.ems)
            && (out.Next? ==> out.flight == 2 && EmsHonoured(st'.ems, cfg))
  {
    var p := FullPull(cache, 0, [ClientHelloRule(cfg)], cr.decode);
    if p.Messages? && CLIENT_HELLO in p.byType && p.byType[CLIENT_HELLO].ClientHello? {
      AcceptHelloKeeps(st.(recvSequence := p.next), p.byType[CLIENT_HELLO], cfg, cr);
    }
  }

  lemma Parse2Keeps(st: State, cache: seq<Item>, cfg: Config, cr: Crypto)
    ensures var (st', out) := Parse2(st, cache, cfg, cr);
            && st'.cookie == st.cookie && (st.ems ==> st'.ems)
            && (out.Next? ==> out.flight == 2 || out.flight == 4)
            && (out.Next? && out.flight == 2 ==> EmsHonoured(st'.ems, cfg))
            && (out.Next? && out.flight == 4 ==> Echoed(cache, st'.cookie, cfg, cr) && st'.ems == st.ems)
  {
    var rules := [ClientHelloRule(cfg)];
    var p := FullPull(cache, st.recvSequence, rules, cr.decode);
    if p.Messages? {
      if CLIENT_HELLO in p.byType {
        PulledIsCached(cache, st.recvSequence, rules, cr.decode, CLIENT_HELLO);
        var r :| r in rules && r.typ == CLIENT_HELLO && Cached(cache, r, p.byType[CLIENT_HELLO], cr.decode);
        assert r == ClientHelloRule(cfg);
      }
    } else {
      Parse0Keeps(st, cache, cfg, cr);
    }
  }

  // ---------------------------------------------------------------- flight 4

  lemma AwaitFinishedKeeps(st: State, next: int, cache: seq<Item>, cfg: Config, cr: Crypto)
    ensures var (st', out) := AwaitFinished(st, next, cache, cfg, cr);
            && st'.cookie == st.cookie && st'.ems == st.ems
            && (out.Next? ==>
                  && out.flight == 6 && FinishedReceived(cache, cfg, cr)
                  && AuthPolicy(cfg.clientAuth, st'.peerCertificates, st'.certificatesVerified))
  {
    var rules := [ClientFinishedRule(cfg)];
    var p := FullPull(cache, next, rules, cr.decode);
    if p.Messages? && FINISHED in p.byType {
      PulledIsCached(cache, next, rules, cr.decode, FINISHED);
      var r :| r in rules && r.typ == FINISHED && Cached(cache, r, p.byType[FINISHED], cr.decode);
      assert r == ClientFinishedRule(cfg);
    }
  }

  lemma CheckKeeps(st: State, v: Msg, cache: seq<Item>, cfg: Config, cr: Crypto)
    requires v.CertificateVerify?
    ensures var st' := CheckCertificateVerify(st, v, cache, cfg, cr).0; st'.cookie == st.cookie && st'.ems == st.ems
  {
  }

  lemma StartServerKeeps(st: State, key: Msg, cache: seq<Item>, cfg: Config, cr: Crypto)
    requires key.ClientKeyExchange?
    ensures var st' := StartServerSuite(st, key, cache, cfg, cr).0; st'.cookie == st.cookie && st'.ems == st.ems
  {
  }

  lemma Parse4Keeps(st: State, cache: seq<Item>, cfg: Config, cr: Crypto)
    ensures var (st', out) := Parse4(st, cache, cfg, cr);
            && st'.cookie == st.cookie && st'.ems == st.ems
            && (out.Next? ==>
                  && out.flight == 6 && FinishedReceived(cache, cfg, cr)
                  && AuthPolicy(cfg.clientAuth, st'.peerCertificates, st'.certificatesVerified))
  {
    hide FullPull, CheckCertificateVerify, StartServerSuite, AwaitFinished, FinishedReceived, AuthPolicy, ClientRules;
    var p := FullPull(cache, st.recvSequence, ClientRules(cfg), cr.decode);
    if p.Messages? && CLIENT_KEY_EXCHANGE in p.byType && p.byType[CLIENT_KEY_EXCHANGE].ClientKeyExchange? {
      var cert := Has(p.byType, CERTIFICATE);
      var verify := Has(p.byType, CERTIFICATE_VERIFY);
      if (cert.Some? ==> cert.value.Certificate?) && (verify.Some? ==> verify.value.CertificateVerify?) {
        var st1 := if cert.Some? then st.(peerCertificates := cert.value.chain) else st;
        var st2 := if verify.Some? then CheckCertificateVerify(st1, verify.value, cache, cfg, cr).0 else st1;
        if verify.Some? {
          CheckKeeps(st1, verify.value, cache, cfg, cr);
        }
        var (st3, ok3) := StartServerSuite(st2, p.byType[CLIENT_KEY_EXCHANGE], cache, cfg, cr);
        StartServerKeeps(st2, p.byType[CLIENT_KEY_EXCHANGE], cache, cfg, cr);
        AwaitFinishedKeeps(st3, p.next, cache, cfg, cr);
      }
    }
  }

  // ---------------------------------------------------------------- flights 1, 3 and 5

  lemma TakeKeyKeeps(st: State, hint: Bytes, curve: nat, publicKey: Bytes, cfg: Config, cr: Crypto)
    ensures var st' := TakeServerKey(st, hint, curve, publicKey, cfg, cr).0; st'.suite == st.suite && st'.ems == st.ems
  {
  }

  lemma AcceptServerFlightKeeps(st: State, msgs: map<HandshakeType, Msg>, cfg: Config, cr: Crypto)
    requires SERVER_HELLO in msgs
    ensures var (st', out) := AcceptServerFlight(st, msgs, cfg, cr);
            out.Next? ==> out.flight == 5 && st'.suite.Some? && EmsHonoured(st'.ems, cfg)
  {
    var hello := msgs[SERVER_HELLO];
    if hello.ServerHello? {
      var (st1, ok1) := AcceptServerHello(st, hello, cfg, cr);
      if ok1 {
        var cert := Has(msgs, CERTIFICATE);
        if cert.Some? ==> cert.value.Certificate? {
          var st2 := if cert.Some? then st1.(peerCertificates := cert.value.chain) else st1;
          var key := Has(msgs, SERVER_KEY_EXCHANGE);
          if key.Some? && key.value.ServerKeyExchange? {
            TakeKeyKeeps(st2, key.value.identityHint, key.value.curve, key.value.publicKey, cfg, cr);
          }
        }
      }
    }
  }

  lemma Parse3Keeps(st: State, cache: seq<Item>, cfg: Config, cr: Crypto)
    ensures var (st', out) := Parse3(st, cache, cfg, cr);
            && (out.Next? ==> out.flight == 3 || out.flight == 5)
            && (out.Next? && out.flight == 5 ==> st'.suite.Some? && EmsHonoured(st'.ems, cfg))
  {
    var p := FullPull(cache, st.recvSequence, ServerRules(cfg), cr.decode);
    if p.Messages? {
      MandatoryIsPulled(cache, st.recvSequence, ServerRules(cfg), cr.decode, 0);
      AcceptServerFlightKeeps(st.(recvSequence := p.next), p.byType, cfg, cr);
    }
  }

  lemma Parse5Keeps(st: State, cache: seq<Item>, cfg: Config, cr: Crypto)
    ensures var (st', out) := Parse5(st, cache, cfg, cr);
            && st' == st
            && (out.Next? ==> out.flight == 5 && (st.suite.Some? ==> ServerVerified(cache, st.master, cfg, cr)))
  {
    var rules := [ServerFinishedRule(cfg)];
    var p := FullPull(cache, st.recvSequence, rules, cr.decode);
    if p.Messages? && FINISHED in p.byType {
      PulledIsCached(cache, st.recvSequence, rules, cr.decode, FINISHED);
      var r :| r in rules && r.typ == FINISHED && Cached(cache, r, p.byType[FINISHED], cr.decode);
      assert r == ServerFinishedRule(cfg);
      if p.byType[FINISHED].Finished? {
        assert p.byType[FINISHED] == Finished(p.byType[FINISHED].verifyData);
      }
    }
  }

  // ---------------------------------------------------------------- generate

  lemma StartClientKeeps(st: State, key: Msg, merged: Bytes, cache: seq<Item>, cfg: Config, cr: Crypto)
    requires key.ServerKeyExchange?
    ensures var st' := StartClientSuite(st, key, merged, cache, cfg, cr).0;
            st'.ems == st.ems && (st.suite.Some? ==> st'.suite.Some?)
  {
  }

  lemma Generate5Keeps(st: State, cache: seq<Item>, cfg: Config, cr: Crypto)
    ensures var st' := Generate5(st, cache, cfg, cr).state;
            st'.ems == st.ems && (st.suite.Some? ==> st'.suite.Some?)
  {
    hide TakeServerKey, StartClientSuite, Merged;
    TakeKeyKeeps(st, [], 0, [], cfg, cr);
    var cert := if st.requestedCertificate then Body(Certificate(cfg.chain), cr) else None;
    var (st1, serverKey) := ServerKey(st, cache, cfg, cr);
    var key := Body(ClientKey(st, cfg), cr);
    if serverKey.Some? && key.Some? && (st.requestedCertificate ==> cert.Some?) {
      StartClientKeeps(st1, serverKey.value, Merged(cert, key.value, None, st1.sendSequence), cache, cfg, cr);
    }
  }

  lemma GenerateKeeps(f: Flight, st: State, cache: seq<Item>, cfg: Config, cr: Crypto)
    ensures GenerateOk(f, st, Generate(f, st, cache, cfg, cr).state)
  {
    if f == 5 {
      Generate5Keeps(st, cache, cfg, cr);
    }
  }

  // ---------------------------------------------------------------- what the machine relies on

  /** The facts a completed handshake rests on, named so that the machine is reasoned about for any such facts. */
  datatype Facts = Facts(
    echoed: (seq<Item>, Bytes) -> bool,
    finished: seq<Item> -> bool,
    verified: (seq<Item>, Bytes) -> bool,
    policy: (seq<Bytes>, bool) -> bool,
    ems: bool -> bool)

  ghost function FactsOf(cfg: Config, cr: Crypto): Facts {
    Facts((cache, cookie) => Echoed(cache, cookie, cfg, cr),
          cache => FinishedReceived(cache, cfg, cr),
          (cache, master) => ServerVerified(cache, master, cfg, cr),
          (certificates, verified) => AuthPolicy(cfg.clientAuth, certificates, verified),
          ems => EmsHonoured(ems, cfg))
  }

  /** What every `generate` leaves alone. */
  ghost predicate GenerateOk(f: Flight, st: State, st': State) {
    && st'.ems == st.ems && (st.suite.Some? ==> st'.suite.Some?)
    && (f == 2 || f == 4 || f == 6 ==>
          && st'.cookie == st.cookie
          && st'.peerCertificates == st.peerCertificates
          && st'.certificatesVerified == st.certificatesVerified)
  }

  /** What each `parse` keeps and what it has checked when it names the next flight. */
  ghost predicate ParseOk(f: Flight, st: State, cache: seq<Item>, st': State, out: Outcome, t: Facts) {
    match f
    case 0 =>
      && st'.cookie == st.cookie
      && (out.Next? ==> out.flight == 2 && t.ems(st'.ems))
    case 2 =>
      && st'.cookie == st.cookie && (t.ems(st.ems) ==> t.ems(st'.ems))
      && (out.Next? ==> out.flight == 2 || out.flight == 4)
      && (out.Next? && out.flight == 4 ==> t.echoed(cache, st'.cookie))
    case 4 =>
      && st'.cookie == st.cookie && st'.ems == st.ems
      && (out.Next? ==>
            out.flight == 6 && t.finished(cache) && t.policy(st'.peerCertificates, st'.certificatesVerified))
    case 5 => st' == st && (out.Next? ==> out.flight == 5 && (st.suite.Some? ==> t.verified(cache, st.master)))
    case 6 => st' == st && (out.Next? ==> out.flight == 6)
    case _ =>
      && (out.Next? ==> out.flight == 3 || out.flight == 5)
      && (out.Next? && out.flight == 5 ==> st'.suite.Some? && t.ems(st'.ems))
  }

  lemma ParseKeeps(f: Flight, st: State, cache: seq<Item>, cfg: Config, cr: Crypto)
    ensures ParseOk(f, st, cache, Parse(f, st, cache, cfg, cr).0, Parse(f, st, cache, cfg, cr).1, FactsOf(cfg, cr))
  {
    match f
    case 0 => Parse0Keeps(st, cache, cfg, cr);
    case 2 => Parse2Keeps(st, cache, cfg, cr);
    case 4 => Parse4Keeps(st, cache, cfg, cr);
    case 5 => Parse5Keeps(st, cache, cfg, cr);
    case 6 =>
    case _ => Parse3Keeps(st, cache, cfg, cr);
  }

  /** Flights that keep these promises, whatever else they do. */
  ghost predicate GoodFlights(s: Setup, t: Facts) {
    && (forall f, st, cache :: GenerateOk(f, st, s.generate(f, st, cache).state))
    && (forall f, st, cache :: ParseOk(f, st, cache, s.parse(f, st, cache).0, s.parse(f, st, cache).1, t))
  }

  /** Facts about what has been received outlive the arrival of more. */
  ghost predicate Lasting(t: Facts) {
    && (forall a, b, cookie :: a <= b && t.echoed(a, cookie) ==> t.echoed(b, cookie))
    && (forall a, b :: a <= b && t.finished(a) ==> t.finished(b))
  }

  /** The flights of the source keep those promises. */
  lemma FlightsAreGood(cfg: Config, cr: Crypto)
    ensures GoodFlights(WithFlights(cfg, cr), FactsOf(cfg, cr))
  {
    var s := WithFlights(cfg, cr);
    forall f, st, cache
      ensures GenerateOk(f, st, s.generate(f, st, cache).state)
    {
      GenerateKeeps(f, st, cache, cfg, cr);
    }
    forall f, st, cache
      ensures ParseOk(f, st, cache, s.parse(f, st, cache).0, s.parse(f, st, cache).1, FactsOf(cfg, cr))
    {
      ParseKeeps(f, st, cache, cfg, cr);
    }
  }

  lemma EchoLasts(a: seq<Item>, b: seq<Item>, cookie: Bytes, cfg: Config, cr: Crypto)
    requires a <= b && Echoed(a, cookie, cfg, cr)
    ensures Echoed(b, cookie, cfg, cr)
  {
    var h: Msg :| h.ClientHello? && h.cookie == cookie && Cached(a, ClientHelloRule(cfg), h, cr.decode);
    CachedStays(a, b, ClientHelloRule(cfg), h, cr.decode);
  }

  lemma FinishedLasts(a: seq<Item>, b: seq<Item>, cfg: Config, cr: Crypto)
    requires a <= b && FinishedReceived(a, cfg, cr)
    ensures FinishedReceived(b, cfg, cr)
  {
    var h: Msg :| h.Finished? && Cached(a, ClientFinishedRule(cfg), h, cr.decode);
    CachedStays(a, b, ClientFinishedRule(cfg), h, cr.decode);
  }

  lemma FactsLast(cfg: Config, cr: Crypto)
    ensures Lasting(FactsOf(cfg, cr))
  {
    forall a, b, cookie | a <= b && Echoed(a, cookie, cfg, cr)
      ensures Echoed(b, cookie, cfg, cr)
    {
      EchoLasts(a, b, cookie, cfg, cr);
    }
    forall a, b | a <= b && FinishedReceived(a, cfg, cr)
      ensures FinishedReceived(b, cfg, cr)
    {
      FinishedLasts(a, b, cfg, cr);
    }
  }

  // ---------------------------------------------------------------- the invariant of each side

  ghost predicate ServerSafe(c: Fsm, t: Facts) {
    && (c.flight == 0 || c.flight == 2 || c.flight == 4 || c.flight == 6)
    && (c.flight >= 2 ==> t.ems(c.state.ems))
    && (c.flight >= 4 ==> t.echoed(c.cache, c.state.cookie))
    && (c.flight == 6 ==> t.finished(c.cache) && t.policy(c.state.peerCertificates, c.state.certificatesVerified))
    && (c.phase == Done ==> c.flight == 6)
  }

  ghost predicate ClientSafe(c: Fsm, t: Facts) {
    && (c.flight == 1 || c.flight == 3 || c.flight == 5)
    && (c.flight == 5 ==> c.state.suite.Some? && t.ems(c.state.ems))
    && (c.phase == Done ==> c.flight == 5)
  }

  ghost predicate Safe(c: Fsm, isClient: bool, t: Facts) {
    if isClient then ClientSafe(c, t) else ServerSafe(c, t)
  }

  /** Inside a run: a client that is about to complete has just verified the server's Finished. */
  ghost predicate Checked(c: Fsm, isClient: bool, t: Facts) {
    isClient && c.phase == Done ==> t.verified(c.cache, c.state.master)
  }

  lemma PrepareServer(c: Fsm, s: Setup, t: Facts)
    requires GoodFlights(s, t) && ServerSafe(c, t) && c.phase == Preparing
    ensures ServerSafe(PrepareStep(c, s).fsm, t)
  {
    hide PreparedFrom, Handshakes, HighestEpoch, HasRetransmit;
    assert GenerateOk(c.flight, c.state, s.generate(c.flight, c.state, c.cache).state);
  }

  lemma PrepareClient(c: Fsm, s: Setup, t: Facts)
    requires GoodFlights(s, t) && ClientSafe(c, t) && c.phase == Preparing
    ensures ClientSafe(PrepareStep(c, s).fsm, t)
  {
    hide PreparedFrom, Handshakes, HighestEpoch, HasRetransmit;
    assert GenerateOk(c.flight, c.state, s.generate(c.flight, c.state, c.cache).state);
  }

  lemma WaitServer(c: Fsm, s: Setup, t: Facts)
    requires GoodFlights(s, t) && ServerSafe(c, t) && c.phase == Waiting
    ensures ServerSafe(WaitStep(c, s).fsm, t) && WaitStep(c, s).fsm.flight >= c.flight
  {
    var r := s.parse(c.flight, c.state, c.cache);
    assert ParseOk(c.flight, c.state, c.cache, r.0, r.1, t);
  }

  lemma WaitClient(c: Fsm, s: Setup, t: Facts)
    requires GoodFlights(s, t) && ClientSafe(c, t) && c.phase == Waiting
    ensures var r := WaitStep(c, s).fsm;
            ClientSafe(r, t) && Checked(r, true, t) && r.flight >= c.flight
  {
    var r := s.parse(c.flight, c.state, c.cache);
    assert ParseOk(c.flight, c.state, c.cache, r.0, r.1, t);
  }

  /** The invariant inside one call of `handshake` that started in flight `low`. */
  ghost predicate During(c: Fsm, low: Flight, isClient: bool, t: Facts) {
    Safe(c, isClient, t) && Checked(c, isClient, t) && c.flight >= low
  }

  lemma PrepareKeeps(c: Fsm, s: Setup, low: Flight, isClient: bool, t: Facts)
    requires GoodFlights(s, t) && During(c, low, isClient, t) && c.phase == Preparing
    ensures During(PrepareStep(c, s).fsm, low, isClient, t)
  {
    if isClient {
      PrepareClient(c, s, t);
    } else {
      PrepareServer(c, s, t);
    }
  }

  lemma SendKeeps(c: Fsm, low: Flight, isClient: bool, t: Facts)
    requires During(c, low, isClient, t) && c.phase == Sending
    ensures During(SendStep(c), low, isClient, t)
  {
  }

  lemma WaitKeeps(c: Fsm, s: Setup, low: Flight, isClient: bool, t: Facts)
    requires GoodFlights(s, t) && During(c, low, isClient, t) && c.phase == Waiting
    ensures During(WaitStep(c, s).fsm, low, isClient, t)
  {
    if isClient {
      WaitClient(c, s, t);
    } else {
      WaitServer(c, s, t);
    }
  }

  lemma StepsKeepDuring(s: Setup, low: Flight, isClient: bool, t: Facts)
    requires GoodFlights(s, t)
    ensures KeptBySteps((d: Fsm) => During(d, low, isClient, t), s)
  {
    forall c: Fsm | During(c, low, isClient, t) && c.phase == Preparing
      ensures During(PrepareStep(c, s).fsm, low, isClient, t)
    {
      PrepareKeeps(c, s, low, isClient, t);
    }
    forall c: Fsm | During(c, low, isClient, t) && c.phase == Sending
      ensures During(SendStep(c), low, isClient, t)
    {
      SendKeeps(c, low, isClient, t);
    }
    forall c: Fsm | During(c, low, isClient, t) && c.phase == Waiting
      ensures During(WaitStep(c, s).fsm, low, isClient, t)
    {
      WaitKeeps(c, s, low, isClient, t);
    }
  }

  // ---------------------------------------------------------------- runs

  ghost predicate CompletedSafely(c: Fsm, isClient: bool, t: Facts) {
    && t.ems(c.state.ems)
    && if isClient then c.flight == 5 && c.state.suite.Some? && t.verified(c.cache, c.state.master)
       else
         && c.flight == 6 && t.echoed(c.cache, c.state.cookie) && t.finished(c.cache)
         && t.policy(c.state.peerCertificates, c.state.certificatesVerified)
  }

  lemma GrowingCacheSafe(c: Fsm, items: seq<Item>, rx: bool, isClient: bool, t: Facts)
    requires Lasting(t) && Safe(c, isClient, t)
    ensures Safe(c.(cache := PushAll(c.cache, items), rx := rx), isClient, t)
  {
    PushAllKeeps(c.cache, items);
  }

  /** One call of `handshake`, from a machine that has not completed. */
  lemma CallSafe(c: Fsm, s: Setup, isClient: bool, t: Facts)
    requires GoodFlights(s, t) && Safe(c, isClient, t) && !c.completed && c.phase != Done
    ensures var d := HandshakeRun(c, s).fsm;
            Safe(d, isClient, t) && d.flight >= c.flight && (d.completed ==> CompletedSafely(d, isClient, t))
  {
    StepsKeepDuring(s, c.flight, isClient, t);
    RunKeeps(c, s, (d: Fsm) => During(d, c.flight, isClient, t));
  }

  lemma StaysSafe(c: Fsm, isClient: bool, t: Facts)
    requires Safe(c, isClient, t)
    ensures Safe(c.(timer := false), isClient, t)
  {
  }

  /** A timeout resends or rearms: it leaves what is known as it is. */
  lemma TimerSafe(c: Fsm, s: Setup, isClient: bool, t: Facts)
    requires Safe(c, isClient, t) && Settled(c) && !c.completed
    ensures Safe(c.(timer := false), isClient, t)
    ensures var r := OnTimeout(c.(timer := false), s);
            r.Some? ==>
              && Safe(r.value, isClient, t) && r.value.phase != Done && !r.value.completed
              && r.value.flight == c.flight
  {
  }

  lemma EventSafe(c: Fsm, e: Event, s: Setup, isClient: bool, t: Facts)
    requires GoodFlights(s, t) && Lasting(t) && Safe(c, isClient, t) && Settled(c)
    ensures var d := OnEvent(c, e, s);
            && Safe(d, isClient, t) && d.flight >= c.flight
            && (!c.completed && d.completed ==> CompletedSafely(d, isClient, t))
  {
    hide HandshakeRun, Safe, PushAll, CompletedSafely, GoodFlights, Lasting;
    match e
    case DatagramRead(items, handshake, ok) =>
      GrowingCacheSafe(c, items, c.rx || handshake, isClient, t);
      if ok && !c.completed {
        CallSafe(c.(cache := PushAll(c.cache, items), rx := c.rx || handshake), s, isClient, t);
      }
    case TimerFired =>
      if c.completed {
        StaysSafe(c, isClient, t);
      } else {
        TimerSafe(c, s, isClient, t);
      }
      if c.timer && !c.completed && OnTimeout(c.(timer := false), s).Some? {
        CallSafe(OnTimeout(c.(timer := false), s).value, s, isClient, t);
      }
    case Connected =>
      if !c.completed {
        CallSafe(c, s, isClient, t);
      }
    case CachedAside(items) =>
      GrowingCacheSafe(c, items, c.rx, isClient, t);
  }

  lemma {:induction false} EventsSafe(c: Fsm, es: seq<Event>, s: Setup, isClient: bool, t: Facts)
    requires GoodFlights(s, t) && Lasting(t) && Safe(c, isClient, t) && Settled(c) && Bounded(c, s)
    ensures var d := RunEvents(c, es, s);
            Safe(d, isClient, t) && Settled(d) && d.flight >= c.flight
    decreases |es|
  {
    if es != [] {
      EventSafe(c, es[0], s, isClient, t);
      EventKeepsBound(c, es[0], s);
      EventsSafe(OnEvent(c, es[0], s), es[1..], s, isClient, t);
    }
  }

  lemma CompletionOver(isClient: bool, es: seq<Event>, e: Event, s: Setup, t: Facts)
    requires GoodFlights(s, t) && Lasting(t)
    ensures var c := RunEvents(NewConn(isClient), es, s);
            var d := OnEvent(c, e, s);
            d.flight >= c.flight && (!c.completed && d.completed ==> CompletedSafely(d, isClient, t))
  {
    EventsSafe(NewConn(isClient), es, s, isClient, t);
    EventSafe(RunEvents(NewConn(isClient), es, s), e, s, isClient, t);
  }

  /** Everything the completed handshake rests on, at the moment it completes. */
  ghost predicate CompletedRightly(c: Fsm, isClient: bool, cfg: Config, cr: Crypto) {
    && EmsHonoured(c.state.ems, cfg)
    && if isClient then
         c.flight == 5 && c.state.suite.Some? && ServerVerified(c.cache, c.state.master, cfg, cr)
       else
         && c.flight == 6 && Echoed(c.cache, c.state.cookie, cfg, cr) && FinishedReceived(c.cache, cfg, cr)
         && AuthPolicy(cfg.clientAuth, c.state.peerCertificates, c.state.certificatesVerified)
  }

  /**
   Completion safety.  From a fresh connection, after any events, whatever messages the peer or the
   network produced: no event moves the flight backwards, and an event that completes the handshake
   finds, on a client, a cipher suite and a server Finished equal to the PRF over the transcript; on
   a server, a ClientHello echoing its cookie, the client's Finished and the client-certificate
   policy; and on both, extended master secret in use if it is required.
   */
  lemma CompletionIsSafe(isClient: bool, es: seq<Event>, e: Event, cfg: Config, cr: Crypto)
    ensures var s := WithFlights(cfg, cr);
            var c := RunEvents(NewConn(isClient), es, s);
            var d := OnEvent(c, e, s);
            && d.flight >= c.flight
            && (!c.completed && d.completed ==> CompletedRightly(d, isClient, cfg, cr))
  {
    FlightsAreGood(cfg, cr);
    FactsLast(cfg, cr);
    CompletionOver(isClient, es, e, WithFlights(cfg, cr), FactsOf(cfg, cr));
  }
}
