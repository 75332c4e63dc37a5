/**
 The seven flights of the DTLS handshake (rtc-dtls/src/flight): what each `parse` demands of the
 cached messages before it moves on, and what each `generate` does to the connection state.
 Cryptography and certificate checks are functions the model knows nothing about.
 */
module DtlsFlights {
  import opened Bytes
  import opened DtlsRecord
  import opened DtlsCache
  import opened DtlsTranscript

  datatype Extension =
    | SupportedEllipticCurves(curves: seq<nat>)
    | UseSrtp(profiles: seq<nat>)
    | UseExtendedMasterSecret
    | ServerName(name: Bytes)
    | OtherExtension

  datatype Msg =
    | ClientHello(version: ProtocolVersion, random: Bytes, cookie: Bytes, suites: seq<nat>, extensions: seq<Extension>)
    | ServerHello(version: ProtocolVersion, random: Bytes, suite: nat, extensions: seq<Extension>)
    | HelloVerifyRequest(version: ProtocolVersion, cookie: Bytes)
    | Certificate(chain: seq<Bytes>)
    | ServerKeyExchange(identityHint: Bytes, curve: nat, publicKey: Bytes, algorithm: nat, signature: Bytes)
    | CertificateRequest
    | ServerHelloDone
    | CertificateVerify(algorithm: nat, signature: Bytes)
    | ClientKeyExchange(identityHint: Bytes, publicKey: Bytes)
    | Finished(verifyData: Bytes)

  datatype ExtendedMasterSecret = Request | Require | Disable

  datatype ClientAuth =
    | NoClientCert
    | RequestClientCert
    | RequireAnyClientCert
    | VerifyClientCertIfGiven
    | RequireAndVerifyClientCert

  datatype Config = Config(
    initialEpoch: nat,
    suites: seq<nat>,
    srtpProfiles: seq<nat>,
    ems: ExtendedMasterSecret,
    clientAuth: ClientAuth,
    psk: bool,
    pskIdentity: Bytes,
    schemes: seq<nat>,
    hasClientVerifier: bool,
    chain: seq<Bytes>,
    maxRetransmit: nat)

  /** Outside functions: message codec, key agreement, PRFs, signature and certificate checks. */
  datatype Crypto = Crypto(
    decode: Bytes -> Option<(U16, Msg)>,
    hash: Bytes -> Bytes,
    suiteKnown: nat -> bool,
    keypair: nat -> Option<Bytes>,
    pskFor: Bytes -> Option<Bytes>,
    agree: (Bytes, Bytes) -> Option<Bytes>,
    extendedMaster: (Bytes, Bytes) -> Option<Bytes>,
    plainMaster: (Bytes, Bytes, Bytes) -> Option<Bytes>,
    initSuite: Bytes -> bool,
    serverVerifyData: (Bytes, Bytes) -> Option<Bytes>,
    clientVerifyData: (Bytes, Bytes) -> Option<Bytes>,
    certificateVerifyOk: (Bytes, nat, Bytes, seq<Bytes>) -> bool,
    clientChainOk: seq<Bytes> -> bool,
    serverKeyOk: (Msg, seq<Bytes>) -> bool,
    callbackOk: seq<Bytes> -> bool,
    cookie: Bytes,
    random: Bytes,
    encode: Msg -> Option<Bytes>,
    sign: Bytes -> Option<Msg>,
    helloPackets: (nat, State) -> Option<seq<FlightPacket>>)

  datatype Suite = Suite(id: nat, initialized: bool)

  datatype State = State(
    cookie: Bytes,
    recvSequence: int,
    sendSequence: nat,
    localEpoch: nat,
    remoteEpoch: nat,
    suite: Option<Suite>,
    ems: bool,
    srtp: Option<nat>,
    curve: nat,
    keypair: Option<Bytes>,
    localRandom: Bytes,
    remoteRandom: Bytes,
    preMaster: Bytes,
    master: Bytes,
    peerCertificates: seq<Bytes>,
    certificatesVerified: bool,
    requestedCertificate: bool,
    identityHint: Bytes,
    serverName: Bytes,
    verifyData: Bytes)

  const NEW_STATE := State([], 0, 0, 0, 0, None, false, None, 0, None, [], [], [], [], [], false, false, [], [], [])

  /** Flights are numbered 0 to 6 as in RFC 6347 section 4.2.4. */
  type Flight = f: nat | f <= 6

  /** `parse` either names the next flight or stops, with an alert and with an error for the caller. */
  datatype Outcome = Next(flight: Flight) | Stop(alert: bool, error: bool)

  const KEEP_READING := Stop(false, false)
  const INTERNAL_ERROR := Stop(true, false)
  const FAILURE := Stop(true, true)

  /** The first entry of `a` that occurs in `b`. */
  function FirstCommon(a: seq<nat>, b: seq<nat>): (r: Option<nat>)
    ensures r.Some? ==> r.value in a && r.value in b
    ensures r == None ==> forall x :: x in a ==> x !in b
  {
    if a == [] then None else if a[0] in b then Some(a[0]) else FirstCommon(a[1..], b)
  }

  method FindMatching(a: seq<nat>, b: seq<nat>) returns (r: Option<nat>)
    ensures r == FirstCommon(a, b)
  {
    var i := 0;
    while i < |a|
      invariant 0 <= i <= |a|
      invariant FirstCommon(a, b) == FirstCommon(a[i..], b)
    {
      assert a[i..][0] == a[i] && a[i..][1..] == a[i + 1..];
      var j := 0;
      while j < |b|
        invariant 0 <= j <= |b|
        invariant a[i] !in b[..j]
      {
        if a[i] == b[j] {
          return Some(a[i]);
        }
        j := j + 1;
      }
      i := i + 1;
    }
    r := None;
  }

  // ---------------------------------------------------------------- flight 0: first ClientHello

  /** The extension loop of flight 0; the flag is false where the loop returns an error. */
  function ClientExtensions(st: State, exts: seq<Extension>, cfg: Config): (State, bool)
    decreases |exts|
  {
    if exts == [] then (st, true)
    else
      match exts[0]
      case SupportedEllipticCurves(curves) =>
        if curves == [] then (st, false) else ClientExtensions(st.(curve := curves[0]), exts[1..], cfg)
      case UseSrtp(profiles) =>
        var p := FirstCommon(profiles, cfg.srtpProfiles);
        if p == None then (st, false) else ClientExtensions(st.(srtp := p), exts[1..], cfg)
      case UseExtendedMasterSecret => ClientExtensions(st.(ems := st.ems || cfg.ems != Disable), exts[1..], cfg)
      case ServerName(name) => ClientExtensions(st.(serverName := name), exts[1..], cfg)
      case OtherExtension => ClientExtensions(st, exts[1..], cfg)
  }

  method ReadClientExtensions(start: State, exts: seq<Extension>, cfg: Config) returns (st: State, ok: bool)
    ensures (st, ok) == ClientExtensions(start, exts, cfg)
  {
    st := start;
    var i := 0;
    assert exts[i..] == exts;
    while i < |exts|
      invariant 0 <= i <= |exts|
      invariant ClientExtensions(start, exts, cfg) == ClientExtensions(st, exts[i..], cfg)
    {
      assert exts[i..][0] == exts[i] && exts[i..][1..] == exts[i + 1..];
      match exts[i] {
        case SupportedEllipticCurves(curves) =>
          if curves == [] {
            return st, false;
          }
          st := st.(curve := curves[0]);
        case UseSrtp(profiles) =>
          var p := FindMatching(profiles, cfg.srtpProfiles);
          if p == None {
            return st, false;
          }
          st := st.(srtp := p);
        case UseExtendedMasterSecret =>
          if cfg.ems != Disable {
            st := st.(ems := true);
          }
        case ServerName(name) =>
          st := st.(serverName := name);
        case OtherExtension =>
      }
      i := i + 1;
    }
    ok := true;
  }

  function ClientHelloRule(cfg: Config): Rule {
    Rule(CLIENT_HELLO, cfg.initialEpoch, true, false)
  }

  function AcceptHello(st: State, h: Msg, cfg: Config, cr: Crypto): (State, Outcome)
    requires h.ClientHello?
  {
    if h.version != PROTOCOL_VERSION1_2 then (st, FAILURE)
    else
      var st1 := st.(remoteRandom := h.random);
      var id := FirstCommon(h.suites, cfg.suites);
      if id == None then (st1, FAILURE)
      else
        var st2 := if cr.suiteKnown(id.value) then st1.(suite := Some(Suite(id.value, false))) else st1;
        var (st3, ok) := ClientExtensions(st2, h.extensions, cfg);
        if !ok || (cfg.ems == Require && !st3.ems) then (st3, FAILURE)
        else if st3.keypair.Some? then (st3, Next(2))
        else if cr.keypair(st3.curve) == None then (st3, FAILURE)
        else (st3.(keypair := cr.keypair(st3.curve)), Next(2))
  }

  function Parse0(st: State, cache: seq<Item>, cfg: Config, cr: Crypto): (State, Outcome) {
    match FullPull(cache, 0, [ClientHelloRule(cfg)], cr.decode)
    case Messages(next, msgs) =>
      var st1 := st.(recvSequence := next);
      if CLIENT_HELLO !in msgs || !msgs[CLIENT_HELLO].ClientHello? then (st1, INTERNAL_ERROR)
      else AcceptHello(st1, msgs[CLIENT_HELLO], cfg, cr)
    case _ => (st, KEEP_READING)
  }

  // ---------------------------------------------------------------- flight 2: the cookie

  function Parse2(st: State, cache: seq<Item>, cfg: Config, cr: Crypto): (State, Outcome) {
    match FullPull(cache, st.recvSequence, [ClientHelloRule(cfg)], cr.decode)
    case Messages(next, msgs) =>
      var st1 := st.(recvSequence := next);
      if CLIENT_HELLO !in msgs || !msgs[CLIENT_HELLO].ClientHello? then (st1, INTERNAL_ERROR)
      else
        var h := msgs[CLIENT_HELLO];
        if h.version != PROTOCOL_VERSION1_2 then (st1, FAILURE)
        else if h.cookie == [] then (st1, KEEP_READING)
        else if st1.cookie != h.cookie then (st1, FAILURE)
        else (st1, Next(4))
    case _ => Parse0(st, cache, cfg, cr)
  }

  // ---------------------------------------------------------------- flight 3: the server's parameters

  function HelloVerifyRule(cfg: Config): Rule {
    Rule(HELLO_VERIFY_REQUEST, cfg.initialEpoch, false, true)
  }

  function ServerRules(cfg: Config): seq<Rule> {
    var e := cfg.initialEpoch;
    if cfg.psk then
      [Rule(SERVER_HELLO, e, false, false), Rule(SERVER_KEY_EXCHANGE, e, false, true),
       Rule(SERVER_HELLO_DONE, e, false, false)]
    else
      [Rule(SERVER_HELLO, e, false, false), Rule(CERTIFICATE, e, false, true),
       Rule(SERVER_KEY_EXCHANGE, e, false, false),
       Rule(CERTIFICATE_REQUEST, e, false, true), Rule(SERVER_HELLO_DONE, e, false, false)]
  }

  /** The extension loop of flight 3. */
  function ServerExtensions(st: State, exts: seq<Extension>, cfg: Config): (State, bool)
    decreases |exts|
  {
    if exts == [] then (st, true)
    else
      match exts[0]
      case UseSrtp(profiles) =>
        var p := FirstCommon(profiles, cfg.srtpProfiles);
        if p == None then (st, false) else ServerExtensions(st.(srtp := p), exts[1..], cfg)
      case UseExtendedMasterSecret => ServerExtensions(st.(ems := st.ems || cfg.ems != Disable), exts[1..], cfg)
      case _ => ServerExtensions(st, exts[1..], cfg)
  }

  function AcceptServerHello(st: State, h: Msg, cfg: Config, cr: Crypto): (State, bool)
    requires h.ServerHello?
  {
    if h.version != PROTOCOL_VERSION1_2 then (st, false)
    else
      var (st1, ok) := ServerExtensions(st, h.extensions, cfg);
      if !ok || (cfg.ems == Require && !st1.ems) then (st1, false)
      else if cfg.srtpProfiles != [] && st1.srtp == None then (st1, false)
      else if h.suite !in cfg.suites || !cr.suiteKnown(h.suite) then (st1, false)
      else (st1.(suite := Some(Suite(h.suite, false)), remoteRandom := h.random), true)
  }

  /** Key exchange: the pre-master secret from the PSK or from a fresh key pair. */
  function TakeServerKey(st: State, hint: Bytes, curve: nat, publicKey: Bytes, cfg: Config, cr: Crypto): (State, bool) {
    if cfg.psk then
      match cr.pskFor(hint)
      case None => (st, false)
      case Some(key) => (st.(identityHint := hint, preMaster := key), true)
    else
      match cr.keypair(curve)
      case None => (st, false)
      case Some(k) =>
        match cr.agree(publicKey, k)
        case None => (st, false)
        case Some(secret) => (st.(preMaster := secret, keypair := Some(k)), true)
  }

  function Has(msgs: map<HandshakeType, Msg>, t: HandshakeType): Option<Msg> {
    if t in msgs then Some(msgs[t]) else None
  }

  function AcceptServerFlight(st: State, msgs: map<HandshakeType, Msg>, cfg: Config, cr: Crypto): (State, Outcome) {
    var hello := Has(msgs, SERVER_HELLO);
    if hello.Some? && !hello.value.ServerHello? then (st, INTERNAL_ERROR)
    else
      var (st1, ok1) := if hello.Some? then AcceptServerHello(st, hello.value, cfg, cr) else (st, true);
      if !ok1 then (st1, FAILURE)
      else
        var cert := Has(msgs, CERTIFICATE);
        if cert.Some? && !cert.value.Certificate? then (st1, INTERNAL_ERROR)
        else
          var st2 := if cert.Some? then st1.(peerCertificates := cert.value.chain) else st1;
          var key := Has(msgs, SERVER_KEY_EXCHANGE);
          if key.Some? && !key.value.ServerKeyExchange? then (st2, INTERNAL_ERROR)
          else
            var (st3, ok3) :=
              if key.Some? then
                TakeServerKey(st2, key.value.identityHint, key.value.curve, key.value.publicKey, cfg, cr)
              else (st2, true);
            var request := Has(msgs, CERTIFICATE_REQUEST);
            if !ok3 then (st3, FAILURE)
            else if request.Some? && !request.value.CertificateRequest? then (st3, INTERNAL_ERROR)
            else (if request.Some? then st3.(requestedCertificate := true) else st3, Next(5))
  }

  function Parse3(st: State, cache: seq<Item>, cfg: Config, cr: Crypto): (State, Outcome) {
    var again := FullPull(cache, st.recvSequence, [HelloVerifyRule(cfg)], cr.decode);
    if again.Messages? && HELLO_VERIFY_REQUEST in again.byType then
      var h := again.byType[HELLO_VERIFY_REQUEST];
      if !h.HelloVerifyRequest? then (st, INTERNAL_ERROR)
      else if !Supported(h.version) then (st, FAILURE)
      else (st.(cookie := h.cookie, recvSequence := again.next), Next(3))
    else
      match FullPull(cache, st.recvSequence, ServerRules(cfg), cr.decode)
      case Messages(next, msgs) => AcceptServerFlight(st.(recvSequence := next), msgs, cfg, cr)
      case _ => (st, KEEP_READING)
  }

  // ---------------------------------------------------------------- flight 1: HelloVerifyRequest or flight 3

  function Parse1(st: State, cache: seq<Item>, cfg: Config, cr: Crypto): (State, Outcome) {
    match FullPull(cache, st.recvSequence,
                   [HelloVerifyRule(cfg), Rule(SERVER_HELLO, cfg.initialEpoch, false, true)], cr.decode)
    case Messages(next, msgs) =>
      if SERVER_HELLO in msgs then Parse3(st, cache, cfg, cr)
      else if HELLO_VERIFY_REQUEST !in msgs || !msgs[HELLO_VERIFY_REQUEST].HelloVerifyRequest? then (st, INTERNAL_ERROR)
      else if !Supported(msgs[HELLO_VERIFY_REQUEST].version) then (st, FAILURE)
      else (st.(cookie := msgs[HELLO_VERIFY_REQUEST].cookie, recvSequence := next), Next(3))
    case _ => (st, KEEP_READING)
  }

  // ---------------------------------------------------------------- flight 4: the client's proof

  function ClientRules(cfg: Config): seq<Rule> {
    var e := cfg.initialEpoch;
    [Rule(CERTIFICATE, e, true, true), Rule(CLIENT_KEY_EXCHANGE, e, true, false),
     Rule(CERTIFICATE_VERIFY, e, true, true)]
  }

  function ClientFinishedRule(cfg: Config): Rule {
    Rule(FINISHED, cfg.initialEpoch + 1, true, false)
  }

  function AuthLevel(a: ClientAuth): nat {
    match a
    case NoClientCert => 0
    case RequestClientCert => 1
    case RequireAnyClientCert => 2
    case VerifyClientCertIfGiven => 3
    case RequireAndVerifyClientCert => 4
  }

  function CheckCertificateVerify(st: State, v: Msg, cache: seq<Item>, cfg: Config, cr: Crypto): (State, bool)
    requires v.CertificateVerify?
  {
    if st.peerCertificates == [] || v.algorithm !in cfg.schemes then (st, false)
    else if !cr.certificateVerifyOk(Transcript(cache, SessionRules(cfg.initialEpoch)), v.algorithm, v.signature,
                                    st.peerCertificates)
    then (st, false)
    else
      var verifies := AuthLevel(cfg.clientAuth) >= 3;
      if verifies && !(cfg.hasClientVerifier && cr.clientChainOk(st.peerCertificates)) then (st, false)
      else if !cr.callbackOk(st.peerCertificates) then (st, false)
      else (st.(certificatesVerified := verifies), true)
  }

  /** Derives the server's master secret and turns the cipher suite on, once. */
  function StartServerSuite(st: State, key: Msg, cache: seq<Item>, cfg: Config, cr: Crypto): (State, bool)
    requires key.ClientKeyExchange?
  {
    if st.suite == None || st.suite.value.initialized then (st, true)
    else
      var psk := if cfg.psk then cr.pskFor(key.identityHint) else None;
      var agreed := if st.keypair.Some? then cr.agree(key.publicKey, st.keypair.value) else Some([]);
      if (cfg.psk && psk == None) || (!cfg.psk && agreed == None) then (st, false)
      else
        var st1 := if cfg.psk then st.(identityHint := key.identityHint) else st;
        var pre := if cfg.psk then psk.value else agreed.value;
        var master :=
          if st.ems then cr.extendedMaster(pre, cr.hash(SessionHashInput(cache, cfg.initialEpoch, [])))
          else cr.plainMaster(pre, st.remoteRandom, st.localRandom);
        if master == None then (st1, false)
        else
          var st2 := st1.(master := master.value);
          if !cr.initSuite(master.value) then (st2, false)
          else (st2.(suite := Some(st.suite.value.(initialized := true))), true)
  }

  /** The policy on client certificates that must hold before the server answers. */
  predicate AuthPolicy(auth: ClientAuth, certificates: seq<Bytes>, verified: bool) {
    match auth
    case NoClientCert => true
    case RequestClientCert => true
    case RequireAnyClientCert => certificates != []
    case VerifyClientCertIfGiven => certificates != [] ==> verified
    case RequireAndVerifyClientCert => certificates != [] && verified
  }

  function AwaitFinished(st: State, next: int, cache: seq<Item>, cfg: Config, cr: Crypto): (State, Outcome) {
    match FullPull(cache, next, [ClientFinishedRule(cfg)], cr.decode)
    case Messages(after, msgs) =>
      var st1 := st.(recvSequence := after);
      if FINISHED !in msgs || !msgs[FINISHED].Finished? then (st1, INTERNAL_ERROR)
      else if !AuthPolicy(cfg.clientAuth, st1.peerCertificates, st1.certificatesVerified) then (st1, FAILURE)
      else (st1, Next(6))
    case _ => (st, KEEP_READING)
  }

  function Parse4(st: State, cache: seq<Item>, cfg: Config, cr: Crypto): (State, Outcome) {
    match FullPull(cache, st.recvSequence, ClientRules(cfg), cr.decode)
    case Messages(next, msgs) =>
      if CLIENT_KEY_EXCHANGE !in msgs || !msgs[CLIENT_KEY_EXCHANGE].ClientKeyExchange? then (st, INTERNAL_ERROR)
      else
        var cert := Has(msgs, CERTIFICATE);
        if cert.Some? && !cert.value.Certificate? then (st, INTERNAL_ERROR)
        else
          var st1 := if cert.Some? then st.(peerCertificates := cert.value.chain) else st;
          var verify := Has(msgs, CERTIFICATE_VERIFY);
          if verify.Some? && !verify.value.CertificateVerify? then (st1, INTERNAL_ERROR)
          else if verify == None && st1.peerCertificates != [] then (st1, KEEP_READING)
          else
            var (st2, ok2) :=
              if verify.Some? then CheckCertificateVerify(st1, verify.value, cache, cfg, cr) else (st1, true);
            if !ok2 then (st2, FAILURE)
            else
              var (st3, ok3) := StartServerSuite(st2, msgs[CLIENT_KEY_EXCHANGE], cache, cfg, cr);
              if !ok3 then (st3, FAILURE) else AwaitFinished(st3, next, cache, cfg, cr)
    case _ => (st, KEEP_READING)
  }

  // ---------------------------------------------------------------- flights 5 and 6: Finished

  function ServerFinishedRule(cfg: Config): Rule {
    Rule(FINISHED, cfg.initialEpoch + 1, false, false)
  }

  function Parse5(st: State, cache: seq<Item>, cfg: Config, cr: Crypto): (State, Outcome) {
    match FullPull(cache, st.recvSequence, [ServerFinishedRule(cfg)], cr.decode)
    case Messages(_, msgs) =>
      if FINISHED !in msgs || !msgs[FINISHED].Finished? then (st, INTERNAL_ERROR)
      else if st.suite == None then (st, Next(5))
      else
        var expected := cr.serverVerifyData(st.master, Transcript(cache, FinishedRules(cfg.initialEpoch)));
        if expected == None || expected.value != msgs[FINISHED].verifyData then (st, FAILURE) else (st, Next(5))
    case _ => (st, KEEP_READING)
  }

  function Parse6(st: State, cache: seq<Item>, cfg: Config, cr: Crypto): (State, Outcome) {
    match FullPull(cache, st.recvSequence - 1, [ClientFinishedRule(cfg)], cr.decode)
    case Messages(_, msgs) =>
      if FINISHED in msgs && !msgs[FINISHED].Finished? then (st, INTERNAL_ERROR) else (st, Next(6))
    case _ => (st, KEEP_READING)
  }

  function Parse(f: Flight, st: State, cache: seq<Item>, cfg: Config, cr: Crypto): (State, Outcome) {
    match f
    case 0 => Parse0(st, cache, cfg, cr)
    case 1 => Parse1(st, cache, cfg, cr)
    case 2 => Parse2(st, cache, cfg, cr)
    case 3 => Parse3(st, cache, cfg, cr)
    case 4 => Parse4(st, cache, cfg, cr)
    case 5 => Parse5(st, cache, cfg, cr)
    case _ => Parse6(st, cache, cfg, cr)
  }

  predicate IsLastSendFlight(f: Flight) { f == 6 }

  predicate IsLastRecvFlight(f: Flight) { f == 5 }

  predicate HasRetransmit(f: Flight) { f != 2 }

  // ---------------------------------------------------------------- generate

  datatype Generated = Generated(state: State, packets: Option<seq<FlightPacket>>)

  /** The client's secrets and cipher suite, checked against the server's signed key, once. */
  function StartClientSuite(st: State, key: Msg, merged: Bytes, cache: seq<Item>, cfg: Config,
                            cr: Crypto): (State, bool)
    requires key.ServerKeyExchange?
  {
    if st.suite.Some? && st.suite.value.initialized then (st, true)
    else
      var master :=
        if st.suite == None then Some(st.master)
        else if st.ems then cr.extendedMaster(st.preMaster, cr.hash(SessionHashInput(cache, cfg.initialEpoch, merged)))
        else cr.plainMaster(st.preMaster, st.localRandom, st.remoteRandom);
      if master == None then (st, false)
      else
        var st1 := st.(master := master.value);
        var trusted := key.algorithm in cfg.schemes && cr.serverKeyOk(key, st.peerCertificates);
        if !cfg.psk && !(trusted && cr.callbackOk(st.peerCertificates))
        then (st1, false)
        else if st1.suite == None then (st1, true)
        else if !cr.initSuite(st1.master) then (st1, false)
        else (st1.(suite := Some(st.suite.value.(initialized := true))), true)
  }

  /** A message body that marshals and fits a handshake header. */
  function Body(m: Msg, cr: Crypto): Option<Bytes> {
    var b := cr.encode(m);
    if b.Some? && |b.value| < 0x100_0000 then b else None
  }

  ghost predicate Short(b: Option<Bytes>) {
    b.Some? ==> |b.value| < 0x100_0000
  }

  lemma UnsentShort(cert: Option<Bytes>, key: Bytes, verify: Option<Bytes>)
    requires Short(cert) && Short(verify) && |key| < 0x100_0000
    ensures DtlsTranscript.AllWf(Unsent(cert, key, verify))
  {
  }

  /** The unsent messages of flight 5 marshalled under predicted numbers. */
  function Merged(cert: Option<Bytes>, key: Bytes, verify: Option<Bytes>, n: nat): Bytes
    requires Short(cert) && Short(verify) && |key| < 0x100_0000
  {
    UnsentShort(cert, key, verify);
    Marshalled(Unsent(cert, key, verify), n)
  }

  /** The last packets of a side: change of cipher spec, then Finished in the next epoch. */
  function FinishedPackets(st: State, cr: Crypto): Option<seq<FlightPacket>> {
    match Body(Finished(st.verifyData), cr)
    case None => None
    case Some(b) => Some([FlightCipherSpec(0), FlightHandshake(Pending(FINISHED, b), 1)])
  }

  /** The server's key exchange as flight 5 reads it again from the cache; it may be absent with a PSK. */
  function ServerKey(st: State, cache: seq<Item>, cfg: Config, cr: Crypto): (State, Option<Msg>) {
    var raw := Transcript(cache, [Rule(SERVER_KEY_EXCHANGE, cfg.initialEpoch, false, false)]);
    if raw == [] then
      var (st', ok) := TakeServerKey(st, [], 0, [], cfg, cr);
      (st', if ok then Some(ServerKeyExchange([], 0, [], 0, [])) else None)
    else
      match cr.decode(raw)
      case None => (st, None)
      case Some((_, m)) => (st, if m.ServerKeyExchange? then Some(m) else None)
  }

  function ClientKey(st: State, cfg: Config): Msg {
    if cfg.psk then ClientKeyExchange(cfg.pskIdentity, [])
    else ClientKeyExchange([], if st.keypair.Some? then st.keypair.value else [])
  }

  /** Signature over everything so far, if the server asked for a certificate and there is one. */
  function Proof(st: State, merged: Bytes, cache: seq<Item>, cfg: Config, cr: Crypto): (Option<Bytes>, bool) {
    if !st.requestedCertificate || cfg.chain == [] then (None, true)
    else
      match cr.sign(Transcript(cache, SessionRules(cfg.initialEpoch)) + merged)
      case None => (None, false)
      case Some(m) => (Body(m, cr), Body(m, cr).Some?)
  }

  function FinishClient(st: State, cert: Option<Bytes>, key: Bytes, verify: Option<Bytes>,
                              cache: seq<Item>, cfg: Config, cr: Crypto): Generated
    requires Short(cert) && Short(verify) && |key| < 0x100_0000
  {
    var merged := Merged(cert, key, verify, st.sendSequence);
    var data :=
      if st.verifyData != [] || st.suite == None then Some(st.verifyData)
      else cr.clientVerifyData(st.master, Transcript(cache, FinishedRules(cfg.initialEpoch)) + merged);
    if data == None then Generated(st, None)
    else
      var st' := st.(verifyData := data.value);
      var last := FinishedPackets(st', cr);
      Generated(st', if last == None then None else Some(InFlight(Unsent(cert, key, verify), 0) + last.value))
  }

  function Generate5(st: State, cache: seq<Item>, cfg: Config, cr: Crypto): Generated {
    var cert := if st.requestedCertificate then Body(Certificate(cfg.chain), cr) else None;
    var (st1, serverKey) := ServerKey(st, cache, cfg, cr);
    var key := Body(ClientKey(st, cfg), cr);
    if serverKey == None || key == None || (st.requestedCertificate && cert == None) then Generated(st1, None)
    else
      var merged := Merged(cert, key.value, None, st1.sendSequence);
      var (st2, ok2) := StartClientSuite(st1, serverKey.value, merged, cache, cfg, cr);
      if !ok2 then Generated(st2, None)
      else
        var (verify, ok3) := Proof(st2, merged, cache, cfg, cr);
        if !ok3 then Generated(st2, None)
        else FinishClient(st2, cert, key.value, verify, cache, cfg, cr)
  }

  function Generate6(st: State, cache: seq<Item>, cfg: Config, cr: Crypto): Generated {
    var data :=
      if st.verifyData != [] || st.suite == None then Some(st.verifyData)
      else cr.serverVerifyData(st.master, Transcript(cache, FinishedRules(cfg.initialEpoch)));
    if data == None then Generated(st, None)
    else
      var st' := st.(verifyData := data.value);
      Generated(st', FinishedPackets(st', cr))
  }

  function Generate(f: Flight, st: State, cache: seq<Item>, cfg: Config, cr: Crypto): Generated {
    match f
    case 0 => Generated(st.(cookie := cr.cookie, localEpoch := 0, remoteEpoch := 0, localRandom := cr.random), Some([]))
    case 1 =>
      var st' := st.(cookie := [], localEpoch := 0, remoteEpoch := 0, localRandom := cr.random);
      Generated(st', cr.helloPackets(1, st))
    case 2 => Generated(st.(sendSequence := 0), cr.helloPackets(2, st))
    case 3 => Generated(st, cr.helloPackets(3, st))
    case 4 => Generated(st, cr.helloPackets(4, st))
    case 5 => Generate5(st, cache, cfg, cr)
    case _ => Generate6(st, cache, cfg, cr)
  }
}
