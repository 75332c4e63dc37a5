/**
 The receiving side of a DTLS connection (rtc-dtls/src/conn/mod.rs:441-769): records of a datagram
 pass the epoch, replay and cipher gates, handshake records feed the fragment buffer, and every
 message that is complete and next in order goes to the handshake cache.
 */
module DtlsReceiver {
  import opened Bytes
  import opened DtlsRecord
  import opened DtlsFragment
  import Cache = DtlsCache

  /** The cipher suite's `decrypt`, whether it is a PSK suite, and which byte strings parse as a handshake. */
  datatype Keys = Keys(open: Bytes -> Option<Bytes>, psk: bool, parses: Bytes -> bool)

  datatype AlertMessage = AlertMessage(level: Byte, description: Byte)

  const WARNING: Byte := 1
  const FATAL: Byte := 2
  const CLOSE_NOTIFY: Byte := 0
  const UNEXPECTED_MESSAGE: Byte := 10
  const DECODE_ERROR: Byte := 50
  const UNKNOWN_PSK_IDENTITY: Byte := 115

  datatype Receiver = Receiver(
    isClient: bool,
    remoteEpoch: nat,
    cipherReady: bool,
    buffer: BufferState,
    cache: seq<Cache.Item>,
    queued: seq<Bytes>,
    appData: seq<Bytes>,
    popped: seq<(Bytes, U16)>)

  /** Result of handling one record: the flag, alert and error the source returns. */
  datatype Handled = Handled(receiver: Receiver, handshake: bool, alert: Option<AlertMessage>, failed: bool)

  ghost function Nothing(r: Receiver): Handled {
    Handled(r, false, None, false)
  }

  /** A reassembled message leaves the buffer and, if it parses, is cached under the peer's name. */
  ghost function Taken(r: Receiver, out: Bytes, epoch: U16, k: Keys): Receiver {
    var h := DecodeHandshakeHeader(out);
    var r' := r.(buffer := Popped(r.buffer), popped := r.popped + [(out, epoch)]);
    if k.parses(out) && h.Ok? then
      r'.(cache := Cache.Pushed(r.cache, Cache.Item(h.value.typ, !r.isClient, epoch, h.value.messageSequence, out)))
    else r'
  }

  /** The pop loop: takes messages while the next one is complete. */
  ghost function TakeAll(r: Receiver, k: Keys): Receiver
    decreases |r.buffer.cache|
  {
    match PopResult(r.buffer)
    case Err(_) => r
    case Ok((out, epoch)) => TakeAll(Taken(r, out, epoch, k), k)
  }

  /** A record that is not a handshake: alert, change cipher spec, application data or garbage. */
  ghost function HandleContent(r: Receiver, h: RecordHeader, pkt: Bytes, enqueue: bool): Handled
    requires |pkt| >= RECORD_LAYER_HEADER_SIZE
  {
    var content := pkt[RECORD_LAYER_HEADER_SIZE..];
    var broken := Handled(r, false, Some(AlertMessage(FATAL, DECODE_ERROR)), true);
    match ContentFrom(pkt[0])
    case Alert =>
      if |content| < 2 then broken
      else
        var a := AlertMessage(if content[1] == CLOSE_NOTIFY then WARNING else content[0], content[1]);
        Handled(r, false, Some(a), true)
    case ChangeCipherSpec =>
      if |content| < 1 || content[0] != 1 then broken
      else if !r.cipherReady then Nothing(if enqueue then r.(queued := r.queued + [pkt]) else r)
      else if r.remoteEpoch == h.epoch then Nothing(r.(remoteEpoch := h.epoch + 1))
      else Nothing(r)
    case ApplicationData =>
      if h.epoch == 0 then Handled(r, false, Some(AlertMessage(FATAL, UNEXPECTED_MESSAGE)), true)
      else Nothing(r.(appData := r.appData + [content]))
    case _ => broken
  }

  /** A record that passed the gates and was decrypted. */
  ghost function HandlePlain(r: Receiver, h: RecordHeader, pkt: Bytes, enqueue: bool, k: Keys): Handled {
    var (buffer, pushed) := Pushed(r.buffer, pkt);
    var r' := r.(buffer := buffer);
    match pushed
    case Err(_) => Nothing(r')
    case Ok(true) => Handled(TakeAll(r', k), true, None, false)
    case Ok(false) => HandleContent(r', h, pkt, enqueue)
  }

  /** One record; `fresh` is the replay detector's answer. */
  ghost function HandleRecord(r: Receiver, pkt: Bytes, enqueue: bool, fresh_: bool, k: Keys): Handled {
    match DecodeRecordHeader(pkt)
    case Err(_) => Nothing(r)
    case Ok(h) =>
      var kept := if enqueue then r.(queued := r.queued + [pkt]) else r;
      if h.epoch > r.remoteEpoch then Nothing(if h.epoch > r.remoteEpoch + 1 then r else kept)
      else if !fresh_ then Nothing(r)
      else if h.epoch == 0 then HandlePlain(r, h, pkt, enqueue, k)
      else if !r.cipherReady then Nothing(kept)
      else
        match k.open(pkt)
        case None =>
          if k.psk then Handled(r, false, Some(AlertMessage(FATAL, UNKNOWN_PSK_IDENTITY)), false) else Nothing(r)
        case Some(plain) => HandlePlain(r, h, plain, enqueue, k)
  }

  predicate Stops(alert: Option<AlertMessage>, failed: bool) {
    failed || (alert.Some? && (alert.value.level == FATAL || alert.value.description == CLOSE_NOTIFY))
  }

  /** The records of one datagram in order, until one is fatal; also how queued records are re-read. */
  ghost function HandleAll(r: Receiver, pkts: seq<Bytes>, enqueue: bool, fresh_: nat -> bool, k: Keys): Receiver
    decreases |pkts|
  {
    if pkts == [] then r
    else
      var h := HandleRecord(r, pkts[0], enqueue, fresh_(|pkts|), k);
      if Stops(h.alert, h.failed) then h.receiver else HandleAll(h.receiver, pkts[1..], enqueue, fresh_, k)
  }

  /** What a read reports beside the new state: a handshake arrived, no record was fatal, the alerts sent back. */
  datatype Report = Report(handshake: bool, ok: bool, alerts: seq<AlertMessage>)

  ghost function AlertsOf(alert: Option<AlertMessage>): seq<AlertMessage> {
    if alert == None then [] else [alert.value]
  }

  /** The report of `h` in front of that of the records after it. */
  ghost function Reported(h: Handled, rest: Report): Report {
    Report(h.handshake || rest.handshake, rest.ok, AlertsOf(h.alert) + rest.alerts)
  }

  /** The report of the records of one datagram; a fatal one is the last. */
  ghost function ReportAll(r: Receiver, pkts: seq<Bytes>, enqueue: bool, fresh_: nat -> bool, k: Keys): Report
    decreases |pkts|
  {
    if pkts == [] then Report(false, true, [])
    else
      var h := HandleRecord(r, pkts[0], enqueue, fresh_(|pkts|), k);
      if Stops(h.alert, h.failed) then Report(false, false, AlertsOf(h.alert))
      else Reported(h, ReportAll(h.receiver, pkts[1..], enqueue, fresh_, k))
  }

  ghost function ReportDatagram(r: Receiver, buf: Bytes, fresh_: nat -> bool, k: Keys): Report {
    match Unpack(buf)
    case Err(_) => Report(false, false, [])
    case Ok(pkts) => ReportAll(r, pkts, true, fresh_, k)
  }

  /** `done` in front of what the remaining records report. */
  ghost function Continued(done: Report, rest: Report): Report {
    Report(done.handshake || rest.handshake, rest.ok, done.alerts + rest.alerts)
  }

  lemma ContinuedTwice(done: Report, h: Handled, rest: Report)
    ensures Continued(done, Reported(h, rest))
         == Continued(Report(done.handshake || h.handshake, true, done.alerts + AlertsOf(h.alert)), rest)
  {
    Assoc(done.alerts, AlertsOf(h.alert), rest.alerts);
  }

  ghost function ReadDatagram(r: Receiver, buf: Bytes, fresh_: nat -> bool, k: Keys): Receiver {
    match Unpack(buf)
    case Err(_) => r
    case Ok(pkts) => HandleAll(r, pkts, true, fresh_, k)
  }

  lemma {:induction false} TakeAllKeepsQueue(r: Receiver, k: Keys)
    ensures TakeAll(r, k).queued == r.queued && TakeAll(r, k).isClient == r.isClient
    decreases |r.buffer.cache|
  {
    match PopResult(r.buffer)
    case Err(_) =>
    case Ok((out, epoch)) => TakeAllKeepsQueue(Taken(r, out, epoch, k), k);
  }

  lemma PlainKeepsQueue(r: Receiver, h: RecordHeader, pkt: Bytes, k: Keys)
    ensures HandlePlain(r, h, pkt, false, k).receiver.queued == r.queued
  {
    var (buffer, pushed) := Pushed(r.buffer, pkt);
    if pushed == Ok(true) {
      TakeAllKeepsQueue(r.(buffer := buffer), k);
    } else if pushed == Ok(false) {
      ContentKeepsQueue(r.(buffer := buffer), h, pkt);
    }
  }

  lemma ContentKeepsQueue(r: Receiver, h: RecordHeader, pkt: Bytes)
    requires |pkt| >= RECORD_LAYER_HEADER_SIZE
    ensures HandleContent(r, h, pkt, false).receiver.queued == r.queued
  {
  }

  lemma RereadKeepsQueue(r: Receiver, pkt: Bytes, fresh_: bool, k: Keys)
    ensures HandleRecord(r, pkt, false, fresh_, k).receiver.queued == r.queued
  {
    var h := DecodeRecordHeader(pkt);
    if h.Ok? {
      PlainKeepsQueue(r, h.value, pkt, k);
      if k.open(pkt).Some? {
        PlainKeepsQueue(r, h.value, k.open(pkt).value, k);
      }
    }
  }

  /** Records set aside earlier are handled again, without being set aside a second time. */
  ghost function Reread(r: Receiver, fresh_: nat -> bool, k: Keys): Receiver
    decreases |r.queued|
  {
    if r.queued == [] then r
    else
      var rest := r.(queued := r.queued[1..]);
      var h := HandleRecord(rest, r.queued[0], false, fresh_(|r.queued|), k);
      RereadKeepsQueue(rest, r.queued[0], fresh_(|r.queued|), k);
      if Stops(h.alert, h.failed) then h.receiver else Reread(h.receiver, fresh_, k)
  }

  /** The report of re-reading the queue; handshakes among them do not count. */
  ghost function ReportReread(r: Receiver, fresh_: nat -> bool, k: Keys): Report
    decreases |r.queued|
  {
    if r.queued == [] then Report(false, true, [])
    else
      var rest := r.(queued := r.queued[1..]);
      var h := HandleRecord(rest, r.queued[0], false, fresh_(|r.queued|), k);
      RereadKeepsQueue(rest, r.queued[0], fresh_(|r.queued|), k);
      if Stops(h.alert, h.failed) then Report(false, false, AlertsOf(h.alert))
      else Reported(h.(handshake := false), ReportReread(h.receiver, fresh_, k))
  }

  class Conn {
    const isClient: bool
    const buffer: FragmentBuffer
    const cache: Cache.HandshakeCache
    var remoteEpoch: nat
    var cipherReady: bool
    var queued: seq<Bytes>
    var appData: seq<Bytes>
    var handshakeRx: bool
    var alerts: seq<AlertMessage>
    ghost var popped: seq<(Bytes, U16)>

    ghost function State(): Receiver
      reads this, buffer, cache
    {
      Receiver(isClient, remoteEpoch, cipherReady, buffer.State(), cache.cache, queued, appData, popped)
    }

    constructor (isClient: bool)
      ensures State() == NewReceiver(isClient) && !handshakeRx && alerts == []
      ensures fresh(buffer) && fresh(cache)
    {
      this.isClient := isClient;
      remoteEpoch, cipherReady, queued, appData, handshakeRx, alerts, popped := 0, false, [], [], false, [], [];
      buffer := new FragmentBuffer();
      cache := new Cache.HandshakeCache();
    }

    /** The pop loop of `handle_incoming_packet`. */
    method TakeMessages(k: Keys)
      modifies this`popped, buffer, cache
      ensures State() == TakeAll(old(State()), k)
    {
      var next := true;
      while next
        invariant next ==> TakeAll(old(State()), k) == TakeAll(State(), k)
        invariant !next ==> TakeAll(old(State()), k) == State()
        decreases |buffer.cache|, next
      {
        ghost var before := State();
        var r := buffer.Pop();
        match r {
          case Err(_) =>
            next := false;
          case Ok((out, epoch)) =>
            popped := popped + [(out, epoch)];
            var h := DecodeHandshakeHeader(out);
            if k.parses(out) && h.Ok? {
              var _ := cache.Push(Cache.Item(h.value.typ, !isClient, epoch, h.value.messageSequence, out));
            }
            assert State() == Taken(before, out, epoch, k);
        }
      }
    }

    method ProcessContent(h: RecordHeader, pkt: Bytes, enqueue: bool)
      returns (alert: Option<AlertMessage>, failed: bool)
      requires |pkt| >= RECORD_LAYER_HEADER_SIZE
      modifies this`queued, this`remoteEpoch, this`appData
      ensures Handled(State(), false, alert, failed) == HandleContent(old(State()), h, pkt, enqueue)
    {
      var content := pkt[RECORD_LAYER_HEADER_SIZE..];
      match ContentFrom(pkt[0])
      case Alert =>
        if |content| < 2 {
          return Some(AlertMessage(FATAL, DECODE_ERROR)), true;
        }
        var a := AlertMessage(content[0], content[1]);
        if a.description == CLOSE_NOTIFY {
          a := AlertMessage(WARNING, CLOSE_NOTIFY);
        }
        return Some(a), true;
      case ChangeCipherSpec =>
        if |content| < 1 || content[0] != 1 {
          return Some(AlertMessage(FATAL, DECODE_ERROR)), true;
        }
        if !cipherReady {
          if enqueue {
            queued := queued + [pkt];
          }
          return None, false;
        }
        if remoteEpoch + 1 == h.epoch + 1 {
          remoteEpoch := h.epoch + 1;
        }
        return None, false;
      case ApplicationData =>
        if h.epoch == 0 {
          return Some(AlertMessage(FATAL, UNEXPECTED_MESSAGE)), true;
        }
        appData := appData + [content];
        return None, false;
      case _ =>
        return Some(AlertMessage(FATAL, DECODE_ERROR)), true;
    }

    method HandleIncomingPacket(raw: Bytes, enqueue: bool, fresh_: bool, k: Keys)
      returns (handshake: bool, alert: Option<AlertMessage>, failed: bool)
      modifies this`queued, this`remoteEpoch, this`appData, this`popped, buffer, cache
      ensures Handled(State(), handshake, alert, failed) == HandleRecord(old(State()), raw, enqueue, fresh_, k)
    {
      var pkt := raw;
      handshake, alert, failed := false, None, false;
      var decoded := DecodeRecordHeader(pkt);
      if decoded.Err? {
        return;
      }
      var h := decoded.value;
      if h.epoch > remoteEpoch {
        if h.epoch > remoteEpoch + 1 {
          return;
        }
        if enqueue {
          queued := queued + [pkt];
        }
        return;
      }
      if !fresh_ {
        return;
      }
      if h.epoch != 0 {
        if !cipherReady {
          if enqueue {
            queued := queued + [pkt];
          }
          return;
        }
        var plain := k.open(pkt);
        if plain == None {
          if k.psk {
            alert := Some(AlertMessage(FATAL, UNKNOWN_PSK_IDENTITY));
          }
          return;
        }
        pkt := plain.value;
      }
      var pushed := buffer.Push(pkt);
      if pushed.Err? {
        return;
      }
      if pushed.value {
        TakeMessages(k);
        handshake := true;
        return;
      }
      alert, failed := ProcessContent(h, pkt, enqueue);
    }

    /** One record and the alert sent back for it. */
    method HandleOne(p: Bytes, enqueue: bool, fresh_: bool, k: Keys) returns (handshake: bool, stop: bool)
      modifies this`queued, this`remoteEpoch, this`appData, this`popped, this`alerts, buffer, cache
      ensures var h := HandleRecord(old(State()), p, enqueue, fresh_, k);
              && State() == h.receiver && alerts == old(alerts) + AlertsOf(h.alert)
              && stop == Stops(h.alert, h.failed) && handshake == h.handshake
    {
      hide HandleRecord;
      var alert, failed;
      handshake, alert, failed := HandleIncomingPacket(p, enqueue, fresh_, k);
      if alert.Some? {
        alerts := alerts + [alert.value];
      } else {
        assert alerts == alerts + [];
      }
      stop := Stops(alert, failed);
    }

    method Read(buf: Bytes, fresh_: nat -> bool, k: Keys) returns (ok: bool)
      modifies this, buffer, cache
      ensures State() == ReadDatagram(old(State()), buf, fresh_, k)
      ensures var report := ReportDatagram(old(State()), buf, fresh_, k);
              && ok == report.ok && alerts == old(alerts) + report.alerts
              && handshakeRx == (old(handshakeRx) || report.handshake)
    {
      hide HandleRecord, Unpack;
      var unpacked := UnpackDatagram(buf);
      if unpacked.Err? {
        assert alerts == old(alerts) + [];
        return false;
      }
      var pkts := unpacked.value;
      ghost var whole := ReportAll(State(), pkts, true, fresh_, k);
      while pkts != []
        invariant HandleAll(old(State()), unpacked.value, true, fresh_, k) == HandleAll(State(), pkts, true, fresh_, k)
        invariant Continued(Report(old(handshakeRx), true, old(alerts)), whole)
               == Continued(Report(handshakeRx, true, alerts), ReportAll(State(), pkts, true, fresh_, k))
        decreases |pkts|
      {
        ghost var h := HandleRecord(State(), pkts[0], true, fresh_(|pkts|), k);
        ContinuedTwice(Report(handshakeRx, true, alerts), h, ReportAll(h.receiver, pkts[1..], true, fresh_, k));
        var hs, stop := HandleOne(pkts[0], true, fresh_(|pkts|), k);
        if stop {
          return false;
        }
        if hs {
          handshakeRx := true;
        }
        pkts := pkts[1..];
      }
      assert alerts + [] == alerts;
      ok := true;
    }

    method HandleIncomingQueuedPackets(completed: bool, fresh_: nat -> bool, k: Keys) returns (ok: bool)
      modifies this, buffer, cache
      ensures State() == if completed then Reread(old(State()), fresh_, k) else old(State())
      ensures handshakeRx == old(handshakeRx)
      ensures var report := if completed then ReportReread(old(State()), fresh_, k) else Report(false, true, []);
              ok == report.ok && alerts == old(alerts) + report.alerts
    {
      hide HandleRecord;
      if completed {
        ghost var whole := ReportReread(State(), fresh_, k);
        while queued != []
          invariant Reread(old(State()), fresh_, k) == Reread(State(), fresh_, k)
          invariant handshakeRx == old(handshakeRx)
          invariant Continued(Report(false, true, old(alerts)), whole)
                 == Continued(Report(false, true, alerts), ReportReread(State(), fresh_, k))
          decreases |queued|
        {
          var n := |queued|;
          var p := queued[0];
          queued := queued[1..];
          RereadKeepsQueue(State(), p, fresh_(n), k);
          ghost var h := HandleRecord(State(), p, false, fresh_(n), k);
          ContinuedTwice(Report(false, true, alerts), h.(handshake := false), ReportReread(h.receiver, fresh_, k));
          var _, stop := HandleOne(p, false, fresh_(n), k);
          if stop {
            return false;
          }
        }
      }
      assert alerts + [] == alerts;
      ok := true;
    }
  }

  function NewReceiver(isClient: bool): Receiver {
    Receiver(isClient, 0, false, NEW_BUFFER, [], [], [], [])
  }
}
