/**
 The probe's event machine: one unauthenticated Allocate request, at most one retry
 with long-term credentials (section 10.2 of RFC 5389), and exactly one outcome.
 */
module TurnProbe {
  import opened Base
  import opened Stun

  const UNAUTHORIZED := 401

  datatype Evidence =
    | Relayed | CredentialIssued | Reachable
    | TimedOut | SocketFailed | Rejected | ServerError(code: Option<nat>)

  /** `text` is what becomes of received bytes that are decoded as UTF-8 and encoded again:
      malformed sequences are replaced. It is opaque here, like the digests. */
  datatype Config = Config(username: Bytes, credential: Bytes, mac: Mac, keyOf: KeyOf, text: Bytes -> Bytes)

  /** `newTid` is the random transaction id drawn if the event causes a retry. */
  datatype Event = Timer | SocketError | SendFailed | Datagram(bytes: Bytes, newTid: Bytes)

  /** `sent` is every request handed to the socket; `threw` says that building a retry raised
      an exception out of the message handler, because a length did not fit its field. */
  datatype Probe = Probe(
    outcome: Option<Evidence>, sentCredentials: bool, tid: Bytes, sent: seq<Bytes>, threw: bool)

  function FirstRequest(cfg: Config, tid: Bytes): Bytes {
    var r := AllocateRequest(tid, [], [], [], [], cfg.mac, cfg.keyOf);
    if r.Some? then r.value else []
  }

  function Start(cfg: Config, tid: Bytes): Probe { Probe(None, false, tid, [FirstRequest(cfg, tid)], false) }

  function Text(cfg: Config, m: Message, kind: U16): Bytes {
    if kind in m.attributes then cfg.text(m.attributes[kind]) else []
  }

  /** A 401 that carries what long-term credentials need. */
  predicate Challenge(cfg: Config, m: Message) {
    && m.kind == TYPE_ALLOCATE_ERROR && ErrorCodeFrom(m.attributes) == Some(UNAUTHORIZED)
    && Text(cfg, m, ATTR_REALM) != [] && Text(cfg, m, ATTR_NONCE) != []
  }

  function Retry(cfg: Config, m: Message, newTid: Bytes): Option<Bytes> {
    AllocateRequest(newTid, cfg.username, Text(cfg, m, ATTR_REALM), Text(cfg, m, ATTR_NONCE), cfg.credential, cfg.mac, cfg.keyOf)
  }

  function OnDatagram(cfg: Config, p: Probe, bytes: Bytes, newTid: Bytes): Probe {
    var parsed := Parsed(bytes);
    if parsed.None? || parsed.value.transactionId != p.tid then p
    else
      var m := parsed.value;
      if m.kind == TYPE_ALLOCATE_SUCCESS then p.(outcome := Some(Relayed))
      else if m.kind == TYPE_ALLOCATE_ERROR then
        if Challenge(cfg, m) then
          if p.sentCredentials then p.(outcome := Some(Rejected))
          else
            var retry := Retry(cfg, m, newTid);
            p.(sentCredentials := true, tid := newTid,
               sent := p.sent + (if retry.Some? then [retry.value] else []), threw := retry.None?)
        else if ErrorCodeFrom(m.attributes) == Some(UNAUTHORIZED) then p.(outcome := Some(CredentialIssued))
        else p.(outcome := Some(ServerError(ErrorCodeFrom(m.attributes))))
      else p.(outcome := Some(Reachable))
  }

  /** Once settled the socket is closed and the timer cleared. */
  function Handle(cfg: Config, p: Probe, e: Event): Probe {
    if p.outcome.Some? then p
    else
      match e
      case Timer => p.(outcome := Some(TimedOut))
      case SocketError => p.(outcome := Some(SocketFailed))
      case SendFailed => p.(outcome := Some(SocketFailed))
      case Datagram(bytes, newTid) => OnDatagram(cfg, p, bytes, newTid)
  }

  class ProbeSocket {
    const cfg: Config
    var settled: Option<Evidence>
    var sentCredentials: bool
    var currentTransactionId: Bytes
    var sent: seq<Bytes>
    var threw: bool

    ghost function View(): Probe
      reads this
    {
      Probe(settled, sentCredentials, currentTransactionId, sent, threw)
    }

    constructor (cfg: Config, tid: Bytes)
      requires |tid| == 12
      ensures this.cfg == cfg && View() == Start(cfg, tid)
    {
      this.cfg := cfg;
      settled, sentCredentials, currentTransactionId := None, false, tid;
      sent, threw := [FirstRequest(cfg, tid)], false;
    }

    method Finish(evidence: Evidence)
      modifies this`settled
      ensures settled == if old(settled).Some? then old(settled) else Some(evidence)
    {
      if settled.Some? {
        return;
      }
      settled := Some(evidence);
    }

    method OnEvent(e: Event)
      requires e.Datagram? ==> |e.newTid| == 12
      modifies this
      ensures View() == Handle(cfg, old(View()), e)
    {
      match e
      case Timer => Finish(TimedOut);
      case SocketError => Finish(SocketFailed);
      case SendFailed => Finish(SocketFailed);
      case Datagram(bytes, newTid) =>
        if settled.None? {
          OnMessage(bytes, newTid);
        }
    }

    method OnMessage(bytes: Bytes, newTid: Bytes)
      requires settled.None? && |newTid| == 12
      modifies this
      ensures View() == OnDatagram(cfg, old(View()), bytes, newTid)
    {
      var parsed := ParseStunMessage(bytes);
      if parsed.None? || parsed.value.transactionId != currentTransactionId {
        return;
      }
      var m := parsed.value;
      if m.kind == TYPE_ALLOCATE_SUCCESS {
        Finish(Relayed);
        return;
      }
      if m.kind == TYPE_ALLOCATE_ERROR {
        var code := ErrorCodeFrom(m.attributes);
        if code == Some(UNAUTHORIZED) {
          var realm, nonce := Text(cfg, m, ATTR_REALM), Text(cfg, m, ATTR_NONCE);
          if realm != [] && nonce != [] {
            if sentCredentials {
              Finish(Rejected);
              return;
            }
            sentCredentials := true;
            currentTransactionId := newTid;
            var retry := BuildAllocateRequest(newTid, cfg.username, realm, nonce, cfg.credential, cfg.mac, cfg.keyOf);
            threw := retry.None?;
            if retry.Some? {
              sent := sent + [retry.value];
            }
            return;
          }
          Finish(CredentialIssued);
          return;
        }
        Finish(ServerError(code));
        return;
      }
      Finish(Reachable);
    }
  }

  // ── Whole runs ─────────────────────────────────────────────────────

  function Play(cfg: Config, p: Probe, events: seq<Event>): Probe {
    if events == [] then p else Handle(cfg, Play(cfg, p, events[..|events| - 1]), events[|events| - 1])
  }

  /** Event `i` is a message with the transaction id awaited at that point. */
  predicate Answered(cfg: Config, tid: Bytes, events: seq<Event>, i: nat)
    requires i < |events|
  {
    var p := Play(cfg, Start(cfg, tid), events[..i]);
    && p.outcome.None? && events[i].Datagram? && Parsed(events[i].bytes).Some?
    && Parsed(events[i].bytes).value.transactionId == p.tid
  }

  predicate SuccessAt(cfg: Config, tid: Bytes, events: seq<Event>, i: nat)
    requires i < |events|
  {
    Answered(cfg, tid, events, i) && Parsed(events[i].bytes).value.kind == TYPE_ALLOCATE_SUCCESS
  }

  predicate ChallengedAt(cfg: Config, tid: Bytes, events: seq<Event>, i: nat)
    requires i < |events|
  {
    && Answered(cfg, tid, events, i) && Challenge(cfg, Parsed(events[i].bytes).value)
    && Parsed(events[i].bytes).value.transactionId == tid
  }

  /** The challenge at `i` explains the retry: its realm and nonce, a fresh id. */
  predicate RetriedAt(cfg: Config, tid: Bytes, events: seq<Event>, i: nat)
    requires i < |events|
  {
    && ChallengedAt(cfg, tid, events, i)
    && var p, retry := Play(cfg, Start(cfg, tid), events), Retry(cfg, Parsed(events[i].bytes).value, events[i].newTid);
    && p.tid == events[i].newTid
    && p.sent == [FirstRequest(cfg, tid)] + (if retry.Some? then [retry.value] else [])
  }

  lemma EarlierEvents(cfg: Config, tid: Bytes, events: seq<Event>, e: Event, i: nat)
    requires i < |events|
    ensures SuccessAt(cfg, tid, events + [e], i) <==> SuccessAt(cfg, tid, events, i)
    ensures ChallengedAt(cfg, tid, events + [e], i) <==> ChallengedAt(cfg, tid, events, i)
  {
    assert (events + [e])[..i] == events[..i];
  }

  lemma PlayStep(cfg: Config, p: Probe, events: seq<Event>, e: Event)
    ensures Play(cfg, p, events + [e]) == Handle(cfg, Play(cfg, p, events), e)
  {
    assert (events + [e])[..|events|] == events;
  }

  /** What one event can change. */
  lemma HandleEffects(cfg: Config, p: Probe, e: Event)
    ensures var q := Handle(cfg, p, e);
      && (q.outcome == Some(Relayed) && p.outcome != Some(Relayed) ==>
            && p.outcome.None? && e.Datagram? && Parsed(e.bytes).Some?
            && Parsed(e.bytes).value.transactionId == p.tid
            && Parsed(e.bytes).value.kind == TYPE_ALLOCATE_SUCCESS)
      && (q.sentCredentials && !p.sentCredentials ==>
            && p.outcome.None? && e.Datagram? && Parsed(e.bytes).Some?
            && Parsed(e.bytes).value.transactionId == p.tid
            && Challenge(cfg, Parsed(e.bytes).value)
            && q.tid == e.newTid
            && var retry := Retry(cfg, Parsed(e.bytes).value, e.newTid);
               q.sent == p.sent + (if retry.Some? then [retry.value] else []))
      && (q.sentCredentials == p.sentCredentials ==> q.tid == p.tid && q.sent == p.sent)
      && (p.sentCredentials ==> q.sentCredentials)
  {
  }

  ghost predicate SuccessSeen(cfg: Config, tid: Bytes, events: seq<Event>) {
    exists i: nat :: i < |events| && SuccessAt(cfg, tid, events, i)
  }

  ghost predicate RetrySeen(cfg: Config, tid: Bytes, events: seq<Event>) {
    exists i: nat :: i < |events| && RetriedAt(cfg, tid, events, i)
  }

  lemma {:induction false} RelayIsJustified(cfg: Config, tid: Bytes, events: seq<Event>)
    requires Play(cfg, Start(cfg, tid), events).outcome == Some(Relayed)
    ensures SuccessSeen(cfg, tid, events)
  {
    var n := |events| - 1;
    var before, e := events[..n], events[n];
    var p := Play(cfg, Start(cfg, tid), before);
    assert before + [e] == events;
    if p.outcome == Some(Relayed) {
      RelayIsJustified(cfg, tid, before);
      var i: nat :| i < |before| && SuccessAt(cfg, tid, before, i);
      EarlierEvents(cfg, tid, before, e, i);
    } else {
      HandleEffects(cfg, p, e);
      assert SuccessAt(cfg, tid, events, n);
    }
  }

  lemma {:induction false} NothingSentYet(cfg: Config, tid: Bytes, events: seq<Event>)
    requires !Play(cfg, Start(cfg, tid), events).sentCredentials
    ensures var p := Play(cfg, Start(cfg, tid), events); p.sent == [FirstRequest(cfg, tid)] && p.tid == tid
  {
    if events != [] {
      var n := |events| - 1;
      HandleEffects(cfg, Play(cfg, Start(cfg, tid), events[..n]), events[n]);
      NothingSentYet(cfg, tid, events[..n]);
    }
  }

  lemma {:induction false} RetryIsJustified(cfg: Config, tid: Bytes, events: seq<Event>)
    requires Play(cfg, Start(cfg, tid), events).sentCredentials
    ensures RetrySeen(cfg, tid, events)
  {
    var n := |events| - 1;
    var before, e := events[..n], events[n];
    var p := Play(cfg, Start(cfg, tid), before);
    assert before + [e] == events;
    HandleEffects(cfg, p, e);
    if p.sentCredentials {
      RetryIsJustified(cfg, tid, before);
      var i: nat :| i < |before| && RetriedAt(cfg, tid, before, i);
      EarlierEvents(cfg, tid, before, e, i);
      assert RetriedAt(cfg, tid, events, i);
    } else {
      NothingSentYet(cfg, tid, before);
      assert RetriedAt(cfg, tid, events, n);
    }
  }

  /** The probe reports a relay only on a success response to the request it was
      waiting on, and credentials leave the host at most once, only in reply to a 401
      challenge for the first request, with that challenge's realm and nonce and under
      the fresh transaction id that later responses must match. */
  lemma OutcomeIsJustified(cfg: Config, tid: Bytes, events: seq<Event>)
    ensures var p := Play(cfg, Start(cfg, tid), events);
      && (p.outcome == Some(Relayed) ==> SuccessSeen(cfg, tid, events))
      && (!p.sentCredentials ==> p.sent == [FirstRequest(cfg, tid)] && p.tid == tid)
      && (p.sentCredentials ==> RetrySeen(cfg, tid, events))
  {
    var p := Play(cfg, Start(cfg, tid), events);
    if p.outcome == Some(Relayed) {
      RelayIsJustified(cfg, tid, events);
    }
    if p.sentCredentials {
      RetryIsJustified(cfg, tid, events);
    } else {
      NothingSentYet(cfg, tid, events);
    }
  }

  // ── What settles a run ─────────────────────────────────────────────

  /** Event `i` finds the probe still undecided. */
  predicate OpenAt(cfg: Config, tid: Bytes, events: seq<Event>, i: nat)
    requires i < |events|
  {
    Play(cfg, Start(cfg, tid), events[..i]).outcome.None?
  }

  predicate ErrorAt(cfg: Config, tid: Bytes, events: seq<Event>, i: nat, code: Option<nat>)
    requires i < |events|
  {
    && Answered(cfg, tid, events, i) && Parsed(events[i].bytes).value.kind == TYPE_ALLOCATE_ERROR
    && ErrorCodeFrom(Parsed(events[i].bytes).value.attributes) == code
  }

  /** The challenge at `i` carries both a realm and a nonce. */
  predicate FullChallengeAt(cfg: Config, tid: Bytes, events: seq<Event>, i: nat)
    requires i < |events|
  {
    && ErrorAt(cfg, tid, events, i, Some(UNAUTHORIZED))
    && var m := Parsed(events[i].bytes).value;
    && Text(cfg, m, ATTR_REALM) != [] && Text(cfg, m, ATTR_NONCE) != []
  }

  /** An earlier full challenge, still for the first request, was answered with credentials. */
  predicate CredentialsSentBefore(cfg: Config, tid: Bytes, events: seq<Event>, i: nat)
    requires i < |events|
  {
    exists j :: 0 <= j < i && FullChallengeAt(cfg, tid, events, j)
  }

  /** Which event settles a run as what, in terms of timers, errors and parsed answers. */
  predicate SettlesAt(cfg: Config, tid: Bytes, events: seq<Event>, i: nat, v: Evidence)
    requires i < |events|
  {
    match v
    case TimedOut => OpenAt(cfg, tid, events, i) && events[i].Timer?
    case SocketFailed => OpenAt(cfg, tid, events, i) && (events[i].SocketError? || events[i].SendFailed?)
    case Relayed => SuccessAt(cfg, tid, events, i)
    case Rejected => FullChallengeAt(cfg, tid, events, i) && CredentialsSentBefore(cfg, tid, events, i)
    case CredentialIssued =>
      ErrorAt(cfg, tid, events, i, Some(UNAUTHORIZED)) && !FullChallengeAt(cfg, tid, events, i)
    case ServerError(code) => ErrorAt(cfg, tid, events, i, code) && code != Some(UNAUTHORIZED)
    case Reachable =>
      && Answered(cfg, tid, events, i)
      && Parsed(events[i].bytes).value.kind != TYPE_ALLOCATE_SUCCESS
      && Parsed(events[i].bytes).value.kind != TYPE_ALLOCATE_ERROR
  }

  ghost predicate Settled(cfg: Config, tid: Bytes, events: seq<Event>, v: Evidence) {
    exists i: nat :: i < |events| && SettlesAt(cfg, tid, events, i, v)
  }

  ghost predicate ChallengeSeen(cfg: Config, tid: Bytes, events: seq<Event>) {
    exists i: nat :: i < |events| && FullChallengeAt(cfg, tid, events, i)
  }

  lemma SamePrefix(cfg: Config, tid: Bytes, events: seq<Event>, e: Event, i: nat)
    requires i < |events|
    ensures OpenAt(cfg, tid, events + [e], i) == OpenAt(cfg, tid, events, i)
    ensures Answered(cfg, tid, events + [e], i) == Answered(cfg, tid, events, i)
    ensures FullChallengeAt(cfg, tid, events + [e], i) == FullChallengeAt(cfg, tid, events, i)
  {
    assert (events + [e])[..i] == events[..i] && (events + [e])[i] == events[i];
  }

  lemma SameSettler(cfg: Config, tid: Bytes, events: seq<Event>, e: Event, i: nat, v: Evidence)
    requires i < |events|
    ensures SettlesAt(cfg, tid, events + [e], i, v) == SettlesAt(cfg, tid, events, i, v)
  {
    SamePrefix(cfg, tid, events, e, i);
    forall j: nat | j < i ensures FullChallengeAt(cfg, tid, events + [e], j) == FullChallengeAt(cfg, tid, events, j) {
      SamePrefix(cfg, tid, events, e, j);
    }
    assert (events + [e])[i] == events[i];
  }

  lemma ChallengeSeenStep(cfg: Config, tid: Bytes, events: seq<Event>, e: Event)
    ensures ChallengeSeen(cfg, tid, events + [e]) <==>
      ChallengeSeen(cfg, tid, events) || FullChallengeAt(cfg, tid, events + [e], |events|)
    ensures CredentialsSentBefore(cfg, tid, events + [e], |events|) == ChallengeSeen(cfg, tid, events)
  {
    forall i: nat | i < |events| ensures FullChallengeAt(cfg, tid, events + [e], i) == FullChallengeAt(cfg, tid, events, i) {
      SamePrefix(cfg, tid, events, e, i);
    }
  }

  lemma SettledStep(cfg: Config, tid: Bytes, events: seq<Event>, e: Event, v: Evidence)
    ensures Settled(cfg, tid, events + [e], v) <==>
      Settled(cfg, tid, events, v) || SettlesAt(cfg, tid, events + [e], |events|, v)
  {
    forall i: nat | i < |events| ensures SettlesAt(cfg, tid, events + [e], i, v) == SettlesAt(cfg, tid, events, i, v) {
      SameSettler(cfg, tid, events, e, i, v);
    }
  }

  lemma SendStep(cfg: Config, tid: Bytes, events: seq<Event>, e: Event)
    requires Play(cfg, Start(cfg, tid), events).sentCredentials == ChallengeSeen(cfg, tid, events)
    ensures Play(cfg, Start(cfg, tid), events + [e]).sentCredentials == ChallengeSeen(cfg, tid, events + [e])
  {
    PlayStep(cfg, Start(cfg, tid), events, e);
    ChallengeSeenStep(cfg, tid, events, e);
    assert (events + [e])[..|events|] == events && (events + [e])[|events|] == e;
  }

  /** Credentials are sent if and only if an awaited challenge with a realm and a nonce came. */
  lemma {:induction false} CredentialsAreSentIff(cfg: Config, tid: Bytes, events: seq<Event>)
    ensures Play(cfg, Start(cfg, tid), events).sentCredentials <==> ChallengeSeen(cfg, tid, events)
  {
    if events != [] {
      var n := |events| - 1;
      CredentialsAreSentIff(cfg, tid, events[..n]);
      SendStep(cfg, tid, events[..n], events[n]);
      assert events[..n] + [events[n]] == events;
    }
  }

  /** The same for one step from `p`. */
  predicate Settles(cfg: Config, p: Probe, e: Event, v: Evidence) {
    && p.outcome.None?
    && match e
       case Timer => v == TimedOut
       case SocketError => v == SocketFailed
       case SendFailed => v == SocketFailed
       case Datagram(bytes, _) =>
         && Parsed(bytes).Some? && Parsed(bytes).value.transactionId == p.tid
         && MessageSettles(cfg, p.sentCredentials, Parsed(bytes).value, v)
  }

  predicate MessageSettles(cfg: Config, sent: bool, m: Message, v: Evidence) {
    var full := Text(cfg, m, ATTR_REALM) != [] && Text(cfg, m, ATTR_NONCE) != [];
    var code := ErrorCodeFrom(m.attributes);
    if m.kind == TYPE_ALLOCATE_SUCCESS then v == Relayed
    else if m.kind != TYPE_ALLOCATE_ERROR then v == Reachable
    else if code != Some(UNAUTHORIZED) then v == ServerError(code)
    else if full then sent && v == Rejected
    else v == CredentialIssued
  }

  lemma HandleSettles(cfg: Config, p: Probe, e: Event, v: Evidence)
    ensures Handle(cfg, p, e).outcome == Some(v) <==> (p.outcome == Some(v) || Settles(cfg, p, e, v))
  {
  }

  lemma LastSettles(cfg: Config, tid: Bytes, events: seq<Event>, v: Evidence)
    requires events != []
    requires var before := events[..|events| - 1];
      Play(cfg, Start(cfg, tid), before).sentCredentials == CredentialsSentBefore(cfg, tid, events, |events| - 1)
    ensures SettlesAt(cfg, tid, events, |events| - 1, v)
      <==> Settles(cfg, Play(cfg, Start(cfg, tid), events[..|events| - 1]), events[|events| - 1], v)
  {
  }

  lemma OutcomeStep(cfg: Config, tid: Bytes, events: seq<Event>, e: Event, v: Evidence)
    requires Play(cfg, Start(cfg, tid), events).sentCredentials == ChallengeSeen(cfg, tid, events)
    ensures var p, q := Play(cfg, Start(cfg, tid), events), Play(cfg, Start(cfg, tid), events + [e]);
      q.outcome == Some(v) <==> (p.outcome == Some(v) || SettlesAt(cfg, tid, events + [e], |events|, v))
  {
    PlayStep(cfg, Start(cfg, tid), events, e);
    ChallengeSeenStep(cfg, tid, events, e);
    assert (events + [e])[..|events|] == events;
    LastSettles(cfg, tid, events + [e], v);
    HandleSettles(cfg, Play(cfg, Start(cfg, tid), events), e, v);
  }

  /** The outcome of a run is `v` if and only if some event settles it as `v`: a timer, a socket
      or send error, or an awaited answer, by its type, its code and what was sent before. */
  lemma {:induction false} OutcomeIff(cfg: Config, tid: Bytes, events: seq<Event>, v: Evidence)
    ensures Play(cfg, Start(cfg, tid), events).outcome == Some(v) <==> Settled(cfg, tid, events, v)
  {
    if events != [] {
      var n := |events| - 1;
      OutcomeIff(cfg, tid, events[..n], v);
      CredentialsAreSentIff(cfg, tid, events[..n]);
      OutcomeStep(cfg, tid, events[..n], events[n], v);
      SettledStep(cfg, tid, events[..n], events[n], v);
      assert events[..n] + [events[n]] == events;
    }
  }

  /** The first request carries no identity at all. */
  lemma FirstRequestIsAnonymous(cfg: Config, tid: Bytes)
    requires TwentyBytes(cfg.mac) && |tid| == 12
    ensures Parsed(FirstRequest(cfg, tid)).Some?
    ensures var m := Parsed(FirstRequest(cfg, tid)).value;
      && m.kind == TYPE_ALLOCATE && m.transactionId == tid
      && ATTR_USERNAME !in m.attributes && ATTR_REALM !in m.attributes
      && ATTR_NONCE !in m.attributes && ATTR_MESSAGE_INTEGRITY !in m.attributes
  {
    var t := Attribute(ATTR_REQUESTED_TRANSPORT, [PROTOCOL_UDP, 0, 0, 0]);
    assert RequestAttrs([], [], []) == [t];
    assert [t][1..] == [] && Body([t]) == Encoded(t) + [];
    RequestParses(tid, [], [], [], [], cfg.mac, cfg.keyOf);
  }

  /** A first challenge whose realm and nonce make a retry that does not fit its lengths. */
  predicate Throws(cfg: Config, p: Probe, e: Event) {
    && p.outcome.None? && !p.sentCredentials && e.Datagram? && Parsed(e.bytes).Some?
    && Parsed(e.bytes).value.transactionId == p.tid && Challenge(cfg, Parsed(e.bytes).value)
    && Retry(cfg, Parsed(e.bytes).value, e.newTid).None?
  }

  predicate ThrowsAt(cfg: Config, tid: Bytes, events: seq<Event>, i: nat)
    requires i < |events|
  {
    Throws(cfg, Play(cfg, Start(cfg, tid), events[..i]), events[i])
  }

  lemma HandleThrows(cfg: Config, p: Probe, e: Event)
    requires p.threw ==> p.sentCredentials
    ensures var q := Handle(cfg, p, e);
      (q.threw ==> q.sentCredentials) && (q.threw <==> (p.threw || Throws(cfg, p, e)))
  {
  }

  lemma EarlierThrow(cfg: Config, tid: Bytes, events: seq<Event>, e: Event, i: nat)
    requires i < |events|
    ensures ThrowsAt(cfg, tid, events + [e], i) <==> ThrowsAt(cfg, tid, events, i)
  {
    assert (events + [e])[..i] == events[..i];
  }

  ghost predicate ThrowSeen(cfg: Config, tid: Bytes, events: seq<Event>) {
    exists i: nat :: i < |events| && ThrowsAt(cfg, tid, events, i)
  }

  lemma ThrowSeenStep(cfg: Config, tid: Bytes, events: seq<Event>, e: Event)
    ensures ThrowSeen(cfg, tid, events + [e]) <==>
      ThrowSeen(cfg, tid, events) || ThrowsAt(cfg, tid, events + [e], |events|)
  {
    forall i: nat | i < |events| ensures ThrowsAt(cfg, tid, events + [e], i) <==> ThrowsAt(cfg, tid, events, i) {
      EarlierThrow(cfg, tid, events, e, i);
    }
  }

  /** The handler throws exactly on a first challenge whose realm and nonce make a retry that
      does not fit its length fields. */
  lemma {:induction false} ThrowsIff(cfg: Config, tid: Bytes, events: seq<Event>)
    ensures var p := Play(cfg, Start(cfg, tid), events);
      (p.threw ==> p.sentCredentials) && (p.threw <==> ThrowSeen(cfg, tid, events))
  {
    if events != [] {
      var n := |events| - 1;
      ThrowsIff(cfg, tid, events[..n]);
      HandleThrows(cfg, Play(cfg, Start(cfg, tid), events[..n]), events[n]);
      ThrowSeenStep(cfg, tid, events[..n], events[n]);
      assert events[..n] + [events[n]] == events;
    }
  }

  /** A datagram that is not an answer to the awaited request: unreadable, or another id. */
  predicate Stray(p: Probe, e: Event) {
    e.Datagram? && (Parsed(e.bytes).None? || Parsed(e.bytes).value.transactionId != p.tid)
  }

  /** Stray datagrams, such as a late repeat of the first challenge, leave no trace in the rest
      of the run. */
  lemma {:induction false} StraysAreInvisible(cfg: Config, p: Probe, events: seq<Event>, e: Event, more: seq<Event>)
    requires Stray(Play(cfg, p, events), e)
    ensures Play(cfg, p, events + [e] + more) == Play(cfg, p, events + more)
    decreases |more|
  {
    if more == [] {
      assert events + [e] + more == events + [e] && events + more == events;
      PlayStep(cfg, p, events, e);
    } else {
      var n := |more| - 1;
      StraysAreInvisible(cfg, p, events, e, more[..n]);
      assert events + [e] + more == events + [e] + more[..n] + [more[n]];
      assert events + more == events + more[..n] + [more[n]];
      PlayStep(cfg, p, events + [e] + more[..n], more[n]);
      PlayStep(cfg, p, events + more[..n], more[n]);
    }
  }

  /** After the retry, every message for the first transaction, such as a repeat of the
      challenge, is ignored; a further challenge to the retry settles as rejected. */
  lemma RetryOutcomes(cfg: Config, tid: Bytes, events: seq<Event>, bytes: Bytes, newTid: Bytes)
    requires var p := Play(cfg, Start(cfg, tid), events); p.sentCredentials && p.outcome.None?
    ensures var p, q := Play(cfg, Start(cfg, tid), events), Play(cfg, Start(cfg, tid), events + [Datagram(bytes, newTid)]);
      && (Parsed(bytes).Some? && Parsed(bytes).value.transactionId != p.tid ==> q == p)
      && (Parsed(bytes).Some? && Parsed(bytes).value.transactionId == p.tid && Challenge(cfg, Parsed(bytes).value)
          ==> q.outcome == Some(Rejected))
      && q.sent == p.sent
  {
    PlayStep(cfg, Start(cfg, tid), events, Datagram(bytes, newTid));
  }

  /** The first outcome is the only one. */
  lemma {:induction false} OutcomeIsFinal(cfg: Config, p: Probe, events: seq<Event>, more: seq<Event>)
    requires Play(cfg, p, events).outcome.Some?
    ensures Play(cfg, p, events + more) == Play(cfg, p, events)
    decreases |more|
  {
    if more == [] {
      assert events + more == events;
    } else {
      var n := |more| - 1;
      assert events + more == events + more[..n] + [more[n]];
      OutcomeIsFinal(cfg, p, events, more[..n]);
      PlayStep(cfg, p, events + more[..n], more[n]);
    }
  }
}
