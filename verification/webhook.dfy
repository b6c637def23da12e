/**
  Inbound webhook verification and its evicting nonce store
  (server/webhook.py). Times are seconds, as real numbers.
 */
module Webhook {
  import opened Prelude

  // ---- The nonce store, specified over the full history of stored nonces ----

  datatype Stored = Stored(nonce: string, time: real)

  /** The nonce was stored less than two tolerances ago. */
  predicate Seen(history: seq<Stored>, tolerance: real, nonce: string, now: real) {
    exists k :: 0 <= k < |history| && history[k].nonce == nonce && history[k].time + 2.0 * tolerance > now
  }

  lemma SeenAppend(history: seq<Stored>, s: Stored, tolerance: real, nonce: string, now: real)
    ensures Seen(history + [s], tolerance, nonce, now) <==>
      Seen(history, tolerance, nonce, now) || (s.nonce == nonce && s.time + 2.0 * tolerance > now)
  {
    var all := history + [s];
    if Seen(history, tolerance, nonce, now) {
      var k :| 0 <= k < |history| && history[k].nonce == nonce && history[k].time + 2.0 * tolerance > now;
      assert all[k] == history[k];
    }
    assert all[|history|] == s;
  }

  class NonceStore {
    const tolerance: real
    var store: map<string, real>
    ghost var history: seq<Stored>
    ghost var clock: real

    /** From now on the store answers like the full history. */
    ghost predicate Valid()
      reads this
    {
      forall nonce, now :: AgreesAt(nonce, now)
    }

    ghost predicate AgreesAt(nonce: string, now: real)
      reads this
    {
      clock <= now ==> (nonce in store && store[nonce] > now <==> Seen(history, tolerance, nonce, now))
    }

    constructor (tolerance: real, ghost now: real)
      ensures Valid() && this.tolerance == tolerance && history == [] && clock == now
    {
      this.tolerance := tolerance;
      store, history, clock := map[], [], now;
    }

    /** Evicts what has expired; a nonce is new exactly if the history has not seen it. */
    method CheckAndStore(nonce: string, now: real) returns (isNew: bool)
      requires Valid() && clock <= now
      modifies this
      ensures Valid() && clock == now
      ensures isNew <==> !Seen(old(history), tolerance, nonce, now)
      ensures history == if isNew then old(history) + [Stored(nonce, now)] else old(history)
      ensures forall n :: n in store && n != nonce ==> store[n] > now
    {
      assert AgreesAt(nonce, now);
      store := map n | n in store && store[n] > now :: store[n];
      clock := now;
      forall n, later ensures AgreesAt(n, later) {
        assert old(AgreesAt(n, later));
      }
      if nonce in store {
        return false;
      }
      label storing:
      store := store[nonce := now + 2.0 * tolerance];
      history := history + [Stored(nonce, now)];
      forall n, later ensures AgreesAt(n, later) {
        assert old@storing(AgreesAt(n, later));
        SeenAppend(old(history), Stored(nonce, now), tolerance, n, later);
      }
      return true;
    }
  }

  // ---- One request ----

  /**
    The headers and body as received; `at` and `storedAt` are the two readings
    of the clock, for the age check and in the nonce store.
   */
  datatype Incoming = Incoming(
    signature: string, timestamp: string, nonce: string, body: Option<string>, at: real, storedAt: real)

  /** `int(text)`, the keyed HMAC of a text, and whether a body parses as JSON. */
  datatype Guard = Guard(
    tolerance: real, parseInt: string -> Option<int>, mac: string -> string, isJson: string -> bool)

  datatype Outcome =
    | MissingHeaders | BadTimestamp | Expired | Replay | BadBody | BadFormat | BadSignature | BadJson | Accepted

  function Age(at: real, timestamp: int): real {
    if at >= timestamp as real then at - timestamp as real else timestamp as real - at
  }

  /** The steps before the nonce store. */
  function Early(g: Guard, q: Incoming): Option<Outcome> {
    if q.signature == "" || q.timestamp == "" || q.nonce == "" then Some(MissingHeaders)
    else if g.parseInt(q.timestamp).None? then Some(BadTimestamp)
    else if Age(q.at, g.parseInt(q.timestamp).value) > g.tolerance then Some(Expired)
    else None
  }

  const PREFIX := "sha256="

  /** The text that `_compute_hmac` authenticates. */
  function MacText(timestamp: string, nonce: string, body: string): string {
    timestamp + ("." + (nonce + ("." + body)))
  }

  /** The steps after it. */
  function Late(g: Guard, q: Incoming): Outcome {
    if q.body.None? then BadBody
    else if !(PREFIX <= q.signature) then BadFormat
    else if q.signature[|PREFIX|..] != g.mac(MacText(q.timestamp, q.nonce, q.body.value)) then BadSignature
    else if !g.isJson(q.body.value) then BadJson
    else Accepted
  }

  /** `verify_webhook_request` over the full history. */
  function Handle(g: Guard, history: seq<Stored>, q: Incoming): (seq<Stored>, Outcome) {
    if Early(g, q).Some? then (history, Early(g, q).value)
    else if Seen(history, g.tolerance, q.nonce, q.storedAt) then (history, Replay)
    else (history + [Stored(q.nonce, q.storedAt)], Late(g, q))
  }

  /** The request got past the timestamp and nonce steps. */
  predicate Passes(r: Outcome) {
    !r.MissingHeaders? && !r.BadTimestamp? && !r.Expired? && !r.Replay?
  }

  /** A request is accepted exactly when it is complete, timely, new, well signed and JSON. */
  lemma AcceptedIff(g: Guard, history: seq<Stored>, q: Incoming)
    ensures Handle(g, history, q).1.Accepted? <==>
      && q.timestamp != "" && q.nonce != "" && q.body.Some?
      && g.parseInt(q.timestamp).Some?
      && q.at - g.tolerance <= g.parseInt(q.timestamp).value as real <= q.at + g.tolerance
      && !Seen(history, g.tolerance, q.nonce, q.storedAt)
      && q.signature == PREFIX + g.mac(MacText(q.timestamp, q.nonce, q.body.value))
      && g.isJson(q.body.value)
  {
    if PREFIX <= q.signature {
      assert q.signature == PREFIX + q.signature[|PREFIX|..];
    }
    if q.body.Some? {
      var mac := g.mac(MacText(q.timestamp, q.nonce, q.body.value));
      assert (PREFIX + mac)[|PREFIX|..] == mac;
    }
  }

  /** `sign_webhook`: the request a receiver gets, at the given clock readings. */
  function SignedWebhook(g: Guard, timestamp: string, nonce: string, body: string, at: real, storedAt: real): Incoming {
    Incoming(PREFIX + g.mac(MacText(timestamp, nonce, body)), timestamp, nonce, Some(body), at, storedAt)
  }

  /** What `sign_webhook` signs is accepted if and only if it arrives in time and its nonce is new. */
  lemma SignedIsAcceptedIffTimelyAndNew(
    g: Guard, history: seq<Stored>, timestamp: string, ts: int, nonce: string, body: string, at: real, storedAt: real)
    requires timestamp != "" && g.parseInt(timestamp) == Some(ts) && nonce != "" && g.isJson(body)
    ensures Handle(g, history, SignedWebhook(g, timestamp, nonce, body, at, storedAt)).1.Accepted? <==>
      at - g.tolerance <= ts as real <= at + g.tolerance && !Seen(history, g.tolerance, nonce, storedAt)
  {
    AcceptedIff(g, history, SignedWebhook(g, timestamp, nonce, body, at, storedAt));
  }

  lemma {:induction false} DotSplits(a: string, r: string, b: string, q: string)
    requires '.' !in a && '.' !in b && a + ("." + r) == b + ("." + q)
    ensures a == b && r == q
  {
    var t, u := a + ("." + r), b + ("." + q);
    assert a == "" <==> t[0] == '.';
    assert b == "" <==> u[0] == '.';
    if a == "" {
      assert r == t[1..] && q == u[1..];
    } else {
      assert t[0] == a[0] && u[0] == b[0];
      assert t[1..] == a[1..] + ("." + r) && u[1..] == b[1..] + ("." + q);
      DotSplits(a[1..], r, b[1..], q);
      assert a == [a[0]] + a[1..] && b == [b[0]] + b[1..];
    }
  }

  /** With no dot in timestamp and nonce, as in every signed webhook, the text tells the three parts apart. */
  lemma MacTextDeterminesParts(t: string, n: string, b: string, t': string, n': string, b': string)
    requires '.' !in t && '.' !in n && '.' !in t' && '.' !in n'
    requires MacText(t, n, b) == MacText(t', n', b')
    ensures t == t' && n == n' && b == b'
  {
    DotSplits(t, n + ("." + b), t', n' + ("." + b'));
    DotSplits(n, b, n', b');
  }

  method VerifyRequest(g: Guard, s: NonceStore, q: Incoming) returns (r: Outcome)
    requires s.Valid() && s.tolerance == g.tolerance && s.clock <= q.storedAt
    modifies s
    ensures s.Valid() && (s.history, r) == Handle(g, old(s.history), q)
  {
    if q.signature == "" || q.timestamp == "" || q.nonce == "" {
      return MissingHeaders;
    }
    var ts := g.parseInt(q.timestamp);
    if ts.None? {
      return BadTimestamp;
    }
    if Age(q.at, ts.value) > g.tolerance {
      return Expired;
    }
    var isNew := s.CheckAndStore(q.nonce, q.storedAt);
    if !isNew {
      return Replay;
    }
    return Late(g, q);
  }

  // ---- Runs ----

  function HistoryAfter(g: Guard, qs: seq<Incoming>): seq<Stored> {
    if qs == [] then [] else Handle(g, HistoryAfter(g, qs[..|qs| - 1]), qs[|qs| - 1]).0
  }

  function OutcomeAt(g: Guard, qs: seq<Incoming>, i: nat): Outcome
    requires i < |qs|
  {
    Handle(g, HistoryAfter(g, qs[..i]), qs[i]).1
  }

  lemma HistoryStep(g: Guard, qs: seq<Incoming>, i: nat)
    requires i < |qs|
    ensures HistoryAfter(g, qs[..i + 1]) == Handle(g, HistoryAfter(g, qs[..i]), qs[i]).0
  {
    assert qs[..i + 1][..i] == qs[..i];
  }

  /** What passes is stored for good. */
  lemma {:induction false} PassedIsStored(g: Guard, qs: seq<Incoming>, i: nat, j: nat)
    requires i < j <= |qs| && Passes(OutcomeAt(g, qs, i))
    ensures Stored(qs[i].nonce, qs[i].storedAt) in HistoryAfter(g, qs[..j])
  {
    HistoryStep(g, qs, j - 1);
    if i < j - 1 { PassedIsStored(g, qs, i, j - 1); }
  }

  /**
    In every run the evicting store acts like a complete one over the last two
    tolerances: a nonce passes twice only if it was stored that long ago.
   */
  lemma NonceTwiceNeedsTwoTolerances(g: Guard, qs: seq<Incoming>, i: nat, j: nat)
    requires i < j < |qs| && qs[i].nonce == qs[j].nonce
    requires Passes(OutcomeAt(g, qs, i)) && Passes(OutcomeAt(g, qs, j))
    ensures qs[j].storedAt >= qs[i].storedAt + 2.0 * g.tolerance
  {
    PassedIsStored(g, qs, i, j);
    var history := HistoryAfter(g, qs[..j]);
    var k :| 0 <= k < |history| && history[k] == Stored(qs[i].nonce, qs[i].storedAt);
    assert history[k].nonce == qs[j].nonce;
  }

  /**
    The replay guard: the same timestamp and nonce pass twice only if the second
    request spent at least `storedAt + tolerance - timestamp` of the first
    between its two clock readings. With one reading per request that is the
    single instant at which a timestamp a full tolerance ahead meets its expiry.
   */
  lemma ReplayNeverPasses(g: Guard, qs: seq<Incoming>, i: nat, j: nat)
    requires i < j < |qs| && qs[i].nonce == qs[j].nonce && qs[i].timestamp == qs[j].timestamp
    requires Passes(OutcomeAt(g, qs, i)) && Passes(OutcomeAt(g, qs, j))
    ensures
      var ts := g.parseInt(qs[i].timestamp);
      && ts.Some?
      && qs[j].storedAt - qs[j].at >= qs[i].storedAt + g.tolerance - ts.value as real
      && (qs[i].at == qs[i].storedAt && qs[j].at == qs[j].storedAt ==>
            ts.value as real == qs[i].at + g.tolerance && qs[j].at == qs[i].at + 2.0 * g.tolerance)
  {
    NonceTwiceNeedsTwoTolerances(g, qs, i, j);
  }

  /**
    Exactly when a repeated message passes right after the first, with one clock
    reading per request: the timestamp lay a full tolerance ahead of the clock
    and the repetition arrives two tolerances later.
   */
  lemma RepetitionPassesIff(g: Guard, history: seq<Stored>, q: Incoming, later: real)
    requires q.at == q.storedAt <= later && Passes(Handle(g, history, q).1)
    ensures
      var ts := g.parseInt(q.timestamp).value as real;
      var again := q.(at := later, storedAt := later);
      Passes(Handle(g, Handle(g, history, q).0, again).1) <==>
        ts == q.at + g.tolerance && later == q.at + 2.0 * g.tolerance
  {
    SeenAppend(history, Stored(q.nonce, q.storedAt), g.tolerance, q.nonce, later);
  }
}
