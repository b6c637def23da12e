/**
  The failover signer: a primary key, a fallback key, and the counters that
  decide between them (provable_ai/signer_failover.py).
 */
module Failover {
  datatype KeyName = Primary | Fallback

  /** What the primary does when asked to sign: KMSUnavailable and InvalidKeyId fail over, other errors do not. */
  datatype PrimaryReply = PrimarySigns(signature: string) | PrimaryFailsOver | PrimaryRaises

  datatype FallbackReply = FallbackSigns(signature: string) | FallbackRaises

  /** `probing` says whether the health-probe thread is alive. */
  datatype State = State(
    healthy: bool, probing: bool, consecutive: nat, failovers: nat, failbacks: nat,
    primaryErrors: nat, fallbackErrors: nat, totalSigns: nat)

  const START := State(true, false, 0, 0, 0, 0, 0, 0)

  datatype Event =
    | Sign(length: nat, primary: PrimaryReply, fallback: FallbackReply)
    | Probe(responds: bool)
    | ForceFailover
    | ForceFailback

  /** What `sign_hash` gives its caller. */
  datatype Outcome = Signed(key: KeyName, signature: string) | BadLength | PrimaryError | SigningFailed | NoSignature

  // ---- The machine ----

  /** `_handle_primary_failure`. */
  function PrimaryFailure(threshold: int, s: State): State {
    var s1 := s.(primaryErrors := s.primaryErrors + 1, consecutive := s.consecutive + 1);
    if s1.consecutive >= threshold && s1.healthy
    then s1.(healthy := false, failovers := s1.failovers + 1, probing := true)
    else s1
  }

  function UseFallback(s: State, r: FallbackReply): (State, Outcome) {
    match r
    case FallbackSigns(signature) => (s, Signed(Fallback, signature))
    case FallbackRaises => (s.(fallbackErrors := s.fallbackErrors + 1), SigningFailed)
  }

  function SignHash(threshold: int, s: State, length: nat, p: PrimaryReply, f: FallbackReply): (State, Outcome) {
    if length != 32 then (s, BadLength)
    else
      var s1 := s.(totalSigns := s.totalSigns + 1);
      if !s1.healthy then UseFallback(s1, f)
      else
        match p
        case PrimarySigns(signature) => (s1.(consecutive := 0), Signed(Primary, signature))
        case PrimaryRaises => (s1, PrimaryError)
        case PrimaryFailsOver => UseFallback(PrimaryFailure(threshold, s1), f)
  }

  /** One round of the probe loop; the thread ends when the primary is back. */
  function ProbeRound(s: State, responds: bool): State {
    if !s.probing then s
    else if s.healthy then s.(probing := false)
    else if responds then s.(healthy := true, failbacks := s.failbacks + 1, consecutive := 0, probing := false)
    else s
  }

  function Step(threshold: int, s: State, e: Event): (State, Outcome) {
    match e
    case Sign(length, p, f) => SignHash(threshold, s, length, p, f)
    case Probe(responds) => (ProbeRound(s, responds), NoSignature)
    case ForceFailover =>
      (if s.healthy then s.(healthy := false, failovers := s.failovers + 1, probing := true) else s, NoSignature)
    case ForceFailback => (s.(healthy := true, failbacks := s.failbacks + 1, consecutive := 0), NoSignature)
  }

  function Run(threshold: int, s: State, events: seq<Event>): State
    decreases events
  {
    if events == [] then s else Run(threshold, Step(threshold, s, events[0]).0, events[1..])
  }

  /** The key that `get_key_id` and `get_public_key` report. */
  function Reported(s: State): KeyName {
    if s.healthy then Primary else Fallback
  }

  // ---- Invariants of every run ----

  /**
    While the primary is in use its run of failures is below the threshold;
    failovers outnumber failbacks by at most the one that is in effect; and
    nothing but a running probe waits for the primary to come back.
   */
  ghost predicate Sound(threshold: int, s: State) {
    && (s.healthy ==> s.consecutive < threshold)
    && s.failovers <= s.failbacks + (if s.healthy then 0 else 1)
    && (!s.healthy ==> s.probing)
    && s.consecutive <= s.primaryErrors <= s.totalSigns
    && s.fallbackErrors <= s.totalSigns
  }

  lemma StepKeepsSound(threshold: int, s: State, e: Event)
    requires threshold >= 1 && Sound(threshold, s)
    ensures Sound(threshold, Step(threshold, s, e).0)
  {
  }

  lemma {:induction false} RunKeepsSound(threshold: int, s: State, events: seq<Event>)
    requires threshold >= 1 && Sound(threshold, s)
    ensures Sound(threshold, Run(threshold, s, events))
    decreases events
  {
    if events != [] {
      StepKeepsSound(threshold, s, events[0]);
      RunKeepsSound(threshold, Step(threshold, s, events[0]).0, events[1..]);
    }
  }

  // ---- The counters count ----

  /** The outcomes of a run, in order. */
  function Outcomes(threshold: int, s: State, events: seq<Event>): seq<Outcome>
    decreases events
  {
    if events == [] then []
    else [Step(threshold, s, events[0]).1] + Outcomes(threshold, Step(threshold, s, events[0]).0, events[1..])
  }

  function Count(outcomes: seq<Outcome>, wanted: Outcome -> bool): nat {
    if outcomes == [] then 0 else (if wanted(outcomes[0]) then 1 else 0) + Count(outcomes[1..], wanted)
  }

  predicate Attempted(r: Outcome) {
    r.Signed? || r.PrimaryError? || r.SigningFailed?
  }

  predicate Lost(r: Outcome) {
    r.SigningFailed?
  }

  /** `total_signs` counts the attempts on 32-byte hashes, `fallback_errors` those lost on both keys. */
  lemma {:induction false} CountersCount(threshold: int, s: State, events: seq<Event>)
    ensures
      var (s', rs) := (Run(threshold, s, events), Outcomes(threshold, s, events));
      && s'.totalSigns == s.totalSigns + Count(rs, Attempted)
      && s'.fallbackErrors == s.fallbackErrors + Count(rs, Lost)
    decreases events
  {
    if events != [] {
      var (s1, r) := Step(threshold, s, events[0]);
      CountersCount(threshold, s1, events[1..]);
      var rest := Outcomes(threshold, s1, events[1..]);
      assert ([r] + rest)[1..] == rest;
    }
  }

  // ---- Which key signed ----

  /**
    Right after a signature the reported key is the one that made it, except
    exactly when the primary failed over without its run of failures reaching
    the threshold.
   */
  lemma ReportedKeySigned(threshold: int, s: State, length: nat, p: PrimaryReply, f: FallbackReply)
    requires SignHash(threshold, s, length, p, f).1.Signed?
    ensures
      var (s', r) := SignHash(threshold, s, length, p, f);
      r.key == Reported(s') <==> !(s.healthy && p.PrimaryFailsOver? && s.consecutive + 1 < threshold)
  {
  }

  // ---- The signer object ----

  class FailoverSigner {
    const threshold: int
    var healthy: bool
    var probing: bool
    var consecutive: nat
    var failovers: nat
    var failbacks: nat
    var primaryErrors: nat
    var fallbackErrors: nat
    var totalSigns: nat

    function Abstract(): State
      reads this
    {
      State(healthy, probing, consecutive, failovers, failbacks, primaryErrors, fallbackErrors, totalSigns)
    }

    ghost predicate Valid()
      reads this
    {
      Sound(threshold, Abstract())
    }

    constructor (threshold: int)
      requires threshold >= 1
      ensures Valid() && Abstract() == START && this.threshold == threshold
    {
      this.threshold := threshold;
      healthy, probing, consecutive, failovers, failbacks := true, false, 0, 0, 0;
      primaryErrors, fallbackErrors, totalSigns := 0, 0, 0;
    }

    method HandlePrimaryFailure()
      modifies this
      ensures Abstract() == PrimaryFailure(threshold, old(Abstract()))
    {
      primaryErrors := primaryErrors + 1;
      consecutive := consecutive + 1;
      if consecutive >= threshold && healthy {
        healthy := false;
        failovers := failovers + 1;
        StartHealthProbe();
      }
    }

    /** A probe that is already running is left alone. */
    method StartHealthProbe()
      modifies this
      ensures Abstract() == old(Abstract()).(probing := true)
    {
      if !probing {
        probing := true;
      }
    }

    /** Signs with the primary while it is in use, and with the fallback when it fails over. */
    method SignHash32(length: nat, p: PrimaryReply, f: FallbackReply) returns (r: Outcome)
      requires Valid() && threshold >= 1
      modifies this
      ensures Valid() && (Abstract(), r) == SignHash(threshold, old(Abstract()), length, p, f)
    {
      if length != 32 {
        return BadLength;
      }
      totalSigns := totalSigns + 1;
      if healthy {
        match p
        case PrimarySigns(signature) =>
          consecutive := 0;
          return Signed(Primary, signature);
        case PrimaryRaises =>
          return PrimaryError;
        case PrimaryFailsOver =>
          HandlePrimaryFailure();
      }
      match f
      case FallbackSigns(signature) =>
        return Signed(Fallback, signature);
      case FallbackRaises =>
        fallbackErrors := fallbackErrors + 1;
        return SigningFailed;
    }

    method HealthProbeRound(responds: bool)
      requires Valid() && threshold >= 1
      modifies this
      ensures Valid() && Abstract() == ProbeRound(old(Abstract()), responds)
    {
      if !probing {
        return;
      }
      if healthy {
        probing := false;
        return;
      }
      if responds {
        healthy := true;
        failbacks := failbacks + 1;
        consecutive := 0;
        probing := false;
      }
    }

    method ForceFailoverNow()
      requires Valid() && threshold >= 1
      modifies this
      ensures Valid() && Abstract() == Step(threshold, old(Abstract()), ForceFailover).0
    {
      if !healthy {
        return;
      }
      healthy := false;
      failovers := failovers + 1;
      StartHealthProbe();
    }

    method ForceFailbackNow()
      requires Valid() && threshold >= 1
      modifies this
      ensures Valid() && Abstract() == Step(threshold, old(Abstract()), ForceFailback).0
    {
      healthy := true;
      failbacks := failbacks + 1;
      consecutive := 0;
    }
  }
}
