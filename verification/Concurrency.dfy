/**
 The per-provider concurrency learner: overload halves, four successes in a row regrow by one, and the
 value is unknown again once it would reach 64.
 */
module ConcurrencyModel {
  import opened Common

  const REGROW: int := 4
  const CEILING: int := 64

  /** `learned` 0 means unknown. */
  datatype Provider = Provider(inFlight: int, learned: int, successes: int)

  const UNSEEN: Provider := Provider(0, 0, 0)

  datatype Reply = Response(code: int) | Failure(deadlineExceeded: bool) | NoReply

  datatype Signal = Overload | Success | Neutral

  /** How observe reads an attempt's outcome. */
  function Classify(r: Reply): Signal {
    match r
    case Response(code) => if code == 429 || code == 503 || code == 504 then Overload else if code < 400 then Success else Neutral
    case Failure(deadline) => if deadline then Overload else Neutral
    case NoReply => Neutral
  }

  /** Overload is 429, 503, 504 or a missed deadline; success any status below 400; all else says nothing. */
  lemma ClassifyExact(r: Reply)
    ensures Classify(r) == Overload <==> r == Response(429) || r == Response(503) || r == Response(504) || r == Failure(true)
    ensures Classify(r) == Success <==> r.Response? && r.code < 400
  {
  }

  /** The value an overload suggests: half of what is in flight, within 1..63. */
  function Halved(inFlight: int): (n: int)
    ensures 1 <= n <= CEILING - 1
    ensures 2 <= inFlight <= 127 ==> 2 * n <= inFlight < 2 * n + 2
    ensures inFlight < 2 ==> n == 1
    ensures inFlight > 127 ==> n == 63
  {
    var h := inFlight / 2;
    if h < 1 then 1 else if h > CEILING - 1 then CEILING - 1 else h
  }

  function Observed(p: Provider, s: Signal): Provider {
    match s
    case Neutral => p
    case Overload =>
      var next := Halved(p.inFlight);
      p.(successes := 0, learned := if p.learned == 0 || next < p.learned then next else p.learned)
    case Success =>
      if p.learned == 0 then p
      else if p.successes + 1 < REGROW then p.(successes := p.successes + 1)
      else p.(successes := 0, learned := if p.learned + 1 >= CEILING then 0 else p.learned + 1)
  }

  // ---------------------------------------------------------------- the learner

  type Table = map<string, Provider>

  function StateIn(t: Table, provider: string): Provider { if provider in t then t[provider] else UNSEEN }

  ghost predicate AllInRange(t: Table) { forall p: string :: InRange(StateIn(t, p)) }

  lemma UpdateInRange(t: Table, provider: string, s: Provider)
    requires AllInRange(t) && InRange(s)
    ensures AllInRange(t[provider := s])
  {
    var t' := t[provider := s];
    forall p: string ensures InRange(StateIn(t', p)) {
      assert InRange(StateIn(t, p));
    }
  }

  lemma ObservedInRange(p: Provider, s: Signal)
    requires InRange(p)
    ensures InRange(Observed(p, s))
  {
  }

  /** A begun upstream call; `ended` is the once-only latch of its end function. */
  class UpstreamCall {
    const provider: string
    var ended: bool

    constructor (provider: string)
      ensures this.provider == provider && !ended
    {
      this.provider := provider;
      ended := false;
    }
  }

  class ConcurrencyLearner {
    var byProvider: Table
    const explicit: int

    /** Every learned value is in range. */
    ghost predicate Valid() reads this { AllInRange(byProvider) }

    constructor (explicit: int)
      ensures Valid()
      ensures byProvider == map[] && this.explicit == explicit
    {
      byProvider := map[];
      this.explicit := explicit;
    }

    /** begin. */
    method Begin(provider: string) returns (call: UpstreamCall)
      modifies this`byProvider
      ensures old(Valid()) ==> Valid()
      ensures fresh(call) && call.provider == provider && !call.ended
      ensures var p := StateIn(old(byProvider), provider);
              byProvider == old(byProvider)[provider := p.(inFlight := p.inFlight + 1)]
    {
      var p := StateIn(byProvider, provider);
      if Valid() { UpdateInRange(byProvider, provider, p.(inFlight := p.inFlight + 1)); }
      byProvider := byProvider[provider := p.(inFlight := p.inFlight + 1)];
      call := new UpstreamCall(provider);
    }

    /** The function begin returns: only its first use counts. */
    method End(call: UpstreamCall)
      modifies this`byProvider, call`ended
      ensures old(Valid()) ==> Valid()
      ensures call.ended
      ensures old(call.ended) ==> byProvider == old(byProvider)
      ensures !old(call.ended) ==>
                var p := StateIn(old(byProvider), call.provider);
                byProvider == old(byProvider)[call.provider := p.(inFlight := p.inFlight - 1)]
    {
      if call.ended { return; }
      call.ended := true;
      var p := StateIn(byProvider, call.provider);
      if Valid() { UpdateInRange(byProvider, call.provider, p.(inFlight := p.inFlight - 1)); }
      byProvider := byProvider[call.provider := p.(inFlight := p.inFlight - 1)];
    }

    /** observe. */
    method Observe(provider: string, reply: Reply)
      modifies this`byProvider
      ensures old(Valid()) ==> Valid()
      ensures Classify(reply).Neutral? ==> byProvider == old(byProvider)
      ensures !Classify(reply).Neutral? ==>
                byProvider == old(byProvider)[provider := Observed(StateIn(old(byProvider), provider), Classify(reply))]
    {
      var overload, success := false, false;
      match reply {
        case Response(code) =>
          overload := code == 429 || code == 503 || code == 504;
          success := code < 400;
        case Failure(deadline) => overload := deadline;
        case NoReply =>
      }
      if !overload && !success { return; }
      var s := StateIn(byProvider, provider);
      if Valid() {
        ObservedInRange(s, Classify(reply));
        UpdateInRange(byProvider, provider, Observed(s, Classify(reply)));
      }
      if overload {
        var next := s.inFlight / 2;
        if next < 1 { next := 1; }
        if next > CEILING - 1 { next := CEILING - 1; }
        s := s.(successes := 0);
        if s.learned == 0 || next < s.learned { s := s.(learned := next); }
        byProvider := byProvider[provider := s];
        return;
      }
      if s.learned == 0 {
        byProvider := byProvider[provider := s];
        return;
      }
      s := s.(successes := s.successes + 1);
      if s.successes < REGROW {
        byProvider := byProvider[provider := s];
        return;
      }
      s := s.(successes := 0, learned := s.learned + 1);
      if s.learned >= CEILING { s := s.(learned := 0); }
      byProvider := byProvider[provider := s];
    }

    /** limit: the smallest of the values that are known, or 0 when none is. */
    method Limit(provider: string) returns (n: int)
      requires Valid()
      ensures var learned := StateIn(byProvider, provider).learned;
              && (n == 0 <==> explicit <= 0 && learned == 0)
              && (n != 0 ==> n == explicit || n == learned)
              && (explicit > 0 ==> 0 < n <= explicit)
              && (learned > 0 ==> 0 < n <= learned)
    {
      var learned := StateIn(byProvider, provider).learned;
      assert InRange(StateIn(byProvider, provider));
      if explicit > 0 && (learned == 0 || explicit < learned) { return explicit; }
      return learned;
    }
  }

  // ---------------------------------------------------------------- runs

  datatype Event = Begin(provider: string) | End(call: nat) | Attempt(provider: string, signal: Signal)

  datatype Handle = Handle(provider: string, ended: bool)

  datatype World = World(table: Table, calls: seq<Handle>)

  predicate InRange(p: Provider) { 0 <= p.learned < CEILING && 0 <= p.successes < REGROW && (p.learned == 0 ==> p.successes == 0) }

  function OpenOn(provider: string): Handle -> bool { (h: Handle) => h.provider == provider && !h.ended }

  ghost predicate Consistent(w: World) {
    forall p: string :: InRange(StateIn(w.table, p)) && StateIn(w.table, p).inFlight == CountOf(w.calls, OpenOn(p))
  }

  function AfterEvent(w: World, e: Event): World {
    match e
    case Begin(p) =>
      var s := StateIn(w.table, p);
      World(w.table[p := s.(inFlight := s.inFlight + 1)], w.calls + [Handle(p, false)])
    case End(c) =>
      if c < |w.calls| && !w.calls[c].ended then
        var p := w.calls[c].provider;
        var s := StateIn(w.table, p);
        World(w.table[p := s.(inFlight := s.inFlight - 1)], w.calls[c := Handle(p, true)])
      else w
    case Attempt(p, sig) =>
      if sig.Neutral? then w else w.(table := w.table[p := Observed(StateIn(w.table, p), sig)])
  }

  lemma EventConsistent(w: World, e: Event)
    requires Consistent(w)
    ensures Consistent(AfterEvent(w, e))
  {
    var w' := AfterEvent(w, e);
    forall p: string
      ensures InRange(StateIn(w'.table, p)) && StateIn(w'.table, p).inFlight == CountOf(w'.calls, OpenOn(p))
    {
      assert InRange(StateIn(w.table, p));
      match e
      case Begin(q) => CountAppend(w.calls, Handle(q, false), OpenOn(p));
      case End(c) =>
        if c < |w.calls| && !w.calls[c].ended { CountUpdate(w.calls, c, Handle(w.calls[c].provider, true), OpenOn(p)); }
      case Attempt(q, sig) =>
    }
  }

  function RunWorld(events: seq<Event>): World {
    if events == [] then World(map[], []) else AfterEvent(RunWorld(events[..|events| - 1]), events[|events| - 1])
  }

  lemma {:induction false} RunConsistent(events: seq<Event>)
    ensures Consistent(RunWorld(events))
  {
    if events != [] {
      RunConsistent(events[..|events| - 1]);
      EventConsistent(RunWorld(events[..|events| - 1]), events[|events| - 1]);
    }
  }

  /**
   Over every run, with ends repeated at will: what is in flight for a provider is what was begun on it
   and not ended, and the learned value stays in 0..63.
   */
  lemma {:induction false} InFlightIsBegunMinusEnded(events: seq<Event>, provider: string)
    ensures var w := RunWorld(events);
            && StateIn(w.table, provider).inFlight == CountOf(w.calls, OpenOn(provider)) >= 0
            && 0 <= StateIn(w.table, provider).learned <= 63
  {
    RunConsistent(events);
    assert InRange(StateIn(RunWorld(events).table, provider));
  }

  // ---------------------------------------------------------------- learning

  /** Successes still needed before the value is unknown again. */
  function Remaining(p: Provider): int { 4 * (64 - p.learned) - p.successes }

  /** An overload never raises a known value; a success brings a known one exactly one step nearer to unknown. */
  lemma OneSignal(p: Provider)
    requires InRange(p)
    ensures 1 <= Observed(p, Overload).learned <= CEILING - 1
    ensures p.learned > 0 ==> Observed(p, Overload).learned <= p.learned
    ensures Observed(p, Overload).learned == if p.learned == 0 then Halved(p.inFlight)
                                             else Common.Min(p.learned, Halved(p.inFlight))
    ensures p.learned > 0 && Remaining(p) > 1 ==>
              Observed(p, Success).learned > 0 && Remaining(Observed(p, Success)) == Remaining(p) - 1
    ensures p.learned > 0 && Remaining(p) == 1 ==> Observed(p, Success).learned == 0
    ensures p.learned > 0 ==> Remaining(p) >= 1
    ensures p.learned == 0 ==> Observed(p, Success) == p
    ensures Observed(p, Overload).successes == 0 && Observed(p, Neutral) == p
    ensures Observed(p, Overload).inFlight == p.inFlight && Observed(p, Success).inFlight == p.inFlight
  {
  }

  function Successes(p: Provider, n: nat): Provider {
    if n == 0 then p else Observed(Successes(p, n - 1), Success)
  }

  /** Closed form of the recovery: `n` successes after an overload left `l`. */
  lemma {:induction false} Recovery(p: Provider, n: nat)
    requires 1 <= p.learned < CEILING && p.successes == 0
    ensures var q := Successes(p, n);
            if n < 4 * (64 - p.learned)
            then q.learned == p.learned + n / 4 && q.successes == n % 4
            else q.learned == 0 && q.successes == 0
  {
    if n > 0 { Recovery(p, n - 1); }
  }
}
