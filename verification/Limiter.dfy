/** The per-client rate limit and the build slots. */
module Limiter {

  const WINDOW := 60.0     // seconds
  const MAX_PER_CLIENT := 40
  const MAX_INFLIGHT := 6
  const MANY_CLIENTS := 4096

  type Client(==, !new)

  /** An accepted request. */
  datatype Hit = Hit(client: Client, time: real)

  function Times(history: seq<Hit>, c: Client): seq<real> {
    if history == [] then []
    else
      var last := history[|history| - 1];
      Times(history[..|history| - 1], c) + if last.client == c then [last.time] else []
  }

  function After(times: seq<real>, cutoff: real): seq<real> {
    if times == [] then []
    else (if times[0] > cutoff then [times[0]] else []) + After(times[1..], cutoff)
  }

  predicate Sorted(times: seq<real>) {
    forall i, j | 0 <= i < j < |times| :: times[i] <= times[j]
  }

  /** The limiter that forgets nothing. */
  predicate Allowed(history: seq<Hit>, c: Client, now: real) {
    |After(Times(history, c), now - WINDOW)| < MAX_PER_CLIENT
  }

  /** Every accepted request was allowed by those before it, and time never ran backwards. */
  predicate Lawful(history: seq<Hit>) {
    history != [] ==>
      var before, last := history[..|history| - 1], history[|history| - 1];
      && Lawful(before)
      && Allowed(before, last.client, last.time)
      && (before != [] ==> before[|before| - 1].time <= last.time)
  }

  function Latest(history: seq<Hit>, otherwise: real): real {
    if history == [] then otherwise else history[|history| - 1].time
  }

  // ---- facts about times --------------------------------------------------

  lemma {:induction false} AfterSnoc(times: seq<real>, t: real, cutoff: real)
    ensures After(times + [t], cutoff) == After(times, cutoff) + if t > cutoff then [t] else []
    decreases times
  {
    var one := if t > cutoff then [t] else [];
    if times == [] {
      assert (times + [t])[1..] == [];
      assert times + [t] == [t] && [] + one == one && one + [] == one;
    } else {
      var rest, first := times[1..], if times[0] > cutoff then [times[0]] else [];
      assert (times + [t])[1..] == rest + [t];
      AfterSnoc(rest, t, cutoff);
      assert first + (After(rest, cutoff) + one) == first + After(rest, cutoff) + one;
    }
  }

  lemma {:induction false} AfterAfter(times: seq<real>, early: real, late: real)
    requires early <= late
    ensures After(After(times, early), late) == After(times, late)
    decreases times
  {
    if times != [] {
      var rest := After(times[1..], early);
      AfterAfter(times[1..], early, late);
      if times[0] > early {
        assert ([times[0]] + rest)[1..] == rest;
      } else {
        assert [] + rest == rest;
      }
    }
  }

  lemma {:induction false} AfterSorted(times: seq<real>, cutoff: real)
    requires Sorted(times)
    ensures Sorted(After(times, cutoff))
    ensures forall t | t in After(times, cutoff) :: t in times && t > cutoff
    decreases times
  {
    if times != [] {
      AfterSorted(times[1..], cutoff);
    }
  }

  /** Nothing after the cutoff if the newest is not. */
  lemma {:induction false} AllIdle(times: seq<real>, cutoff: real)
    requires Sorted(times)
    requires times == [] || times[|times| - 1] <= cutoff
    ensures After(times, cutoff) == []
    decreases times
  {
    if times != [] {
      AllIdle(times[1..], cutoff);
    }
  }

  // ---- no window holds more than the limit --------------------------------

  /** Accepted requests of `c` in the half-open window of 60 seconds that ends at `end`. */
  function InWindow(history: seq<Hit>, c: Client, end: real): nat {
    if history == [] then 0
    else
      var last := history[|history| - 1];
      InWindow(history[..|history| - 1], c, end)
      + if last.client == c && end - 60.0 < last.time <= end then 1 else 0
  }

  lemma {:induction false} WindowWithin(history: seq<Hit>, c: Client, end: real, cutoff: real)
    requires cutoff <= end - WINDOW
    ensures InWindow(history, c, end) <= |After(Times(history, c), cutoff)|
    decreases history
  {
    if history != [] {
      var before, last := history[..|history| - 1], history[|history| - 1];
      WindowWithin(before, c, end, cutoff);
      if last.client == c {
        AfterSnoc(Times(before, c), last.time, cutoff);
      } else {
        assert Times(before, c) + [] == Times(before, c);
      }
    }
  }

  lemma {:induction false} LawfulTimes(history: seq<Hit>, end: real)
    requires Lawful(history) && Latest(history, end) <= end
    ensures forall h | h in history :: h.time <= end
    decreases history
  {
    hide Allowed;
    if history != [] {
      var before := history[..|history| - 1];
      LawfulTimes(before, end);
      assert history == before + [history[|history| - 1]];
    }
  }

  lemma {:induction false} WindowIs(history: seq<Hit>, c: Client, end: real)
    requires forall h | h in history :: h.time <= end
    ensures InWindow(history, c, end) == |After(Times(history, c), end - WINDOW)|
    decreases history
  {
    if history != [] {
      var before, last := history[..|history| - 1], history[|history| - 1];
      assert last in history;
      WindowIs(before, c, end);
      if last.client == c {
        AfterSnoc(Times(before, c), last.time, end - WINDOW);
      } else {
        assert Times(before, c) + [] == Times(before, c);
      }
    }
  }

  /** A request is turned away exactly when its client has had 40 accepted in the
      60 seconds before it. */
  lemma {:induction false} AllowedIff(history: seq<Hit>, c: Client, now: real)
    requires Lawful(history) && Latest(history, now) <= now
    ensures Allowed(history, c, now) <==> InWindow(history, c, now) < 40
    ensures !Allowed(history, c, now) ==> InWindow(history, c, now) == 40
  {
    hide After, Times;
    LawfulTimes(history, now);
    WindowIs(history, c, now);
    NoWindowOverfull(history, c, now);
  }

  /** No client has more than 40 requests accepted in any window, wherever the window lies. */
  lemma {:induction false} NoWindowOverfull(history: seq<Hit>, c: Client, end: real)
    requires Lawful(history)
    ensures InWindow(history, c, end) <= 40
    decreases history
  {
    if history != [] {
      var before, last := history[..|history| - 1], history[|history| - 1];
      if last.client == c && end - WINDOW < last.time <= end {
        WindowWithin(before, c, end, last.time - WINDOW);
      } else {
        NoWindowOverfull(before, c, end);
      }
    }
  }

  /** The requests accepted out of a run of requests, whoever they come from. */
  function Serve(requests: seq<Hit>): seq<Hit> {
    if requests == [] then []
    else
      var before, last := Serve(requests[..|requests| - 1]), requests[|requests| - 1];
      if Allowed(before, last.client, last.time) then before + [last] else before
  }

  /** Under any interleaving of clients on a clock that does not run backwards,
      no client ever has more than 40 requests accepted within 60 seconds. */
  lemma {:induction false} ServeIsLawful(requests: seq<Hit>, c: Client, end: real)
    requires forall i, j | 0 <= i < j < |requests| :: requests[i].time <= requests[j].time
    ensures Lawful(Serve(requests))
    ensures requests != [] ==> Latest(Serve(requests), 0.0) <= requests[|requests| - 1].time || Serve(requests) == []
    ensures InWindow(Serve(requests), c, end) <= 40
    decreases requests
  {
    hide Times, After;
    if requests != [] {
      var n := |requests| - 1;
      var before, last := Serve(requests[..n]), requests[n];
      ServeIsLawful(requests[..n], c, end);
      assert (before + [last])[..|before|] == before;
    }
    NoWindowOverfull(Serve(requests), c, end);
  }

  // ---- what may be forgotten ----------------------------------------------

  /** The kept times of a client tell the same story as its whole history, from the window on. */
  ghost predicate Faithful(kept: seq<real>, clock: real, history: seq<Hit>, c: Client) {
    && Sorted(kept)
    && (forall t | t in kept :: t <= clock)
    && After(kept, clock - WINDOW) == After(Times(history, c), clock - WINDOW)
  }

  lemma {:induction false} FaithfulLater(kept: seq<real>, clock: real, now: real, history: seq<Hit>, c: Client)
    requires Faithful(kept, clock, history, c) && clock <= now
    ensures Faithful(kept, now, history, c)
  {
    AfterAfter(kept, clock - WINDOW, now - WINDOW);
    AfterAfter(Times(history, c), clock - WINDOW, now - WINDOW);
  }

  lemma {:induction false} FaithfulExpired(kept: seq<real>, now: real, history: seq<Hit>, c: Client)
    requires Faithful(kept, now, history, c)
    ensures Faithful(After(kept, now - WINDOW), now, history, c)
  {
    AfterAfter(kept, now - WINDOW, now - WINDOW);
    AfterSorted(kept, now - WINDOW);
  }

  lemma {:induction false} FaithfulIdle(kept: seq<real>, now: real, history: seq<Hit>, c: Client)
    requires Faithful(kept, now, history, c)
    requires kept == [] || kept[|kept| - 1] <= now - WINDOW
    ensures Faithful([], now, history, c)
  {
    AllIdle(kept, now - WINDOW);
  }

  lemma {:induction false} FaithfulAccept(kept: seq<real>, now: real, history: seq<Hit>, ip: Client, c: Client)
    requires Faithful(kept, now, history, c)
    ensures Faithful(if c == ip then kept + [now] else kept, now, history + [Hit(ip, now)], c)
  {
    var longer := history + [Hit(ip, now)];
    assert longer[..|longer| - 1] == history && longer[|longer| - 1] == Hit(ip, now);
    if c == ip {
      assert Times(longer, c) == Times(history, c) + [now];
      forall i | 0 <= i < |kept| ensures kept[i] <= now {
        assert kept[i] in kept;
      }
      AfterSnoc(kept, now, now - WINDOW);
      AfterSnoc(Times(history, c), now, now - WINDOW);
    } else {
      assert Times(longer, c) == Times(history, c) + [];
      assert Times(history, c) + [] == Times(history, c);
    }
  }

  lemma {:induction false} LawfulAccept(history: seq<Hit>, hit: Hit)
    requires Lawful(history) && Allowed(history, hit.client, hit.time) && Latest(history, hit.time) <= hit.time
    ensures Lawful(history + [hit]) && Latest(history + [hit], hit.time) == hit.time
  {
    hide Allowed;
    var longer := history + [hit];
    assert longer[..|longer| - 1] == history;
  }

  // ---- the limiter as it runs ---------------------------------------------

  function Kept(hits: map<Client, seq<real>>, c: Client): seq<real> {
    if c in hits then hits[c] else []
  }

  ghost predicate AllFaithful(hits: map<Client, seq<real>>, clock: real, history: seq<Hit>) {
    forall c :: Faithful(Kept(hits, c), clock, history, c)
  }

  lemma {:induction false} AllFaithfulExpired(hits: map<Client, seq<real>>, ip: Client, clock: real, now: real,
                                              history: seq<Hit>)
    requires AllFaithful(hits, clock, history) && clock <= now
    ensures var kept := After(Kept(hits, ip), now - WINDOW);
            AllFaithful(hits[ip := kept], now, history) && kept == After(Times(history, ip), now - WINDOW)
  {
    hide Times, After, Sorted;
    var was := hits[ip := After(Kept(hits, ip), now - WINDOW)];
    forall c ensures Faithful(Kept(was, c), now, history, c) {
      FaithfulLater(Kept(hits, c), clock, now, history, c);
      FaithfulExpired(Kept(hits, c), now, history, c);
    }
    FaithfulLater(Kept(hits, ip), clock, now, history, ip);
  }

  /** Clients with nothing left in the window are dropped once there are many. */
  function WithoutIdle(hits: map<Client, seq<real>>, cutoff: real): map<Client, seq<real>> {
    if |hits| <= MANY_CLIENTS then hits
    else map k | k in hits && hits[k] != [] && hits[k][|hits[k]| - 1] > cutoff :: hits[k]
  }

  lemma {:induction false} AllFaithfulAccepted(was: map<Client, seq<real>>, ip: Client, now: real, history: seq<Hit>)
    requires AllFaithful(was, now, history)
    ensures AllFaithful(WithoutIdle(was[ip := Kept(was, ip) + [now]], now - WINDOW), now, history + [Hit(ip, now)])
  {
    hide Times, After, Sorted, Faithful;
    var more := was[ip := Kept(was, ip) + [now]];
    var hits := WithoutIdle(more, now - WINDOW);
    forall c ensures Faithful(Kept(hits, c), now, history + [Hit(ip, now)], c) {
      FaithfulAccept(Kept(was, c), now, history, ip, c);
      if c !in hits {
        FaithfulIdle(Kept(more, c), now, history + [Hit(ip, now)], c);
      }
    }
  }

  datatype Status = TooMany | Busy | Building

  class Limiter {
    var hits: map<Client, seq<real>>
    var inflight: int
    ghost var history: seq<Hit>      // every request ever accepted
    ghost var clock: real            // when the limiter was last asked
    ghost var running: set<nat>      // builds that hold a slot

    ghost predicate Valid()
      reads this
    {
      && Lawful(history)
      && Latest(history, clock) <= clock
      && AllFaithful(hits, clock, history)
      && inflight == |running| <= MAX_INFLIGHT
    }

    constructor (now: real)
      ensures Valid() && history == [] && running == {}
    {
      hits, inflight := map[], 0;
      history, clock, running := [], now, {};
    }

    /** The answer of the limiter that expires hits and drops idle clients is
        the answer of the one that forgets nothing. */
    method RateOk(ip: Client, now: real) returns (ok: bool)
      requires Valid() && now >= clock
      modifies this`hits, this`history, this`clock
      ensures Valid() && clock == now
      ensures ok <==> Allowed(old(history), ip, now)
      ensures ok <==> InWindow(old(history), ip, now) < 40
      ensures history == if ok then old(history) + [Hit(ip, now)] else old(history)
    {
      hide Times, After, Lawful, AllFaithful, WithoutIdle, InWindow;
      AllowedIff(history, ip, now);
      var cutoff := now - WINDOW;
      var kept := After(Kept(hits, ip), cutoff);
      AllFaithfulExpired(hits, ip, clock, now, history);
      hits := hits[ip := kept];
      clock := now;
      if |kept| >= MAX_PER_CLIENT {
        return false;
      }
      AllFaithfulAccepted(hits, ip, now, history);
      LawfulAccept(history, Hit(ip, now));
      hits := hits[ip := hits[ip] + [now]];
      hits := WithoutIdle(hits, cutoff);
      history := history + [Hit(ip, now)];
      ok := true;
    }

    method SlotAcquire(ghost build: nat) returns (ok: bool)
      requires Valid() && build !in running
      modifies this`inflight, this`running
      ensures Valid()
      ensures ok <==> |old(running)| < MAX_INFLIGHT
      ensures running == if ok then old(running) + {build} else old(running)
    {
      if inflight >= MAX_INFLIGHT {
        return false;
      }
      inflight := inflight + 1;
      running := running + {build};
      ok := true;
    }

    /** The clamp at zero never acts. */
    method SlotRelease(ghost build: nat)
      requires Valid() && build in running
      modifies this`inflight, this`running
      ensures Valid() && running == old(running) - {build}
      ensures inflight == old(inflight) - 1
    {
      inflight := if inflight - 1 > 0 then inflight - 1 else 0;
      running := running - {build};
    }

    /** Entering `_guarded_build`; a `Building` request releases its slot when the build ends,
        however it ends. A request turned away as busy has still used up its place in the window. */
    method GuardedBegin(ip: Client, now: real, ghost build: nat) returns (status: Status)
      requires Valid() && now >= clock && build !in running
      modifies this
      ensures Valid() && clock == now
      ensures status == TooMany <==> !Allowed(old(history), ip, now)
      ensures status == Busy <==> Allowed(old(history), ip, now) && |old(running)| == MAX_INFLIGHT
      ensures history == if status == TooMany then old(history) else old(history) + [Hit(ip, now)]
      ensures running == if status == Building then old(running) + {build} else old(running)
    {
      var ok := RateOk(ip, now);
      if !ok {
        return TooMany;
      }
      ok := SlotAcquire(build);
      status := if ok then Building else Busy;
    }
  }
}
