/** The keypad's shared debounce poll and the `WHEN key N` hats over it. */
module Keypad {
  import Targets

  const NO_KEY := -1
  const SCAN_GAP := 5

  /** A hat: which key and which edge. */
  datatype Hat = Hat(key: nat, pressed: bool)

  /** How a dispatch leaves the hat's body. */
  datatype Leaves = Finishes | Yields | Stops

  /** One pass of the scheduler: the time, what a scan would read, and how the
      body would leave if it runs. */
  datatype Pass = Pass(time: nat, scan: int, leaves: Leaves)

  // ---- the emitted state --------------------------------------------------

  datatype Pad = Pad(raw: int, key: int, t: nat)

  datatype BodyState = Idle | Resumable | Halted

  datatype Script = Script(prev: bool, body: BodyState)

  const FIRST_PAD := Pad(NO_KEY, NO_KEY, 0)
  const FIRST_SCRIPT := Script(false, Idle)

  predicate Due(word: nat, p: Pad, time: nat)
    requires word > 0
  {
    (time - p.t) % word >= SCAN_GAP
  }

  function Poll(word: nat, p: Pad, time: nat, scan: int): Pad
    requires word > 0
  {
    if Due(word, p, time)
    then Pad(scan, if scan == p.raw then scan else p.key, time % word)
    else p
  }

  predicate Fires(h: Hat, prev: bool, now: bool) {
    if h.pressed then now && !prev else !now && prev
  }

  predicate Starts(h: Hat, s: Script, key: int) {
    s.body.Idle? && Fires(h, s.prev, key == h.key)
  }

  /** One dispatch: the previous level is always updated; only an idle script
      can start; a stopped one spends one dispatch becoming idle again. */
  function Dispatch(h: Hat, s: Script, key: int, leaves: Leaves): Script {
    var runs := Starts(h, s, key) || s.body.Resumable?;
    Script(key == h.key,
           if !runs then Idle
           else match leaves
             case Finishes => Idle
             case Yields => Resumable
             case Stops => Halted)
  }

  class KeypadTasks {
    const word: nat
    const hat: Hat
    var raw: int
    var key: int
    var t: nat
    var prev: bool
    var state: nat

    ghost predicate Valid()
      reads this
    {
      word > 0
    }

    ghost function PadNow(): Pad
      reads this
    {
      Pad(raw, key, t)
    }

    /** Case 0 is the edge test, 0xFFFF matches no case, anything else is a resume label. */
    ghost function ScriptNow(): Script
      reads this
    {
      Script(prev, if state == 0 then Idle else if state == 0xFFFF then Halted else Resumable)
    }

    constructor (word: nat, hat: Hat)
      requires word > 0
      ensures Valid() && this.word == word && this.hat == hat
      ensures PadNow() == FIRST_PAD && ScriptNow() == FIRST_SCRIPT
    {
      this.word, this.hat := word, hat;
      raw, key, t := NO_KEY, NO_KEY, 0;
      prev, state := false, 0;
    }

    method PollPad(time: nat, scan: int)
      requires Valid()
      modifies this`raw, this`key, this`t
      ensures PadNow() == Poll(word, old(PadNow()), time, scan)
    {
      if (time - t) % word < SCAN_GAP {
        return;
      }
      t := time % word;
      if scan == raw {
        key := scan;
      }
      raw := scan;
    }

    /** The hat's task; `at` is the label a yielding body would park itself at.
        A body parked at a label goes on whatever the edge, a stopped one spends
        the dispatch, and an idle one waits for the edge. */
    method Run(leaves: Leaves, at: nat) returns (started: bool, ran: bool)
      requires Valid() && 0 < at < 0xFFFF
      modifies this`prev, this`state
      ensures started == Starts(hat, old(ScriptNow()), key)
      ensures ran == if old(state) == 0 then Fires(hat, old(prev), key == hat.key) else old(state) != 0xFFFF
      ensures state == if !ran || leaves.Finishes? then 0 else if leaves.Yields? then at else 0xFFFF
      ensures ScriptNow() == Dispatch(hat, old(ScriptNow()), key, leaves)
    {
      var now := key == hat.key;
      var fired := if hat.pressed then now && !prev else !now && prev;
      prev := now;
      started, ran := false, false;
      if state == 0 {
        if !fired {
          return;
        }
        started := true;
        state := 1;
      }
      if state != 0xFFFF {
        ran := true;
        match leaves {
          case Finishes =>
          case Yields => state := at; return;
          case Stops => state := 0xFFFF; return;
        }
      }
      state := 0;
    }
  }

  // ---- runs ---------------------------------------------------------------

  /** The poll's state after the first `i` passes; pass `i` is `ps[i - 1]`. */
  function PadAfter(word: nat, ps: seq<Pass>, i: nat): Pad
    requires word > 0 && i <= |ps|
  {
    if i == 0 then FIRST_PAD else Poll(word, PadAfter(word, ps, i - 1), ps[i - 1].time, ps[i - 1].scan)
  }

  function ScriptAfter(word: nat, h: Hat, ps: seq<Pass>, i: nat): Script
    requires word > 0 && i <= |ps|
  {
    if i == 0 then FIRST_SCRIPT
    else Dispatch(h, ScriptAfter(word, h, ps, i - 1), PadAfter(word, ps, i).key, ps[i - 1].leaves)
  }

  predicate Scans(word: nat, ps: seq<Pass>, i: nat)
    requires word > 0 && 1 <= i <= |ps|
  {
    Due(word, PadAfter(word, ps, i - 1), ps[i - 1].time)
  }

  /** The last of the first `i` passes that scanned, 0 when none did. */
  function LastScan(word: nat, ps: seq<Pass>, i: nat): (p: nat)
    requires word > 0 && i <= |ps|
    ensures p <= i
    ensures p > 0 ==> Scans(word, ps, p)
    ensures forall q | p < q <= i :: !Scans(word, ps, q)
  {
    if i == 0 then 0 else if Scans(word, ps, i) then i else LastScan(word, ps, i - 1)
  }

  predicate StartsAt(word: nat, h: Hat, ps: seq<Pass>, i: nat)
    requires word > 0 && 1 <= i <= |ps|
  {
    Starts(h, ScriptAfter(word, h, ps, i - 1), PadAfter(word, ps, i).key)
  }

  predicate ClockRuns(ps: seq<Pass>) {
    forall i, j | 0 <= i <= j < |ps| :: ps[i].time <= ps[j].time
  }

  /** Two scans in a row, at passes `a` and `b`, that read the same. */
  predicate AgreeingScans(word: nat, ps: seq<Pass>, a: nat, b: nat)
    requires word > 0 && b <= |ps|
  {
    1 <= a < b && Scans(word, ps, b) && LastScan(word, ps, b - 1) == a
    && ps[a - 1].scan == ps[b - 1].scan
  }

  // ---- the debounced key --------------------------------------------------

  lemma {:induction false} PadIsLastScan(word: nat, ps: seq<Pass>, i: nat)
    requires word > 0 && i <= |ps|
    ensures var p := LastScan(word, ps, i);
            var pad := PadAfter(word, ps, i);
            if p == 0 then pad == FIRST_PAD
            else pad.raw == ps[p - 1].scan && pad.t == ps[p - 1].time % word
  {
    if i > 0 {
      PadIsLastScan(word, ps, i - 1);
    }
  }

  /** The key takes a new value exactly on the second of two agreeing scans. */
  lemma {:induction false} KeyFollowsAgreement(word: nat, ps: seq<Pass>, i: nat)
    requires word > 0 && 1 <= i <= |ps|
    ensures PadAfter(word, ps, i).key ==
            if AgreeingScans(word, ps, LastScan(word, ps, i - 1), i) then ps[i - 1].scan
            else PadAfter(word, ps, i - 1).key
  {
    PadIsLastScan(word, ps, i - 1);
  }

  /** The pad is read exactly when the counter has moved on by five milliseconds
      or more since the last reading, or since zero before the first. */
  lemma {:induction false} ScansWhenDue(word: nat, ps: seq<Pass>, i: nat)
    requires word > 0 && 1 <= i <= |ps|
    ensures var p := LastScan(word, ps, i - 1);
            Scans(word, ps, i) <==> (ps[i - 1].time - if p == 0 then 0 else ps[p - 1].time) % word >= 5
  {
    hide PadAfter, LastScan, Due;
    var p, pad := LastScan(word, ps, i - 1), PadAfter(word, ps, i - 1);
    PadIsLastScan(word, ps, i - 1);
    DueSince(word, pad, ps[i - 1].time, if p == 0 then 0 else ps[p - 1].time);
  }

  lemma {:induction false} DueSince(word: nat, pad: Pad, now: nat, since: nat)
    requires word > 0 && (pad.t == since || pad.t == since % word)
    ensures Due(word, pad, now) <==> (now - since) % word >= 5
  {
    Targets.ModMinus(now, since, word);
  }

  lemma {:induction false} ElapsedAtLeast(word: nat, now: int, since: int, gap: nat)
    requires word > 0 && since <= now
    requires (now - since % word) % word >= gap
    ensures now - since >= gap
  {
    Targets.ModMinus(now, since, word);
    var d := now - since;
    if d < word {
      Targets.ModSmall(d, word);
    } else {
      assert d % word < word;
    }
  }

  /** Scans in a row really are five milliseconds apart, however often the counter wrapped. */
  lemma {:induction false} ScansApart(word: nat, ps: seq<Pass>, a: nat, b: nat)
    requires word > 0 && 1 <= a < b <= |ps| && ClockRuns(ps)
    requires Scans(word, ps, a) && Scans(word, ps, b)
    ensures ps[b - 1].time - ps[a - 1].time >= SCAN_GAP
  {
    var p := LastScan(word, ps, b - 1);
    PadIsLastScan(word, ps, b - 1);
    ElapsedAtLeast(word, ps[b - 1].time, ps[p - 1].time, SCAN_GAP);
  }

  /** The key changes only to what two agreeing scans read, at least five milliseconds apart. */
  lemma {:induction false} KeyChangeIsDebounced(word: nat, ps: seq<Pass>, i: nat)
    requires word > 0 && 1 <= i <= |ps| && ClockRuns(ps)
    requires PadAfter(word, ps, i).key != PadAfter(word, ps, i - 1).key
    ensures var a := LastScan(word, ps, i - 1);
            AgreeingScans(word, ps, a, i)
            && PadAfter(word, ps, i).key == ps[a - 1].scan
            && ps[i - 1].time - ps[a - 1].time >= SCAN_GAP
  {
    KeyFollowsAgreement(word, ps, i);
    ScansApart(word, ps, LastScan(word, ps, i - 1), i);
  }

  // ---- the hat's starts ---------------------------------------------------

  /** On the side of the edge that starts the body. */
  predicate Active(h: Hat, key: int) {
    (key == h.key) == h.pressed
  }

  lemma {:induction false} PrevIsKey(word: nat, h: Hat, ps: seq<Pass>, i: nat)
    requires word > 0 && i <= |ps|
    ensures ScriptAfter(word, h, ps, i).prev == (PadAfter(word, ps, i).key == h.key)
  {
  }

  /** A start is a move of the debounced key onto the active side. */
  lemma {:induction false} StartIsChange(word: nat, h: Hat, ps: seq<Pass>, i: nat)
    requires word > 0 && 1 <= i <= |ps|
    requires StartsAt(word, h, ps, i)
    ensures Active(h, PadAfter(word, ps, i).key) && !Active(h, PadAfter(word, ps, i - 1).key)
  {
    PrevIsKey(word, h, ps, i - 1);
  }

  /** If the key was active and later is not, it left the active side in between. */
  lemma {:induction false} LeavesBetween(word: nat, h: Hat, ps: seq<Pass>, i: nat, k: nat) returns (b: nat)
    requires word > 0 && i < k <= |ps|
    requires Active(h, PadAfter(word, ps, i).key) && !Active(h, PadAfter(word, ps, k).key)
    ensures i < b <= k
    ensures Active(h, PadAfter(word, ps, b - 1).key) && !Active(h, PadAfter(word, ps, b).key)
  {
    if Active(h, PadAfter(word, ps, k - 1).key) {
      b := k;
    } else {
      b := LeavesBetween(word, h, ps, i, k - 1);
    }
  }

  /** Four scans, in order and all after pass `i`: two agreeing on the inactive
      side of the edge, then two agreeing on the active side, the last at pass `j`. */
  ghost predicate FreshEdge(word: nat, h: Hat, ps: seq<Pass>, i: nat, j: nat)
    requires word > 0 && i < j <= |ps|
  {
    exists a, b, c ::
      i < a < b < c < j && AgreeingScans(word, ps, a, b) && AgreeingScans(word, ps, c, j)
      && !Active(h, ps[b - 1].scan) && Active(h, ps[j - 1].scan)
  }

  /** Between two starts of a hat's body lies a fresh, debounced edge, and at
      least four scan gaps of real time. */
  lemma {:induction false} BetweenStarts(word: nat, h: Hat, ps: seq<Pass>, i: nat, j: nat)
    requires word > 0 && 1 <= i < j <= |ps| && ClockRuns(ps)
    requires StartsAt(word, h, ps, i) && StartsAt(word, h, ps, j)
    ensures FreshEdge(word, h, ps, i, j)
    ensures ps[j - 1].time - ps[i - 1].time >= 4 * SCAN_GAP
  {
    hide StartsAt, Scans, PadAfter, ScriptAfter;
    StartIsChange(word, h, ps, i);
    StartIsChange(word, h, ps, j);
    var b := LeavesBetween(word, h, ps, i, j - 1);
    KeyChangeIsDebounced(word, ps, i);
    KeyChangeIsDebounced(word, ps, b);
    KeyChangeIsDebounced(word, ps, j);
    var a, c := LastScan(word, ps, b - 1), LastScan(word, ps, j - 1);
    assert i < a < b < c < j;
    ScansApart(word, ps, i, a);
    ScansApart(word, ps, b, c);
  }

  // ---- a body that takes several passes ------------------------------------

  predicate RunsAt(word: nat, h: Hat, ps: seq<Pass>, i: nat)
    requires word > 0 && 1 <= i <= |ps|
  {
    StartsAt(word, h, ps, i) || ScriptAfter(word, h, ps, i - 1).body.Resumable?
  }

  predicate Yielding(ps: seq<Pass>, n: nat)
    requires 1 <= n <= |ps|
  {
    ps[n - 1].leaves.Yields?
  }

  /** Were the body to run at each of the passes from `i` up to `k`, it would yield at each. */
  predicate YieldsSince(ps: seq<Pass>, i: nat, k: nat)
    requires 1 <= i <= k <= |ps|
  {
    forall n | i <= n < k :: Yielding(ps, n)
  }

  ghost predicate BegunBefore(word: nat, h: Hat, ps: seq<Pass>, k: nat)
    requires word > 0 && 1 <= k <= |ps|
  {
    exists i | 1 <= i <= k :: StartsAt(word, h, ps, i) && YieldsSince(ps, i, k)
  }

  lemma {:induction false} BodyAfter(word: nat, h: Hat, ps: seq<Pass>, i: nat)
    requires word > 0 && 1 <= i <= |ps|
    ensures ScriptAfter(word, h, ps, i).body ==
            if !RunsAt(word, h, ps, i) || ps[i - 1].leaves.Finishes? then Idle
            else if ps[i - 1].leaves.Yields? then Resumable else Halted
  {
  }

  /** The body runs exactly from a start on, at every pass, whatever the key
      does, until it no longer yields. */
  lemma {:induction false} RunsUntilDone(word: nat, h: Hat, ps: seq<Pass>, k: nat)
    requires word > 0 && 1 <= k <= |ps|
    ensures RunsAt(word, h, ps, k) <==> BegunBefore(word, h, ps, k)
  {
    hide StartsAt, ScriptAfter, PadAfter;
    if StartsAt(word, h, ps, k) {
      assert YieldsSince(ps, k, k);
    } else if k > 1 {
      BodyAfter(word, h, ps, k - 1);
      RunsUntilDone(word, h, ps, k - 1);
      if RunsAt(word, h, ps, k) {
        var i :| 1 <= i <= k - 1 && StartsAt(word, h, ps, i) && YieldsSince(ps, i, k - 1);
        assert YieldsSince(ps, i, k);
      }
      if i :| 1 <= i <= k && StartsAt(word, h, ps, i) && YieldsSince(ps, i, k) {
        assert i < k && YieldsSince(ps, i, k - 1);
        assert Yielding(ps, k - 1);
      }
    } else {
      RunsFirst(word, h, ps);
    }
  }

  lemma {:induction false} RunsFirst(word: nat, h: Hat, ps: seq<Pass>)
    requires word > 0 && 1 <= |ps|
    ensures RunsAt(word, h, ps, 1) == StartsAt(word, h, ps, 1)
  {
  }

  /** The debounced key moves onto the active side of the edge at pass `i`. */
  predicate EdgeAt(word: nat, h: Hat, ps: seq<Pass>, i: nat)
    requires word > 0 && 1 <= i <= |ps|
  {
    Active(h, PadAfter(word, ps, i).key) && !Active(h, PadAfter(word, ps, i - 1).key)
  }

  /** An edge starts the body, unless the pass before ran it and did not finish it. */
  lemma {:induction false} StartsExactly(word: nat, h: Hat, ps: seq<Pass>, i: nat)
    requires word > 0 && 1 <= i <= |ps|
    ensures StartsAt(word, h, ps, i) <==>
            EdgeAt(word, h, ps, i)
            && (i == 1 || !RunsAt(word, h, ps, i - 1) || ps[i - 2].leaves.Finishes?)
  {
    hide PadAfter;
    PrevIsKey(word, h, ps, i - 1);
    if i > 1 {
      BodyAfter(word, h, ps, i - 1);
    } else {
      PadStart(word, h, ps);
    }
  }

  lemma {:induction false} PadNext(word: nat, ps: seq<Pass>, i: nat, p: Pad)
    requires word > 0 && i < |ps| && PadAfter(word, ps, i) == p
    ensures PadAfter(word, ps, i + 1) == Poll(word, p, ps[i].time, ps[i].scan)
  {
  }

  lemma {:induction false} ScriptNext(word: nat, h: Hat, ps: seq<Pass>, i: nat, s: Script)
    requires word > 0 && i < |ps| && ScriptAfter(word, h, ps, i) == s
    ensures ScriptAfter(word, h, ps, i + 1) == Dispatch(h, s, PadAfter(word, ps, i + 1).key, ps[i].leaves)
  {
  }

  /** The gap is met: press, release and press again as fast as the poll can see
      them, and the body starts twice with four scan gaps between. */
  lemma {:induction false} GapIsMet(ps: seq<Pass>, h: Hat)
    requires h.pressed && |ps| == 6
    requires forall k | 0 <= k < 6 :: ps[k].time == SCAN_GAP * (k + 1) && ps[k].leaves == Finishes
    requires ps[0].scan == ps[1].scan == ps[4].scan == ps[5].scan == h.key
    requires ps[2].scan == ps[3].scan == NO_KEY
    ensures StartsAt(0x1_0000, h, ps, 2) && StartsAt(0x1_0000, h, ps, 6)
    ensures ClockRuns(ps) && ps[5].time - ps[1].time == 4 * SCAN_GAP
  {
    hide PadAfter, ScriptAfter;
    var w := 0x1_0000;
    PadStart(w, h, ps);
    PadNext(w, ps, 0, FIRST_PAD);
    PadNext(w, ps, 1, Pad(h.key, NO_KEY, 5));
    PadNext(w, ps, 2, Pad(h.key, h.key, 10));
    PadNext(w, ps, 3, Pad(NO_KEY, h.key, 15));
    PadNext(w, ps, 4, Pad(NO_KEY, NO_KEY, 20));
    PadNext(w, ps, 5, Pad(h.key, NO_KEY, 25));
    ScriptNext(w, h, ps, 0, FIRST_SCRIPT);
    ScriptNext(w, h, ps, 1, Script(false, Idle));
    ScriptNext(w, h, ps, 2, Script(true, Idle));
    ScriptNext(w, h, ps, 3, Script(true, Idle));
    ScriptNext(w, h, ps, 4, Script(false, Idle));
  }

  lemma {:induction false} PadStart(word: nat, h: Hat, ps: seq<Pass>)
    requires word > 0
    ensures PadAfter(word, ps, 0) == FIRST_PAD && ScriptAfter(word, h, ps, 0) == FIRST_SCRIPT
  {
  }
}
