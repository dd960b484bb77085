/** The fixed-window rate limiter of the API middleware.

    As written, the handler reads w.count before any window exists for a first-time key; the nil
    dereference leaves the mutex locked. WrittenStep below keeps that; the other definitions follow the
    evident intent, in which the first request opens a window and is admitted. */
module RateLimit {
  import opened Basics

  datatype Window = Window(count: nat, start: int)

  type Visitors = map<string, Window>

  /** One request: its key, its time, and the limit of the route it is on. */
  datatype Request = Request(key: string, now: int, max: nat)

  const GC_THRESHOLD: nat := 10_000

  predicate Expired(w: Window, now: int, per: int) {
    now - w.start > per
  }

  function Pruned(visitors: Visitors, now: int, per: int): Visitors {
    map k | k in visitors && !Expired(visitors[k], now, per) :: visitors[k]
  }

  function Collected(visitors: Visitors, now: int, per: int): Visitors {
    if |visitors| > GC_THRESHOLD then Pruned(visitors, now, per) else visitors
  }

  predicate OpensWindow(visitors: Visitors, q: Request, per: int) {
    q.key !in visitors || Expired(visitors[q.key], q.now, per)
  }

  /** The map after a request, and whether the request is admitted. */
  function Step(visitors: Visitors, q: Request, per: int): (Visitors, bool) {
    if OpensWindow(visitors, q, per) then
      (Collected(visitors, q.now, per)[q.key := Window(1, q.now)], true)
    else
      var w := visitors[q.key];
      (visitors[q.key := Window(w.count + 1, w.start)], w.count + 1 <= q.max)
  }

  class RateLimiter {
    var visitors: Visitors

    constructor ()
      ensures visitors == map[]
    {
      visitors := map[];
    }

    method Admit(key: string, now: int, max: nat, per: int) returns (admitted: bool)
      modifies this
      ensures (visitors, admitted) == Step(old(visitors), Request(key, now, max), per)
    {
      if key !in visitors || now - visitors[key].start > per {
        if |visitors| > GC_THRESHOLD {
          Prune(now, per);
        }
        visitors := visitors[key := Window(1, now)];
        return true;
      }
      visitors := visitors[key := visitors[key].(count := visitors[key].count + 1)];
      admitted := visitors[key].count <= max;
    }

    /** The opportunistic collection: deletes expired windows one at a time. */
    method Prune(now: int, per: int)
      modifies this
      ensures visitors == Pruned(old(visitors), now, per)
    {
      var todo := visitors.Keys;
      while todo != {}
        invariant todo <= visitors.Keys <= old(visitors).Keys
        invariant forall k | k in visitors :: visitors[k] == old(visitors)[k]
        invariant forall k | k in old(visitors) && k !in todo ::
                    k in visitors <==> !Expired(old(visitors)[k], now, per)
        decreases |todo|
      {
        var k :| k in todo;
        todo := todo - {k};
        if now - visitors[k].start > per {
          visitors := visitors - {k};
        }
      }
    }
  }

  // ---- Runs ----

  function After(qs: seq<Request>, per: int): Visitors {
    if qs == [] then map[] else Step(After(qs[..|qs| - 1], per), qs[|qs| - 1], per).0
  }

  function Admitted(qs: seq<Request>, per: int): seq<bool> {
    if qs == [] then []
    else Admitted(qs[..|qs| - 1], per) + [Step(After(qs[..|qs| - 1], per), qs[|qs| - 1], per).1]
  }

  ghost predicate InOrder(qs: seq<Request>) {
    forall i, j | 0 <= i < j < |qs| :: qs[i].now <= qs[j].now
  }

  // ---- Collection changes no decision ----

  /** The limiter that never deletes a window. */
  function StepUnpruned(visitors: Visitors, q: Request, per: int): (Visitors, bool) {
    if OpensWindow(visitors, q, per) then (visitors[q.key := Window(1, q.now)], true)
    else Step(visitors, q, per)
  }

  function AfterUnpruned(qs: seq<Request>, per: int): Visitors {
    if qs == [] then map[] else StepUnpruned(AfterUnpruned(qs[..|qs| - 1], per), qs[|qs| - 1], per).0
  }

  function AdmittedUnpruned(qs: seq<Request>, per: int): seq<bool> {
    if qs == [] then []
    else
      AdmittedUnpruned(qs[..|qs| - 1], per)
      + [StepUnpruned(AfterUnpruned(qs[..|qs| - 1], per), qs[|qs| - 1], per).1]
  }

  /** The pruned map lacks only windows that have expired. */
  ghost predicate LacksOnlyExpired(pruned: Visitors, full: Visitors, now: int, per: int) {
    && (forall k | k in pruned :: k in full && full[k] == pruned[k])
    && (forall k | k in full && k !in pruned :: Expired(full[k], now, per))
  }

  lemma {:induction false} StepSimulates(pruned: Visitors, full: Visitors, before: int, q: Request, per: int)
    requires LacksOnlyExpired(pruned, full, before, per) && before <= q.now
    ensures LacksOnlyExpired(Step(pruned, q, per).0, StepUnpruned(full, q, per).0, q.now, per)
    ensures Step(pruned, q, per).1 == StepUnpruned(full, q, per).1
  {
  }

  /** With request times in order, deleting expired windows never changes who is admitted. */
  lemma {:induction false} CollectionChangesNoDecision(qs: seq<Request>, per: int)
    requires InOrder(qs)
    ensures Admitted(qs, per) == AdmittedUnpruned(qs, per) && |Admitted(qs, per)| == |qs|
    ensures qs != [] ==> LacksOnlyExpired(After(qs, per), AfterUnpruned(qs, per), qs[|qs| - 1].now, per)
  {
    if qs != [] {
      var before := qs[..|qs| - 1];
      var q := qs[|qs| - 1];
      CollectionChangesNoDecision(before, per);
      var last := if before == [] then q.now else before[|before| - 1].now;
      StepSimulates(After(before, per), AfterUnpruned(before, per), last, q, per);
    }
  }

  /** A collection leaves no expired window and drops no other; it happens exactly when a request opens a
      window while more than ten thousand are kept. */
  lemma {:induction false} CollectionDropsExactlyExpired(v: Visitors, q: Request, per: int)
    requires per >= 0
    ensures var after := Step(v, q, per).0;
            if (q.key !in v || q.now - v[q.key].start > per) && |v| > 10_000
            then forall k :: k in after <==> k == q.key || (k in v && q.now - v[k].start <= per)
            else after.Keys == v.Keys + {q.key}
  {
  }

  // ---- The decision by arrival times alone ----

  /** When the key's current window was opened: by its first request, and again by each request that comes
      more than per after the opening. */
  function OpenedAt(qs: seq<Request>, key: string, per: int): Option<int> {
    if qs == [] then None
    else
      var start := OpenedAt(qs[..|qs| - 1], key, per);
      var q := qs[|qs| - 1];
      if q.key == key && (start.None? || q.now - start.value > per) then Some(q.now) else start
  }

  /** The key's requests at or after a time, admitted or not. */
  function ArrivalsFrom(qs: seq<Request>, key: string, from: int): nat {
    if qs == [] then 0
    else
      var q := qs[|qs| - 1];
      ArrivalsFrom(qs[..|qs| - 1], key, from) + if q.key == key && q.now >= from then 1 else 0
  }

  ghost predicate NoneAfter(qs: seq<Request>, key: string, time: int) {
    forall q | q in qs && q.key == key :: q.now <= time
  }

  lemma {:induction false} NoArrivals(qs: seq<Request>, key: string, from: int)
    requires forall q | q in qs && q.key == key :: q.now < from
    ensures ArrivalsFrom(qs, key, from) == 0
  {
    if qs != [] {
      NoArrivals(qs[..|qs| - 1], key, from);
    }
  }

  ghost predicate Tracks(v: Visitors, qs: seq<Request>, per: int, key: string) {
    if key in v then
      && OpenedAt(qs, key, per) == Some(v[key].start)
      && v[key].count == ArrivalsFrom(qs, key, v[key].start)
      && NoneAfter(qs, key, v[key].start + per)
      && qs != [] && v[key].start <= qs[|qs| - 1].now
    else OpenedAt(qs, key, per) == None && forall q | q in qs :: q.key != key
  }

  lemma {:induction false} StepTracks(v: Visitors, qs: seq<Request>, q: Request, per: int, key: string)
    requires Tracks(v, qs, per, key) && per >= 0
    requires qs != [] ==> qs[|qs| - 1].now <= q.now
    ensures Tracks(StepUnpruned(v, q, per).0, qs + [q], per, key)
  {
    assert (qs + [q])[..|qs|] == qs;
    if q.key == key && OpensWindow(v, q, per) {
      NoArrivals(qs, key, q.now);
    }
  }

  /** A window's count is the number of the key's arrivals since it was opened, rejected ones included, and
      none of them came later than per after the opening. */
  lemma {:induction false} WindowCountsArrivals(qs: seq<Request>, per: int, key: string)
    requires InOrder(qs) && per >= 0
    ensures var v := AfterUnpruned(qs, per);
            if key in v
            then OpenedAt(qs, key, per) == Some(v[key].start)
                 && v[key].count == ArrivalsFrom(qs, key, v[key].start)
                 && NoneAfter(qs, key, v[key].start + per)
            else OpenedAt(qs, key, per) == None && forall q | q in qs :: q.key != key
    ensures Tracks(AfterUnpruned(qs, per), qs, per, key)
  {
    if qs != [] {
      var before := qs[..|qs| - 1];
      WindowCountsArrivals(before, per, key);
      hide StepUnpruned, ArrivalsFrom, OpenedAt;
      StepTracks(AfterUnpruned(before, per), before, qs[|qs| - 1], per, key);
      assert qs == before + [qs[|qs| - 1]];
    }
  }

  /** A request is admitted if and only if it is the key's first, or comes more than per after the opening of
      the current window, or is within the limit among the arrivals since that opening. */
  lemma {:induction false} AdmittedByArrivals(qs: seq<Request>, q: Request, per: int)
    requires InOrder(qs + [q]) && per >= 0
    ensures var start := OpenedAt(qs, q.key, per);
            Step(After(qs, per), q, per).1 <==>
            start.None? || q.now - start.value > per || ArrivalsFrom(qs, q.key, start.value) + 1 <= q.max
  {
    assert InOrder(qs) by { assert forall i | 0 <= i < |qs| :: qs[i] == (qs + [q])[i]; }
    WindowCountsArrivals(qs, per, q.key);
    CollectionChangesNoDecision(qs + [q], per);
    assert (qs + [q])[..|qs|] == qs;
    assert Admitted(qs + [q], per)[|qs|] == AdmittedUnpruned(qs + [q], per)[|qs|];
    CollectionChangesNoDecision(qs, per);
  }

  // ---- At most twice the limit in any interval of the window's length ----

  ghost predicate Counts(q: Request, key: string, from: int, per: int, max: nat) {
    q.key == key && from <= q.now <= from + per && q.max <= max
  }

  /** Admitted requests of the key between from and from + per, on routes with limit at most max. */
  ghost function AdmittedWithin(qs: seq<Request>, per: int, key: string, from: int, max: nat): nat {
    if qs == [] then 0
    else
      var before := qs[..|qs| - 1];
      var q := qs[|qs| - 1];
      AdmittedWithin(before, per, key, from, max)
      + if Counts(q, key, from, per, max) && Step(After(before, per), q, per).1 then 1 else 0
  }

  /** What the key's current window says about the admissions counted so far: a window opened before
      the interval has spent its first admission outside it. */
  ghost predicate WindowBounds(v: Visitors, key: string, from: int, per: int, limit: nat, counted: nat) {
    if key !in v then counted == 0
    else
      var w := v[key];
      w.count >= 1 &&
      if w.start < from then counted <= Min(w.count, limit) - 1
      else if w.start <= from + per then counted <= limit - 1 + Min(w.count, limit)
      else counted <= 2 * limit - 1
  }

  lemma {:induction false} StepKeepsBounds(
      v: Visitors, q: Request, key: string, from: int, per: int, max: nat, counted: nat)
    requires per >= 0
    requires key !in v ==> counted == 0
    requires WindowBounds(v, key, from, per, Max(max, 1), counted)
    requires key in v ==> v[key].start <= q.now
    requires q.now < from ==> counted == 0
    ensures var (v', admitted) := StepUnpruned(v, q, per);
            WindowBounds(v', key, from, per, Max(max, 1),
                         counted + if Counts(q, key, from, per, max) && admitted then 1 else 0)
  {
  }

  lemma {:induction false} RunKeepsBounds(qs: seq<Request>, per: int, key: string, from: int, max: nat)
    requires InOrder(qs) && per >= 0
    ensures var v := AfterUnpruned(qs, per); var counted := AdmittedWithin(qs, per, key, from, max);
            && WindowBounds(v, key, from, per, Max(max, 1), counted)
            && (qs == [] ==> key !in v && counted == 0)
            && (qs != [] ==>
                  && (key in v ==> v[key].start <= qs[|qs| - 1].now)
                  && (qs[|qs| - 1].now < from ==> counted == 0))
  {
    if qs != [] {
      var before := qs[..|qs| - 1];
      RunKeepsBounds(before, per, key, from, max);
      CollectionChangesNoDecision(qs, per);
      assert Admitted(qs, per)[|before|] == AdmittedUnpruned(qs, per)[|before|];
      StepKeepsBounds(AfterUnpruned(before, per), qs[|qs| - 1], key, from, per, max,
                      AdmittedWithin(before, per, key, from, max));
    }
  }

  /** One key is admitted fewer than 2 * max times on the routes with limit max in any interval of the
      window's length, for every max >= 1 and wherever the interval starts. */
  lemma {:induction false} FewerThanTwiceTheLimit(qs: seq<Request>, per: int, key: string, from: int, max: nat)
    requires InOrder(qs) && per >= 0
    ensures AdmittedWithin(qs, per, key, from, max) <= 2 * Max(max, 1) - 1
  {
    RunKeepsBounds(qs, per, key, from, max);
  }

  function Repeat(q: Request, n: nat): seq<Request> {
    seq(n, _ => q)
  }

  lemma {:induction false} RepeatUnrolled(q: Request, n: nat)
    requires n >= 1
    ensures Repeat(q, n) == Repeat(q, n - 1) + [q] == [q] + Repeat(q, n - 1)
  {
  }

  lemma {:induction false} OneMore(qs: seq<Request>, q: Request, per: int, key: string, from: int, max: nat)
    ensures After(qs + [q], per) == Step(After(qs, per), q, per).0
    ensures AdmittedWithin(qs + [q], per, key, from, max)
         == AdmittedWithin(qs, per, key, from, max)
            + if Counts(q, key, from, per, max) && Step(After(qs, per), q, per).1 then 1 else 0
  {
    hide Step, Counts;
    assert (qs + [q])[..|qs|] == qs;
  }

  lemma {:induction false} OpenWindowAdmits(v: Visitors, q: Request, per: int)
    requires q.key in v && !Expired(v[q.key], q.now, per) && v[q.key].count < q.max
    ensures Step(v, q, per) == (v[q.key := Window(v[q.key].count + 1, v[q.key].start)], true)
  {
  }

  /** n requests at one moment, inside an open window that still has room for them, are all admitted. */
  lemma {:induction false} RepeatsAdmitted(qs: seq<Request>, q: Request, n: nat, per: int, from: int, max: nat)
    requires q.key in After(qs, per) && !Expired(After(qs, per)[q.key], q.now, per)
    requires After(qs, per)[q.key].count + n <= q.max
    requires Counts(q, q.key, from, per, max)
    ensures var w := After(qs, per)[q.key];
            After(qs + Repeat(q, n), per) == After(qs, per)[q.key := Window(w.count + n, w.start)]
    ensures AdmittedWithin(qs + Repeat(q, n), per, q.key, from, max) == AdmittedWithin(qs, per, q.key, from, max) + n
  {
    hide Step, Counts, After, AdmittedWithin;
    if n == 0 {
      assert qs + Repeat(q, 0) == qs;
    } else {
      hide Repeat;
      var before := qs + Repeat(q, n - 1);
      RepeatsAdmitted(qs, q, n - 1, per, from, max);
      RepeatUnrolled(q, n);
      OneMore(before, q, per, q.key, from, max);
      OpenWindowAdmits(After(before, per), q, per);
      assert before + [q] == qs + Repeat(q, n);
    }
  }

  /** One request at time 0, the rest of its window's limit at its last moment, a full limit just after. */
  function Burst(key: string, per: int, max: nat): seq<Request>
    requires max >= 1
  {
    [Request(key, 0, max)] + Repeat(Request(key, per, max), max - 1) + Repeat(Request(key, per + 1, max), max)
  }

  lemma {:induction false} FirstWindow(key: string, per: int, max: nat)
    requires max >= 1 && per >= 1
    ensures var qs := [Request(key, 0, max)] + Repeat(Request(key, per, max), max - 1);
            After(qs, per) == map[key := Window(max, 0)] && AdmittedWithin(qs, per, key, per, max) == max - 1
  {
    var first := [Request(key, 0, max)];
    assert first[..0] == [];
    assert After(first, per) == map[key := Window(1, 0)] && AdmittedWithin(first, per, key, per, max) == 0;
    RepeatsAdmitted(first, Request(key, per, max), max - 1, per, per, max);
  }

  lemma {:induction false} BurstInOrder(key: string, per: int, max: nat)
    requires max >= 1 && per >= 1
    ensures InOrder(Burst(key, per, max))
  {
  }

  lemma {:induction false} ExpiredWindowReopens(key: string, per: int, max: nat)
    requires max >= 1 && per >= 1
    ensures Step(map[key := Window(max, 0)], Request(key, per + 1, max), per) == (map[key := Window(1, per + 1)], true)
  {
    var v := map[key := Window(max, 0)];
    assert Collected(v, per + 1, per)[key := Window(1, per + 1)] == map[key := Window(1, per + 1)];
  }

  /** The bound is reached for every limit and every length of the window. */
  lemma {:induction false} BoundIsReached(key: string, per: int, max: nat)
    requires max >= 1 && per >= 1
    ensures InOrder(Burst(key, per, max))
    ensures AdmittedWithin(Burst(key, per, max), per, key, per, max) == 2 * max - 1
  {
    hide Step, After, AdmittedWithin, Repeat, InOrder;
    var q := Request(key, per + 1, max);
    var qs := [Request(key, 0, max)] + Repeat(Request(key, per, max), max - 1);
    BurstInOrder(key, per, max);
    FirstWindow(key, per, max);
    OneMore(qs, q, per, key, per, max);
    ExpiredWindowReopens(key, per, max);
    RepeatsAdmitted(qs + [q], q, max - 1, per, per, max);
    RepeatUnrolled(q, max);
    assert qs + [q] + Repeat(q, max - 1) == qs + Repeat(q, max);
  }

  // ---- The code as written ----

  /** Nothing reaches past the lock once a request has crashed while holding it. */
  datatype Written = Running(visitors: Visitors) | Locked

  datatype Fate = Admit | Reject | Crash | Block

  /** The handler with its read of w.count in place: w is nil exactly when the key had no window. */
  function WrittenStep(s: Written, q: Request, per: int): (Written, Fate) {
    match s
    case Locked => (Locked, Block)
    case Running(visitors) =>
      if q.key !in visitors then (Locked, Crash)
      else var (after, admitted) := Step(visitors, q, per); (Running(after), if admitted then Admit else Reject)
  }

  /** The code does what was intended exactly when the key already has a window. */
  lemma {:induction false} WrittenIsIntendedExactlyWhenSeen(visitors: Visitors, q: Request, per: int)
    ensures WrittenStep(Running(visitors), q, per)
            == (Running(Step(visitors, q, per).0), if Step(visitors, q, per).1 then Admit else Reject)
            <==> q.key in visitors
  {
  }

  function WrittenAfter(qs: seq<Request>, per: int): Written {
    if qs == [] then Running(map[]) else WrittenStep(WrittenAfter(qs[..|qs| - 1], per), qs[|qs| - 1], per).0
  }

  /** From a new limiter the code as written admits nothing: the first request crashes under the lock. */
  lemma {:induction false} WrittenAdmitsNothing(qs: seq<Request>, q: Request, per: int)
    ensures WrittenStep(WrittenAfter(qs, per), q, per).1 == if qs == [] then Crash else Block
  {
    if qs != [] {
      WrittenAdmitsNothing(qs[..|qs| - 1], qs[|qs| - 1], per);
      assert WrittenAfter(qs, per) == Locked;
    }
  }
}
