/** The request budget: fixed windows per key and a sweep nobody can observe
    (cmd/router/limits.go:68-145). Times are nanoseconds. */
module Limiter {
  import opened Roads

  const SECOND: int := 1_000_000_000
  const MINUTE: int := 60 * SECOND
  const HOUR: int := 3600 * SECOND
  const PER_MINUTE: nat := 60
  const PER_HOUR: nat := 600
  const SWEEP_ABOVE: nat := 20000

  datatype Window = Window(start: int, n: nat)

  datatype Bucket = Bucket(min: Window, hour: Window, seen: int)

  datatype Verdict = Verdict(ok: bool, wait: int)

  // ------------------------------------------------------------------ one key

  /** The window a request at now counts in. */
  function Roll(w: Window, now: int, span: int): Window { if now - w.start >= span then Window(now, 0) else w }

  /** The seconds until a window opens, as the source's integer division has it. */
  function WaitFor(w: Window, now: int, span: int): int { (span - (now - w.start)) / SECOND + 1 }

  /** One request charged to a key: its bucket afterwards and the verdict. */
  function Charge(b: Option<Bucket>, now: int): (Bucket, Verdict) {
    var was := if b.Some? then b.value else Bucket(Window(now, 0), Window(now, 0), now);
    var min, hour := Roll(was.min, now, MINUTE), Roll(was.hour, now, HOUR);
    if min.n >= PER_MINUTE then (Bucket(min, hour, now), Verdict(false, WaitFor(min, now, MINUTE)))
    else if hour.n >= PER_HOUR then (Bucket(min, hour, now), Verdict(false, WaitFor(hour, now, HOUR)))
    else (Bucket(min.(n := min.n + 1), hour.(n := hour.n + 1), now), Verdict(true, 0))
  }

  function Get(m: map<string, Bucket>, key: string): Option<Bucket> { if key in m then Some(m[key]) else None }

  // ------------------------------------------------------------------ the limiter

  function Swept(m: map<string, Bucket>, now: int): map<string, Bucket> {
    if |m| > SWEEP_ABOVE then map k | k in m && now - m[k].seen <= HOUR :: m[k] else m
  }

  /** allow on values, with the sweep and without it. */
  function AllowSwept(m: map<string, Bucket>, key: string, now: int): (map<string, Bucket>, Verdict) {
    if key == "" then (m, Verdict(true, 0))
    else
      var s := Swept(m, now);
      var c := Charge(Get(s, key), now);
      (s[key := c.0], c.1)
  }

  function AllowUnswept(m: map<string, Bucket>, key: string, now: int): (map<string, Bucket>, Verdict) {
    if key == "" then (m, Verdict(true, 0))
    else
      var c := Charge(Get(m, key), now);
      (m[key := c.0], c.1)
  }

  /** The limiter as the service holds it. */
  class Limiter {
    var m: map<string, Bucket>

    constructor ()
      ensures m == map[]
    {
      m := map[];
    }

    /** Drops what has not been seen for an hour. */
    method Sweep(now: int)
      modifies this
      ensures m == map k | k in old(m) && now - old(m)[k].seen <= HOUR :: old(m)[k]
    {
      var left := m.Keys;
      while left != {}
        invariant left <= m.Keys <= old(m).Keys
        invariant forall k :: k in m ==> m[k] == old(m)[k]
        invariant forall k :: k in old(m) && k !in left ==> (k in m <==> now - old(m)[k].seen <= HOUR)
        decreases left
      {
        var k :| k in left;
        left := left - {k};
        if now - m[k].seen > HOUR { m := m - {k}; }
      }
    }

    /** Charges one request to a key. */
    method Allow(key: string, now: int) returns (v: Verdict)
      modifies this
      ensures (m, v) == AllowSwept(old(m), key, now)
    {
      if key == "" { return Verdict(true, 0); }
      if |m| > SWEEP_ABOVE { Sweep(now); }
      var b := if key in m then m[key] else Bucket(Window(now, 0), Window(now, 0), now);
      b := b.(seen := now);
      if now - b.min.start >= MINUTE { b := b.(min := Window(now, 0)); }
      if now - b.hour.start >= HOUR { b := b.(hour := Window(now, 0)); }
      if b.min.n >= PER_MINUTE {
        v := Verdict(false, WaitFor(b.min, now, MINUTE));
      } else if b.hour.n >= PER_HOUR {
        v := Verdict(false, WaitFor(b.hour, now, HOUR));
      } else {
        b := b.(min := b.min.(n := b.min.n + 1), hour := b.hour.(n := b.hour.n + 1));
        v := Verdict(true, 0);
      }
      m := m[key := b];
    }
  }

  // ------------------------------------------------------------------ runs

  datatype Request = Request(key: string, at: int)

  /** Times never run backwards. */
  ghost predicate InOrder(run: seq<Request>) { forall i, j :: 0 <= i < j < |run| ==> run[i].at <= run[j].at }

  /** The state and the verdicts after a run, with the sweep and without it. */
  function Run(run: seq<Request>): (map<string, Bucket>, seq<Verdict>) {
    if |run| == 0 then (map[], [])
    else
      var before := Run(run[..|run| - 1]);
      var r := run[|run| - 1];
      var a := AllowSwept(before.0, r.key, r.at);
      (a.0, before.1 + [a.1])
  }

  function RunUnswept(run: seq<Request>): (map<string, Bucket>, seq<Verdict>) {
    if |run| == 0 then (map[], [])
    else
      var before := RunUnswept(run[..|run| - 1]);
      var r := run[|run| - 1];
      var a := AllowUnswept(before.0, r.key, r.at);
      (a.0, before.1 + [a.1])
  }

  /** A bucket as some run up to time t may leave it. */
  predicate BucketOk(b: Bucket, t: int) {
    b.min.start <= b.seen <= t && b.hour.start <= b.seen && b.min.n <= PER_MINUTE && b.hour.n <= PER_HOUR
  }

  /** What the swept limiter still holds it holds as the other does; what it no longer holds has not
      been seen for an hour. */
  ghost predicate Same(swept: map<string, Bucket>, all: map<string, Bucket>, t: int) {
    && (forall k :: k in all ==> BucketOk(all[k], t))
    && (forall k :: k in swept ==> k in all && swept[k] == all[k])
    && (forall k :: k in all && k !in swept ==> t - all[k].seen > HOUR)
  }

  /** A bucket nobody has touched for an hour answers like a new one. */
  lemma OldIsNew(b: Bucket, t: int, now: int)
    requires BucketOk(b, t) && t <= now && now - b.seen > HOUR
    ensures Charge(Some(b), now) == Charge(None, now)
  {
  }

  lemma SweepKeepsSame(swept: map<string, Bucket>, all: map<string, Bucket>, t: int, now: int)
    requires Same(swept, all, t) && t <= now
    ensures Same(Swept(swept, now), all, now)
  {
  }

  lemma ChargeKeepsOk(b: Option<Bucket>, t: int, now: int)
    requires (b.Some? ==> BucketOk(b.value, t)) && t <= now
    ensures BucketOk(Charge(b, now).0, now)
  {
  }

  lemma AllowSame(swept: map<string, Bucket>, all: map<string, Bucket>, t: int, key: string, now: int)
    requires Same(swept, all, t) && t <= now
    ensures AllowSwept(swept, key, now).1 == AllowUnswept(all, key, now).1
    ensures Same(AllowSwept(swept, key, now).0, AllowUnswept(all, key, now).0, now)
  {
    SweepKeepsSame(swept, all, t, now);
    if key != "" {
      var s := Swept(swept, now);
      ChargeKeepsOk(Get(all, key), t, now);
      if key in all && key !in s { OldIsNew(all[key], t, now); }
      assert Charge(Get(s, key), now) == Charge(Get(all, key), now);
    }
  }

  lemma {:induction false} RunsAgree(run: seq<Request>, t: int)
    requires InOrder(run) && (|run| > 0 ==> run[|run| - 1].at <= t)
    ensures Run(run).1 == RunUnswept(run).1 && Same(Run(run).0, RunUnswept(run).0, t)
  {
    if |run| > 0 {
      var r := run[|run| - 1];
      RunsAgree(run[..|run| - 1], r.at);
      AllowSame(Run(run[..|run| - 1]).0, RunUnswept(run[..|run| - 1]).0, r.at, r.key, r.at);
    }
  }

  /** The sweep cannot be observed: over any run in order, every verdict is the one a limiter that never
      forgets would give. */
  lemma SweepIsUnobservable(run: seq<Request>)
    requires InOrder(run)
    ensures Run(run).1 == RunUnswept(run).1
  {
    if |run| > 0 { RunsAgree(run, run[|run| - 1].at); }
  }

  // ------------------------------------------------------------------ how much a window lets through

  /** How many requests of key a run admitted at times in [from, from + span). */
  function Admitted(run: seq<Request>, key: string, from: int, span: int): nat {
    if |run| == 0 then 0
    else
      var before, r := run[..|run| - 1], run[|run| - 1];
      Admitted(before, key, from, span)
      + (if r.key == key && from <= r.at < from + span && AllowUnswept(RunUnswept(before).0, r.key, r.at).1.ok then 1
          else 0)
  }

  /** What a key's window w says about how many were admitted in [from, from + span): if it began
      before, it counted them all; if it began inside, at most one full window came before it. */
  predicate Bounded(w: Window, cap: nat, from: int, span: int, admitted: nat, t: int) {
    && w.n <= cap && w.start <= t && admitted <= 2 * cap
    && (t < from ==> admitted == 0)
    && (w.start < from ==> admitted <= w.n)
    && (from <= w.start < from + span ==> admitted <= cap + w.n)
  }

  /** One request of the key: the window rolls, and counts it if it is admitted. */
  lemma OneRequest(w: Window, cap: nat, from: int, span: int, admitted: nat, t: int, now: int, ok: bool)
    requires span > 0 && t <= now && Bounded(w, cap, from, span, admitted, t)
    requires ok ==> Roll(w, now, span).n < cap
    ensures var rolled := Roll(w, now, span);
      Bounded(if ok then rolled.(n := rolled.n + 1) else rolled, cap, from, span,
              admitted + (if ok && from <= now < from + span then 1 else 0), now)
  {
  }

  /** What a bucket's two windows say about what was admitted to its key up to t. */
  predicate TrackedBy(b: Option<Bucket>, from: int, perMin: nat, perHour: nat, t: int) {
    if b.Some? then
      Bounded(b.value.min, PER_MINUTE, from, MINUTE, perMin, t)
          && Bounded(b.value.hour, PER_HOUR, from, HOUR, perHour, t)
    else perMin == 0 && perHour == 0
  }

  function Within(from: int, at: int, span: int): nat { if from <= at < from + span then 1 else 0 }

  /** One request charged to the key. */
  lemma ChargeTracks(b: Option<Bucket>, from: int, perMin: nat, perHour: nat, at: int)
    requires TrackedBy(b, from, perMin, perHour, at)
    ensures var c := Charge(b, at);
      if c.1.ok then TrackedBy(Some(c.0), from, perMin + Within(from, at, MINUTE), perHour + Within(from, at, HOUR), at)
      else TrackedBy(Some(c.0), from, perMin, perHour, at)
  {
    var was := if b.Some? then b.value else Bucket(Window(at, 0), Window(at, 0), at);
    var ok := Charge(b, at).1.ok;
    OneRequest(was.min, PER_MINUTE, from, MINUTE, perMin, at, at, ok);
    OneRequest(was.hour, PER_HOUR, from, HOUR, perHour, at, at, ok);
    hide Bounded;
  }

  /** Time passes. */
  lemma TrackedLater(b: Option<Bucket>, from: int, perMin: nat, perHour: nat, t: int, later: int)
    requires TrackedBy(b, from, perMin, perHour, t) && t <= later
    ensures TrackedBy(b, from, perMin, perHour, later)
  {}

  lemma {:induction false} RunIsTracked(run: seq<Request>, key: string, from: int, t: int)
    requires InOrder(run) && key != "" && (|run| > 0 ==> run[|run| - 1].at <= t)
    ensures TrackedBy(Get(RunUnswept(run).0, key), from, Admitted(run, key, from, MINUTE),
        Admitted(run, key, from, HOUR), t)
  {
    hide TrackedBy, Charge;
    if |run| == 0 {
      NothingTracked(from, t);
    } else {
      var before, r := run[..|run| - 1], run[|run| - 1];
      RunIsTracked(before, key, from, r.at);
      var b, perMin, perHour := Get(RunUnswept(before).0, key), Admitted(before, key, from, MINUTE),
          Admitted(before, key, from, HOUR);
      if r.key == key { ChargeTracks(b, from, perMin, perHour, r.at); }
      TrackedLater(Get(RunUnswept(run).0, key), from, Admitted(run, key, from, MINUTE),
          Admitted(run, key, from, HOUR), r.at, t);
    }
  }

  lemma NothingTracked(from: int, t: int)
    ensures TrackedBy(None, from, 0, 0, t)
  {}

  /** Whatever the run, any sixty seconds admit at most 120 requests of a key, any hour at most 1200. */
  lemma TwiceTheBudgetAtMost(run: seq<Request>, key: string, from: int)
    requires InOrder(run) && key != ""
    ensures Admitted(run, key, from, MINUTE) <= 120
    ensures Admitted(run, key, from, HOUR) <= 1200
  {
    if |run| > 0 {
      RunIsTracked(run, key, from, run[|run| - 1].at);
    }
  }

  // ------------------------------------------------------------------ waiting as told

  /** Waiting the seconds a refusal names opens its window: after an hour refusal the next request is
      admitted; after a minute refusal it is exactly if the hour's budget allows it by then. Before the
      window opens it is not. */
  lemma WaitingHelps(b: Option<Bucket>, t: int, now: int, later: int)
    requires (b.Some? ==> BucketOk(b.value, t)) && t <= now <= later && !Charge(b, now).1.ok
    ensures var c := Charge(b, now);
      var again := Charge(Some(c.0), later).1.ok;
      if c.0.min.n >= PER_MINUTE then
        && 1 <= c.1.wait <= 61
        && (later - c.0.min.start < MINUTE ==> !again)
        && (later >= now + c.1.wait * SECOND ==> (again <==> c.0.hour.n < PER_HOUR || later - c.0.hour.start >= HOUR))
      else
        && 1 <= c.1.wait <= 3601
        && (later - c.0.hour.start < HOUR ==> !again)
        && (later >= now + c.1.wait * SECOND ==> again)
  {
  }

  /** Requests of other keys leave a key's bucket alone. */
  lemma {:induction false} OthersDoNotMatter(run: seq<Request>, more: seq<Request>, key: string)
    requires forall i :: 0 <= i < |more| ==> more[i].key != key
    ensures Get(RunUnswept(run + more).0, key) == Get(RunUnswept(run).0, key)
  {
    if |more| == 0 {
      assert run + more == run;
    } else {
      OthersDoNotMatter(run, more[..|more| - 1], key);
      assert (run + more)[..|run + more| - 1] == run + more[..|more| - 1];
    }
  }

  lemma {:induction false} OkBuckets(run: seq<Request>, t: int, key: string)
    requires InOrder(run) && (|run| > 0 ==> run[|run| - 1].at <= t)
    ensures var b := Get(RunUnswept(run).0, key); b.Some? ==> BucketOk(b.value, t)
  {
    RunsAgree(run, t);
  }

  lemma LastVerdict(run: seq<Request>, r: Request)
    ensures RunUnswept(run + [r]).1 == RunUnswept(run).1 + [AllowUnswept(RunUnswept(run).0, r.key, r.at).1]
    ensures RunUnswept(run + [r]).0 == AllowUnswept(RunUnswept(run).0, r.key, r.at).0
  {
    assert (run + [r])[..|run|] == run;
  }

  lemma WholeInOrder(run: seq<Request>, refused: Request, others: seq<Request>, retry: Request)
    requires InOrder(run + [refused] + others + [retry])
    ensures InOrder(run) && (|run| > 0 ==> run[|run| - 1].at <= refused.at) && refused.at <= retry.at
  {
    var whole := run + [refused] + others + [retry];
    assert forall i, j :: 0 <= i < j < |run| ==> run[i] == whole[i] && run[j] == whole[j];
    assert whole[|run|] == refused && whole[|whole| - 1] == retry;
    if |run| > 0 { assert run[|run| - 1] == whole[|run| - 1]; }
  }

  /** What the retry meets: the bucket its own refusal left. */
  lemma RetryMeets(run: seq<Request>, refused: Request, others: seq<Request>, retry: Request)
    requires refused.key == retry.key != "" && forall i :: 0 <= i < |others| ==> others[i].key != retry.key
    ensures var c, vs := Charge(Get(RunUnswept(run).0, refused.key), refused.at),
        RunUnswept(run + [refused] + others + [retry]).1;
      |vs| > 0 && vs[|vs| - 1] == Charge(Some(c.0), retry.at).1
  {
    hide Charge;
    LastVerdict(run + [refused] + others, retry);
    OthersDoNotMatter(run + [refused], others, retry.key);
    LastVerdict(run, refused);
  }

  /** In the limiter as it runs, sweep and all: a key refused for its hour that waits as told, with
      nothing else charged to it meanwhile, is admitted. */
  lemma RetryIsAdmitted(run: seq<Request>, refused: Request, others: seq<Request>, retry: Request)
    requires InOrder(run + [refused] + others + [retry])
    requires refused.key == retry.key != "" && forall i :: 0 <= i < |others| ==> others[i].key != retry.key
    requires var c := Charge(Get(RunUnswept(run).0, refused.key), refused.at);
      !c.1.ok && retry.at >= refused.at + c.1.wait * SECOND
      && (c.0.min.n >= PER_MINUTE ==> c.0.hour.n < PER_HOUR)
    ensures var vs := Run(run + [refused] + others + [retry]).1; |vs| > 0 && vs[|vs| - 1].ok
  {
    hide Run, RunUnswept, Charge, InOrder;
    SweepIsUnobservable(run + [refused] + others + [retry]);
    WholeInOrder(run, refused, others, retry);
    RetryMeets(run, refused, others, retry);
    OkBuckets(run, refused.at, refused.key);
    WaitingHelps(Get(RunUnswept(run).0, refused.key), refused.at, refused.at, retry.at);
  }

  /** What a request leaves of the other keys: everything while the limiter is small, and above twenty thousand
      keys what was seen within the hour. */
  lemma OthersAreKept(m: map<string, Bucket>, key: string, now: int, other: string)
    requires key != "" && other != key
    ensures var after := AllowSwept(m, key, now).0;
      && (other in after <==> other in m && (|m| <= 20000 || now - m[other].seen <= 3600 * 1_000_000_000))
      && (other in after ==> after[other] == m[other])
  {
  }

  // ------------------------------------------------------------------ what a budget is worth

  /** How many requests of key a run admitted from a moment on. */
  function AdmittedSince(run: seq<Request>, key: string, from: int): nat {
    if |run| == 0 then 0
    else
      var before, r := run[..|run| - 1], run[|run| - 1];
      AdmittedSince(before, key, from)
      + (if r.key == key && from <= r.at && AllowUnswept(RunUnswept(before).0, r.key, r.at).1.ok then 1 else 0)
  }

  lemma {:induction false} SinceIsWithin(run: seq<Request>, key: string, from: int, now: int, span: nat)
    requires InOrder(run) && (|run| > 0 ==> run[|run| - 1].at <= now) && now - span < from
    ensures AdmittedSince(run, key, from) <= Admitted(run, key, now - span + 1, span)
  {
    if |run| > 0 {
      var before := run[..|run| - 1];
      if |before| > 0 { assert before[|before| - 1] == run[|before| - 1]; }
      hide AllowUnswept, RunUnswept;
      SinceIsWithin(before, key, from, now, span);
    }
  }

  lemma {:induction false} FewerSinceLater(run: seq<Request>, key: string, from: int, later: int)
    requires from <= later
    ensures AdmittedSince(run, key, later) <= AdmittedSince(run, key, from)
  {
    if |run| > 0 {
      hide AllowUnswept, RunUnswept;
      FewerSinceLater(run[..|run| - 1], key, from, later);
    }
  }

  /** A bucket has counted nothing that was not admitted in its windows. */
  ghost predicate Earned(b: Option<Bucket>, run: seq<Request>, key: string) {
    b.Some? ==>
      b.value.min.n <= AdmittedSince(run, key, b.value.min.start)
      && b.value.hour.n <= AdmittedSince(run, key, b.value.hour.start)
  }

  lemma WindowIsEarned(w: Window, now: int, span: int, ok: bool, run: seq<Request>, r: Request)
    requires w.n <= AdmittedSince(run, r.key, w.start) && r.at == now
    requires w.start <= now && (ok <==> AllowUnswept(RunUnswept(run).0, r.key, now).1.ok)
    ensures var rolled := Roll(w, now, span);
      (if ok then rolled.n + 1 else rolled.n) <= AdmittedSince(run + [r], r.key, rolled.start)
  {
    hide AllowUnswept, RunUnswept;
    assert (run + [r])[..|run|] == run;
  }

  lemma ChargeIsEarned(run: seq<Request>, r: Request)
    requires r.key != "" && Earned(Get(RunUnswept(run).0, r.key), run, r.key)
    requires var b := Get(RunUnswept(run).0, r.key); b.Some? ==> BucketOk(b.value, r.at)
    ensures Earned(Some(Charge(Get(RunUnswept(run).0, r.key), r.at).0), run + [r], r.key)
  {
    var b := Get(RunUnswept(run).0, r.key);
    var was := if b.Some? then b.value else Bucket(Window(r.at, 0), Window(r.at, 0), r.at);
    var ok := Charge(b, r.at).1.ok;
    WindowIsEarned(was.min, r.at, MINUTE, ok, run, r);
    WindowIsEarned(was.hour, r.at, HOUR, ok, run, r);
    hide RunUnswept, AdmittedSince;
  }

  lemma OthersEarnNothing(run: seq<Request>, r: Request, key: string, b: Option<Bucket>)
    requires r.key != key && Earned(b, run, key)
    ensures Earned(b, run + [r], key)
  {
    assert (run + [r])[..|run|] == run;
  }

  lemma {:induction false} RunIsEarned(run: seq<Request>, key: string)
    requires InOrder(run) && key != ""
    ensures Earned(Get(RunUnswept(run).0, key), run, key)
  {
    if |run| > 0 {
      var before, r := run[..|run| - 1], run[|run| - 1];
      assert before + [r] == run;
      RunIsEarned(before, key);
      if |before| > 0 { assert before[|before| - 1] == run[|before| - 1]; }
      if r.key == key {
        OkBuckets(before, r.at, key);
        ChargeIsEarned(before, r);
      } else {
        OthersEarnNothing(before, r, key, Get(RunUnswept(before).0, key));
      }
      hide Charge, Earned;
    }
  }

  /** A bucket whose windows were earned refuses nobody who is within the budget. */
  lemma EarnedIsAdmitted(b: Option<Bucket>, run: seq<Request>, key: string, now: int)
    requires Earned(b, run, key) && (b.Some? ==> BucketOk(b.value, now))
    requires InOrder(run) && (|run| > 0 ==> run[|run| - 1].at <= now)
    requires Admitted(run, key, now - MINUTE + 1, MINUTE) < PER_MINUTE
    requires Admitted(run, key, now - HOUR + 1, HOUR) < PER_HOUR
    ensures Charge(b, now).1 == Verdict(true, 0)
  {
    hide Admitted, AdmittedSince;
    if b.Some? {
      if now - b.value.min.start < MINUTE { SinceIsWithin(run, key, b.value.min.start, now, MINUTE); }
      if now - b.value.hour.start < HOUR { SinceIsWithin(run, key, b.value.hour.start, now, HOUR); }
    }
  }

  /** Nobody is refused who is within the budget: with fewer than 60 admitted in the last 60 seconds and fewer than
      600 in the last hour, whatever else the limiter holds and sweeps, a request is admitted. */
  lemma WithinTheBudgetIsAdmitted(run: seq<Request>, r: Request)
    requires InOrder(run + [r])
    requires r.key != "" ==>
               Admitted(run, r.key, r.at - MINUTE + 1, MINUTE) < 60 && Admitted(run, r.key, r.at - HOUR + 1, HOUR) < 600
    ensures Run(run + [r]).1 == Run(run).1 + [Verdict(true, 0)]
  {
    hide Run, RunUnswept, Charge, Admitted, InOrder;
    FrontInOrder(run, r);
    SweepIsUnobservable(run + [r]);
    SweepIsUnobservable(run);
    LastVerdict(run, r);
    if r.key != "" {
      RunIsEarned(run, r.key);
      OkBuckets(run, r.at, r.key);
      EarnedIsAdmitted(Get(RunUnswept(run).0, r.key), run, r.key, r.at);
    }
  }

  lemma FrontInOrder(run: seq<Request>, r: Request)
    requires InOrder(run + [r])
    ensures InOrder(run) && (|run| > 0 ==> run[|run| - 1].at <= r.at)
  {
    var whole := run + [r];
    assert forall i :: 0 <= i < |run| ==> whole[i] == run[i];
    assert whole[|run|] == r;
  }
}
