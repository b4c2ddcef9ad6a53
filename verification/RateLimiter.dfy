/** A fixed-window rate limiter per key, with a janitor that forgets windows long past. */
module RateLimiter {
  import opened GoTime
  import opened Text

  datatype Entry = Entry(count: int, start: int)
  type Entries = map<string, Entry>

  /** The limit is any integer; the janitor's ticker needs a positive `2 * window` that fits 64 bits. */
  datatype Params = Params(limit: int, window: int)

  predicate ValidParams(p: Params) {
    0 < p.window && 2 * p.window <= MAX_INT64
  }

  /// One call, one sweep

  function Admit(p: Params, s: Entries, key: string, now: int): (Entries, bool) {
    if key !in s || Sub(now, s[key].start) > p.window then (s[key := Entry(1, now)], true)
    else if s[key].count >= p.limit then (s, false)
    else (s[key := s[key].(count := s[key].count + 1)], true)
  }

  function Sweep(p: Params, s: Entries, now: int): Entries {
    map key | key in s && !(s[key].start < now - p.window) :: s[key]
  }

  /** A call is refused exactly when its key's window is current and its count has reached the limit. */
  lemma AdmitExactly(p: Params, s: Entries, key: string, now: int)
    requires ValidParams(p)
    ensures var (t, allowed) := Admit(p, s, key, now);
            var current := key in s && now - s[key].start <= p.window;
            && (allowed <==> !current || s[key].count < p.limit)
            && t == if !allowed then s else s[key := if current then Entry(s[key].count + 1, s[key].start) else Entry(1, now)]
  {
  }

  /** A sweep forgets the windows that began more than one window ago, and those only. */
  lemma SweepExactly(p: Params, s: Entries, now: int, key: string)
    ensures key in Sweep(p, s, now) <==> key in s && now - s[key].start <= p.window
    ensures key in Sweep(p, s, now) ==> Sweep(p, s, now)[key] == s[key]
  {
  }

  class Limiter {
    const p: Params
    var entries: Entries

    constructor (p: Params)
      ensures this.p == p && entries == map[]
    {
      this.p := p;
      entries := map[];
    }

    method Allow(key: string, now: int) returns (allowed: bool)
      modifies this
      ensures (entries, allowed) == Admit(p, old(entries), key, now)
    {
      if key !in entries || Sub(now, entries[key].start) > p.window {
        entries := entries[key := Entry(1, now)];
        return true;
      }
      if entries[key].count >= p.limit {
        return false;
      }
      entries := entries[key := entries[key].(count := entries[key].count + 1)];
      return true;
    }

    /** The janitor deletes from the map it ranges over, in any order. */
    method Cleanup(now: int)
      modifies this
      ensures entries == Sweep(p, old(entries), now)
    {
      var cutoff := now - p.window;
      ghost var s := entries;
      var todo := entries.Keys;
      while todo != {}
        invariant todo <= entries.Keys <= s.Keys
        invariant forall key | key in entries :: entries[key] == s[key]
        invariant forall key | key in s :: key in entries <==> key in todo || !(s[key].start < cutoff)
        decreases todo
      {
        var key :| key in todo;
        if entries[key].start < cutoff {
          entries := entries - {key};
        }
        todo := todo - {key};
      }
      assert entries.Keys == Sweep(p, s, now).Keys;
    }
  }

  /// Runs

  datatype Op = Call(key: string, at: int) | Clean(at: int)

  /** The table after a run, and whether the last operation of a run was an allowed call. */
  function After(p: Params, ops: seq<Op>): Entries {
    if ops == [] then map[]
    else
      var before := After(p, ops[..|ops| - 1]);
      match ops[|ops| - 1]
      case Call(key, at) => Admit(p, before, key, at).0
      case Clean(at) => Sweep(p, before, at)
  }

  predicate Answer(p: Params, ops: seq<Op>, key: string, at: int) {
    Admit(p, After(p, ops), key, at).1
  }

  /** The clock never runs backwards. */
  ghost predicate Monotone(ops: seq<Op>) {
    forall i, j | 0 <= i < j < |ops| :: ops[i].at <= ops[j].at
  }

  /** How many calls of `key` were allowed with a time in `[from, to]`. */
  function Allowed(p: Params, ops: seq<Op>, key: string, from: int, to: int): nat {
    if ops == [] then 0
    else
      var before, last := ops[..|ops| - 1], ops[|ops| - 1];
      Allowed(p, before, key, from, to)
      + (if last.Call? && last.key == key && from <= last.at <= to && Answer(p, before, key, last.at) then 1 else 0)
  }

  function Cap(p: Params): int {
    if p.limit > 1 then p.limit else 1
  }

  /** Saturation never shows: windows are far shorter than the largest duration. */
  lemma SubIsExact(p: Params, t: int, u: int)
    requires ValidParams(p)
    ensures Sub(t, u) > p.window <==> t - u > p.window
  {
  }

  lemma MonotonePrefix(ops: seq<Op>)
    requires Monotone(ops) && ops != []
    ensures Monotone(ops[..|ops| - 1])
  {
  }

  lemma {:induction false} CountsInRange(p: Params, ops: seq<Op>, key: string)
    requires Monotone(ops)
    ensures key in After(p, ops) ==>
              1 <= After(p, ops)[key].count <= Cap(p) && ops != [] && After(p, ops)[key].start <= ops[|ops| - 1].at
    decreases |ops|
  {
    if ops != [] {
      MonotonePrefix(ops);
      CountsInRange(p, ops[..|ops| - 1], key);
    }
  }

  /// A window admits at most its limit

  /** Every call so far lies in or before the current window; after a sweep, strictly before now. */
  ghost predicate CallBefore(p: Params, s: Entries, op: Op, key: string, now: int) {
    op.Call? && op.key == key ==> if key in s then op.at - s[key].start <= p.window else op.at < now
  }

  lemma {:induction false} CallsBefore(p: Params, ops: seq<Op>, key: string, i: nat)
    requires ValidParams(p) && Monotone(ops) && i < |ops|
    ensures CallBefore(p, After(p, ops), ops[i], key, ops[|ops| - 1].at)
    decreases |ops|
  {
    var before, last := ops[..|ops| - 1], ops[|ops| - 1];
    MonotonePrefix(ops);
    CountsInRange(p, before, key);
    if key in After(p, before) {
      SubIsExact(p, last.at, After(p, before)[key].start);
    }
    if i < |before| {
      CallsBefore(p, before, key, i);
      assert before[|before| - 1].at <= last.at;
    }
  }

  lemma {:induction false} NoneSince(p: Params, ops: seq<Op>, key: string, from: int, to: int)
    requires forall i | 0 <= i < |ops| && ops[i].Call? && ops[i].key == key :: ops[i].at < from
    ensures Allowed(p, ops, key, from, to) == 0
    decreases |ops|
  {
    if ops != [] {
      assert ops[|ops| - 1].Call? && ops[|ops| - 1].key == key ==> ops[|ops| - 1].at < from;
      NoneSince(p, ops[..|ops| - 1], key, from, to);
    }
  }

  /** When a call starts a new window, no earlier call of its key is as late. */
  lemma NewWindowIsLater(p: Params, ops: seq<Op>, key: string, at: int, to: int)
    requires ValidParams(p) && Monotone(ops) && (ops != [] ==> ops[|ops| - 1].at <= at)
    requires key in After(p, ops) ==> at - After(p, ops)[key].start > p.window
    ensures Allowed(p, ops, key, at, to) == 0
  {
    forall i | 0 <= i < |ops| && ops[i].Call? && ops[i].key == key ensures ops[i].at < at {
      CallsBefore(p, ops, key, i);
    }
    NoneSince(p, ops, key, at, to);
  }

  /** An entry counts exactly the calls allowed since its window began. */
  lemma {:induction false} CountIsAllowed(p: Params, ops: seq<Op>, key: string, to: int)
    requires ValidParams(p) && Monotone(ops) && key in After(p, ops) && ops[|ops| - 1].at <= to
    ensures After(p, ops)[key].count == Allowed(p, ops, key, After(p, ops)[key].start, to)
    decreases |ops|
  {
    var before, last := ops[..|ops| - 1], ops[|ops| - 1];
    var s := After(p, before);
    MonotonePrefix(ops);
    CountsInRange(p, before, key);
    if key in s {
      SubIsExact(p, last.at, s[key].start);
    }
    if last.Call? && last.key == key && (key !in s || last.at - s[key].start > p.window) {
      assert before != [] ==> before[|before| - 1].at <= last.at;
      NewWindowIsLater(p, before, key, last.at, to);
    } else {
      CountIsAllowed(p, before, key, to);
    }
  }

  /** A refusal means that the full number of calls was already allowed in the current window. */
  lemma RefusalIsEarned(p: Params, ops: seq<Op>, key: string, at: int)
    requires ValidParams(p) && Monotone(ops) && (ops != [] ==> ops[|ops| - 1].at <= at)
    requires !Answer(p, ops, key, at)
    ensures key in After(p, ops) && at - After(p, ops)[key].start <= p.window
    ensures Allowed(p, ops, key, After(p, ops)[key].start, at) == Cap(p)
  {
    SubIsExact(p, at, After(p, ops)[key].start);
    CountsInRange(p, ops, key);
    CountIsAllowed(p, ops, key, at);
  }

  /// Any interval no longer than the window

  /** What is known about the allowed calls in `[from, to]` once the clock shows `now`. */
  ghost predicate Budget(p: Params, s: Entries, key: string, from: int, to: int, now: int, n: int) {
    if now < from then n == 0
    else if now > to then n <= 2 * Cap(p) - 1
    else if key !in s then n <= Cap(p) - 1
    else if s[key].start < from then n <= s[key].count - 1
    else n <= Cap(p) - 1 + s[key].count
  }

  lemma {:induction false} BudgetHolds(p: Params, ops: seq<Op>, key: string, from: int, to: int)
    requires ValidParams(p) && Monotone(ops) && ops != [] && from <= to <= from + p.window
    ensures Budget(p, After(p, ops), key, from, to, ops[|ops| - 1].at, Allowed(p, ops, key, from, to))
    decreases |ops|
  {
    var before, last := ops[..|ops| - 1], ops[|ops| - 1];
    var s := After(p, before);
    MonotonePrefix(ops);
    CountsInRange(p, before, key);
    CountsInRange(p, ops, key);
    if before != [] {
      BudgetHolds(p, before, key, from, to);
      assert before[|before| - 1].at <= last.at;
    }
    if key in s {
      SubIsExact(p, last.at, s[key].start);
    }
  }

  /** In any time interval no longer than the window, fewer than twice the limit are allowed. */
  lemma FewerThanTwice(p: Params, ops: seq<Op>, key: string, from: int, to: int)
    requires ValidParams(p) && Monotone(ops) && from <= to <= from + p.window
    ensures Allowed(p, ops, key, from, to) <= 2 * Cap(p) - 1
  {
    if ops != [] {
      BudgetHolds(p, ops, key, from, to);
      CountsInRange(p, ops, key);
    }
  }

  /** A run followed by `n` calls of one key at one time. */
  function WithBurst(ops: seq<Op>, key: string, at: int, n: nat): seq<Op> {
    if n == 0 then ops else WithBurst(ops, key, at, n - 1) + [Call(key, at)]
  }

  /** The entry of a key after a run, and how many of its calls in `[from, to]` were allowed. */
  ghost predicate Stands(p: Params, ops: seq<Op>, key: string, from: int, to: int, e: Entry, n: int) {
    key in After(p, ops) && After(p, ops)[key] == e && Allowed(p, ops, key, from, to) == n
  }

  lemma SameWindow(p: Params, ops: seq<Op>, key: string, at: int, from: int, to: int, e: Entry, n: int)
    requires ValidParams(p) && from <= at <= to && Stands(p, ops, key, from, to, e, n)
    requires at - e.start <= p.window && e.count < p.limit
    ensures Stands(p, ops + [Call(key, at)], key, from, to, Entry(e.count + 1, e.start), n + 1)
  {
    assert (ops + [Call(key, at)])[..|ops|] == ops;
    SubIsExact(p, at, e.start);
  }

  lemma NextWindow(p: Params, ops: seq<Op>, key: string, at: int, from: int, to: int, e: Entry, n: int)
    requires ValidParams(p) && from <= at <= to && Stands(p, ops, key, from, to, e, n)
    requires at - e.start > p.window
    ensures Stands(p, ops + [Call(key, at)], key, from, to, Entry(1, at), n + 1)
  {
    assert (ops + [Call(key, at)])[..|ops|] == ops;
    SubIsExact(p, at, e.start);
  }

  lemma FirstCall(p: Params, key: string, from: int, to: int)
    requires 0 < from
    ensures Stands(p, [Call(key, 0)], key, from, to, Entry(1, 0), 0)
  {
    assert [Call(key, 0)][..0] == [];
  }

  /** Calls within the window are allowed up to the limit. */
  lemma {:induction false} BurstIsAllowed(p: Params, ops: seq<Op>, key: string, at: int, from: int, to: int, e: Entry, n: int,
                                          more: nat)
    requires ValidParams(p) && from <= at <= to && Stands(p, ops, key, from, to, e, n)
    requires at - e.start <= p.window && e.count + more <= p.limit
    ensures Stands(p, WithBurst(ops, key, at, more), key, from, to, Entry(e.count + more, e.start), n + more)
    decreases more
  {
    if more > 0 {
      BurstIsAllowed(p, ops, key, at, from, to, e, n, more - 1);
      SameWindow(p, WithBurst(ops, key, at, more - 1), key, at, from, to, Entry(e.count + more - 1, e.start), n + more - 1);
    }
  }

  lemma {:induction false} BurstIsMonotone(ops: seq<Op>, key: string, at: int, n: nat)
    requires Monotone(ops) && ops != [] && ops[|ops| - 1].at <= at
    ensures var run := WithBurst(ops, key, at, n);
            Monotone(run) && run != [] && ops[|ops| - 1].at <= run[|run| - 1].at <= at
  {
    if n > 0 {
      BurstIsMonotone(ops, key, at, n - 1);
    }
  }

  /** The bound is reached: a window's last calls and the next window's first ones fit into one window length. */
  lemma BoundIsReached(p: Params, key: string) returns (ops: seq<Op>)
    requires ValidParams(p) && p.limit >= 1
    ensures Monotone(ops) && Allowed(p, ops, key, 1, 1 + p.window) == 2 * Cap(p) - 1
  {
    var t, more := 1 + p.window, p.limit - 1;
    var first := [Call(key, 0)];
    FirstCall(p, key, 1, t);
    BurstIsAllowed(p, first, key, p.window, 1, t, Entry(1, 0), 0, more);
    BurstIsMonotone(first, key, p.window, more);
    var early := WithBurst(first, key, p.window, more);
    NextWindow(p, early, key, t, 1, t, Entry(p.limit, 0), more);
    var late := early + [Call(key, t)];
    BurstIsAllowed(p, late, key, t, 1, t, Entry(1, t), p.limit, more);
    BurstIsMonotone(late, key, t, more);
    ops := WithBurst(late, key, t, more);
  }

  /// Sweeping is invisible

  function CallsOnly(ops: seq<Op>): seq<Op> {
    if ops == [] then []
    else CallsOnly(ops[..|ops| - 1]) + (if ops[|ops| - 1].Call? then [ops[|ops| - 1]] else [])
  }

  /** The swept table lacks only entries whose window is over. */
  ghost predicate SameButStale(p: Params, swept: Entries, full: Entries, now: int) {
    forall key :: (key in swept ==> key in full && swept[key] == full[key])
                  && (key in full && key !in swept ==> now - full[key].start > p.window)
  }

  lemma {:induction false} SweptRun(p: Params, ops: seq<Op>, now: int)
    requires ValidParams(p) && Monotone(ops) && (ops != [] ==> ops[|ops| - 1].at <= now)
    ensures SameButStale(p, After(p, ops), After(p, CallsOnly(ops)), now)
    decreases |ops|
  {
    if ops != [] {
      var before, last := ops[..|ops| - 1], ops[|ops| - 1];
      MonotonePrefix(ops);
      assert before != [] ==> before[|before| - 1].at <= last.at;
      SweptRun(p, before, last.at);
      if last.Call? {
        assert CallsOnly(ops)[..|CallsOnly(ops)| - 1] == CallsOnly(before);
        SameCall(p, After(p, before), After(p, CallsOnly(before)), last.key, last.at);
      } else {
        assert CallsOnly(ops) == CallsOnly(before);
      }
    }
  }

  lemma SameCall(p: Params, swept: Entries, full: Entries, key: string, at: int)
    requires ValidParams(p) && SameButStale(p, swept, full, at)
    ensures Admit(p, swept, key, at).1 == Admit(p, full, key, at).1
    ensures SameButStale(p, Admit(p, swept, key, at).0, Admit(p, full, key, at).0, at)
  {
    if key in full {
      SubIsExact(p, at, full[key].start);
    }
  }

  /** Wherever the janitor runs in between, every call gets the answer it would get without it. */
  lemma CleanupNeverShows(p: Params, ops: seq<Op>, calls: seq<Op>, key: string, at: int)
    requires ValidParams(p) && Monotone(ops) && (ops != [] ==> ops[|ops| - 1].at <= at) && calls == CallsOnly(ops)
    ensures Answer(p, ops, key, at) == Answer(p, calls, key, at)
  {
    SweptRun(p, ops, at);
    SameCall(p, After(p, ops), After(p, CallsOnly(ops)), key, at);
  }
}
