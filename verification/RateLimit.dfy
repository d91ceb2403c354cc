/**
 The fixed-window limiter of backend/app/core/rate_limit.py over Redis. A request is two commands,
 INCR and, when it read 1, EXPIRE; commands of concurrent requests interleave and may fail.
 */
module RateLimit {
  import opened Common

  type Key = string

  /** The server's clock, in ticks; it never runs backwards. */
  type Time = int

  datatype Counter = Counter(count: nat, expiresAt: Option<Time>)

  /** How a command ends: answered, raised without effect, or raised although the server carried it out. */
  datatype Reply = Answered | Lost | Unanswered

  /** INCR of a new request, or the EXPIRE of the request that read 1 and has not sent it yet. */
  datatype Command =
    | Incr(key: Key, now: Time, reply: Reply)
    | Expire(key: Key, now: Time, reply: Reply)

  datatype Config = Config(limit: nat, window: Time, production: bool)

  /** An admitted request: counted in the epoch-th life of its key, or let through on a backend failure. */
  datatype Admission =
    | Counted(key: Key, time: Time, epoch: nat, count: nat)
    | FailedOpen(key: Key, time: Time)

  /**
   Counters on the server, requests that still owe an EXPIRE (with the time of their INCR), and two
   history variables: the admissions, and when each life of a key started.
   */
  datatype State = State(
    counters: map<Key, Counter>,
    awaiting: map<Key, Time>,
    admitted: seq<Admission>,
    starts: map<Key, seq<Time>>)

  const Empty := State(map[], map[], [], map[])

  predicate Live(s: State, k: Key, now: Time) {
    k in s.counters && (s.counters[k].expiresAt.None? || now < s.counters[k].expiresAt.value)
  }

  function Starts(s: State, k: Key): seq<Time> {
    if k in s.starts then s.starts[k] else []
  }

  function NextCount(s: State, k: Key, now: Time): nat {
    if Live(s, k, now) then s.counters[k].count + 1 else 1
  }

  /** INCR keeps a live key's expiry and starts a new life otherwise. */
  function Incremented(s: State, k: Key, now: Time): State {
    if Live(s, k, now) then s.(counters := s.counters[k := s.counters[k].(count := s.counters[k].count + 1)])
    else s.(counters := s.counters[k := Counter(1, None)], starts := s.starts[k := Starts(s, k) + [now]])
  }

  function OnFailure(cfg: Config, s: State, k: Key, now: Time): State {
    if cfg.production then s else s.(admitted := s.admitted + [FailedOpen(k, now)])
  }

  function Judge(cfg: Config, s: State, k: Key, time: Time, count: nat): State {
    if count > cfg.limit then s
    else s.(admitted := s.admitted + [Counted(k, time, |Starts(s, k)|, count)])
  }

  function Apply(cfg: Config, s: State, c: Command): State {
    match c
    case Incr(k, now, reply) =>
      if reply == Lost then OnFailure(cfg, s, k, now)
      else
        var count := NextCount(s, k, now);
        var s' := Incremented(s, k, now);
        if reply == Unanswered then OnFailure(cfg, s', k, now)
        else if count == 1 then s'.(awaiting := s'.awaiting[k := now])
        else Judge(cfg, s', k, now, count)
    case Expire(k, now, reply) =>
      if k !in s.awaiting then s
      else
        var since := s.awaiting[k];
        var done := s.(awaiting := s.awaiting - {k});
        var s' :=
          if reply != Lost && Live(s, k, now)
          then done.(counters := s.counters[k := s.counters[k].(expiresAt := Some(now + cfg.window))]) else done;
        if reply == Answered then Judge(cfg, s', k, since, 1) else OnFailure(cfg, s', k, since)
  }

  function Run(cfg: Config, s: State, cs: seq<Command>): State
    decreases |cs|
  {
    if cs == [] then s else Run(cfg, Apply(cfg, s, cs[0]), cs[1..])
  }

  /** Command times never go back, starting from the given one. */
  predicate Ordered(from: Time, cs: seq<Command>)
    decreases |cs|
  {
    cs == [] || (from <= cs[0].now && Ordered(cs[0].now, cs[1..]))
  }

  class Limiter {
    const cfg: Config
    var counters: map<Key, Counter>
    ghost var history: State

    ghost predicate Valid()
      reads this
    {
      counters == history.counters
    }

    constructor (cfg: Config)
      ensures Valid() && history == Empty && this.cfg == cfg
    {
      this.cfg := cfg;
      counters := map[];
      history := Empty;
    }

    method SendIncr(key: Key, now: Time, reply: Reply) returns (count: Option<nat>)
      requires Valid()
      modifies this
      ensures count.Some? <==> reply == Answered
      ensures count.Some? ==> count.value == NextCount(old(history), key, now)
      ensures Valid() && history == Apply(cfg, old(history), Incr(key, now, reply))
    {
      history := Apply(cfg, history, Incr(key, now, reply));
      if reply != Lost {
        var live := key in counters && (counters[key].expiresAt.None? || now < counters[key].expiresAt.value);
        counters := counters[key := if live then counters[key].(count := counters[key].count + 1) else Counter(1, None)];
      }
      count := if reply == Answered then Some(counters[key].count) else None;
    }

    method SendExpire(key: Key, now: Time, reply: Reply) returns (answered: bool)
      requires Valid() && key in history.awaiting
      modifies this
      ensures answered <==> reply == Answered
      ensures Valid() && history == Apply(cfg, old(history), Expire(key, now, reply))
    {
      history := Apply(cfg, history, Expire(key, now, reply));
      if reply != Lost && key in counters && (counters[key].expiresAt.None? || now < counters[key].expiresAt.value) {
        counters := counters[key := counters[key].(expiresAt := Some(now + cfg.window))];
      }
      answered := reply == Answered;
    }

    /** The dependency of one request with nobody in between: whether it is let through. */
    method Dependency(key: Key, now: Time, later: Time, incr: Reply, expire: Reply) returns (admitted: bool)
      requires Valid()
      modifies this
      ensures Valid()
      ensures var s := Apply(cfg, old(history), Incr(key, now, incr));
              history == if incr == Answered && NextCount(old(history), key, now) == 1
                         then Apply(cfg, s, Expire(key, later, expire)) else s
      ensures |history.admitted| == |old(history).admitted| + if admitted then 1 else 0
      ensures incr != Answered || (NextCount(old(history), key, now) == 1 && expire != Answered) ==>
                (admitted <==> !cfg.production)
      ensures incr == Answered && (NextCount(old(history), key, now) == 1 ==> expire == Answered) ==>
                (admitted <==> NextCount(old(history), key, now) <= cfg.limit)
    {
      var count := SendIncr(key, now, incr);
      if count.None? {
        return !cfg.production;
      }
      if count.value == 1 {
        var answered := SendExpire(key, later, expire);
        if !answered {
          return !cfg.production;
        }
      }
      admitted := count.value <= cfg.limit;
    }
  }

  // ---- invariant of one key ----

  /** Lives of a key are at least a window apart. */
  predicate Spread(starts: seq<Time>, window: Time) {
    forall i :: 0 <= i < |starts| - 1 ==> starts[i] + window <= starts[i + 1]
  }

  /** An admission fits the life it was counted in. */
  predicate Fits(cfg: Config, starts: seq<Time>, now: Time, a: Admission) {
    a.Counted? ==>
      && 1 <= a.epoch <= |starts| && 1 <= a.count <= cfg.limit
      && starts[a.epoch - 1] <= a.time <= (if a.epoch < |starts| then starts[a.epoch] else now)
      && (a.count == 1 ==> a.time == starts[a.epoch - 1])
  }

  /**
   The admissions of a key: each fits its life, in the current life none has a count above top nor,
   while its first request still owes the EXPIRE, the count 1; and no two share life and count.
   */
  ghost predicate LogOk(cfg: Config, log: seq<Admission>, k: Key, starts: seq<Time>, now: Time, top: nat, waiting: bool) {
    && (forall i :: 0 <= i < |log| && log[i].key == k ==> Fits(cfg, starts, now, log[i]))
    && (forall i :: 0 <= i < |log| && log[i].key == k && log[i].Counted? && log[i].epoch == |starts| ==>
          log[i].count <= top && (log[i].count == 1 ==> !waiting))
    && (forall i, j :: 0 <= i < j < |log| && log[i].key == k && log[j].key == k && log[i].Counted? && log[j].Counted? ==>
          log[i].epoch != log[j].epoch || log[i].count != log[j].count)
  }

  ghost predicate CounterOk(cfg: Config, s: State, k: Key, now: Time) {
    var starts := Starts(s, k);
    && Spread(starts, cfg.window)
    && (starts != [] <==> k in s.counters)
    && (k in s.counters ==>
          && starts[|starts| - 1] <= now && s.counters[k].count >= 1
          && (s.counters[k].expiresAt.Some? ==> s.counters[k].expiresAt.value >= starts[|starts| - 1] + cfg.window))
    && (k in s.awaiting ==> k in s.counters && s.counters[k].expiresAt.None? && s.awaiting[k] == starts[|starts| - 1])
  }

  function Top(s: State, k: Key): nat {
    if k in s.counters then s.counters[k].count else 0
  }

  ghost predicate Inv(cfg: Config, s: State, k: Key, now: Time) {
    CounterOk(cfg, s, k, now) && LogOk(cfg, s.admitted, k, Starts(s, k), now, Top(s, k), k in s.awaiting)
  }

  lemma LogRelax(cfg: Config, log: seq<Admission>, k: Key, starts: seq<Time>, now: Time, top: nat, w: bool, now': Time, top': nat)
    requires LogOk(cfg, log, k, starts, now, top, w) && now <= now' && top <= top'
    ensures LogOk(cfg, log, k, starts, now', top', w)
  {
    forall i | 0 <= i < |log| && log[i].key == k ensures Fits(cfg, starts, now', log[i]) {
      assert Fits(cfg, starts, now, log[i]);
    }
  }

  /** A new life: nothing has been admitted in it yet. */
  lemma LogNewLife(cfg: Config, log: seq<Admission>, k: Key, starts: seq<Time>, now: Time, top: nat, w: bool, now': Time, w': bool)
    requires LogOk(cfg, log, k, starts, now, top, w) && now <= now'
    ensures LogOk(cfg, log, k, starts + [now'], now', 1, w')
  {
    forall i | 0 <= i < |log| && log[i].key == k ensures Fits(cfg, starts + [now'], now', log[i]) {
      assert Fits(cfg, starts, now, log[i]);
    }
  }

  lemma LogSkip(cfg: Config, log: seq<Admission>, k: Key, starts: seq<Time>, now: Time, top: nat, w: bool, a: Admission)
    requires LogOk(cfg, log, k, starts, now, top, w) && (a.key != k || a.FailedOpen?)
    ensures LogOk(cfg, log + [a], k, starts, now, top, w)
  {
    forall i | 0 <= i < |log + [a]| && (log + [a])[i].key == k ensures Fits(cfg, starts, now, (log + [a])[i]) {
      assert i < |log| ==> Fits(cfg, starts, now, log[i]);
    }
  }

  /** Counting one more in the current life. */
  lemma LogCount(
    cfg: Config, log: seq<Admission>, k: Key, starts: seq<Time>, now: Time, top: nat, w: bool, a: Admission, top': nat)
    requires LogOk(cfg, log, k, starts, now, top, w)
    requires a.Counted? && a.key == k && a.epoch == |starts| && Fits(cfg, starts, now, a)
    requires a.count <= top' && top <= top' && (a.count > top || (a.count == 1 && w))
    ensures LogOk(cfg, log + [a], k, starts, now, top', false)
  {
    forall i | 0 <= i < |log + [a]| && (log + [a])[i].key == k ensures Fits(cfg, starts, now, (log + [a])[i]) {
      assert i < |log| ==> Fits(cfg, starts, now, log[i]);
    }
  }

  /** Same counter, same lives, same debt. */
  ghost predicate SameKey(s: State, s': State, k: Key) {
    && Starts(s', k) == Starts(s, k)
    && (k in s'.counters <==> k in s.counters) && (k in s.counters ==> s'.counters[k] == s.counters[k])
    && (k in s'.awaiting <==> k in s.awaiting) && (k in s.awaiting ==> s'.awaiting[k] == s.awaiting[k])
  }

  ghost predicate AtMostOneMore(log: seq<Admission>, log': seq<Admission>, key: Key) {
    log' == log || exists a: Admission :: a.key == key && log' == log + [a]
  }

  lemma OtherIncr(cfg: Config, s: State, k: Key, c: Command)
    requires c.key != k && c.Incr?
    ensures SameKey(s, Apply(cfg, s, c), k) && AtMostOneMore(s.admitted, Apply(cfg, s, c).admitted, c.key)
  {
    var s' := Apply(cfg, s, c);
    if c.reply == Answered {
      var m := Incremented(s, c.key, c.now);
      assert SameKey(s, m, k);
      var a := Counted(c.key, c.now, |Starts(m, c.key)|, NextCount(s, c.key, c.now));
      assert s'.admitted == s.admitted || s'.admitted == s.admitted + [a];
    } else {
      assert s'.admitted == s.admitted || s'.admitted == s.admitted + [FailedOpen(c.key, c.now)];
    }
  }

  lemma OtherExpire(cfg: Config, s: State, k: Key, c: Command)
    requires c.key != k && c.Expire?
    ensures SameKey(s, Apply(cfg, s, c), k) && AtMostOneMore(s.admitted, Apply(cfg, s, c).admitted, c.key)
  {
    if c.key in s.awaiting {
      var s' := Apply(cfg, s, c);
      var a := Counted(c.key, s.awaiting[c.key], |Starts(s, c.key)|, 1);
      assert s'.admitted == s.admitted || s'.admitted == s.admitted + [FailedOpen(c.key, s.awaiting[c.key])]
             || s'.admitted == s.admitted + [a];
    }
  }

  /** A command on another key leaves this key's counter alone and adds at most an admission of that key. */
  lemma OtherKeys(cfg: Config, s: State, k: Key, c: Command)
    requires c.key != k
    ensures SameKey(s, Apply(cfg, s, c), k) && AtMostOneMore(s.admitted, Apply(cfg, s, c).admitted, c.key)
  {
    if c.Incr? {
      OtherIncr(cfg, s, k, c);
    } else {
      OtherExpire(cfg, s, k, c);
    }
  }

  lemma OtherKeysKeepInv(cfg: Config, s: State, k: Key, now: Time, c: Command)
    requires Inv(cfg, s, k, now) && now <= c.now && c.key != k
    ensures Inv(cfg, Apply(cfg, s, c), k, c.now)
  {
    OtherKeys(cfg, s, k, c);
    SameKeyKeepsInv(cfg, s, Apply(cfg, s, c), k, now, c.now, c.key);
  }

  lemma SameKeyKeepsInv(cfg: Config, s: State, s': State, k: Key, now: Time, now': Time, other: Key)
    requires Inv(cfg, s, k, now) && now <= now' && other != k
    requires SameKey(s, s', k) && AtMostOneMore(s.admitted, s'.admitted, other)
    ensures Inv(cfg, s', k, now')
  {
    LogRelax(cfg, s.admitted, k, Starts(s, k), now, Top(s, k), k in s.awaiting, now', Top(s, k));
    if s'.admitted != s.admitted {
      var a: Admission :| a.key == other && s'.admitted == s.admitted + [a];
      LogSkip(cfg, s.admitted, k, Starts(s, k), now', Top(s, k), k in s.awaiting, a);
    }
  }

  /** The counter part of an INCR that the server carried out. */
  lemma IncrementedKeepsInv(cfg: Config, s: State, k: Key, now: Time, now': Time)
    requires cfg.window > 0 && Inv(cfg, s, k, now) && now <= now'
    ensures CounterOk(cfg, Incremented(s, k, now'), k, now')
    ensures LogOk(cfg, s.admitted, k, Starts(Incremented(s, k, now'), k), now',
                  if NextCount(s, k, now') == 1 then 1 else Top(s, k), k in s.awaiting)
    ensures NextCount(s, k, now') == Top(Incremented(s, k, now'), k)
    ensures NextCount(s, k, now') == 1 ==> Starts(Incremented(s, k, now'), k) == Starts(s, k) + [now'] && k !in s.awaiting
                                           && LogOk(cfg, s.admitted, k, Starts(s, k) + [now'], now', 1, true)
    ensures NextCount(s, k, now') != 1 ==> NextCount(s, k, now') == Top(s, k) + 1
  {
    if Live(s, k, now') {
      LogRelax(cfg, s.admitted, k, Starts(s, k), now, Top(s, k), k in s.awaiting, now', Top(s, k));
    } else {
      LogNewLife(cfg, s.admitted, k, Starts(s, k), now, Top(s, k), k in s.awaiting, now', true);
      LogNewLife(cfg, s.admitted, k, Starts(s, k), now, Top(s, k), k in s.awaiting, now', k in s.awaiting);
    }
  }

  lemma IncrKeepsInv(cfg: Config, s: State, k: Key, now: Time, now': Time, reply: Reply)
    requires cfg.window > 0 && Inv(cfg, s, k, now) && now <= now'
    ensures Inv(cfg, Apply(cfg, s, Incr(k, now', reply)), k, now')
  {
    var open := FailedOpen(k, now');
    if reply == Lost {
      LogRelax(cfg, s.admitted, k, Starts(s, k), now, Top(s, k), k in s.awaiting, now', Top(s, k));
      LogSkip(cfg, s.admitted, k, Starts(s, k), now', Top(s, k), k in s.awaiting, open);
    } else {
      var m := Incremented(s, k, now');
      var count := NextCount(s, k, now');
      IncrementedKeepsInv(cfg, s, k, now, now');
      var top := if count == 1 then 1 else Top(s, k);
      LogRelax(cfg, s.admitted, k, Starts(m, k), now', top, k in s.awaiting, now', count);
      if reply == Unanswered {
        LogSkip(cfg, s.admitted, k, Starts(m, k), now', count, k in s.awaiting, open);
      } else if count != 1 && count <= cfg.limit {
        var a := Counted(k, now', |Starts(m, k)|, count);
        LogCountAwaiting(cfg, s.admitted, k, Starts(m, k), now', top, k in s.awaiting, a);
      }
    }
  }

  /** Counting a later request while the first one may still owe its EXPIRE. */
  lemma LogCountAwaiting(
    cfg: Config, log: seq<Admission>, k: Key, starts: seq<Time>, now: Time, top: nat, w: bool, a: Admission)
    requires LogOk(cfg, log, k, starts, now, top, w)
    requires a.Counted? && a.key == k && a.epoch == |starts| && Fits(cfg, starts, now, a) && a.count == top + 1 && a.count != 1
    ensures LogOk(cfg, log + [a], k, starts, now, a.count, w)
  {
    forall i | 0 <= i < |log + [a]| && (log + [a])[i].key == k ensures Fits(cfg, starts, now, (log + [a])[i]) {
      assert i < |log| ==> Fits(cfg, starts, now, log[i]);
    }
  }

  lemma ExpireKeepsInv(cfg: Config, s: State, k: Key, now: Time, now': Time, reply: Reply)
    requires cfg.window > 0 && Inv(cfg, s, k, now) && now <= now'
    ensures Inv(cfg, Apply(cfg, s, Expire(k, now', reply)), k, now')
  {
    LogRelax(cfg, s.admitted, k, Starts(s, k), now, Top(s, k), k in s.awaiting, now', Top(s, k));
    if k in s.awaiting {
      var since := s.awaiting[k];
      if reply == Answered {
        if 1 <= cfg.limit {
          LogCount(cfg, s.admitted, k, Starts(s, k), now', Top(s, k), true, Counted(k, since, |Starts(s, k)|, 1), Top(s, k));
        }
      } else {
        LogSkip(cfg, s.admitted, k, Starts(s, k), now', Top(s, k), true, FailedOpen(k, since));
      }
    }
  }

  lemma StepKeepsInv(cfg: Config, s: State, k: Key, now: Time, c: Command)
    requires cfg.window > 0 && Inv(cfg, s, k, now) && now <= c.now
    ensures Inv(cfg, Apply(cfg, s, c), k, c.now)
  {
    if c.key != k {
      OtherKeysKeepInv(cfg, s, k, now, c);
    } else if c.Incr? {
      IncrKeepsInv(cfg, s, k, now, c.now, c.reply);
    } else {
      ExpireKeepsInv(cfg, s, k, now, c.now, c.reply);
    }
  }

  lemma {:induction false} RunKeepsInv(cfg: Config, s: State, cs: seq<Command>, k: Key, now: Time) returns (end: Time)
    requires cfg.window > 0 && Inv(cfg, s, k, now) && Ordered(now, cs)
    ensures Inv(cfg, Run(cfg, s, cs), k, end)
    decreases |cs|
  {
    end := now;
    if cs != [] {
      StepKeepsInv(cfg, s, k, now, cs[0]);
      end := RunKeepsInv(cfg, Apply(cfg, s, cs[0]), cs[1..], k, cs[0].now);
    }
  }

  // ---- the sliding-window bound ----

  /** Positions of the key's counted admissions in the half-open interval of one window from a. */
  function Within(log: seq<Admission>, k: Key, a: Time, window: Time): set<nat> {
    set i | 0 <= i < |log| && log[i].key == k && log[i].Counted? && a <= log[i].time < a + window
  }

  lemma {:induction false} SpreadFar(starts: seq<Time>, window: Time, i: nat, j: nat)
    requires window > 0 && Spread(starts, window) && i < j < |starts|
    ensures starts[i] + window <= starts[j]
    decreases j
  {
    if i < j - 1 {
      SpreadFar(starts, window, i, j - 1);
    }
  }

  /** Distinct codes in a range: no more members than the range has numbers. */
  lemma {:induction false} CodesBound(s: set<nat>, code: nat -> int, lo: int, hi: int)
    requires lo <= hi
    requires forall i :: i in s ==> lo <= code(i) < hi
    requires forall i, j :: i in s && j in s && i != j ==> code(i) != code(j)
    ensures |s| <= hi - lo
    decreases hi - lo
  {
    if s != {} {
      if i :| i in s && code(i) == hi - 1 {
        CodesBound(s - {i}, code, lo, hi - 1);
      } else {
        CodesBound(s, code, lo, hi - 1);
      }
    }
  }

  /** Life and count of an admission as one number, with the given life first. */
  function Code(log: seq<Admission>, first: int, limit: int, i: nat): int {
    if i < |log| && log[i].Counted? then log[i].count + (if log[i].epoch == first then 0 else limit) else 0
  }

  /** All admissions of one window come from one life, or from a life's later requests and the next life. */
  lemma WindowSpansTwoLives(cfg: Config, log: seq<Admission>, k: Key, starts: seq<Time>, now: Time, top: nat, w: bool, a: Time,
                            i: nat, j: nat)
    requires cfg.window > 0 && Spread(starts, cfg.window) && LogOk(cfg, log, k, starts, now, top, w)
    requires i in Within(log, k, a, cfg.window) && j in Within(log, k, a, cfg.window)
    requires log[i].epoch < log[j].epoch
    ensures log[j].epoch == log[i].epoch + 1 && log[i].count >= 2
  {
    var e, f := log[i].epoch, log[j].epoch;
    assert Fits(cfg, starts, now, log[i]) && Fits(cfg, starts, now, log[j]);
    SpreadFar(starts, cfg.window, e - 1, f - 1);
    if f > e + 1 {
      SpreadFar(starts, cfg.window, e, f - 1);
    }
  }

  lemma {:induction false} Smallest(log: seq<Admission>, s: set<nat>) returns (m: nat)
    requires s != {} && forall i :: i in s ==> i < |log| && log[i].Counted?
    ensures m in s && forall i :: i in s ==> log[m].epoch <= log[i].epoch
    decreases |s|
  {
    m :| m in s;
    if s != {m} {
      assert s == (s - {m}) + {m};
      var n := Smallest(log, s - {m});
      if log[n].epoch < log[m].epoch {
        m := n;
      }
    }
  }

  /** Some admission of the window belongs to a later life than the given one. */
  ghost predicate TwoLives(log: seq<Admission>, s: set<nat>, first: nat) {
    exists j :: j in s && j < |log| && log[j].Counted? && log[j].epoch > first
  }

  lemma CodeInRange(cfg: Config, log: seq<Admission>, k: Key, starts: seq<Time>, now: Time, top: nat, w: bool, a: Time, m: nat, i: nat)
    requires cfg.window > 0 && cfg.limit >= 1 && Spread(starts, cfg.window) && LogOk(cfg, log, k, starts, now, top, w)
    requires m in Within(log, k, a, cfg.window) && i in Within(log, k, a, cfg.window)
    requires forall j :: j in Within(log, k, a, cfg.window) ==> log[m].epoch <= log[j].epoch
    ensures log[i].epoch == log[m].epoch || log[i].epoch == log[m].epoch + 1
    ensures TwoLives(log, Within(log, k, a, cfg.window), log[m].epoch) ==>
              2 <= Code(log, log[m].epoch, cfg.limit, i) <= 2 * cfg.limit
    ensures !TwoLives(log, Within(log, k, a, cfg.window), log[m].epoch) ==>
              1 <= Code(log, log[m].epoch, cfg.limit, i) <= cfg.limit
  {
    var s := Within(log, k, a, cfg.window);
    assert Fits(cfg, starts, now, log[i]);
    if log[i].epoch > log[m].epoch {
      WindowSpansTwoLives(cfg, log, k, starts, now, top, w, a, m, i);
    } else if TwoLives(log, s, log[m].epoch) {
      var j :| j in s && j < |log| && log[j].Counted? && log[j].epoch > log[m].epoch;
      WindowSpansTwoLives(cfg, log, k, starts, now, top, w, a, i, j);
    }
  }

  lemma LogBound(cfg: Config, log: seq<Admission>, k: Key, starts: seq<Time>, now: Time, top: nat, w: bool, a: Time)
    requires cfg.window > 0 && cfg.limit >= 1 && Spread(starts, cfg.window) && LogOk(cfg, log, k, starts, now, top, w)
    ensures |Within(log, k, a, cfg.window)| <= 2 * cfg.limit - 1
  {
    var s := Within(log, k, a, cfg.window);
    if s != {} {
      var m := Smallest(log, s);
      var first := log[m].epoch;
      var code := (i: nat) => Code(log, first, cfg.limit, i);
      var two := TwoLives(log, s, first);
      var lo, hi := if two then 2 else 1, 1 + if two then 2 * cfg.limit else cfg.limit;
      forall i | i in s ensures lo <= code(i) < hi {
        CodeInRange(cfg, log, k, starts, now, top, w, a, m, i);
      }
      forall i, j | i in s && j in s && i != j ensures code(i) != code(j) {
        CodesDiffer(cfg, log, k, starts, now, top, w, a, m, i, j);
      }
      CodesBound(s, code, lo, hi);
    }
  }

  lemma CodesDiffer(cfg: Config, log: seq<Admission>, k: Key, starts: seq<Time>, now: Time, top: nat, w: bool, a: Time,
                    m: nat, i: nat, j: nat)
    requires cfg.window > 0 && cfg.limit >= 1 && Spread(starts, cfg.window) && LogOk(cfg, log, k, starts, now, top, w)
    requires m in Within(log, k, a, cfg.window) && i in Within(log, k, a, cfg.window) && j in Within(log, k, a, cfg.window)
    requires forall n :: n in Within(log, k, a, cfg.window) ==> log[m].epoch <= log[n].epoch
    requires i != j
    ensures Code(log, log[m].epoch, cfg.limit, i) != Code(log, log[m].epoch, cfg.limit, j)
  {
    CodeInRange(cfg, log, k, starts, now, top, w, a, m, i);
    CodeInRange(cfg, log, k, starts, now, top, w, a, m, j);
    assert Fits(cfg, starts, now, log[i]) && Fits(cfg, starts, now, log[j]);
    if i < j {
      assert log[i].epoch != log[j].epoch || log[i].count != log[j].count;
    } else {
      assert log[j].epoch != log[i].epoch || log[j].count != log[i].count;
    }
  }

  /**
   Over every history, failures included, any half-open interval of one window counts at most
   2 * limit - 1 admissions of a key: one fewer than two full windows.
   */
  lemma SlidingWindowBound(cfg: Config, cs: seq<Command>, k: Key, from: Time, a: Time)
    requires cfg.window > 0 && cfg.limit >= 1 && Ordered(from, cs)
    ensures |Within(Run(cfg, Empty, cs).admitted, k, a, cfg.window)| <= 2 * cfg.limit - 1
  {
    var end := RunKeepsInv(cfg, Empty, cs, k, from);
    var s := Run(cfg, Empty, cs);
    LogBound(cfg, s.admitted, k, Starts(s, k), end, Top(s, k), k in s.awaiting, a);
  }

  ghost predicate AllCounted(log: seq<Admission>) {
    forall i :: 0 <= i < |log| ==> log[i].Counted?
  }

  lemma ProductionStep(cfg: Config, s: State, c: Command)
    requires cfg.production && AllCounted(s.admitted)
    ensures AllCounted(Apply(cfg, s, c).admitted)
  {}

  /** Positions of the key's admissions counted in one life: its requests between two resets. */
  function InLife(log: seq<Admission>, k: Key, epoch: nat): set<nat> {
    set i | 0 <= i < |log| && log[i].key == k && log[i].Counted? && log[i].epoch == epoch
  }

  /** Between two resets a key admits at most limit requests. */
  lemma LifeBound(cfg: Config, cs: seq<Command>, k: Key, from: Time, epoch: nat)
    requires cfg.window > 0 && Ordered(from, cs)
    ensures |InLife(Run(cfg, Empty, cs).admitted, k, epoch)| <= cfg.limit
  {
    var end := RunKeepsInv(cfg, Empty, cs, k, from);
    var s := Run(cfg, Empty, cs);
    var life := InLife(s.admitted, k, epoch);
    var code := (i: nat) => if i < |s.admitted| && s.admitted[i].Counted? then s.admitted[i].count else 0;
    forall i | i in life ensures 1 <= code(i) < 1 + cfg.limit {
      assert Fits(cfg, Starts(s, k), end, s.admitted[i]);
    }
    CodesBound(life, code, 1, 1 + cfg.limit);
  }

  // ---- requests whose command failed ----

  /** The requests let through on a failure, oldest first. */
  function LetThrough(log: seq<Admission>): seq<Admission> {
    if log == [] then []
    else LetThrough(log[..|log| - 1]) + if log[|log| - 1].FailedOpen? then [log[|log| - 1]] else []
  }

  /** The requests of a history that lost a command, with the time of their INCR: the INCR itself, or the EXPIRE it owed. */
  function FailedRequests(cfg: Config, s: State, cs: seq<Command>): seq<(Key, Time)>
    decreases |cs|
  {
    if cs == [] then []
    else
      var c := cs[0];
      (if c.reply == Answered then []
       else if c.Incr? then [(c.key, c.now)]
       else if c.key in s.awaiting then [(c.key, s.awaiting[c.key])]
       else [])
      + FailedRequests(cfg, Apply(cfg, s, c), cs[1..])
  }

  function Opened(requests: seq<(Key, Time)>): seq<Admission> {
    seq(|requests|, i requires 0 <= i < |requests| => FailedOpen(requests[i].0, requests[i].1))
  }

  lemma LetThroughOne(log: seq<Admission>, a: Admission)
    ensures LetThrough(log + [a]) == LetThrough(log) + if a.FailedOpen? then [a] else []
  {
    assert (log + [a])[..|log|] == log;
  }

  lemma LetThroughIncr(cfg: Config, s: State, k: Key, now: Time, reply: Reply)
    ensures LetThrough(Apply(cfg, s, Incr(k, now, reply)).admitted)
            == LetThrough(s.admitted) + if cfg.production || reply == Answered then [] else [FailedOpen(k, now)]
  {
    var s' := Apply(cfg, s, Incr(k, now, reply));
    if reply != Answered {
      assert s'.admitted == s.admitted + if cfg.production then [] else [FailedOpen(k, now)];
      LetThroughOne(s.admitted, FailedOpen(k, now));
    } else {
      LetThroughOne(s.admitted, Counted(k, now, |Starts(s, k)|, NextCount(s, k, now)));
    }
  }

  lemma LetThroughExpire(cfg: Config, s: State, k: Key, now: Time, reply: Reply)
    requires k in s.awaiting
    ensures LetThrough(Apply(cfg, s, Expire(k, now, reply)).admitted)
            == LetThrough(s.admitted) + if cfg.production || reply == Answered then [] else [FailedOpen(k, s.awaiting[k])]
  {
    var s' := Apply(cfg, s, Expire(k, now, reply));
    var since := s.awaiting[k];
    if reply != Answered {
      assert s'.admitted == s.admitted + if cfg.production then [] else [FailedOpen(k, since)];
      LetThroughOne(s.admitted, FailedOpen(k, since));
    } else {
      LetThroughOne(s.admitted, Counted(k, since, |Starts(s, k)|, 1));
    }
  }

  lemma LetThroughStep(cfg: Config, s: State, c: Command)
    ensures LetThrough(Apply(cfg, s, c).admitted)
            == LetThrough(s.admitted) + if cfg.production then [] else Opened(FailedRequests(cfg, s, [c]))
  {
    OneRequest(cfg, s, c);
    match c
    case Incr(k, now, reply) =>
      LetThroughIncr(cfg, s, k, now, reply);
    case Expire(k, now, reply) =>
      if k in s.awaiting {
        LetThroughExpire(cfg, s, k, now, reply);
      }
  }

  lemma OneRequest(cfg: Config, s: State, c: Command)
    ensures FailedRequests(cfg, s, [c])
            == if c.reply == Answered then []
               else if c.Incr? then [(c.key, c.now)]
               else if c.key in s.awaiting then [(c.key, s.awaiting[c.key])]
               else []
    ensures forall r: (Key, Time) :: Opened([r]) == [FailedOpen(r.0, r.1)]
  {
    assert [c][1..] == [];
  }

  /**
   Over every history: outside production the requests let through uncounted are exactly those that lost a command, each
   once and in order, and in production there are none.
   */
  lemma {:induction false} FailuresLetThrough(cfg: Config, s: State, cs: seq<Command>)
    ensures LetThrough(Run(cfg, s, cs).admitted)
            == LetThrough(s.admitted) + if cfg.production then [] else Opened(FailedRequests(cfg, s, cs))
    decreases |cs|
  {
    if cs != [] {
      LetThroughStep(cfg, s, cs[0]);
      FailuresLetThrough(cfg, Apply(cfg, s, cs[0]), cs[1..]);
      FailedRequestsStep(cfg, s, cs);
      OpenedAppend(FailedRequests(cfg, s, [cs[0]]), FailedRequests(cfg, Apply(cfg, s, cs[0]), cs[1..]));
    }
  }

  lemma FailedRequestsStep(cfg: Config, s: State, cs: seq<Command>)
    requires cs != []
    ensures FailedRequests(cfg, s, cs) == FailedRequests(cfg, s, [cs[0]]) + FailedRequests(cfg, Apply(cfg, s, cs[0]), cs[1..])
  {
    OneRequest(cfg, s, cs[0]);
  }

  lemma OpenedAppend(a: seq<(Key, Time)>, b: seq<(Key, Time)>)
    ensures Opened(a + b) == Opened(a) + Opened(b)
  {
  }

  // ---- the bound is reached ----

  function Burst(k: Key, now: Time, n: nat): seq<Command> {
    if n == 0 then [] else [Incr(k, now, Answered)] + Burst(k, now, n - 1)
  }

  function BurstLog(k: Key, now: Time, epoch: nat, from: nat, n: nat): (log: seq<Admission>)
    ensures |log| == n
    ensures forall i :: 0 <= i < n ==> log[i].key == k && log[i].Counted? && log[i].time == now
    decreases n
  {
    if n == 0 then [] else [Counted(k, now, epoch, from + 1)] + BurstLog(k, now, epoch, from + 1, n - 1)
  }

  lemma {:induction false} RunAppend(cfg: Config, s: State, a: seq<Command>, b: seq<Command>)
    ensures Run(cfg, s, a + b) == Run(cfg, Run(cfg, s, a), b)
    decreases |a|
  {
    if a == [] {
      assert a + b == b;
    } else {
      assert (a + b)[1..] == a[1..] + b;
      RunAppend(cfg, Apply(cfg, s, a[0]), a[1..], b);
    }
  }

  lemma {:induction false} BurstRuns(cfg: Config, s: State, k: Key, now: Time, n: nat)
    requires Live(s, k, now) && s.counters[k].count >= 1 && s.counters[k].count + n <= cfg.limit
    ensures var s' := Run(cfg, s, Burst(k, now, n));
            && s'.admitted == s.admitted + BurstLog(k, now, |Starts(s, k)|, s.counters[k].count, n)
            && s'.starts == s.starts && s'.awaiting == s.awaiting
            && k in s'.counters && s'.counters[k].expiresAt == s.counters[k].expiresAt
    decreases n
  {
    if n > 0 {
      var s' := Apply(cfg, s, Incr(k, now, Answered));
      assert Burst(k, now, n)[1..] == Burst(k, now, n - 1);
      CountedRequest(cfg, s, k, now);
      BurstRuns(cfg, s', k, now, n - 1);
      BurstLogStep(s.admitted, k, now, |Starts(s, k)|, s.counters[k].count, n);
    }
  }

  /** One request in a live window with room. */
  lemma CountedRequest(cfg: Config, s: State, k: Key, now: Time)
    requires Live(s, k, now) && s.counters[k].count >= 1 && s.counters[k].count < cfg.limit
    ensures var s' := Apply(cfg, s, Incr(k, now, Answered));
            && s'.admitted == s.admitted + [Counted(k, now, |Starts(s, k)|, s.counters[k].count + 1)]
            && s'.starts == s.starts && s'.awaiting == s.awaiting
            && k in s'.counters && s'.counters[k] == s.counters[k].(count := s.counters[k].count + 1)
  {
  }

  lemma BurstLogStep(log: seq<Admission>, k: Key, now: Time, epoch: nat, from: nat, n: nat)
    requires n > 0
    ensures log + [Counted(k, now, epoch, from + 1)] + BurstLog(k, now, epoch, from + 1, n - 1)
            == log + BurstLog(k, now, epoch, from, n)
  {
  }

  function FirstRequest(k: Key, now: Time): seq<Command> {
    [Incr(k, now, Answered), Expire(k, now, Answered)]
  }

  /** One request opens a life at now, and n more of them follow at then. */
  function Opening(k: Key, now: Time, after: Time, n: nat): seq<Command> {
    FirstRequest(k, now) + Burst(k, after, n)
  }

  lemma FirstRequestRuns(cfg: Config, s: State, k: Key, now: Time)
    requires cfg.limit >= 1 && !Live(s, k, now) && k !in s.awaiting
    ensures var s' := Run(cfg, s, FirstRequest(k, now));
            && s'.admitted == s.admitted + [Counted(k, now, |Starts(s, k)| + 1, 1)]
            && k in s'.counters && s'.counters[k] == Counter(1, Some(now + cfg.window))
            && s'.awaiting == s.awaiting && Starts(s', k) == Starts(s, k) + [now]
  {
    var first := FirstRequest(k, now);
    var a := Apply(cfg, s, first[0]);
    var b := Apply(cfg, a, first[1]);
    assert first[1..] == [first[1]];
    assert Run(cfg, a, [first[1]]) == Run(cfg, b, []);
  }

  lemma OpeningRuns(cfg: Config, s: State, k: Key, now: Time, after: Time)
    requires cfg.limit >= 1 && !Live(s, k, now) && k !in s.awaiting && now <= after < now + cfg.window
    ensures var s' := Run(cfg, s, Opening(k, now, after, cfg.limit - 1));
            && s'.admitted == s.admitted + [Counted(k, now, |Starts(s, k)| + 1, 1)]
                              + BurstLog(k, after, |Starts(s, k)| + 1, 1, cfg.limit - 1)
            && k in s'.counters && s'.counters[k].expiresAt == Some(now + cfg.window)
            && k !in s'.awaiting
  {
    FirstRequestRuns(cfg, s, k, now);
    RunAppend(cfg, s, FirstRequest(k, now), Burst(k, after, cfg.limit - 1));
    BurstRuns(cfg, Run(cfg, s, FirstRequest(k, now)), k, after, cfg.limit - 1);
  }

  function TightRun(cfg: Config, k: Key): seq<Command>
    requires cfg.limit >= 1
  {
    Opening(k, 0, cfg.window - 1, cfg.limit - 1) + Opening(k, cfg.window, cfg.window, cfg.limit - 1)
  }

  function Range(lo: nat, hi: nat): (r: set<nat>)
    requires lo <= hi
    ensures |r| == hi - lo && forall i :: i in r <==> lo <= i < hi
    decreases hi
  {
    if lo == hi then {} else Range(lo, hi - 1) + {hi - 1}
  }

  lemma {:induction false} OrderedBurst(from: Time, k: Key, now: Time, n: nat, rest: seq<Command>)
    requires from <= now && Ordered(now, rest)
    ensures Ordered(from, Burst(k, now, n) + rest)
    decreases n
  {
    if n == 0 {
      assert Burst(k, now, n) + rest == rest;
    } else {
      OrderedBurst(now, k, now, n - 1, rest);
      assert (Burst(k, now, n) + rest)[1..] == Burst(k, now, n - 1) + rest;
    }
  }

  lemma OrderedOpening(k: Key, now: Time, after: Time, n: nat, rest: seq<Command>)
    requires now <= after && Ordered(after, rest)
    ensures Ordered(now, Opening(k, now, after, n) + rest)
  {
    OrderedBurst(now, k, after, n, rest);
    var all := Opening(k, now, after, n) + rest;
    assert all[1..][1..] == Burst(k, after, n) + rest;
  }

  lemma TightLog(cfg: Config, k: Key) returns (late: seq<Admission>, next: seq<Admission>)
    requires cfg.limit >= 1 && cfg.window >= 2
    ensures Run(cfg, Empty, TightRun(cfg, k)).admitted == [Counted(k, 0, 1, 1)] + late + next
    ensures |late| == cfg.limit - 1 && |next| == cfg.limit
    ensures forall i :: 0 <= i < |late| ==> late[i].key == k && late[i].Counted? && late[i].time == cfg.window - 1
    ensures forall i :: 0 <= i < |next| ==> next[i].key == k && next[i].Counted? && next[i].time == cfg.window
  {
    var first, second := Opening(k, 0, cfg.window - 1, cfg.limit - 1), Opening(k, cfg.window, cfg.window, cfg.limit - 1);
    RunAppend(cfg, Empty, first, second);
    OpeningRuns(cfg, Empty, k, 0, cfg.window - 1);
    late := BurstLog(k, cfg.window - 1, 1, 1, cfg.limit - 1);
    assert Run(cfg, Empty, first).admitted == [Counted(k, 0, 1, 1)] + late;
    next := SecondWindow(cfg, Run(cfg, Empty, first), k);
  }

  /** A full window opened at the very tick the one before it ends. */
  lemma SecondWindow(cfg: Config, mid: State, k: Key) returns (next: seq<Admission>)
    requires cfg.limit >= 1 && cfg.window >= 2 && k !in mid.awaiting
    requires k in mid.counters && mid.counters[k].expiresAt == Some(cfg.window)
    ensures Run(cfg, mid, Opening(k, cfg.window, cfg.window, cfg.limit - 1)).admitted == mid.admitted + next
    ensures |next| == cfg.limit
    ensures forall i :: 0 <= i < |next| ==> next[i].key == k && next[i].Counted? && next[i].time == cfg.window
  {
    OpeningRuns(cfg, mid, k, cfg.window, cfg.window);
    var e := |Starts(mid, k)| + 1;
    next := [Counted(k, cfg.window, e, 1)] + BurstLog(k, cfg.window, e, 1, cfg.limit - 1);
    assert mid.admitted + next
        == mid.admitted + [Counted(k, cfg.window, e, 1)] + BurstLog(k, cfg.window, e, 1, cfg.limit - 1);
  }

  lemma TightRunOrdered(cfg: Config, k: Key)
    requires cfg.limit >= 1 && cfg.window >= 2
    ensures Ordered(0, TightRun(cfg, k))
  {
    var second := Opening(k, cfg.window, cfg.window, cfg.limit - 1);
    OrderedOpening(k, cfg.window, cfg.window, cfg.limit - 1, []);
    assert second + [] == second;
    assert second[0] == Incr(k, cfg.window, Answered);
    assert Ordered(cfg.window - 1, second);
    OrderedOpening(k, 0, cfg.window - 1, cfg.limit - 1, second);
  }

  /** All but the very first admission fall into the window. */
  lemma CountTight(k: Key, window: Time, late: seq<Admission>, next: seq<Admission>)
    requires window >= 2
    requires forall i :: 0 <= i < |late| ==> late[i].key == k && late[i].Counted? && late[i].time == window - 1
    requires forall i :: 0 <= i < |next| ==> next[i].key == k && next[i].Counted? && next[i].time == window
    ensures |Within([Counted(k, 0, 1, 1)] + late + next, k, window - 1, window)| == |late| + |next|
  {
    var log := [Counted(k, 0, 1, 1)] + late + next;
    var n := 1 + |late| + |next|;
    assert forall i :: 1 <= i < n ==> log[i] == if i <= |late| then late[i - 1] else next[i - 1 - |late|];
    assert Within(log, k, window - 1, window) == Range(1, n);
  }

  /** For every limit and every window of at least two ticks some history reaches the bound. */
  lemma BoundIsTight(cfg: Config, k: Key)
    requires cfg.limit >= 1 && cfg.window >= 2
    ensures Ordered(0, TightRun(cfg, k))
    ensures |Within(Run(cfg, Empty, TightRun(cfg, k)).admitted, k, cfg.window - 1, cfg.window)| == 2 * cfg.limit - 1
  {
    TightRunOrdered(cfg, k);
    var late, next := TightLog(cfg, k);
    CountTight(k, cfg.window, late, next);
  }

  /** In production nothing is let through uncounted, so the bound covers every admission. */
  lemma {:induction false} ProductionFailsClosed(cfg: Config, s: State, cs: seq<Command>)
    requires cfg.production && AllCounted(s.admitted)
    ensures AllCounted(Run(cfg, s, cs).admitted)
    decreases |cs|
  {
    if cs != [] {
      ProductionStep(cfg, s, cs[0]);
      ProductionFailsClosed(cfg, Apply(cfg, s, cs[0]), cs[1..]);
    }
  }

  // ---- a key that never resets ----

  /** The key counts without an expiry, and nobody is left to set one. */
  predicate Stuck(s: State, k: Key) {
    k in s.counters && s.counters[k].expiresAt.None? && s.counters[k].count >= 1 && k !in s.awaiting
  }

  /** Admissions of the key counted so far. */
  function CountedFor(log: seq<Admission>, k: Key): nat {
    if log == [] then 0
    else CountedFor(log[..|log| - 1], k) + if log[|log| - 1].Counted? && log[|log| - 1].key == k then 1 else 0
  }

  lemma CountedForAppend(log: seq<Admission>, a: Admission, k: Key)
    ensures CountedFor(log + [a], k) == CountedFor(log, k) + if a.Counted? && a.key == k then 1 else 0
  {
    assert (log + [a])[..|log|] == log;
  }

  /** It takes the first request after a reset whose EXPIRE has no effect, or whose INCR is carried out but not answered. */
  lemma HowAKeyGetsStuck(cfg: Config, s: State, k: Key, now: Time, later: Time)
    requires NextCount(s, k, now) == 1 && (k in s.counters ==> s.counters[k].count >= 1)
    ensures Stuck(Apply(cfg, Apply(cfg, s, Incr(k, now, Answered)), Expire(k, later, Lost)), k)
    ensures k !in s.awaiting ==> Stuck(Apply(cfg, s, Incr(k, now, Unanswered)), k)
  {}

  /** The one command that makes a key stuck: an unanswered INCR that starts a life, or the owed EXPIRE lost. */
  predicate Sticks(s: State, c: Command, k: Key) {
    c.key == k
    && ((c.Incr? && c.reply == Unanswered && !Live(s, k, c.now)) || (c.Expire? && c.reply == Lost && k in s.awaiting))
  }

  /** No other command, of any key, does. */
  lemma StuckIff(cfg: Config, s: State, k: Key, now: Time, c: Command)
    requires Inv(cfg, s, k, now) && now <= c.now && !Stuck(s, k)
    ensures Stuck(Apply(cfg, s, c), k) <==> Sticks(s, c, k)
  {
    if c.key != k {
      OtherKeys(cfg, s, k, c);
    }
  }

  /** Over every history: a key is stuck in the end exactly if some command on the way stuck it. */
  lemma {:induction false} StuckHistoryIff(cfg: Config, s: State, cs: seq<Command>, k: Key, now: Time)
    requires cfg.window > 0 && Inv(cfg, s, k, now) && Ordered(now, cs) && !Stuck(s, k)
    ensures Stuck(Run(cfg, s, cs), k) <==> exists i :: 0 <= i < |cs| && Sticks(Run(cfg, s, cs[..i]), cs[i], k)
    decreases |cs|
  {
    if cs != [] {
      var c := cs[0];
      var s' := Apply(cfg, s, c);
      StuckIff(cfg, s, k, now, c);
      StepKeepsInv(cfg, s, k, now, c);
      if Sticks(s, c, k) {
        assert cs[..0] == [];
        StuckForever(cfg, s', cs[1..], k);
        assert Sticks(Run(cfg, s, cs[..0]), cs[0], k);
      } else {
        StuckHistoryIff(cfg, s', cs[1..], k, c.now);
        SticksShift(cfg, s, cs, k);
      }
    }
  }

  lemma SticksShift(cfg: Config, s: State, cs: seq<Command>, k: Key)
    requires cs != [] && !Sticks(s, cs[0], k)
    ensures (exists i :: 0 <= i < |cs| && Sticks(Run(cfg, s, cs[..i]), cs[i], k))
            <==> exists i :: 0 <= i < |cs[1..]| && Sticks(Run(cfg, Apply(cfg, s, cs[0]), cs[1..][..i]), cs[1..][i], k)
  {
    var s' := Apply(cfg, s, cs[0]);
    assert Run(cfg, s, cs[..0]) == s by { assert cs[..0] == []; }
    forall i | 0 < i < |cs|
      ensures Run(cfg, s, cs[..i]) == Run(cfg, s', cs[1..][..i - 1]) && cs[i] == cs[1..][i - 1]
    {
      assert cs[..i][0] == cs[0] && cs[..i][1..] == cs[1..][..i - 1];
    }
    if i :| 0 <= i < |cs| && Sticks(Run(cfg, s, cs[..i]), cs[i], k) {
      assert Sticks(Run(cfg, s', cs[1..][..i - 1]), cs[1..][i - 1], k);
    }
    if i :| 0 <= i < |cs[1..]| && Sticks(Run(cfg, s', cs[1..][..i]), cs[1..][i], k) {
      assert cs[1..][i] == cs[i + 1] && cs[1..][..i + 1 - 1] == cs[1..][..i];
      assert Sticks(Run(cfg, s, cs[..i + 1]), cs[i + 1], k);
    }
  }

  /** From an empty server: a key never resets again exactly after one of those two events. */
  lemma StuckFromEmptyIff(cfg: Config, cs: seq<Command>, k: Key, from: Time)
    requires cfg.window > 0 && Ordered(from, cs)
    ensures Stuck(Run(cfg, Empty, cs), k) <==> exists i :: 0 <= i < |cs| && Sticks(Run(cfg, Empty, cs[..i]), cs[i], k)
  {
    StuckHistoryIff(cfg, Empty, cs, k, from);
  }

  lemma StuckStep(cfg: Config, s: State, c: Command, k: Key)
    requires Stuck(s, k)
    ensures var s' := Apply(cfg, s, c);
            && Stuck(s', k) && s'.counters[k].count >= s.counters[k].count
            && Starts(s', k) == Starts(s, k)
            && CountedFor(s'.admitted, k) - CountedFor(s.admitted, k)
               <= Max(0, cfg.limit - s.counters[k].count) - Max(0, cfg.limit - s'.counters[k].count)
  {
    var s' := Apply(cfg, s, c);
    if c.key != k {
      OtherKeys(cfg, s, k, c);
      if s'.admitted != s.admitted {
        var a: Admission :| a.key == c.key && s'.admitted == s.admitted + [a];
        CountedForAppend(s.admitted, a, k);
      }
    } else if c.Incr? {
      CountedForAppend(s.admitted, FailedOpen(k, c.now), k);
      CountedForAppend(s.admitted, Counted(k, c.now, |Starts(s, k)|, s.counters[k].count + 1), k);
    }
  }

  /** From then on the key never starts a new life, and it admits only what its first life has left: at most limit - 1. */
  lemma {:induction false} StuckForever(cfg: Config, s: State, cs: seq<Command>, k: Key)
    requires Stuck(s, k)
    ensures var s' := Run(cfg, s, cs);
            && Stuck(s', k) && Starts(s', k) == Starts(s, k)
            && CountedFor(s'.admitted, k) - CountedFor(s.admitted, k) <= Max(0, cfg.limit - s.counters[k].count) <= Max(0, cfg.limit - 1)
    decreases |cs|
  {
    if cs != [] {
      StuckStep(cfg, s, cs[0], k);
      StuckForever(cfg, Apply(cfg, s, cs[0]), cs[1..], k);
    }
  }
}
