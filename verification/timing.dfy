/** The timing helpers: accumulated run times and call counts per key, reported again only
    after 5 more seconds or 10 more calls; the `timer` decorator that records a call; and the
    `Timer` stopwatch. Clock readings are parameters; printing is returned as the lines printed. */
module Timing {
  import opened Wrappers
  import opened Seqs

  /** A timing key: a bare tag or function name, or a (tag, function name) pair. */
  datatype Key = Name(name: string) | Pair(tag: string, fname: string)

  /** The module-level dictionaries; a missing key reads as 0 (`defaultdict(bool)`). */
  datatype TimingState = TimingState(
    timing: map<Key, real>,
    prevTiming: map<Key, real>,
    counting: map<Key, int>,
    prevCounting: map<Key, int>)

  datatype Line = TimeLine(key: Key, total: real) | CountLine(key: Key, calls: int)

  const EMPTY: TimingState := TimingState(map[], map[], map[], map[])

  /** Seconds accumulated before a key is reported again. */
  const TIME_STEP: real := 5.0
  /** Calls counted before a key is reported again. */
  const COUNT_STEP: int := 10

  function GetReal(m: map<Key, real>, k: Key): real
  {
    if k in m then m[k] else 0.0
  }

  function GetInt(m: map<Key, int>, k: Key): int
  {
    if k in m then m[k] else 0
  }

  /** Every key has been reported within the last 5 seconds and the last 10 calls. */
  ghost predicate Synced(s: TimingState)
  {
    forall k :: GetReal(s.timing, k) - GetReal(s.prevTiming, k) <= TIME_STEP
      && GetInt(s.counting, k) - GetInt(s.prevCounting, k) <= COUNT_STEP
  }

  /** The time half of `update_timing`: adds `dt` to the key's time; a time that has grown by
      more than the step since it was last printed, or any time when `printAlways` is set, is
      printed and becomes the new reference. */
  function AddTime(s: TimingState, key: Key, dt: real, printAlways: bool): (r: (TimingState, seq<Line>))
    ensures r.0.counting == s.counting && r.0.prevCounting == s.prevCounting
    ensures GetReal(r.0.timing, key) == GetReal(s.timing, key) + dt
    ensures forall k :: k != key ==>
      GetReal(r.0.timing, k) == GetReal(s.timing, k) && GetReal(r.0.prevTiming, k) == GetReal(s.prevTiming, k)
    ensures GetReal(r.0.timing, key) - GetReal(r.0.prevTiming, key) <= TIME_STEP
    ensures r.1 != [] <==> printAlways || GetReal(s.timing, key) + dt - GetReal(s.prevTiming, key) > TIME_STEP
    ensures r.1 != [] ==> r.1 == [TimeLine(key, GetReal(r.0.timing, key))]
    ensures r.1 != [] ==> GetReal(r.0.prevTiming, key) == GetReal(r.0.timing, key)
    ensures r.1 == [] ==> GetReal(r.0.prevTiming, key) == GetReal(s.prevTiming, key)
  {
    var total := GetReal(s.timing, key) + dt;
    var s1 := s.(timing := s.timing[key := total]);
    if total - GetReal(s.prevTiming, key) > TIME_STEP || printAlways then
      (s1.(prevTiming := s1.prevTiming[key := total]), [TimeLine(key, total)])
    else
      (s1, [])
  }

  /** The count half of `update_timing` for a counted call: one more call, printed and taken
      as the new reference after more than 10 calls since the last print or when
      `printAlways` is set. */
  function AddCall(s: TimingState, key: Key, printAlways: bool): (r: (TimingState, seq<Line>))
    ensures r.0.timing == s.timing && r.0.prevTiming == s.prevTiming
    ensures GetInt(r.0.counting, key) == GetInt(s.counting, key) + 1
    ensures forall k :: k != key ==>
      GetInt(r.0.counting, k) == GetInt(s.counting, k) && GetInt(r.0.prevCounting, k) == GetInt(s.prevCounting, k)
    ensures GetInt(r.0.counting, key) - GetInt(r.0.prevCounting, key) <= COUNT_STEP
    ensures r.1 != [] <==> printAlways || GetInt(s.counting, key) + 1 - GetInt(s.prevCounting, key) > COUNT_STEP
    ensures r.1 != [] ==> r.1 == [CountLine(key, GetInt(r.0.counting, key))]
    ensures r.1 != [] ==> GetInt(r.0.prevCounting, key) == GetInt(r.0.counting, key)
    ensures r.1 == [] ==> GetInt(r.0.prevCounting, key) == GetInt(s.prevCounting, key)
  {
    var calls := GetInt(s.counting, key) + 1;
    var s1 := s.(counting := s.counting[key := calls]);
    if calls - GetInt(s.prevCounting, key) > COUNT_STEP || printAlways then
      (s1.(prevCounting := s1.prevCounting[key := calls]), [CountLine(key, calls)])
    else
      (s1, [])
  }

  /** `update_timing`: the time half, then, for a counted call, the count half. */
  function UpdateTiming(s: TimingState, key: Key, dt: real, count: bool, printAlways: bool)
    : (r: (TimingState, seq<Line>))
    ensures GetReal(r.0.timing, key) == GetReal(s.timing, key) + dt
    ensures GetInt(r.0.counting, key) == GetInt(s.counting, key) + (if count then 1 else 0)
    ensures forall k :: k != key ==>
      && GetReal(r.0.timing, k) == GetReal(s.timing, k)
      && GetReal(r.0.prevTiming, k) == GetReal(s.prevTiming, k)
      && GetInt(r.0.counting, k) == GetInt(s.counting, k)
      && GetInt(r.0.prevCounting, k) == GetInt(s.prevCounting, k)
    ensures GetReal(r.0.timing, key) - GetReal(r.0.prevTiming, key) <= TIME_STEP
    ensures count ==> GetInt(r.0.counting, key) - GetInt(r.0.prevCounting, key) <= COUNT_STEP
    ensures !count ==> GetInt(r.0.prevCounting, key) == GetInt(s.prevCounting, key)
    ensures TimeLine(key, GetReal(r.0.timing, key)) in r.1 <==>
      printAlways || GetReal(s.timing, key) + dt - GetReal(s.prevTiming, key) > TIME_STEP
    ensures CountLine(key, GetInt(r.0.counting, key)) in r.1 <==>
      count && (printAlways || GetInt(s.counting, key) + 1 - GetInt(s.prevCounting, key) > COUNT_STEP)
    ensures forall l :: l in r.1 ==> l == TimeLine(key, GetReal(r.0.timing, key))
                                     || l == CountLine(key, GetInt(r.0.counting, key))
    ensures TimeLine(key, GetReal(r.0.timing, key)) in r.1
            ==> GetReal(r.0.prevTiming, key) == GetReal(r.0.timing, key)
    ensures TimeLine(key, GetReal(r.0.timing, key)) !in r.1
            ==> GetReal(r.0.prevTiming, key) == GetReal(s.prevTiming, key)
    ensures CountLine(key, GetInt(r.0.counting, key)) in r.1
            ==> GetInt(r.0.prevCounting, key) == GetInt(r.0.counting, key)
    ensures CountLine(key, GetInt(r.0.counting, key)) !in r.1
            ==> GetInt(r.0.prevCounting, key) == GetInt(s.prevCounting, key)
  {
    var t := AddTime(s, key, dt, printAlways);
    if count then
      var c := AddCall(t.0, key, printAlways);
      assert TimeLine(key, GetReal(c.0.timing, key)) !in c.1;
      assert CountLine(key, GetInt(c.0.counting, key)) !in t.1;
      (c.0, t.1 + c.1)
    else
      assert CountLine(key, GetInt(t.0.counting, key)) !in t.1;
      t
  }

  /** Every update keeps all keys synced. */
  lemma UpdateKeepsSynced(s: TimingState, key: Key, dt: real, count: bool, printAlways: bool)
    requires Synced(s)
    ensures Synced(UpdateTiming(s, key, dt, count, printAlways).0)
  {
    var r := UpdateTiming(s, key, dt, count, printAlways).0;
    forall k ensures GetReal(r.timing, k) - GetReal(r.prevTiming, k) <= TIME_STEP
      && GetInt(r.counting, k) - GetInt(r.prevCounting, k) <= COUNT_STEP
    {
      if k == key && !count {
        assert GetInt(r.counting, k) == GetInt(s.counting, k);
      }
    }
  }

  // ---------------------------------------------------------------------------------------
  // a sequence of updates

  datatype Update = Update(key: Key, dt: real, count: bool, printAlways: bool)

  function RunUpdates(s: TimingState, us: seq<Update>): TimingState
    decreases |us|
  {
    if us == [] then s
    else RunUpdates(UpdateTiming(s, us[0].key, us[0].dt, us[0].count, us[0].printAlways).0, us[1..])
  }

  /** The times passed for one key. */
  function DtsFor(us: seq<Update>, k: Key): seq<real>
  {
    if us == [] then [] else (if us[0].key == k then [us[0].dt] else []) + DtsFor(us[1..], k)
  }

  /** The number of counted calls for one key. */
  function CountsFor(us: seq<Update>, k: Key): nat
  {
    if us == [] then 0 else (if us[0].key == k && us[0].count then 1 else 0) + CountsFor(us[1..], k)
  }

  /** A key's time is the sum of all times passed for it, and its count the number of
      counted calls. */
  lemma {:induction false} TotalsAccumulate(s: TimingState, us: seq<Update>, k: Key)
    ensures GetReal(RunUpdates(s, us).timing, k) == GetReal(s.timing, k) + Sum(DtsFor(us, k))
    ensures GetInt(RunUpdates(s, us).counting, k) == GetInt(s.counting, k) + CountsFor(us, k)
    decreases |us|
  {
    if us != [] {
      var u := us[0];
      var s1 := UpdateTiming(s, u.key, u.dt, u.count, u.printAlways).0;
      TotalsAccumulate(s1, us[1..], k);
      SumAppend(if u.key == k then [u.dt] else [], DtsFor(us[1..], k));
    }
  }

  /** A run of updates from a synced state stays synced. */
  lemma {:induction false} RunKeepsSynced(s: TimingState, us: seq<Update>)
    requires Synced(s)
    ensures Synced(RunUpdates(s, us))
    decreases |us|
  {
    if us != [] {
      UpdateKeepsSynced(s, us[0].key, us[0].dt, us[0].count, us[0].printAlways);
      RunKeepsSynced(UpdateTiming(s, us[0].key, us[0].dt, us[0].count, us[0].printAlways).0, us[1..]);
    }
  }

  lemma EmptyIsSynced()
    ensures Synced(EMPTY)
  {
  }

  // ---------------------------------------------------------------------------------------
  // the timer decorator

  /** The keys a timed call records: the tag and the (tag, function name) pair, or the
      function name alone. */
  function TimerKeys(tag: Option<string>, fname: string): (r: seq<Key>)
    ensures tag.Some? ==> r == [Name(tag.value), Pair(tag.value, fname)]
    ensures tag.None? ==> r == [Name(fname)]
  {
    if tag.Some? then [Name(tag.value), Pair(tag.value, fname)] else [Name(fname)]
  }

  /** The `timer` wrapper around one call of `f`, which took `dt` seconds: it returns what
      `f` returns and adds `dt` to every key it records. */
  function Timed<A, R>(s: TimingState, f: A -> R, fname: string, args: A, dt: real,
                       tag: Option<string>, count: bool, printAlways: bool)
    : (r: (R, TimingState))
    ensures r.0 == f(args)
    ensures forall k :: k in TimerKeys(tag, fname) ==> GetReal(r.1.timing, k) == GetReal(s.timing, k) + dt
    ensures forall k :: k !in TimerKeys(tag, fname) ==> GetReal(r.1.timing, k) == GetReal(s.timing, k)
  {
    var out := f(args);
    match tag
    case Some(t) =>
      var s1 := UpdateTiming(s, Name(t), dt, count, printAlways).0;
      (out, UpdateTiming(s1, Pair(t, fname), dt, count, printAlways).0)
    case None =>
      (out, UpdateTiming(s, Name(fname), dt, count, printAlways).0)
  }

  // ---------------------------------------------------------------------------------------
  // the stopwatch

  const ESC: char := '\U{1B}'

  /** A stopwatch: its start, its last reading and its coloured tag. */
  datatype Timer = Timer(t0: real, tp: real, dt: real, tag: string)

  function Colored(code: string, text: string): string
  {
    [ESC] + "[" + code + "m" + text + [ESC] + "[0m"
  }

  /** `Timer(tag)` started at `now`. */
  function NewTimer(tag: string, now: real): (r: Timer)
    ensures r.t0 == now && r.tp == now && r.dt == 5.0
  {
    Timer(now, now, 5.0, Colored("94", tag))
  }

  /** `Timer.__call__` at time `now`: prints the elapsed time since the last reading when it
      exceeds 0.01 seconds or `force` is set, and always takes `now` as the new reading. */
  function Lap(t: Timer, now: real, tag: Option<string>, force: bool): (r: (Timer, Option<(string, real)>))
    ensures r.0 == t.(tp := now)
    ensures r.1.Some? <==> now - t.tp > 0.01 || force
    ensures r.1.Some? ==> r.1.value.1 == now - t.tp
    ensures r.1.Some? && tag.None? ==> r.1.value.0 == t.tag
  {
    var text := t.tag + (if tag.None? then "" else Colored("96", " " + tag.value));
    (t.(tp := now), if now - t.tp > 0.01 || force then Some((text, now - t.tp)) else None)
  }

  /** Successive laps report the time between consecutive readings, so the reported times
      of two forced laps add up to the time since the first reading. */
  lemma LapsAdd(t: Timer, now1: real, now2: real)
    ensures Lap(t, now1, None, true).1.value.1 + Lap(Lap(t, now1, None, true).0, now2, None, true).1.value.1
            == now2 - t.tp
  {
  }
}
