/**
 * The in-memory LimitCounter (localCounter): a map from hashed (key, window) slots to counts,
 * with an opportunistic sweep of entries idle for three window lengths.
 */
module CounterStore {
  import opened GoFormat
  import opened GoTime

  /** A 64-bit xxhash value. */
  type Hash64 = h: int | 0 <= h < 0x1_0000_0000_0000_0000

  /** The string LimitCounterKey hashes: the key, then the window's Unix seconds in decimal. */
  function KeyText(key: string, window: int): (text: string)
    ensures key <= text && |text| > |key|
    ensures var s := text[|key|..];
      (forall i :: (if s[0] == '-' then 1 else 0) <= i < |s| ==> IsDigit(s[i])) &&
      ReadDecimal(s) == UnixSeconds(window)
    ensures var s := text[|key|..];
      (s[0] == '0' ==> |s| == 1) && (s[0] == '-' ==> |s| >= 2 && s[1] != '0')
  {
    DecimalRoundTrip(UnixSeconds(window));
    var text := key + Decimal(UnixSeconds(window));
    assert text[|key|..] == Decimal(UnixSeconds(window));
    text
  }

  /** LimitCounterKey: the hash of KeyText, with the hash function left uninterpreted. */
  function LimitCounterKey(hash: string -> Hash64, key: string, window: int): (slot: Hash64)
    ensures forall w :: UnixSeconds(w) == UnixSeconds(window) ==> hash(KeyText(key, w)) == slot
  {
    hash(KeyText(key, window))
  }

  /** Keys of equal length get equal texts only for windows in the same second. */
  lemma KeyTextEqualLengthKeys(k1: string, w1: int, k2: string, w2: int)
    requires |k1| == |k2|
    requires KeyText(k1, w1) == KeyText(k2, w2)
    ensures k1 == k2 && UnixSeconds(w1) == UnixSeconds(w2)
  {
    var t := KeyText(k1, w1);
    assert k1 == t[..|k1|] == k2;
    assert Decimal(UnixSeconds(w1)) == t[|k1|..] == Decimal(UnixSeconds(w2));
    DecimalInjective(UnixSeconds(w1), UnixSeconds(w2));
  }

  /** The text is not injective in the pair: ("k1", 7 s) and ("k", 17 s) give the same string. */
  lemma KeyTextCollision()
    ensures var w1 := (ZeroToUnixSeconds + 7) * NanosPerSecond;
      var w2 := (ZeroToUnixSeconds + 17) * NanosPerSecond;
      KeyText("k1", w1) == KeyText("k", w2) && UnixSeconds(w1) != UnixSeconds(w2)
  {
    var w1 := (ZeroToUnixSeconds + 7) * NanosPerSecond;
    var w2 := (ZeroToUnixSeconds + 17) * NanosPerSecond;
    assert UnixSeconds(w1) == 7 && UnixSeconds(w2) == 17;
    assert Decimal(7) == "7";
    assert Decimal(17) == Digits(1) + [DigitChar(7)] == "17";
  }

  /** One entry of the map: `count{value, updatedAt}`. */
  datatype Count = Count(value: int, updatedAt: int)

  /** The state of a localCounter: its map and the time of the last sweep. */
  datatype Store = Store(counters: map<Hash64, Count>, lastEvict: int)

  /** Entries go stale after this many window lengths without an increment. */
  const StaleWindows: int := 3

  /** The entries a sweep at `now` keeps: those updated less than d before now. */
  function Sweep(m: map<Hash64, Count>, now: int, d: int): (kept: map<Hash64, Count>)
    ensures forall k :: k in kept <==> k in m && now - m[k].updatedAt < d
    ensures forall k :: k in kept ==> kept[k] == m[k]
  {
    map k | k in m && now - m[k].updatedAt < d :: m[k]
  }

  /** evict: nothing until 3 window lengths have passed since the last sweep; then sweep. */
  function Evicted(s: Store, windowLength: int, now: int): Store {
    var d := windowLength * StaleWindows;
    if now - s.lastEvict < d then s else Store(Sweep(s.counters, now, d), now)
  }

  /** Increment: evict, then add one to the slot's entry (creating it) and stamp it with now. */
  function Incremented(s: Store, windowLength: int, slot: Hash64, now: int): Store {
    var e := Evicted(s, windowLength, now);
    Store(e.counters[slot := Count(CountAt(e, slot) + 1, now)], e.lastEvict)
  }

  /** The count Get reports for a slot: its entry's value, 0 when there is none. */
  function CountAt(s: Store, slot: Hash64): int {
    if slot in s.counters then s.counters[slot].value else 0
  }

  /** Every entry has counted at least one request. */
  ghost predicate Positive(s: Store) {
    forall k :: k in s.counters ==> s.counters[k].value >= 1
  }

  /**
   * A sweep happens only once 3 window lengths have passed since the previous one; it deletes
   * exactly the entries idle for at least 3 window lengths and leaves the others as they were.
   */
  lemma EvictedMeaning(s: Store, windowLength: int, now: int)
    ensures var e := Evicted(s, windowLength, now);
      var d := windowLength * StaleWindows;
      && (now - s.lastEvict < d ==> e == s)
      && (now - s.lastEvict >= d ==> e.lastEvict == now)
      && (now - s.lastEvict >= d ==>
            forall k :: k in s.counters ==> (k in e.counters <==> now - s.counters[k].updatedAt < d))
      && e.counters.Keys <= s.counters.Keys
      && (forall k :: k in e.counters ==> e.counters[k] == s.counters[k])
  {
  }

  /** An entry incremented less than 3 window lengths ago survives any sweep. */
  lemma RecentEntrySurvives(s: Store, windowLength: int, now: int, slot: Hash64)
    requires slot in s.counters && now - s.counters[slot].updatedAt < windowLength * StaleWindows
    ensures slot in Evicted(s, windowLength, now).counters
    ensures Evicted(s, windowLength, now).counters[slot] == s.counters[slot]
  {
  }

  /**
   * Increment adds exactly one to its slot (counting from 0 when the entry is missing or was
   * swept), stamps it with now, and leaves every other surviving entry as the sweep left it.
   */
  lemma IncrementedMeaning(s: Store, windowLength: int, slot: Hash64, now: int)
    ensures var e := Evicted(s, windowLength, now);
      var s' := Incremented(s, windowLength, slot, now);
      && CountAt(s', slot) == CountAt(e, slot) + 1
      && s'.counters[slot].updatedAt == now
      && s'.counters.Keys == e.counters.Keys + {slot}
      && (forall k :: k in e.counters && k != slot ==> s'.counters[k] == e.counters[k])
      && s'.lastEvict == e.lastEvict
  {
  }

  /** Every entry counts at least one request: Increment and evict keep it so. */
  lemma IncrementedPositive(s: Store, windowLength: int, slot: Hash64, now: int)
    requires Positive(s)
    ensures Positive(Evicted(s, windowLength, now))
    ensures Positive(Incremented(s, windowLength, slot, now))
  {
    var e := Evicted(s, windowLength, now);
    assert Positive(e);
    assert CountAt(e, slot) >= 0;
  }

  /** The store after one Increment of `slot` at each of the given instants, in order. */
  function IncrementAll(s: Store, windowLength: int, slot: Hash64, times: seq<int>): Store {
    if times == [] then s
    else Incremented(IncrementAll(s, windowLength, slot, times[..|times| - 1]), windowLength, slot, times[|times| - 1])
  }

  /**
   * N increments of a slot that had no entry, none of them 3 window lengths or more after the
   * previous one, leave Get reporting N for it.
   */
  lemma {:induction false} CountsIncrements(s: Store, windowLength: int, slot: Hash64, times: seq<int>)
    requires slot !in s.counters
    requires forall i :: 0 < i < |times| ==> times[i] - times[i - 1] < windowLength * StaleWindows
    ensures CountAt(IncrementAll(s, windowLength, slot, times), slot) == |times|
    ensures times != [] ==> IncrementAll(s, windowLength, slot, times).counters[slot].updatedAt == times[|times| - 1]
  {
    if times != [] {
      var init := times[..|times| - 1];
      var before := IncrementAll(s, windowLength, slot, init);
      var now := times[|times| - 1];
      CountsIncrements(s, windowLength, slot, init);
      if init != [] {
        assert now - init[|init| - 1] < windowLength * StaleWindows;
        RecentEntrySurvives(before, windowLength, now, slot);
      } else {
        assert before == s;
      }
      IncrementedMeaning(before, windowLength, slot, now);
    }
  }

  /** localCounter: the map and the time of the last sweep, updated in place. */
  class LocalCounter {
    var counters: map<Hash64, Count>
    const windowLength: int
    var lastEvict: int
    /** The 64-bit hash LimitCounterKey applies (xxhash in the source). */
    const hash: string -> Hash64

    function State(): Store
      reads this
    {
      Store(counters, lastEvict)
    }

    /** `&localCounter{counters: make(...), windowLength: w}`: empty, last sweep at the zero time. */
    constructor (windowLength: int, hash: string -> Hash64)
      ensures State() == Store(map[], 0)
      ensures this.windowLength == windowLength && this.hash == hash
    {
      this.counters := map[];
      this.windowLength := windowLength;
      this.lastEvict := 0;
      this.hash := hash;
    }

    /** evict, with the clock read once as `now`. */
    method Evict(now: int)
      modifies this
      ensures State() == Evicted(old(State()), windowLength, now)
    {
      var d := windowLength * StaleWindows;
      if now - lastEvict < d {
        return;
      }
      lastEvict := now;
      ghost var before := counters;
      var pending := counters.Keys;
      while pending != {}
        invariant lastEvict == now
        invariant pending <= before.Keys
        invariant forall k :: k in counters <==> k in before && (k in pending || now - before[k].updatedAt < d)
        invariant forall k :: k in counters ==> counters[k] == before[k]
        decreases pending
      {
        var k :| k in pending;
        if now - counters[k].updatedAt >= d {
          counters := counters - {k};
        }
        pending := pending - {k};
      }
      assert counters.Keys == Sweep(before, now, d).Keys;
      assert counters == Sweep(before, now, d);
    }

    /** Increment: sweep if due, then count one request for (key, currentWindow) at now. */
    method Increment(key: string, currentWindow: int, now: int)
      modifies this
      ensures State() == Incremented(old(State()), windowLength, LimitCounterKey(hash, key, currentWindow), now)
    {
      Evict(now);
      var hkey := LimitCounterKey(hash, key, currentWindow);
      var v := if hkey in counters then counters[hkey] else Count(0, 0);
      counters := counters[hkey := Count(v.value + 1, now)];
    }

    /** Get: the counts of the current and previous windows, 0 where there is no entry. */
    method Get(key: string, currentWindow: int, previousWindow: int) returns (curr: int, prev: int)
      ensures curr == CountAt(State(), LimitCounterKey(hash, key, currentWindow))
      ensures prev == CountAt(State(), LimitCounterKey(hash, key, previousWindow))
      ensures Positive(State()) ==> curr >= 0 && prev >= 0
    {
      var c := LimitCounterKey(hash, key, currentWindow);
      curr := if c in counters then counters[c].value else 0;
      var p := LimitCounterKey(hash, key, previousWindow);
      prev := if p in counters then counters[p].value else 0;
    }
  }
}
