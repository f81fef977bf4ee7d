/**
 * The value-level meaning of one polling cycle of `polling_loop` in
 * gpio-evdev-driver.py: which key events a cycle sends and the state it leaves,
 * and what follows over runs of cycles. The class in module Polling is proved
 * to compute exactly these functions.
 */
module Engine {
  import opened ActionTable

  /** A pin level as `GPIO.input` reports it: 1 = high (released, pulled up), 0 = low (pressed). */
  type Level = b: int | b == 0 || b == 1

  datatype Direction = Up | Down {
    /** The value written with the key code: 1 for key down, 0 for key up. */
    function Value(): (v: int)
      ensures v == 1 <==> this == Down
      ensures v == 0 <==> this == Up
    {
      if Down? then 1 else 0
    }
  }

  /** One `uinput.write(EV_KEY, key, value)` immediately followed by `uinput.syn()`. */
  datatype Event = KeyEvent(key: int, dir: Direction)

  /** The state kept between cycles: the last level of every pin, and per chord whether it is engaged. */
  datatype EngineState = EngineState(pins: seq<Level>, chords: seq<bool>)

  predicate IsSnapshot(snap: seq<Level>) {
    |snap| == NumPins
  }

  predicate WellFormed(t: Table, s: EngineState) {
    |s.pins| == NumPins && |s.chords| == |t.combinations| && ChordsInRange(t.combinations)
  }

  /** The state before the first cycle: every pin high, every chord released. */
  function Initial(t: Table): (s: EngineState)
    ensures |s.pins| == NumPins && |s.chords| == |t.combinations|
    ensures forall p :: 0 <= p < NumPins ==> s.pins[p] == 1
    ensures forall i :: 0 <= i < |t.combinations| ==> !s.chords[i]
  {
    EngineState(seq(NumPins, _ => 1), seq(|t.combinations|, _ => false))
  }

  /** The event, if any, that pin `p` sends when its level goes from `prev` to `curr`. */
  function EdgeEvent(mapping: map<int, int>, p: int, prev: Level, curr: Level): (r: seq<Event>)
    ensures |r| <= 1
    ensures r != [] <==> p in mapping && prev != curr
    ensures r != [] ==> r[0].key == mapping[p] && (r[0].dir == Down <==> curr == 0)
  {
    if prev == 1 && curr == 0 && p in mapping then [KeyEvent(mapping[p], Down)]
    else if prev == 0 && curr == 1 && p in mapping then [KeyEvent(mapping[p], Up)]
    else []
  }

  /** The edge pass over pins 0 .. n - 1, in ascending pin order. */
  function EdgePass(mapping: map<int, int>, prev: seq<Level>, snap: seq<Level>, n: nat): seq<Event>
    requires n <= |prev| && n <= |snap|
    decreases n
  {
    if n == 0 then [] else EdgePass(mapping, prev, snap, n - 1) + EdgeEvent(mapping, n - 1, prev[n - 1], snap[n - 1])
  }

  /** All pins of `pins` read low in `levels` (the `hit` of the chord pass). */
  predicate AllLow(pins: seq<int>, levels: seq<Level>) {
    forall k :: 0 <= k < |pins| ==> 0 <= pins[k] < |levels| && levels[pins[k]] == 0
  }

  /** The event, if any, of a chord with key `key` that was `engaged` and now has `hit`. */
  function ChordEvent(key: int, engaged: bool, hit: bool): (r: seq<Event>)
    ensures |r| <= 1
    ensures r == [KeyEvent(key, Down)] <==> !engaged && hit
    ensures r == [KeyEvent(key, Up)] <==> engaged && !hit
    ensures r == [] <==> engaged == hit
  {
    if hit && !engaged then [KeyEvent(key, Down)]
    else if !hit && engaged then [KeyEvent(key, Up)]
    else []
  }

  /** The chord pass over chords 0 .. n - 1, in list order, against the levels just stored. */
  function ChordPass(combinations: seq<Chord>, engaged: seq<bool>, levels: seq<Level>, n: nat): seq<Event>
    requires n <= |combinations| && n <= |engaged|
    decreases n
  {
    if n == 0 then [] else
      ChordPass(combinations, engaged, levels, n - 1)
      + ChordEvent(combinations[n - 1].key, engaged[n - 1], AllLow(combinations[n - 1].pins, levels))
  }

  /** Per chord, whether all its pins are low in `levels`. */
  function Hits(combinations: seq<Chord>, levels: seq<Level>): (h: seq<bool>)
    ensures |h| == |combinations|
    ensures forall i :: 0 <= i < |combinations| ==> (h[i] <==> AllLow(combinations[i].pins, levels))
  {
    seq(|combinations|, i requires 0 <= i < |combinations| => AllLow(combinations[i].pins, levels))
  }

  /** The events one cycle sends: all single-pin events first, then the chord events. */
  function Emitted(t: Table, s: EngineState, snap: seq<Level>): seq<Event>
    requires WellFormed(t, s) && IsSnapshot(snap)
  {
    EdgePass(t.mapping, s.pins, snap, NumPins) + ChordPass(t.combinations, s.chords, snap, |t.combinations|)
  }

  /** The state a cycle leaves: the snapshot, and each chord engaged iff all its pins read low. */
  function Next(t: Table, s: EngineState, snap: seq<Level>): (s': EngineState)
    requires WellFormed(t, s) && IsSnapshot(snap)
    ensures WellFormed(t, s')
  {
    EngineState(snap, Hits(t.combinations, snap))
  }

  /** The state after running the cycles `snaps` in order. */
  function Final(t: Table, s: EngineState, snaps: seq<seq<Level>>): (s': EngineState)
    requires WellFormed(t, s) && forall k :: 0 <= k < |snaps| ==> IsSnapshot(snaps[k])
    ensures WellFormed(t, s')
    decreases |snaps|
  {
    if snaps == [] then s else
      assert IsSnapshot(snaps[|snaps| - 1]);
      Next(t, Final(t, s, snaps[..|snaps| - 1]), snaps[|snaps| - 1])
  }

  /** The events the cycles `snaps` send, cycle after cycle. */
  function Trace(t: Table, s: EngineState, snaps: seq<seq<Level>>): seq<Event>
    requires WellFormed(t, s) && forall k :: 0 <= k < |snaps| ==> IsSnapshot(snaps[k])
    decreases |snaps|
  {
    if snaps == [] then [] else
      assert IsSnapshot(snaps[|snaps| - 1]);
      var before := snaps[..|snaps| - 1];
      Trace(t, s, before) + Emitted(t, Final(t, s, before), snaps[|snaps| - 1])
  }

  // ---------------------------------------------------------------------------
  // One cycle

  /** An event is in the edge pass exactly when some pin below n sends it. */
  lemma {:induction false} EdgePassMember(mapping: map<int, int>, prev: seq<Level>, snap: seq<Level>, n: nat, e: Event)
    requires n <= |prev| && n <= |snap|
    ensures e in EdgePass(mapping, prev, snap, n) <==>
      exists p :: 0 <= p < n && e in EdgeEvent(mapping, p, prev[p], snap[p])
    decreases n
  {
    if n > 0 {
      EdgePassMember(mapping, prev, snap, n - 1, e);
    }
  }

  /** Pins whose level did not change add nothing to the edge pass. */
  lemma {:induction false} EdgePassQuiet(mapping: map<int, int>, prev: seq<Level>, snap: seq<Level>, m: nat, n: nat)
    requires m <= n <= |prev| && n <= |snap|
    requires forall p :: m <= p < n ==> prev[p] == snap[p]
    ensures EdgePass(mapping, prev, snap, n) == EdgePass(mapping, prev, snap, m)
    decreases n
  {
    if n > m {
      EdgePassQuiet(mapping, prev, snap, m, n - 1);
    }
  }

  /** Chords whose engagement already matches their hit add nothing to the chord pass. */
  lemma {:induction false} ChordPassQuiet(combinations: seq<Chord>, engaged: seq<bool>, levels: seq<Level>, n: nat)
    requires n <= |combinations| && n <= |engaged|
    requires forall i :: 0 <= i < n ==> (engaged[i] <==> AllLow(combinations[i].pins, levels))
    ensures ChordPass(combinations, engaged, levels, n) == []
    decreases n
  {
    if n > 0 {
      ChordPassQuiet(combinations, engaged, levels, n - 1);
      var c := combinations[n - 1];
      assert engaged[n - 1] == AllLow(c.pins, levels);
      assert ChordEvent(c.key, engaged[n - 1], AllLow(c.pins, levels)) == [];
    }
  }

  /** An event is in the chord pass exactly when some chord below n sends it. */
  lemma {:induction false} ChordPassMember(combinations: seq<Chord>, engaged: seq<bool>, levels: seq<Level>, n: nat, e: Event)
    requires n <= |combinations| && n <= |engaged|
    ensures e in ChordPass(combinations, engaged, levels, n) <==>
      exists i :: 0 <= i < n && e in ChordEvent(combinations[i].key, engaged[i], AllLow(combinations[i].pins, levels))
    decreases n
  {
    if n > 0 {
      ChordPassMember(combinations, engaged, levels, n - 1, e);
    }
  }

  /** Idempotence: a second cycle on the same snapshot sends nothing. */
  lemma Idempotent(t: Table, s: EngineState, snap: seq<Level>)
    requires WellFormed(t, s) && IsSnapshot(snap)
    ensures Emitted(t, Next(t, s, snap), snap) == []
  {
    var s' := Next(t, s, snap);
    EdgePassQuiet(t.mapping, s'.pins, snap, 0, NumPins);
    ChordPassQuiet(t.combinations, s'.chords, snap, |t.combinations|);
  }

  /** A mapped pin already low when the loop starts sends its key down on the first cycle. */
  lemma LowAtStartPresses(t: Table, snap: seq<Level>, p: int)
    requires ChordsInRange(t.combinations) && IsSnapshot(snap)
    requires 0 <= p < NumPins && p in t.mapping && snap[p] == 0
    ensures KeyEvent(t.mapping[p], Down) in Emitted(t, Initial(t), snap)
  {
    var s := Initial(t);
    assert KeyEvent(t.mapping[p], Down) in EdgeEvent(t.mapping, p, s.pins[p], snap[p]);
    EdgePassMember(t.mapping, s.pins, snap, NumPins, KeyEvent(t.mapping[p], Down));
  }

  /** Every event of a cycle comes either from a mapped pin whose level changed, carrying that
      pin's key, or from a chord whose engagement changed, carrying the chord's key. */
  lemma EmittedSources(t: Table, s: EngineState, snap: seq<Level>, e: Event)
    requires WellFormed(t, s) && IsSnapshot(snap)
    requires e in Emitted(t, s, snap)
    ensures (exists p :: 0 <= p < NumPins && p in t.mapping && s.pins[p] != snap[p]
               && e == KeyEvent(t.mapping[p], if snap[p] == 0 then Down else Up))
         || (exists i :: 0 <= i < |t.combinations| && s.chords[i] != Hits(t.combinations, snap)[i]
               && e == KeyEvent(t.combinations[i].key, if s.chords[i] then Up else Down))
  {
    EdgePassMember(t.mapping, s.pins, snap, NumPins, e);
    ChordPassMember(t.combinations, s.chords, snap, |t.combinations|, e);
  }

  // ---------------------------------------------------------------------------
  // Runs of cycles

  /** The events pin `p` sends over the cycles `snaps`, cycle by cycle. */
  function PinHistory(t: Table, p: nat, s: EngineState, snaps: seq<seq<Level>>): seq<Event>
    requires p < NumPins
    requires WellFormed(t, s) && forall k :: 0 <= k < |snaps| ==> IsSnapshot(snaps[k])
    decreases |snaps|
  {
    if snaps == [] then [] else
      assert IsSnapshot(snaps[|snaps| - 1]);
      var before := snaps[..|snaps| - 1];
      PinHistory(t, p, s, before) + EdgeEvent(t.mapping, p, Final(t, s, before).pins[p], snaps[|snaps| - 1][p])
  }

  /** The events chord `i` sends over the cycles `snaps`, cycle by cycle. */
  function ChordHistory(t: Table, i: nat, s: EngineState, snaps: seq<seq<Level>>): seq<Event>
    requires i < |t.combinations|
    requires WellFormed(t, s) && forall k :: 0 <= k < |snaps| ==> IsSnapshot(snaps[k])
    decreases |snaps|
  {
    if snaps == [] then [] else
      assert IsSnapshot(snaps[|snaps| - 1]);
      var before := snaps[..|snaps| - 1];
      ChordHistory(t, i, s, before)
      + ChordEvent(t.combinations[i].key, Final(t, s, before).chords[i], Hits(t.combinations, snaps[|snaps| - 1])[i])
  }

  /** Extending a run by cycle j: chord `i` sends the event its engagement change calls for,
      and is engaged afterwards iff all its pins read low in that cycle. */
  lemma ChordHistoryStep(t: Table, i: nat, s: EngineState, snaps: seq<seq<Level>>, j: nat)
    requires i < |t.combinations|
    requires WellFormed(t, s) && forall k :: 0 <= k < |snaps| ==> IsSnapshot(snaps[k])
    requires j < |snaps|
    ensures ChordHistory(t, i, s, snaps[..j + 1]) == ChordHistory(t, i, s, snaps[..j])
      + ChordEvent(t.combinations[i].key, Final(t, s, snaps[..j]).chords[i], AllLow(t.combinations[i].pins, snaps[j]))
    ensures Final(t, s, snaps[..j + 1]).chords[i] == AllLow(t.combinations[i].pins, snaps[j])
  {
    assert snaps[..j + 1][..j] == snaps[..j];
    assert snaps[..j + 1][j] == snaps[j];
  }

  /** Number of events in `es` going in direction `d`. */
  function Count(es: seq<Event>, d: Direction): nat {
    if es == [] then 0 else (if es[0].dir == d then 1 else 0) + Count(es[1..], d)
  }

  lemma {:induction false} CountConcat(a: seq<Event>, b: seq<Event>, d: Direction)
    ensures Count(a + b, d) == Count(a, d) + Count(b, d)
    decreases |a|
  {
    if a == [] {
      assert a + b == b;
    } else {
      CountConcat(a[1..], b, d);
      assert (a + b)[1..] == a[1..] + b;
    }
  }

  /** 1 while mapped pin `p` is held (its stored level is low), else 0. */
  function PinHeld(t: Table, p: nat, s: EngineState): int
    requires p < |s.pins|
  {
    if p in t.mapping && s.pins[p] == 0 then 1 else 0
  }

  /** 1 while chord `i` is engaged, else 0. */
  function ChordHeld(i: nat, s: EngineState): int
    requires i < |s.chords|
  {
    if s.chords[i] then 1 else 0
  }

  /** Over any run, a pin's downs minus ups is how much its held-ness changed. */
  lemma {:induction false} PinBalanceFrom(t: Table, p: nat, s: EngineState, snaps: seq<seq<Level>>)
    requires p < NumPins
    requires WellFormed(t, s) && forall k :: 0 <= k < |snaps| ==> IsSnapshot(snaps[k])
    ensures Count(PinHistory(t, p, s, snaps), Down) - Count(PinHistory(t, p, s, snaps), Up)
      == PinHeld(t, p, Final(t, s, snaps)) - PinHeld(t, p, s)
    decreases |snaps|
  {
    if snaps != [] {
      var before, x := snaps[..|snaps| - 1], snaps[|snaps| - 1];
      var e := EdgeEvent(t.mapping, p, Final(t, s, before).pins[p], x[p]);
      PinBalanceFrom(t, p, s, before);
      CountConcat(PinHistory(t, p, s, before), e, Down);
      CountConcat(PinHistory(t, p, s, before), e, Up);
      if e != [] {
        assert e[1..] == [];
      }
    }
  }

  /** A pin that is not mapped sends nothing over any run. */
  lemma {:induction false} UnmappedPinSilent(t: Table, p: nat, s: EngineState, snaps: seq<seq<Level>>)
    requires p < NumPins && p !in t.mapping
    requires WellFormed(t, s) && forall k :: 0 <= k < |snaps| ==> IsSnapshot(snaps[k])
    ensures PinHistory(t, p, s, snaps) == []
    decreases |snaps|
  {
    if snaps != [] {
      UnmappedPinSilent(t, p, s, snaps[..|snaps| - 1]);
    }
  }

  /** Balance for a pin, from the start: downs minus ups is 0 or 1, and 1 exactly while the
      pin is mapped and its stored level is low. Every prefix of a run is a run, so this holds
      at every point in time. */
  lemma PinBalance(t: Table, p: nat, snaps: seq<seq<Level>>)
    requires p < NumPins && ChordsInRange(t.combinations)
    requires forall k :: 0 <= k < |snaps| ==> IsSnapshot(snaps[k])
    ensures var h := PinHistory(t, p, Initial(t), snaps);
      var d := Count(h, Down) - Count(h, Up);
      (d == 0 || d == 1) && (d == 1 <==> p in t.mapping && Final(t, Initial(t), snaps).pins[p] == 0)
    ensures p !in t.mapping ==> PinHistory(t, p, Initial(t), snaps) == []
  {
    PinBalanceFrom(t, p, Initial(t), snaps);
    if p !in t.mapping {
      UnmappedPinSilent(t, p, Initial(t), snaps);
    }
  }

  /** Over any run, a chord's downs minus ups is how much its engagement changed. */
  lemma {:induction false} ChordBalanceFrom(t: Table, i: nat, s: EngineState, snaps: seq<seq<Level>>)
    requires i < |t.combinations|
    requires WellFormed(t, s) && forall k :: 0 <= k < |snaps| ==> IsSnapshot(snaps[k])
    ensures Count(ChordHistory(t, i, s, snaps), Down) - Count(ChordHistory(t, i, s, snaps), Up)
      == ChordHeld(i, Final(t, s, snaps)) - ChordHeld(i, s)
    decreases |snaps|
  {
    if snaps != [] {
      var before, x := snaps[..|snaps| - 1], snaps[|snaps| - 1];
      var e := ChordEvent(t.combinations[i].key, Final(t, s, before).chords[i], Hits(t.combinations, x)[i]);
      ChordBalanceFrom(t, i, s, before);
      CountConcat(ChordHistory(t, i, s, before), e, Down);
      CountConcat(ChordHistory(t, i, s, before), e, Up);
      if e != [] {
        assert e[1..] == [];
      }
    }
  }

  /** Balance for a chord, from the start: downs minus ups is 0 or 1, and 1 exactly while the
      chord is engaged. */
  lemma ChordBalance(t: Table, i: nat, snaps: seq<seq<Level>>)
    requires i < |t.combinations| && ChordsInRange(t.combinations)
    requires forall k :: 0 <= k < |snaps| ==> IsSnapshot(snaps[k])
    ensures var h := ChordHistory(t, i, Initial(t), snaps);
      var d := Count(h, Down) - Count(h, Up);
      (d == 0 || d == 1) && (d == 1 <==> Final(t, Initial(t), snaps).chords[i])
  {
    ChordBalanceFrom(t, i, Initial(t), snaps);
  }
}
