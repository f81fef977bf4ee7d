/**
 * The state `polling_loop` in gpio-evdev-driver.py keeps between cycles and the
 * body of its `while True`: the edge pass over all pins, then the chord pass.
 */
module Polling {
  import opened ActionTable
  import opened Engine

  /** Whether every pin of `pins` reads 0 in `levels`: the `hit` loop of the chord pass,
      which stops at the first pin reading 1. */
  method ChordHit(pins: seq<int>, levels: array<Level>) returns (hit: bool)
    requires forall k :: 0 <= k < |pins| ==> 0 <= pins[k] < levels.Length
    ensures hit <==> AllLow(pins, levels[..])
  {
    hit := true;
    var k := 0;
    while k < |pins|
      invariant 0 <= k <= |pins|
      invariant forall j :: 0 <= j < k ==> levels[pins[j]] == 0
    {
      if levels[pins[k]] == 1 {
        hit := false;
        break;
      }
      k := k + 1;
    }
  }

  /** The driver's running state: `pin_state` and `combination_state` of `polling_loop`. */
  class Poller {
    const mapping: map<int, int>
    const combinations: seq<Chord>
    const pinState: array<Level>
    const comboState: array<bool>

    ghost predicate Valid()
      reads this
    {
      pinState.Length == NumPins && comboState.Length == |combinations| && ChordsInRange(combinations)
    }

    /** The abstract state the arrays hold. */
    ghost function State(): EngineState
      reads this, pinState, comboState
    {
      EngineState(pinState[..], comboState[..])
    }

    ghost function Config(): Table
      reads this
    {
      Table(mapping, combinations)
    }

    /** Every pin starts at 1 (high), every chord released. */
    constructor (mapping: map<int, int>, combinations: seq<Chord>)
      requires ChordsInRange(combinations)
      ensures Valid() && fresh(pinState) && fresh(comboState)
      ensures this.mapping == mapping && this.combinations == combinations
      ensures State() == Initial(Table(mapping, combinations))
    {
      this.mapping := mapping;
      this.combinations := combinations;
      pinState := new Level[NumPins](_ => 1);
      comboState := new bool[|combinations|](_ => false);
    }

    /** The edge pass: for pins 0 .. 26 in order, a mapped pin going 1 -> 0 writes its key
        down, 0 -> 1 its key up; then every pin's stored level becomes the snapshot's. */
    method DetectEdges(snap: seq<Level>) returns (events: seq<Event>)
      requires Valid() && IsSnapshot(snap)
      modifies pinState
      ensures pinState[..] == snap
      ensures events == EdgePass(mapping, old(pinState[..]), snap, NumPins)
    {
      ghost var prev := pinState[..];
      events := [];
      var pin := 0;
      while pin < NumPins
        invariant 0 <= pin <= NumPins
        invariant forall q :: 0 <= q < pin ==> pinState[q] == snap[q]
        invariant forall q :: pin <= q < NumPins ==> pinState[q] == prev[q]
        invariant events == EdgePass(mapping, prev, snap, pin)
      {
        var previous := pinState[pin];
        var current := snap[pin];
        if previous == 1 && current == 0 && pin in mapping {
          events := events + [KeyEvent(mapping[pin], Down)];
        } else if previous == 0 && current == 1 && pin in mapping {
          events := events + [KeyEvent(mapping[pin], Up)];
        }
        pinState[pin] := current;
        pin := pin + 1;
      }
      assert pinState[..] == snap;
    }

    /** The chord pass: for each chord in list order, against the stored levels, a chord all
        of whose pins read 0 that was released becomes engaged and writes its key down; one that
        no longer has all pins at 0 and was engaged is released and writes its key up. */
    method TrackChords() returns (events: seq<Event>)
      requires Valid()
      modifies comboState
      ensures forall i :: 0 <= i < |combinations| ==> (comboState[i] <==> AllLow(combinations[i].pins, pinState[..]))
      ensures events == ChordPass(combinations, old(comboState[..]), pinState[..], |combinations|)
    {
      ghost var engaged := comboState[..];
      events := [];
      var i := 0;
      while i < |combinations|
        invariant 0 <= i <= |combinations|
        invariant forall j :: 0 <= j < i ==> (comboState[j] <==> AllLow(combinations[j].pins, pinState[..]))
        invariant forall j :: i <= j < |combinations| ==> comboState[j] == engaged[j]
        invariant events == ChordPass(combinations, engaged, pinState[..], i)
      {
        var hit := ChordHit(combinations[i].pins, pinState);
        if hit && !comboState[i] {
          comboState[i] := true;
          events := events + [KeyEvent(combinations[i].key, Down)];
        } else if !hit && comboState[i] {
          comboState[i] := false;
          events := events + [KeyEvent(combinations[i].key, Up)];
        }
        i := i + 1;
      }
    }

    /** One polling cycle over the levels `snap` read from pins 0 .. 26; returns the key
        events written, in order: every single-pin event, then every chord event. Afterwards
        every stored level is the snapshot's, mapped or not, and each chord is engaged iff all
        its pins read 0 in the snapshot. */
    method Cycle(snap: seq<Level>) returns (events: seq<Event>)
      requires Valid() && IsSnapshot(snap)
      modifies pinState, comboState
      ensures Valid()
      ensures events == Emitted(Config(), old(State()), snap)
      ensures pinState[..] == snap
      ensures forall i :: 0 <= i < |combinations| ==> (comboState[i] <==> AllLow(combinations[i].pins, snap))
      ensures State() == Next(Config(), old(State()), snap)
    {
      var edges := DetectEdges(snap);
      var chords := TrackChords();
      events := edges + chords;
      assert comboState[..] == Hits(combinations, snap);
    }

    /** A finite stretch of the polling loop: one cycle per snapshot, in order. */
    method Run(snaps: seq<seq<Level>>) returns (events: seq<Event>)
      requires Valid() && forall k :: 0 <= k < |snaps| ==> IsSnapshot(snaps[k])
      modifies pinState, comboState
      ensures Valid()
      ensures events == Trace(Config(), old(State()), snaps)
      ensures State() == Final(Config(), old(State()), snaps)
    {
      ghost var s0 := State();
      events := [];
      var k := 0;
      assert snaps[..0] == [];
      while k < |snaps|
        invariant 0 <= k <= |snaps|
        invariant Valid()
        invariant State() == Final(Config(), s0, snaps[..k])
        invariant events == Trace(Config(), s0, snaps[..k])
      {
        var e := Cycle(snaps[k]);
        assert snaps[..k + 1][..k] == snaps[..k];
        events := events + e;
        k := k + 1;
      }
      assert snaps[..k] == snaps;
    }
  }
}
