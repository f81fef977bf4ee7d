/**
 * Worked runs of the polling engine: a single button, a two-pin chord, and two
 * buttons pressed in the same cycle.
 */
module Scenarios {
  import opened ActionTable
  import opened Engine

  predicate AllSnapshots(snaps: seq<seq<Level>>) {
    forall k :: 0 <= k < |snaps| ==> IsSnapshot(snaps[k])
  }

  /** Pin 3 bound to key `k`, sampled high, low, low, high: one key down on the second cycle,
      nothing on the repeated low sample, one key up on the fourth cycle. */
  lemma SingleButton(k: int, snaps: seq<seq<Level>>)
    requires |snaps| == 4 && AllSnapshots(snaps)
    requires snaps[0][3] == 1 && snaps[1][3] == 0 && snaps[2][3] == 0 && snaps[3][3] == 1
    ensures var t := Table(map[3 := k], []);
      && PinHistory(t, 3, Initial(t), snaps[..1]) == []
      && PinHistory(t, 3, Initial(t), snaps[..2]) == [KeyEvent(k, Down)]
      && PinHistory(t, 3, Initial(t), snaps[..3]) == [KeyEvent(k, Down)]
      && PinHistory(t, 3, Initial(t), snaps) == [KeyEvent(k, Down), KeyEvent(k, Up)]
  {
    var t := Table(map[3 := k], []);
    var s0 := Initial(t);
    var d, u := KeyEvent(k, Down), KeyEvent(k, Up);
    var p1, p2, p3 := snaps[..1], snaps[..2], snaps[..3];
    assert p1[..0] == [] && p2[..1] == p1 && p3[..2] == p2 && snaps[..3] == p3;
    assert p1[0] == snaps[0] && p2[1] == snaps[1] && p3[2] == snaps[2];
    assert PinHistory(t, 3, s0, p1) == [];
    assert Final(t, s0, p1).pins == snaps[0];
    assert PinHistory(t, 3, s0, p2) == [d];
    assert Final(t, s0, p2).pins == snaps[1];
    assert PinHistory(t, 3, s0, p3) == [d];
    assert Final(t, s0, p3).pins == snaps[2];
    assert PinHistory(t, 3, s0, snaps) == [d, u];
  }

  /** One cycle of the chord over pins 3 and 4 with key `k`, in the run `snaps` from the start:
      the chord sends what its engagement change calls for, and is engaged afterwards iff both
      pins read low. */
  lemma TwoPinChordStep(k: int, snaps: seq<seq<Level>>, j: nat, before: seq<Event>, engaged: bool, hit: bool)
    requires AllSnapshots(snaps) && j < |snaps|
    requires var t := Table(map[], [Chord([3, 4], k)]);
      ChordHistory(t, 0, Initial(t), snaps[..j]) == before && Final(t, Initial(t), snaps[..j]).chords[0] == engaged
    requires hit <==> snaps[j][3] == 0 && snaps[j][4] == 0
    ensures var t := Table(map[], [Chord([3, 4], k)]);
      ChordHistory(t, 0, Initial(t), snaps[..j + 1]) == before + ChordEvent(k, engaged, hit)
      && Final(t, Initial(t), snaps[..j + 1]).chords[0] == hit
  {
    var c := Chord([3, 4], k);
    var t := Table(map[], [c]);
    assert c.pins[0] == 3 && c.pins[1] == 4;
    assert hit <==> AllLow(c.pins, snaps[j]) by {
      if !hit {
        if snaps[j][3] != 0 { assert snaps[j][c.pins[0]] != 0; } else { assert snaps[j][c.pins[1]] != 0; }
      }
    }
    ChordHistoryStep(t, 0, Initial(t), snaps, j);
  }

  /** A chord over pins 3 and 4 with key `k`, sampled (high, high), (low, high), (low, low),
      (high, low), (high, high): key down on the third cycle, when the last pin closes; key up on
      the fourth, when the first pin opens; nothing else. */
  lemma TwoPinChord(k: int, snaps: seq<seq<Level>>)
    requires |snaps| == 5 && AllSnapshots(snaps)
    requires snaps[0][3] == 1 && snaps[0][4] == 1
    requires snaps[1][3] == 0 && snaps[1][4] == 1
    requires snaps[2][3] == 0 && snaps[2][4] == 0
    requires snaps[3][3] == 1 && snaps[3][4] == 0
    requires snaps[4][3] == 1 && snaps[4][4] == 1
    ensures var t := Table(map[], [Chord([3, 4], k)]);
      && ChordHistory(t, 0, Initial(t), snaps[..2]) == []
      && ChordHistory(t, 0, Initial(t), snaps[..3]) == [KeyEvent(k, Down)]
      && ChordHistory(t, 0, Initial(t), snaps) == [KeyEvent(k, Down), KeyEvent(k, Up)]
  {
    var d, u := KeyEvent(k, Down), KeyEvent(k, Up);
    assert snaps[..0] == [] && snaps[..5] == snaps;
    TwoPinChordStep(k, snaps, 0, [], false, false);
    TwoPinChordStep(k, snaps, 1, [], false, false);
    TwoPinChordStep(k, snaps, 2, [], false, true);
    TwoPinChordStep(k, snaps, 3, [d], true, false);
    TwoPinChordStep(k, snaps, 4, [d, u], false, false);
  }

  /** Pins 1 and 2 bound to keys `k1` and `k2`, both low in the first cycle, every other pin
      high: exactly two key downs, pin 1's before pin 2's. */
  lemma SameCycleOrder(k1: int, k2: int, snap: seq<Level>)
    requires IsSnapshot(snap)
    requires forall p :: 0 <= p < NumPins ==> snap[p] == (if p == 1 || p == 2 then 0 else 1)
    ensures var t := Table(map[1 := k1, 2 := k2], []);
      Emitted(t, Initial(t), snap) == [KeyEvent(k1, Down), KeyEvent(k2, Down)]
  {
    var t := Table(map[1 := k1, 2 := k2], []);
    var s := Initial(t);
    EdgePassQuiet(t.mapping, s.pins, snap, 3, NumPins);
    assert EdgePass(t.mapping, s.pins, snap, 1) == [];
    assert EdgePass(t.mapping, s.pins, snap, 2) == [KeyEvent(k1, Down)];
    assert EdgePass(t.mapping, s.pins, snap, 3) == [KeyEvent(k1, Down), KeyEvent(k2, Down)];
  }
}
