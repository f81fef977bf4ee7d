/**
 * The action table: the persisted actions (a name, the pins that trigger it and
 * the key code it sends) and the construction of the runtime lookup structures
 * from them, `create_mapping` in gpio-evdev-driver.py.
 */
module ActionTable {
  import opened Wrappers

  /** Number of monitored BCM pins; pins are numbered 0 .. NumPins - 1. */
  const NumPins: nat := 27

  /** One action record of the configuration, in configuration order. */
  datatype Action = Action(name: string, pins: seq<int>, key: Option<int>)

  /** A multi-pin action as the polling loop sees it: all of `pins` low sends `key`. */
  datatype Chord = Chord(pins: seq<int>, key: int)

  /** What `create_mapping` returns: pin -> key for single-pin actions, and the chords in order. */
  datatype Table = Table(mapping: map<int, int>, combinations: seq<Chord>)

  /** An action takes part in the table only when it has pins and a key. */
  predicate Enabled(a: Action) {
    |a.pins| > 0 && a.key.Some?
  }

  /** `a` is an enabled single-pin action on pin `p`. */
  predicate BindsPin(a: Action, p: int) {
    Enabled(a) && |a.pins| == 1 && a.pins[0] == p
  }

  /** `a` is an enabled action over more than one pin. */
  predicate IsChordAction(a: Action) {
    Enabled(a) && |a.pins| > 1
  }

  /** The pin -> key dictionary after processing `actions` in order. */
  function SingleMap(actions: seq<Action>): map<int, int>
    decreases |actions|
  {
    if actions == [] then map[]
    else
      var a := actions[|actions| - 1];
      var m := SingleMap(actions[..|actions| - 1]);
      if Enabled(a) && |a.pins| == 1 then m[a.pins[0] := a.key.value] else m
  }

  /** The chord list after processing `actions` in order. */
  function ChordList(actions: seq<Action>): seq<Chord>
    decreases |actions|
  {
    if actions == [] then []
    else
      var a := actions[|actions| - 1];
      var cs := ChordList(actions[..|actions| - 1]);
      if Enabled(a) && |a.pins| != 1 then cs + [Chord(a.pins, a.key.value)] else cs
  }

  /** The table `create_mapping` builds from the configured actions. */
  function TableOf(actions: seq<Action>): Table {
    Table(SingleMap(actions), ChordList(actions))
  }

  /** `create_mapping`: one pass over the actions, filling the dictionary and the list. */
  method CreateMapping(actions: seq<Action>) returns (mapping: map<int, int>, combinations: seq<Chord>)
    ensures Table(mapping, combinations) == TableOf(actions)
  {
    mapping := map[];
    combinations := [];
    var i := 0;
    while i < |actions|
      invariant 0 <= i <= |actions|
      invariant mapping == SingleMap(actions[..i])
      invariant combinations == ChordList(actions[..i])
    {
      var a := actions[i];
      assert actions[..i + 1][..i] == actions[..i];
      if |a.pins| > 0 && a.key != None {
        if |a.pins| == 1 {
          mapping := mapping[a.pins[0] := a.key.value];
        } else {
          combinations := combinations + [Chord(a.pins, a.key.value)];
        }
      }
      i := i + 1;
    }
    assert actions[..|actions|] == actions;
  }

  /** A pin is in the dictionary exactly when some enabled single-pin action names it,
      and then it holds the key of the LAST such action: later actions overwrite. */
  lemma {:induction false} SingleMapLastWins(actions: seq<Action>, p: int)
    ensures p in SingleMap(actions) <==> exists j :: 0 <= j < |actions| && BindsPin(actions[j], p)
    ensures p in SingleMap(actions) ==>
      exists j :: 0 <= j < |actions| && BindsPin(actions[j], p)
        && SingleMap(actions)[p] == actions[j].key.value
        && forall j' :: j < j' < |actions| ==> !BindsPin(actions[j'], p)
    decreases |actions|
  {
    if actions != [] {
      var n := |actions| - 1;
      var init := actions[..n];
      SingleMapLastWins(init, p);
      assert forall j :: 0 <= j < n ==> init[j] == actions[j];
      if BindsPin(actions[n], p) {
        assert SingleMap(actions)[p] == actions[n].key.value;
      } else {
        assert p in SingleMap(actions) <==> p in SingleMap(init);
        if p in SingleMap(init) {
          var j :| 0 <= j < n && BindsPin(init[j], p) && SingleMap(init)[p] == init[j].key.value
            && forall j' :: j < j' < n ==> !BindsPin(init[j'], p);
          assert SingleMap(actions)[p] == actions[j].key.value;
        }
      }
    }
  }

  /** Processing two runs of actions one after the other: the chords of the second run
      follow those of the first, in configuration order. */
  lemma {:induction false} ChordListConcat(a: seq<Action>, b: seq<Action>)
    ensures ChordList(a + b) == ChordList(a) + ChordList(b)
    decreases |b|
  {
    if b == [] {
      assert a + b == a;
    } else {
      var n := |b| - 1;
      ChordListConcat(a, b[..n]);
      assert (a + b)[..|a + b| - 1] == a + b[..n];
      assert (a + b)[|a + b| - 1] == b[n];
    }
  }

  /** The dictionary of two runs of actions is the first run's, overwritten by the second's. */
  lemma {:induction false} SingleMapConcat(a: seq<Action>, b: seq<Action>)
    ensures SingleMap(a + b) == SingleMap(a) + SingleMap(b)
    decreases |b|
  {
    if b == [] {
      assert a + b == a;
    } else {
      var n := |b| - 1;
      SingleMapConcat(a, b[..n]);
      assert (a + b)[..|a + b| - 1] == a + b[..n];
      assert (a + b)[|a + b| - 1] == b[n];
    }
  }

  /** Every chord in the list is an enabled multi-pin action of the configuration, keeping its
      pins and its key; every such action gives a chord. */
  lemma {:induction false} ChordListMember(actions: seq<Action>, c: Chord)
    ensures c in ChordList(actions) <==>
      exists j :: 0 <= j < |actions| && IsChordAction(actions[j])
        && c == Chord(actions[j].pins, actions[j].key.value)
    decreases |actions|
  {
    if actions != [] {
      var n := |actions| - 1;
      ChordListMember(actions[..n], c);
      assert forall j :: 0 <= j < n ==> actions[..n][j] == actions[j];
    }
  }

  /** Every pin of an enabled multi-pin action lies in 0 .. NumPins - 1; single-pin actions may
      name any pin. */
  predicate ChordPinsInRange(actions: seq<Action>) {
    forall j, k :: 0 <= j < |actions| && IsChordAction(actions[j]) && 0 <= k < |actions[j].pins|
      ==> 0 <= actions[j].pins[k] < NumPins
  }

  /** Every chord pin lies in 0 .. NumPins - 1 (needed for `pin_state[pin]` in the chord pass). */
  predicate ChordsInRange(combinations: seq<Chord>) {
    forall i, k :: 0 <= i < |combinations| && 0 <= k < |combinations[i].pins| ==> 0 <= combinations[i].pins[k] < NumPins
  }

  /** Chord actions whose pins are in range give chords whose pins are in range. */
  lemma ChordListInRange(actions: seq<Action>)
    requires ChordPinsInRange(actions)
    ensures ChordsInRange(ChordList(actions))
  {
    forall i, k | 0 <= i < |ChordList(actions)| && 0 <= k < |ChordList(actions)[i].pins|
      ensures 0 <= ChordList(actions)[i].pins[k] < NumPins
    {
      var c := ChordList(actions)[i];
      ChordListMember(actions, c);
    }
  }

  /** Every chord produced has at least two pins. */
  lemma {:induction false} ChordListArity(actions: seq<Action>)
    ensures forall c :: c in ChordList(actions) ==> |c.pins| >= 2
  {
    forall c | c in ChordList(actions) ensures |c.pins| >= 2 {
      ChordListMember(actions, c);
    }
  }

  /** The action names of the configuration written when none exists. */
  const DefaultActions: seq<string> := ["P1 Left", "P1 Right", "P1 Up", "P1 Down", "P1 Start", "P1 Select",
    "P1 A", "P1 B", "P1 X", "P1 Y", "P1 L", "P1 R", "ESC"]

  /** The generated configuration: every default action with no pins and no key. */
  function DefaultConfig(): (cfg: seq<Action>)
    ensures |cfg| == |DefaultActions|
    ensures forall j :: 0 <= j < |cfg| ==> cfg[j].name == DefaultActions[j]
  {
    seq(|DefaultActions|, j requires 0 <= j < |DefaultActions| => Action(DefaultActions[j], [], None))
  }

  /** Actions none of which is enabled contribute nothing. */
  lemma {:induction false} DisabledContributeNothing(actions: seq<Action>)
    requires forall j :: 0 <= j < |actions| ==> !Enabled(actions[j])
    ensures TableOf(actions) == Table(map[], [])
    decreases |actions|
  {
    if actions != [] {
      DisabledContributeNothing(actions[..|actions| - 1]);
    }
  }

  /** The generated default configuration yields an empty dictionary and no chords. */
  lemma DefaultTableEmpty()
    ensures TableOf(DefaultConfig()) == Table(map[], [])
  {
    DisabledContributeNothing(DefaultConfig());
  }
}
