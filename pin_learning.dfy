/**
 * The button-learning walk `wait_pins` of gpio-evdev-driver.py: rounds of
 * samples of all pins are folded into the sets of pins seen pressed and pins
 * seen released; the walk ends once some pin was pressed and every pressed pin
 * has been released, and answers the pressed pins.
 */
module PinLearning {
  import opened Wrappers
  import opened ActionTable
  import opened Engine

  /** The two sets `wait_pins` grows. */
  datatype Progress = Progress(pressed: set<int>, released: set<int>)

  /** Nothing seen yet. */
  const Start: Progress := Progress({}, {})

  /** One round over pins 0 .. 26: a pin reading 0 is pressed; a pin reading 1 that was
      already pressed is released. */
  function Absorb(pr: Progress, snap: seq<Level>): Progress
    requires IsSnapshot(snap)
  {
    Progress(pr.pressed + (set p | 0 <= p < NumPins && snap[p] == 0),
             pr.released + (set p | 0 <= p < NumPins && snap[p] != 0 && p in pr.pressed))
  }

  /** The progress after the rounds `samples`, in order. */
  function Learned(samples: seq<seq<Level>>): Progress
    requires forall k :: 0 <= k < |samples| ==> IsSnapshot(samples[k])
    decreases |samples|
  {
    if samples == [] then Start
    else Absorb(Learned(samples[..|samples| - 1]), samples[|samples| - 1])
  }

  /** The loop condition of `wait_pins` is false: something was pressed and all of it released. */
  predicate Finished(pr: Progress) {
    pr.pressed != {} && pr.pressed == pr.released
  }

  /** One round of the `for pin in PINS` loop, updating the sets pin by pin. */
  method SampleRound(pr: Progress, snap: seq<Level>) returns (next: Progress)
    requires IsSnapshot(snap)
    ensures next == Absorb(pr, snap)
    ensures pr.pressed <= next.pressed && pr.released <= next.released
    ensures pr.released <= pr.pressed ==> next.released <= next.pressed
  {
    var pressed, released := pr.pressed, pr.released;
    var pin := 0;
    while pin < NumPins
      invariant 0 <= pin <= NumPins
      invariant pressed == pr.pressed + (set p | 0 <= p < pin && snap[p] == 0)
      invariant released == pr.released + (set p | 0 <= p < pin && snap[p] != 0 && p in pr.pressed)
    {
      if snap[pin] == 0 {
        pressed := pressed + {pin};
      } else if pin in pressed {
        released := released + {pin};
      }
      pin := pin + 1;
    }
    next := Progress(pressed, released);
  }

  /** `wait_pins` fed the rounds `samples`: the pressed pins once the walk finishes, or None if
      the samples run out first. The exit test is made before every round, as in the source. */
  method WaitPins(samples: seq<seq<Level>>) returns (r: Option<set<int>>)
    requires forall k :: 0 <= k < |samples| ==> IsSnapshot(samples[k])
    ensures r.Some? ==>
      exists k :: 0 <= k <= |samples| && Finished(Learned(samples[..k]))
        && r.value == Learned(samples[..k]).pressed
        && forall k' :: 0 <= k' < k ==> !Finished(Learned(samples[..k']))
    ensures r.None? ==> forall k :: 0 <= k <= |samples| ==> !Finished(Learned(samples[..k]))
  {
    var pr := Start;
    var k := 0;
    assert samples[..0] == [];
    while !Finished(pr)
      invariant 0 <= k <= |samples|
      invariant pr == Learned(samples[..k])
      invariant forall k' :: 0 <= k' < k ==> !Finished(Learned(samples[..k']))
      decreases |samples| - k
    {
      if k == |samples| {
        assert samples[..k] == samples;
        return None;
      }
      pr := SampleRound(pr, samples[k]);
      assert samples[..k + 1][..k] == samples[..k];
      k := k + 1;
    }
    r := Some(pr.pressed);
  }

  /** What the sets record: a pin is pressed iff it read 0 in some round, and released iff it
      read 1 in a round after one where it read 0. Hence released is always within pressed. */
  lemma {:induction false} LearnedMeaning(samples: seq<seq<Level>>, p: int)
    requires forall k :: 0 <= k < |samples| ==> IsSnapshot(samples[k])
    ensures p in Learned(samples).pressed <==>
      0 <= p < NumPins && exists i :: 0 <= i < |samples| && samples[i][p] == 0
    ensures p in Learned(samples).released <==>
      0 <= p < NumPins && exists i, j :: 0 <= i < j < |samples| && samples[i][p] == 0 && samples[j][p] == 1
    ensures Learned(samples).released <= Learned(samples).pressed
    decreases |samples|
  {
    if samples != [] {
      var n := |samples| - 1;
      var init := samples[..n];
      assert forall i :: 0 <= i < n ==> init[i] == samples[i];
      LearnedMeaning(init, p);
      forall q | q in Learned(samples).released ensures q in Learned(samples).pressed {
        LearnedMeaning(init, q);
      }
      if 0 <= p < NumPins && samples[n][p] == 1 && p in Learned(init).pressed {
        var i :| 0 <= i < n && init[i][p] == 0;
        assert samples[i][p] == 0 && samples[n][p] == 1;
      }
      if p in Learned(samples).released && p !in Learned(init).released {
        var i :| 0 <= i < n && init[i][p] == 0;
        assert 0 <= i < n && samples[i][p] == 0 && samples[n][p] == 1;
      }
    }
  }

  /** Pressed only grows from one round to the next. */
  lemma {:induction false} PressedGrows(samples: seq<seq<Level>>, k: nat, k': nat)
    requires forall j :: 0 <= j < |samples| ==> IsSnapshot(samples[j])
    requires k <= k' <= |samples|
    ensures Learned(samples[..k]).pressed <= Learned(samples[..k']).pressed
    decreases k' - k
  {
    if k < k' {
      PressedGrows(samples, k, k' - 1);
      assert samples[..k'][..k' - 1] == samples[..k' - 1];
    }
  }

  /** Every pin `wait_pins` answers with was pressed in one round and released in a later one,
      and the answer is not empty. */
  lemma WaitPinsAnswer(samples: seq<seq<Level>>, k: nat, p: int)
    requires forall j :: 0 <= j < |samples| ==> IsSnapshot(samples[j])
    requires k <= |samples| && Finished(Learned(samples[..k]))
    ensures Learned(samples[..k]).pressed != {}
    ensures p in Learned(samples[..k]).pressed ==>
      0 <= p < NumPins && exists i, j :: 0 <= i < j < k && samples[i][p] == 0 && samples[j][p] == 1
  {
    var pre := samples[..k];
    LearnedMeaning(pre, p);
    if p in Learned(pre).pressed {
      var i, j :| 0 <= i < j < |pre| && pre[i][p] == 0 && pre[j][p] == 1;
      assert samples[i][p] == 0 && samples[j][p] == 1;
    }
  }
}
