/**
 * The animation cursor of the application shell (App.tsx): which stage of
 * the butterfly diagram is shown (0 is the bit-reversal column), which
 * butterfly of it is highlighted (-1 for none) and whether playback is
 * running, moved one butterfly at a time over the groups of butterfly
 * records of the current transform. Also the accepted sample counts.
 */
module App {
  import opened Wrappers
  import opened Types
  import opened Arith
  import opened ButterflyVisualizer

  /** The three pieces of animation state. */
  datatype AnimationState = AnimationState(activeStage: int, activeButterfly: int, isPlaying: bool)

  /** The state the page starts with and a new configuration restores. */
  const Rest := AnimationState(0, -1, false)

  // ---------------------------------------------------------------------
  // The step functions

  /** Where the step functions can look up the group of the active stage. */
  predicate Steppable(c: AnimationState, groups: seq<seq<ButterflyData>>) {
    0 <= c.activeStage <= |groups|
  }

  /** The last butterfly of the last stage: stepping forward only stops playback. */
  predicate AtEnd(c: AnimationState, groups: seq<seq<ButterflyData>>)
    requires Steppable(c, groups)
  {
    c.activeStage != 0
    && c.activeButterfly >= |groups[c.activeStage - 1]| - 1
    && c.activeStage >= |groups|
  }

  /**
   * `stepForward`: leave the bit-reversal column for the first butterfly of
   * stage 1, else move to the next butterfly of the stage, else to the first
   * butterfly of the next stage; at the end, stop playing.
   */
  function Forward(c: AnimationState, groups: seq<seq<ButterflyData>>): (r: AnimationState)
    requires Steppable(c, groups)
    ensures AtEnd(c, groups) <==> r == c.(isPlaying := false)
  {
    if c.activeStage == 0 then c.(activeStage := 1, activeButterfly := 0)
    else if c.activeButterfly < |groups[c.activeStage - 1]| - 1 then c.(activeButterfly := c.activeButterfly + 1)
    else if c.activeStage < |groups| then c.(activeStage := c.activeStage + 1, activeButterfly := 0)
    else c.(isPlaying := false)
  }

  /**
   * `stepBackward`: in the bit-reversal column nothing happens; else move to
   * the previous butterfly of the stage, else to the last butterfly of the
   * previous stage, else back to the bit-reversal column.
   */
  function Backward(c: AnimationState, groups: seq<seq<ButterflyData>>): (r: AnimationState)
    requires Steppable(c, groups)
    ensures r.isPlaying == c.isPlaying
    ensures c.activeStage == 0 <==> r == c
  {
    if c.activeStage == 0 then c
    else if c.activeButterfly > 0 then c.(activeButterfly := c.activeButterfly - 1)
    else if c.activeStage > 1 then c.(activeStage := c.activeStage - 1, activeButterfly := |groups[c.activeStage - 2]| - 1)
    else c.(activeStage := 0, activeButterfly := -1)
  }

  // ---------------------------------------------------------------------
  // The cursor invariant

  /** Every stage has at least one butterfly, and there is at least one stage. */
  predicate GroupsValid(groups: seq<seq<ButterflyData>>) {
    |groups| >= 1 && forall g :: 0 <= g < |groups| ==> |groups[g]| >= 1
  }

  /**
   * Stage 0 has no highlighted butterfly; any other stage is one of the
   * groups and highlights one of its butterflies.
   */
  predicate CursorValid(c: AnimationState, groups: seq<seq<ButterflyData>>) {
    && 0 <= c.activeStage <= |groups|
    && (c.activeStage == 0 <==> c.activeButterfly == -1)
    && (c.activeStage != 0 ==> 0 <= c.activeButterfly < |groups[c.activeStage - 1]|)
  }

  lemma ForwardKeepsValid(c: AnimationState, groups: seq<seq<ButterflyData>>)
    requires GroupsValid(groups) && CursorValid(c, groups)
    ensures CursorValid(Forward(c, groups), groups)
  {
  }

  lemma BackwardKeepsValid(c: AnimationState, groups: seq<seq<ButterflyData>>)
    requires GroupsValid(groups) && CursorValid(c, groups)
    ensures CursorValid(Backward(c, groups), groups)
  {
  }

  /** A valid cursor is at the end exactly on the last butterfly of the last stage. */
  lemma AtEndIsLastButterfly(c: AnimationState, groups: seq<seq<ButterflyData>>)
    requires GroupsValid(groups) && CursorValid(c, groups)
    ensures AtEnd(c, groups) <==>
      c.activeStage == |groups| && c.activeButterfly == |groups[|groups| - 1]| - 1
  {
  }

  /** Stepping back undoes a step forward everywhere but at the end. */
  lemma BackwardAfterForward(c: AnimationState, groups: seq<seq<ButterflyData>>)
    requires GroupsValid(groups) && CursorValid(c, groups) && !AtEnd(c, groups)
    ensures Backward(Forward(c, groups), groups) == c
  {
  }

  /** Stepping forward undoes a step back everywhere but in the bit-reversal column. */
  lemma ForwardAfterBackward(c: AnimationState, groups: seq<seq<ButterflyData>>)
    requires GroupsValid(groups) && CursorValid(c, groups) && c.activeStage != 0
    ensures Forward(Backward(c, groups), groups) == c
  {
  }

  // ---------------------------------------------------------------------
  // The cursor and the live operation counter

  /** The groups of an N-point transform: log2 N stages of N / 2 butterflies. */
  predicate TransformGroups(N: nat, groups: seq<seq<ButterflyData>>) {
    IsPowerOfTwo(N) && N >= 2 && |groups| == Log2(N)
    && forall g :: 0 <= g < |groups| ==> |groups[g]| == N / 2
  }

  /**
   * Every step forward before the end performs exactly one more butterfly:
   * one multiplication and two additions.
   */
  lemma ForwardCountsOneButterfly(N: nat, c: AnimationState, groups: seq<seq<ButterflyData>>)
    requires TransformGroups(N, groups) && CursorValid(c, groups) && !AtEnd(c, groups)
    ensures var before := LiveOps(N, c.activeStage, c.activeButterfly);
      var after := LiveOps(N, Forward(c, groups).activeStage, Forward(c, groups).activeButterfly);
      after.mults == before.mults + 1 && after.adds == before.adds + 2
  {
    var s := c.activeStage;
    if s != 0 && c.activeButterfly == N / 2 - 1 {
      MulSucc(s - 1, N / 2);
    }
  }

  /** At the end of the animation the counter shows the FFT counts. */
  lemma CounterAtEnd(N: nat, c: AnimationState, groups: seq<seq<ButterflyData>>)
    requires TransformGroups(N, groups) && CursorValid(c, groups) && AtEnd(c, groups)
    ensures LiveOps(N, c.activeStage, c.activeButterfly) == Fft.CalculateOpCounts(N).fft
  {
    LiveOpsAtEnd(N);
  }

  // ---------------------------------------------------------------------
  // The component state

  /**
   * The cursor state of the component, updated by the reset and the two
   * step callbacks. The play/pause toggle, the only setter that turns
   * playback on, is not part of this model.
   */
  class AnimationCursor {
    var activeStage: int
    var activeButterfly: int
    var isPlaying: bool

    function State(): AnimationState
      reads this
    {
      AnimationState(activeStage, activeButterfly, isPlaying)
    }

    /** `useState(0)`, `useState(-1)`, `useState(false)`. */
    constructor()
      ensures State() == Rest
    {
      activeStage := 0;
      activeButterfly := -1;
      isPlaying := false;
    }

    /** The end of the configuration effect: back to the bit-reversal column, paused. */
    method ResetCursor()
      modifies this
      ensures State() == Rest
    {
      activeStage := 0;
      activeButterfly := -1;
      isPlaying := false;
    }

    /** `stepForward`, a no-op while there are no transform results. */
    method StepForward(fftData: Option<seq<seq<ButterflyData>>>)
      requires fftData.Some? ==> Steppable(State(), fftData.value)
      modifies this
      ensures fftData.None? ==> State() == old(State())
      ensures fftData.Some? ==> State() == Forward(old(State()), fftData.value)
    {
      if fftData.None? {
        return;
      }
      var butterflies := fftData.value;
      var numStages := |butterflies|;
      if activeStage == 0 {
        activeStage := 1;
        activeButterfly := 0;
      } else {
        var currentStageBfs := |butterflies[activeStage - 1]|;
        if activeButterfly < currentStageBfs - 1 {
          activeButterfly := activeButterfly + 1;
        } else if activeStage < numStages {
          activeStage := activeStage + 1;
          activeButterfly := 0;
        } else {
          isPlaying := false;
        }
      }
    }

    /** `stepBackward`, a no-op while there are no transform results. */
    method StepBackward(fftData: Option<seq<seq<ButterflyData>>>)
      requires fftData.Some? ==> Steppable(State(), fftData.value)
      modifies this
      ensures fftData.None? ==> State() == old(State())
      ensures fftData.Some? ==> State() == Backward(old(State()), fftData.value)
    {
      if fftData.None? {
        return;
      }
      if activeStage == 0 {
        return;
      }
      if activeButterfly > 0 {
        activeButterfly := activeButterfly - 1;
      } else if activeStage > 1 {
        var prevStageIdx := activeStage - 2;
        var prevStageBfs := |fftData.value[prevStageIdx]|;
        activeStage := activeStage - 1;
        activeButterfly := prevStageBfs - 1;
      } else {
        activeStage := 0;
        activeButterfly := -1;
      }
    }
  }

  // ---------------------------------------------------------------------
  // The initial configuration

  /**
   * The sample count read from the address: the parsed `N` parameter when it
   * is one of 2, 4, 8, 16, 32, and 16 otherwise (`None` is a parameter that
   * does not parse as an integer).
   */
  function InitialN(nParam: Option<int>): (N: nat)
    ensures N in {2, 4, 8, 16, 32}
    ensures nParam.Some? && nParam.value in {2, 4, 8, 16, 32} ==> N == nParam.value
    ensures !(nParam.Some? && nParam.value in {2, 4, 8, 16, 32}) ==> N == 16
  {
    if nParam.Some? && nParam.value in {2, 4, 8, 16, 32} then nParam.value else 16
  }

  /** Every accepted sample count is a power of two from 2^1 to 2^5. */
  lemma InitialNIsPowerOfTwo(nParam: Option<int>)
    ensures IsPowerOfTwo(InitialN(nParam))
    ensures 1 <= Log2(InitialN(nParam)) <= 5
  {
    var N := InitialN(nParam);
    if N == 2 {
      assert Log2(2) == 1;
    } else if N == 4 {
      assert Log2(4) == 1 + Log2(2);
    } else if N == 8 {
      assert Log2(8) == 1 + Log2(4) == 2 + Log2(2);
    } else if N == 16 {
      assert Log2(16) == 1 + Log2(8) == 2 + Log2(4) == 3 + Log2(2);
    } else {
      assert Log2(32) == 1 + Log2(16) == 2 + Log2(8) == 3 + Log2(4) == 4 + Log2(2);
    }
  }

  // ---------------------------------------------------------------------
  // The sizes of the settings panel

  /**
   * The sample counts the settings panel offers; the configuration effect
   * writes the chosen one into the address as `N`.
   */
  predicate Offered(n: int) {
    n in {8, 16, 32, 64, 128, 256}
  }

  /**
   * The whitelist as written drops the three largest sizes the settings
   * panel offers: an address shared at 64, 128 or 256 samples reopens at 16.
   */
  lemma SharedLargeSizeIsLost()
    ensures Offered(64) && InitialN(Some(64)) == 16
    ensures Offered(128) && InitialN(Some(128)) == 16
    ensures Offered(256) && InitialN(Some(256)) == 16
  {
  }

  /**
   * The whitelist extended by the sizes the settings panel offers: every
   * offered size survives a shared address, and every count `InitialN`
   * accepts is still accepted.
   */
  function AcceptedN(nParam: Option<int>): (N: nat)
    ensures nParam.Some? && Offered(nParam.value) ==> N == nParam.value
    ensures nParam.Some? && nParam.value in {2, 4, 8, 16, 32} ==> N == InitialN(nParam)
    ensures !(nParam.Some? && nParam.value in {2, 4, 8, 16, 32, 64, 128, 256}) ==> N == 16
  {
    if nParam.Some? && nParam.value in {2, 4, 8, 16, 32, 64, 128, 256} then nParam.value else 16
  }

  /** Every count the extended whitelist accepts is 2^b with 1 <= b <= 8. */
  lemma AcceptedNIsPowerOfTwo(nParam: Option<int>)
    ensures IsPowerOfTwo(AcceptedN(nParam))
    ensures 1 <= Log2(AcceptedN(nParam)) <= 8
  {
    var N := AcceptedN(nParam);
    if N <= 32 {
      InitialNIsPowerOfTwo(Some(N));
    } else if N == 64 {
      assert Log2(64) == 1 + Log2(32);
      InitialNIsPowerOfTwo(Some(32));
    } else if N == 128 {
      assert Log2(128) == 2 + Log2(32);
      InitialNIsPowerOfTwo(Some(32));
    } else {
      assert Log2(256) == 3 + Log2(32);
      InitialNIsPowerOfTwo(Some(32));
    }
  }
}
