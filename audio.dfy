/**
 * The background-music sequencer: a 128-step loop of sixteenth notes at 140
 * beats per minute (eight bars of sixteen steps). `Voices` says which drum,
 * bass and melody voices sound at a step; the `Sequencer` class holds the
 * playing flag, the loop position, the time of the next note and the
 * pending timer, and its scheduler plays every step that falls inside the
 * lookahead window.
 */
module Audio {
  import opened Optional

  /** A sixteenth note: a quarter of a beat, 60 / 140 / 4 seconds. */
  const STEP_SECONDS: real := 3.0 / 28.0
  /** Notes are scheduled this far ahead of the audio clock. */
  const SCHEDULE_AHEAD: real := 0.1
  const LOOP_STEPS: nat := 128
  const STEPS_PER_BAR: nat := 16

  // Note frequencies (Hz)
  const A3: real := 220.00
  const B3: real := 246.94
  const C4: real := 261.63
  const D4: real := 293.66
  const E4: real := 329.63
  const F4: real := 349.23
  const GS4: real := 415.30
  const A4: real := 440.00
  const B4: real := 493.88
  const C5: real := 523.25
  const D5: real := 587.33
  const DS5: real := 622.25
  const E5: real := 659.25

  const BASS_A1: real := 55.0
  const BASS_E1: real := 41.20

  /** What sounds at one step. `hihat` holds the accent flag when the hi-hat
      plays. */
  datatype Voices = Voices(kick: bool, snare: bool, hihat: Option<bool>, bass: Option<real>, melody: Option<real>)

  /** The lead line (a rock arrangement of "Für Elise"): the main riff and
      two bridges, the riff again from step 44 with a different second
      bridge, then silence up to the end of the loop. */
  function MelodyAt(step: nat): Option<real> {
    if step == 0 then Some(E5)
    else if step == 2 then Some(DS5)
    else if step == 4 then Some(E5)
    else if step == 6 then Some(DS5)
    else if step == 8 then Some(E5)
    else if step == 10 then Some(B4)
    else if step == 12 then Some(D5)
    else if step == 14 then Some(C5)
    else if step == 16 then Some(A4)
    else if step == 20 then Some(C4)
    else if step == 22 then Some(E4)
    else if step == 24 then Some(A4)
    else if step == 28 then Some(B4)
    else if step == 32 then Some(E4)
    else if step == 34 then Some(GS4)
    else if step == 36 then Some(B4)
    else if step == 40 then Some(C5)
    else if step == 42 then Some(E4)
    else if step == 44 + 0 then Some(E5)
    else if step == 44 + 2 then Some(DS5)
    else if step == 44 + 4 then Some(E5)
    else if step == 44 + 6 then Some(DS5)
    else if step == 44 + 8 then Some(E5)
    else if step == 44 + 10 then Some(B4)
    else if step == 44 + 12 then Some(D5)
    else if step == 44 + 14 then Some(C5)
    else if step == 44 + 16 then Some(A4)
    else if step == 44 + 20 then Some(C4)
    else if step == 44 + 22 then Some(E4)
    else if step == 44 + 24 then Some(A4)
    else if step == 44 + 28 then Some(B4)
    else if step == 44 + 32 then Some(E4)
    else if step == 44 + 36 then Some(C5)
    else if step == 44 + 38 then Some(B4)
    else if step == 44 + 40 then Some(A4)
    else None
  }

  /** The voices of one step (`playSequenceStep` without the synthesis). */
  function VoicesAt(step: nat): (v: Voices)
    ensures v.kick <==> step % 16 in {0, 8, 10}
    ensures v.snare <==> step % 16 in {4, 12}
    ensures v.hihat.Some? <==> step % 2 == 0
    ensures v.hihat.Some? ==> (v.hihat.value <==> step % 4 == 0)
    ensures v.bass.Some? <==> step % 2 == 0
    ensures v.bass.Some? ==> v.bass.value == (if step / 16 in {2, 6} then BASS_E1 else BASS_A1)
    ensures v.melody == MelodyAt(step)
  {
    var stepInBar := step % STEPS_PER_BAR;
    var barIndex := step / STEPS_PER_BAR;
    var bassNote := if barIndex == 2 || barIndex == 6 then BASS_E1 else BASS_A1;
    Voices(
      stepInBar == 0 || stepInBar == 8 || stepInBar == 10,
      stepInBar == 4 || stepInBar == 12,
      if stepInBar % 2 == 0 then Some(stepInBar % 4 == 0) else None,
      if step % 2 == 0 then Some(bassNote) else None,
      MelodyAt(step))
  }

  /** The steps that carry a melody note. */
  const MELODY_STEPS: set<nat> :=
    {0, 2, 4, 6, 8, 10, 12, 14, 16, 20, 22, 24, 28, 32, 34, 36, 40, 42,
     44, 46, 48, 50, 52, 54, 56, 58, 60, 64, 66, 68, 72, 76, 80, 82, 84}

  /** A melody note sounds exactly at the listed steps, all of them even,
      so the last bars of the loop (steps 85 to 127) are silent. */
  lemma MelodySteps(step: nat)
    ensures MelodyAt(step).Some? <==> step in MELODY_STEPS
    ensures MelodyAt(step).Some? ==> step % 2 == 0 && step <= 84
  {
  }

  /** The riff and its first bridge come back 44 steps later unchanged. */
  lemma RiffRepeats(k: nat)
    requires k < 32
    ensures MelodyAt(k + 44) == MelodyAt(k)
  {
  }

  /** The drum and hi-hat pattern is the same in every bar. */
  lemma DrumsRepeatEveryBar(step: nat)
    ensures var a, b := VoicesAt(step), VoicesAt(step + STEPS_PER_BAR);
            a.kick == b.kick && a.snare == b.snare && a.hihat == b.hihat
  {
    assert (step + STEPS_PER_BAR) % STEPS_PER_BAR == step % STEPS_PER_BAR;
  }

  // ------------------------------------------------------------------
  // The scheduler
  // ------------------------------------------------------------------

  /** A step handed to the synthesiser, with its start time. */
  datatype Scheduled = Scheduled(step: nat, time: real)

  /** The `n` steps played from loop position `b` with the first at time
      `t`. */
  function Run(b: nat, t: real, n: nat): (r: seq<Scheduled>)
    ensures |r| == n
    decreases n
  {
    if n == 0 then [] else [Scheduled(b, t)] + Run((b + 1) % LOOP_STEPS, t + STEP_SECONDS, n - 1)
  }

  /** The k-th played step is k after the start, modulo the loop, at k step
      lengths after the first. */
  lemma {:induction false} RunAt(b: nat, t: real, n: nat, k: nat)
    requires b < LOOP_STEPS && k < n
    ensures Run(b, t, n)[k] == Scheduled((b + k) % LOOP_STEPS, t + k as real * STEP_SECONDS)
    decreases n
  {
    var b1, t1 := (b + 1) % LOOP_STEPS, t + STEP_SECONDS;
    assert Run(b, t, n) == [Scheduled(b, t)] + Run(b1, t1, n - 1);
    if k > 0 {
      assert Run(b, t, n)[k] == Run(b1, t1, n - 1)[k - 1];
      RunAt(b1, t1, n - 1, k - 1);
      ModShift(b + 1, k - 1);
      assert t1 + (k - 1) as real * STEP_SECONDS == t + k as real * STEP_SECONDS;
    }
  }

  /** One more step appends the next position and time. */
  lemma RunAppend(b: nat, t: real, n: nat)
    requires b < LOOP_STEPS
    ensures Run(b, t, n + 1)
            == Run(b, t, n) + [Scheduled((b + n) % LOOP_STEPS, t + n as real * STEP_SECONDS)]
  {
    var last := Scheduled((b + n) % LOOP_STEPS, t + n as real * STEP_SECONDS);
    forall k | 0 <= k < n + 1
      ensures Run(b, t, n + 1)[k] == (Run(b, t, n) + [last])[k]
    {
      RunAt(b, t, n + 1, k);
      if k < n {
        RunAt(b, t, n, k);
      }
    }
  }

  lemma ModShift(a: nat, k: nat)
    ensures (a % LOOP_STEPS + k) % LOOP_STEPS == (a + k) % LOOP_STEPS
  {
    var q := a / LOOP_STEPS;
    assert a == q * LOOP_STEPS + a % LOOP_STEPS;
    assert a + k == q * LOOP_STEPS + (a % LOOP_STEPS + k);
  }

  /** A note time `k` steps after `t0` that is still before `limit` leaves
      room for at least `k` whole steps between them. */
  lemma StepsBefore(t0: real, limit: real, k: nat)
    requires t0 + k as real * STEP_SECONDS < limit
    ensures k <= ((limit - t0) / STEP_SECONDS).Floor
  {
    var x := (limit - t0) / STEP_SECONDS;
    assert k as real < x;
  }

  class Sequencer {
    var isPlayingMusic: bool
    var nextNoteTime: real
    var beatIndex: nat
    /** The pending timeout, if any; host timeout ids are positive. */
    var timerId: Option<nat>

    ghost predicate Valid()
      reads this
    {
      beatIndex < LOOP_STEPS && (timerId.Some? ==> timerId.value > 0)
    }

    constructor ()
      ensures !isPlayingMusic && nextNoteTime == 0.0 && beatIndex == 0 && timerId == None
      ensures Valid()
    {
      isPlayingMusic := false;
      nextNoteTime := 0.0;
      beatIndex := 0;
      timerId := None;
    }

    /**
     * One scheduling pass at audio time `now`: every step due before
     * `now + 0.1` is played, each advancing the loop position by one
     * modulo 128 and the note time by one step; then the next pass is
     * booked as timeout `handle`. A stopped sequencer does nothing.
     */
    method ScheduleMusic(now: real, handle: nat) returns (played: seq<Scheduled>)
      requires Valid() && handle > 0
      modifies this`nextNoteTime, this`beatIndex, this`timerId
      ensures Valid()
      ensures !isPlayingMusic ==> played == [] && unchanged(this)
      ensures isPlayingMusic ==>
                && played == Run(old(beatIndex), old(nextNoteTime), |played|)
                && beatIndex == (old(beatIndex) + |played|) % LOOP_STEPS
                && nextNoteTime == old(nextNoteTime) + |played| as real * STEP_SECONDS
                && nextNoteTime >= now + SCHEDULE_AHEAD
                && (|played| > 0 ==> nextNoteTime - STEP_SECONDS < now + SCHEDULE_AHEAD)
                && timerId == Some(handle)
    {
      played := [];
      if !isPlayingMusic {
        return;
      }
      ghost var bound := ((now + SCHEDULE_AHEAD - nextNoteTime) / STEP_SECONDS).Floor;
      while nextNoteTime < now + SCHEDULE_AHEAD
        invariant beatIndex < LOOP_STEPS
        invariant played == Run(old(beatIndex), old(nextNoteTime), |played|)
        invariant beatIndex == (old(beatIndex) + |played|) % LOOP_STEPS
        invariant nextNoteTime == old(nextNoteTime) + |played| as real * STEP_SECONDS
        invariant |played| > 0 ==> nextNoteTime - STEP_SECONDS < now + SCHEDULE_AHEAD
        decreases bound - |played|
      {
        StepsBefore(old(nextNoteTime), now + SCHEDULE_AHEAD, |played|);
        RunAppend(old(beatIndex), old(nextNoteTime), |played|);
        ModShift(old(beatIndex) + |played|, 1);
        played := played + [Scheduled(beatIndex, nextNoteTime)];
        nextNoteTime := nextNoteTime + STEP_SECONDS;
        beatIndex := (beatIndex + 1) % LOOP_STEPS;
      }
      timerId := Some(handle);
    }

    /** Starting from stopped rewinds the loop and books the first note
        0.1 s ahead; starting while playing changes nothing. */
    method StartMusic(now: real, handle: nat) returns (played: seq<Scheduled>)
      requires Valid() && handle > 0
      modifies this
      ensures Valid()
      ensures old(isPlayingMusic) ==> played == [] && unchanged(this)
      ensures !old(isPlayingMusic) ==>
                && isPlayingMusic && beatIndex == 0 && played == []
                && nextNoteTime == now + SCHEDULE_AHEAD && timerId == Some(handle)
    {
      played := [];
      if isPlayingMusic {
        return;
      }
      isPlayingMusic := true;
      beatIndex := 0;
      nextNoteTime := now + SCHEDULE_AHEAD;
      played := ScheduleMusic(now, handle);
    }

    /** Stopping always leaves the sequencer stopped with no pending
        timer. */
    method StopMusic()
      requires Valid()
      modifies this`isPlayingMusic, this`timerId
      ensures Valid()
      ensures !isPlayingMusic && timerId == None
    {
      isPlayingMusic := false;
      if timerId.Some? && timerId.value != 0 {
        timerId := None;
      }
    }
  }
}
