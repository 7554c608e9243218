/** Whether LED 0 shows a transfer under way, when every register, flag and pin write is its own step. */
module LedRace {
  import opened Registers
  import opened DeviceSpec
  import opened Writes
  import opened DmaTxSystem
  import opened DmaTxSafety
  import opened DmaTxProgress

  /** Neither side is between its write of `queued` and its write of the LED. */
  predicate Settled(s: State) {
    !StageOf(s).Lighting? && !s.callback.Darkening?
  }

  /** The LED is wrong, and no step is outstanding that would correct it. */
  predicate Wrong(s: State) {
    Settled(s) && s.led0 != s.queued
  }

  /** Some state along the run, its ends included, has the LED wrong. */
  predicate GoesWrong(s: State, run: seq<Action>)
    requires Legal(s, run)
    decreases |run|
  {
    Wrong(s) || (run != [] && GoesWrong(Step(s, run[0]), run[1..]))
  }

  /** The writer lights the LED while the callback is between lowering `queued` and darkening it. */
  predicate Overtakes(s: State, run: seq<Action>)
    requires Legal(s, run)
    decreases |run|
  {
    run != [] && ((run[0].Lights? && s.callback.Darkening?) || Overtakes(Step(s, run[0]), run[1..]))
  }

  /** As long as the writer has not overtaken the callback. */
  predicate InStep(s: State) {
    && (s.callback.Darkening? && s.queued ==> StageOf(s).Lighting?)
    && (Settled(s) ==> s.led0 == s.queued)
  }

  lemma StepInStep(s: State, a: Action)
    requires ControlOk(s) && InStep(s) && Enabled(s, a) && !(a.Lights? && s.callback.Darkening?)
    ensures InStep(Step(s, a))
  {
    hide GetData, SetData, ReadDr, WriteDr, WriteIcr;
  }

  lemma {:induction false} RunInStep(s: State, run: seq<Action>)
    requires Inv(s) && InStep(s) && Legal(s, run) && !Overtakes(s, run)
    ensures !GoesWrong(s, run)
    decreases |run|
  {
    if run != [] {
      StepKeepsInv(s, run[0]);
      StepInStep(s, run[0]);
      RunInStep(Step(s, run[0]), run[1..]);
    }
  }

  /** The next chunk is lit, and the callback about to darken the LED under it. */
  predicate Overtaken(s: State) {
    s.callback.Darkening? && s.queued && !StageOf(s).Lighting?
  }

  lemma StepOvertaken(s: State, a: Action)
    requires ControlOk(s) && Overtaken(s) && Enabled(s, a)
    ensures if a.CallbackSteps? then Wrong(Step(s, a)) else Overtaken(Step(s, a))
  {
  }

  lemma {:induction false} OvertakenGoesWrong(s: State, run: seq<Action>)
    requires Inv(s) && Overtaken(s) && Legal(s, run) && !Run(s, run).callback.Darkening?
    ensures GoesWrong(s, run)
    decreases |run|
  {
    if run != [] {
      StepKeepsInv(s, run[0]);
      StepOvertaken(s, run[0]);
      if !run[0].CallbackSteps? {
        OvertakenGoesWrong(Step(s, run[0]), run[1..]);
      }
    }
  }

  lemma LightsOvertakes(s: State)
    requires Enabled(s, Lights) && s.callback.Darkening? && ControlOk(s)
    ensures Overtaken(Step(s, Lights))
  {
  }

  lemma {:induction false} OvertakingGoesWrong(s: State, run: seq<Action>)
    requires Inv(s) && Legal(s, run) && Overtakes(s, run) && !Run(s, run).callback.Darkening?
    ensures GoesWrong(s, run)
    decreases |run|
  {
    StepKeepsInv(s, run[0]);
    if run[0].Lights? && s.callback.Darkening? {
      LightsOvertakes(s);
      OvertakenGoesWrong(Step(s, run[0]), run[1..]);
    } else {
      OvertakingGoesWrong(Step(s, run[0]), run[1..]);
    }
  }

  /**
   * Over every run that does not stop between the callback's two writes: LED 0 agrees with `queued` in
   * each state with no LED write outstanding if and only if the writer never lights the LED while
   * the callback is between the two.
   */
  lemma LedShowsTransferUnlessOvertaken(buf: seq<byte>, run: seq<Action>)
    requires |buf| == DMA_BUFFER_SIZE && Legal(Start(buf), run)
    requires !Run(Start(buf), run).callback.Darkening?
    ensures !GoesWrong(Start(buf), run) <==> !Overtakes(Start(buf), run)
  {
    StartOk(buf);
    if Overtakes(Start(buf), run) {
      OvertakingGoesWrong(Start(buf), run);
    } else {
      RunInStep(Start(buf), run);
    }
  }

  /** The LED is out under a queued transfer. */
  predicate Dark(s: State) {
    !s.led0 && s.queued && !StageOf(s).Lighting? && !s.callback.Darkening?
  }

  predicate Lowers(s: State, a: Action) {
    a.CallbackSteps? && s.callback.Lowering?
  }

  lemma StepStaysDark(s: State, a: Action)
    requires ControlOk(s) && Dark(s) && Enabled(s, a)
    ensures if Lowers(s, a) then !Step(s, a).queued else Dark(Step(s, a))
  {
  }

  /** Whether the transfer that is under way is completed in the run. */
  predicate IsLowered(s: State, run: seq<Action>)
    requires Legal(s, run)
    decreases |run|
  {
    run != [] && (Lowers(s, run[0]) || IsLowered(Step(s, run[0]), run[1..]))
  }

  /** Once out, it stays out until the transfer is over. */
  lemma {:induction false} StaysDark(s: State, run: seq<Action>)
    requires Inv(s) && Wrong(s) && s.queued && Legal(s, run) && !IsLowered(s, run)
    ensures Wrong(Run(s, run)) && Run(s, run).queued
    decreases |run|
  {
    if run != [] {
      StepKeepsInv(s, run[0]);
      StepStaysDark(s, run[0]);
      StaysDark(Step(s, run[0]), run[1..]);
    }
  }

  // ---- A run in which the LED goes out during a transfer ---------------------------------------

  lemma {:induction false} Extend(s: State, run: seq<Action>, a: Action)
    requires Legal(s, run) && Enabled(Run(s, run), a)
    ensures Legal(s, run + [a]) && Run(s, run + [a]) == Step(Run(s, run), a)
    decreases |run|
  {
    if run == [] {
      assert run + [a] == [a] && [a][1..] == [];
      assert Legal(Step(s, a), []);
    } else {
      assert (run + [a])[1..] == run[1..] + [a];
      Extend(Step(s, run[0]), run[1..], a);
    }
  }

  ghost predicate Reaches(s: State, t: State) {
    exists run :: Legal(s, run) && Run(s, run) == t
  }

  lemma ReachesItself(s: State)
    ensures Reaches(s, s)
  {
    assert Legal(s, []) && Run(s, []) == s;
  }

  lemma Reach(s: State, t: State, a: Action)
    requires Reaches(s, t) && Enabled(t, a)
    ensures Reaches(s, Step(t, a))
  {
    var run :| Legal(s, run) && Run(s, run) == t;
    Extend(s, run, a);
  }

  /** From the loop test to a chunk of one byte in the buffer, while no transfer is under way. */
  lemma LoadOneByte(s: State, t: State, w: Writer) returns (r: State)
    requires Reaches(s, t) && t.writer == Some(w) && w.stage.Top? && w.written < |w.payload|
    requires !t.queued && |t.buf| == DMA_BUFFER_SIZE
    ensures Reaches(s, r) && r.writer == Some(w.(stage := Mapping(1)))
    ensures r.length == 1 && |r.buf| == DMA_BUFFER_SIZE
    ensures r.dev == t.dev && r.engine == t.engine && r.callback == t.callback
    ensures r.waiting == t.waiting && r.receiving == t.receiving
  {
    hide Reaches;
    r := t;
    Reach(s, r, Starts);
    r := Step(r, Starts);
    Reach(s, r, Waits);
    r := Step(r, Waits);
    assert r.writer == Some(w.(stage := Copying));
    Reach(s, r, Copies(1));
    r := Step(r, Copies(1));
  }

  /** From there to the issue call: mapped, prepared, marked, and the LED lit. */
  lemma LightOneByte(s: State, t: State, w: Writer) returns (r: State)
    requires Reaches(s, t) && t.writer == Some(w) && w.stage == Mapping(1)
    ensures Reaches(s, r) && r.led0 && r.queued && r.writer == Some(w.(stage := Issuing(1)))
    ensures r.length == t.length && r.buf == t.buf
    ensures r.dev == t.dev && r.engine == t.engine && r.callback == t.callback
    ensures r.waiting == t.waiting && r.receiving == t.receiving
  {
    hide Reaches;
    r := t;
    Reach(s, r, Maps(true));
    r := Step(r, Maps(true));
    Reach(s, r, Prepares(true));
    r := Step(r, Prepares(true));
    Reach(s, r, Marks);
    r := Step(r, Marks);
    Reach(s, r, Lights);
    r := Step(r, Lights);
  }

  lemma MoveOneByte(s: State, t: State, w: Writer) returns (r: State)
    requires Reaches(s, t) && t.writer == Some(w) && w.stage == Issuing(1)
    requires t.length == 1 && |t.buf| == DMA_BUFFER_SIZE && t.engine.Off? && t.callback.Absent? && !t.dev.txBusy
    ensures Reaches(s, r) && r.engine == Moving(1) && r.length == 1 && r.callback.Absent?
    ensures r.writer == Some(w.(stage := Top, written := w.written + 1)) && |r.buf| == DMA_BUFFER_SIZE
    ensures r.waiting == t.waiting && r.receiving == t.receiving
  {
    hide Reaches, WriteDr;
    r := t;
    Reach(s, r, Issues);
    r := Step(r, Issues);
    Reach(s, r, Moves);
    r := Step(r, Moves);
  }

  /** The callback has lowered `queued`, but not darkened the LED. */
  lemma LowerQueued(s: State, t: State) returns (r: State)
    requires Reaches(s, t) && t.engine == Moving(1) && t.length == 1 && t.callback.Absent?
    ensures Reaches(s, r) && !r.queued && r.callback.Darkening? && r.engine.Off?
    ensures r.writer == t.writer && r.buf == t.buf && r.waiting == t.waiting && r.receiving == t.receiving
  {
    hide Reaches;
    r := t;
    Reach(s, r, Completes);
    r := Step(r, Completes);
    Reach(s, r, CallbackSteps);
    r := Step(r, CallbackSteps);
    Reach(s, r, CallbackSteps);
    r := Step(r, CallbackSteps);
  }

  /** The writer finds nothing left to write and `queued` down, and returns; the next one gets the lock. */
  lemma NextWriter(s: State, t: State, w: Writer, next: seq<byte>) returns (r: State)
    requires Reaches(s, t) && t.writer == Some(w) && w.stage.Top? && w.written == |w.payload|
    requires !t.queued && !t.receiving && t.waiting == [next]
    ensures Reaches(s, r) && r.writer == Some(Writer(next, 0, Top, false)) && !r.queued
    ensures r.dev == t.dev && r.engine == t.engine && r.callback == t.callback && r.buf == t.buf
  {
    hide Reaches;
    r := t;
    Reach(s, r, Starts);
    r := Step(r, Starts);
    Reach(s, r, Waits);
    r := Step(r, Waits);
    assert r.writer.None?;
    Reach(s, r, Acquires(0));
    r := Step(r, Acquires(0));
  }

  lemma Arrive(s: State, t: State, payload: seq<byte>) returns (r: State)
    requires Reaches(s, t)
    ensures Reaches(s, r) && r == t.(waiting := t.waiting + [payload], arrived := r.arrived)
  {
    Reach(s, t, Arrives(payload));
    r := Step(t, Arrives(payload));
  }

  /** The first of two waiting writers gets the lock. */
  lemma TwoWriters(buf: seq<byte>, first: byte, second: byte) returns (r: State)
    requires |buf| == DMA_BUFFER_SIZE
    ensures Reaches(Start(buf), r) && r == Start(buf).(waiting := [[second]], arrived := r.arrived, writer := r.writer)
    ensures r.writer == Some(Writer([first], 0, Top, false))
  {
    var s := Start(buf);
    ReachesItself(s);
    hide Reaches;
    r := Arrive(s, s, [first]);
    r := Arrive(s, r, [second]);
    assert r.waiting == [[first], [second]];
    Reach(s, r, Acquires(0));
    r := Step(r, Acquires(0));
  }

  /**
   * Between the callback's two writes the writer can return and the next one submit and light its
   * chunk; the callback then turns the LED off under a transfer that is under way. Any two writes
   * of one byte each will do.
   */
  lemma LedCanGoOutUnderATransfer(buf: seq<byte>, first: byte, second: byte) returns (r: State)
    requires |buf| == DMA_BUFFER_SIZE
    ensures Reaches(Start(buf), r) && Wrong(r) && r.queued && !r.led0
  {
    var s := Start(buf);
    hide Reaches;
    r := TwoWriters(buf, first, second);
    r := LoadOneByte(s, r, r.writer.value);
    r := LightOneByte(s, r, r.writer.value);
    r := MoveOneByte(s, r, r.writer.value);
    r := LowerQueued(s, r);
    r := NextWriter(s, r, r.writer.value, [second]);
    r := LoadOneByte(s, r, r.writer.value);
    r := LightOneByte(s, r, r.writer.value);
    Reach(s, r, CallbackSteps);
    r := Step(r, CallbackSteps);
  }
}
