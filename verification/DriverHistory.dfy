/** What the reader and LED 2 are shown, told from the history of handlers alone. */
module DriverHistory {
  import opened Registers
  import opened DriverSpec

  /** What the last RX_EMPTY bottom half found, unless the button was pressed since. */
  function Size(history: seq<Step>): int {
    if history == [] then 0 else
    var front, last := history[..|history| - 1], history[|history| - 1];
    match last
    case StopRx(residue) => DMA_BUFFER_SIZE - residue
    case Button => 0
    case _ => Size(front)
  }

  /** A step by which LED 2 is turned on: an RX_EMPTY bottom half that found something. */
  predicate Lights(e: Step) {
    e.StopRx? && e.residue != DMA_BUFFER_SIZE
  }

  /** LED 2 was turned on, and the button not pressed since. */
  predicate IsLit(history: seq<Step>) {
    exists i :: 0 <= i < |history| && Lights(history[i]) && Unpressed(history, i)
  }

  predicate Unpressed(history: seq<Step>, i: nat) {
    forall j :: i < j < |history| ==> !history[j].Button?
  }

  lemma LitAppend(history: seq<Step>, e: Step)
    ensures IsLit(history + [e]) <==> Lights(e) || (IsLit(history) && !e.Button?)
  {
    var all := history + [e];
    var n := |history|;
    if Lights(e) {
      assert Lights(all[n]) && Unpressed(all, n);
    }
    if IsLit(history) && !e.Button? {
      var i :| 0 <= i < n && Lights(history[i]) && Unpressed(history, i);
      assert Lights(all[i]) && Unpressed(all, i);
    }
    if IsLit(all) && !Lights(e) {
      var i :| 0 <= i < |all| && Lights(all[i]) && Unpressed(all, i);
      assert Lights(history[i]);
      assert !all[n].Button?;
      assert forall j :: i < j < n ==> history[j] == all[j];
      assert Unpressed(history, i);
    }
  }

  lemma {:induction false} Split(s: Drv, front: seq<Step>, e: Step)
    requires Legal(s, front + [e])
    ensures Legal(s, front) && Enabled(Run(s, front), e)
    ensures Run(s, front + [e]) == Take(Run(s, front), e)
    decreases |front|
  {
    var all := front + [e];
    if front == [] {
      assert all == [e] && all[1..] == [];
    } else {
      assert all[0] == front[0] && all[1..] == front[1..] + [e];
      Split(Take(s, front[0]), front[1..], e);
    }
  }

  // Which step changes what: everything else it leaves alone.

  lemma SubmitFrame(s: Drv, data: seq<byte>, mapOk: bool, prepOk: bool)
    requires Enabled(s, SubmitTx(data, mapOk, prepOk))
    ensures var t := Take(s, SubmitTx(data, mapOk, prepOk));
      t == s.(txBuf := t.txBuf, txLen := t.txLen,
              tx := t.tx, txQueued := t.txQueued, txMaps := t.txMaps, led0 := t.led0)
  {
  }

  lemma BeginFrame(s: Drv, mapOk: bool, prepOk: bool)
    requires Enabled(s, StartRx(mapOk, prepOk))
    ensures var t := Take(s, StartRx(mapOk, prepOk));
      t == s.(rxWork := false, rx := t.rx, rxQueued := t.rxQueued, rxMaps := t.rxMaps, led1 := t.led1)
  {
  }

  lemma StopFrame(s: Drv, residue: nat)
    requires Enabled(s, StopRx(residue))
    ensures var t := Take(s, StopRx(residue));
      t == s.(rxDmaWork := false, rxSize := t.rxSize, led2 := t.led2,
              rx := t.rx, rxQueued := t.rxQueued, rxMaps := t.rxMaps, led1 := t.led1)
  {
  }

  lemma MoveTxFrame(s: Drv)
    requires Enabled(s, MoveTx)
    ensures var t := Take(s, MoveTx); t == s.(dev := t.dev, tx := t.tx)
  {
  }

  lemma MoveRxFrame(s: Drv)
    requires Enabled(s, MoveRx)
    ensures var t := Take(s, MoveRx); t == s.(dev := t.dev, rxBuf := t.rxBuf, rx := t.rx)
  {
  }

  lemma InterruptFrame(s: Drv)
    requires Enabled(s, Interrupt)
    ensures var t := Take(s, Interrupt); t == s.(dev := t.dev, rxWork := t.rxWork, rxDmaWork := t.rxDmaWork)
  {
  }

  lemma CallbackFrame(s: Drv, e: Step)
    requires Enabled(s, e) && (e.CompleteTx? || e.CompleteRx?)
    ensures var t := Take(s, e);
      t == if e.CompleteTx? then s.(tx := t.tx, txQueued := t.txQueued, txMaps := t.txMaps, led0 := t.led0)
           else s.(rx := t.rx, rxQueued := t.rxQueued, rxMaps := t.rxMaps, led1 := t.led1)
  {
  }

  lemma OutsideFrame(s: Drv, e: Step)
    requires Enabled(s, e) && (e.HostGets? || e.HostSets? || e.Button?)
    ensures var t := Take(s, e);
      t == if e.Button? then s.(rxSize := 0, led2 := false) else s.(dev := t.dev)
  {
  }

  lemma StepShows(s: Drv, e: Step)
    requires Enabled(s, e)
    ensures var t := Take(s, e);
      && t.rxSize == (if e.StopRx? then DMA_BUFFER_SIZE - e.residue else if e.Button? then 0 else s.rxSize)
      && (t.led2 <==> Lights(e) || (s.led2 && !e.Button?))
  {
  }

  /**
   * Over every run from probe: rx_size is what the last RX_EMPTY bottom half found, or 0 after the
   * button, and LED 2 is on if and only if one found something and the button was not pressed since.
   */
  lemma {:induction false} HistoryShows(txBuf: seq<byte>, rxBuf: seq<byte>, history: seq<Step>)
    requires Legal(Start(txBuf, rxBuf), history)
    ensures var s := Run(Start(txBuf, rxBuf), history);
            s.rxSize == Size(history) && (s.led2 <==> IsLit(history))
    decreases |history|
  {
    hide Take, Enabled, Lights, IsLit;
    if history == [] {
      assert !IsLit([]) by { NothingIsLit(); }
      assert Size([]) == 0;
    } else {
      var front, e := history[..|history| - 1], history[|history| - 1];
      assert history == front + [e];
      Split(Start(txBuf, rxBuf), front, e);
      HistoryShows(txBuf, rxBuf, front);
      StepShows(Run(Start(txBuf, rxBuf), front), e);
      LitAppend(front, e);
    }
  }

  lemma NothingIsLit()
    ensures !IsLit([])
  {
  }
}
