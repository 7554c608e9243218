/** The two drivers are interchangeable for the user and for the host. */
module Agreement {
  import opened Registers
  import opened Writes
  import PioSystem
  import PioProgress
  import DmaTxSystem
  import DmaTxProgress

  /** The byte-at-a-time run is over: nothing more to do, and the host has taken everything. */
  ghost predicate PioOver(actions: seq<PioSystem.Action>) {
    && PioProgress.Legal(PioSystem.Start(), actions)
    && var s := PioProgress.Run(PioSystem.Start(), actions); PioProgress.Stuck(s) && s.dev.tx == []
  }

  /** The DMA run is over, and no map or prepare call failed in it. */
  ghost predicate DmaOver(buf: seq<byte>, actions: seq<DmaTxSystem.Action>) {
    && |buf| == DMA_BUFFER_SIZE
    && DmaTxProgress.Legal(DmaTxSystem.Start(buf), actions)
    && var s := DmaTxProgress.Run(DmaTxSystem.Start(buf), actions);
       && DmaTxProgress.Stuck(s) && s.dev.tx == []
       && forall i :: 0 <= i < |s.finished| ==> s.finished[i].clean
  }

  function Counts(done: seq<Done>): seq<nat> {
    seq(|done|, i requires 0 <= i < |done| => done[i].count)
  }

  lemma CompleteCounts(a: seq<Done>, b: seq<Done>)
    requires AllComplete(a) && AllComplete(b) && Payloads(a) == Payloads(b)
    ensures Counts(a) == Counts(b)
  {
    assert |a| == |Payloads(a)| == |Payloads(b)| == |b|;
    forall i | 0 <= i < |a|
      ensures a[i].count == b[i].count
    {
      assert Payloads(a)[i] == Payloads(b)[i];
    }
  }

  /**
   * For writes that get the lock in the same order, any two runs to the end show the host the same
   * stream and return the same counts: chunk sizes, drain schedules and interleavings do not matter.
   */
  lemma PioAndDmaAgree(buf: seq<byte>, pio: seq<PioSystem.Action>, dma: seq<DmaTxSystem.Action>)
    requires PioOver(pio) && DmaOver(buf, dma)
    requires Payloads(PioProgress.Run(PioSystem.Start(), pio).finished)
          == Payloads(DmaTxProgress.Run(DmaTxSystem.Start(buf), dma).finished)
    ensures var p := PioProgress.Run(PioSystem.Start(), pio);
            var d := DmaTxProgress.Run(DmaTxSystem.Start(buf), dma);
            p.drained == d.drained && Counts(p.finished) == Counts(d.finished)
  {
    var p := PioProgress.Run(PioSystem.Start(), pio);
    var d := DmaTxProgress.Run(DmaTxSystem.Start(buf), dma);
    PioProgress.EveryWriteCompletes(pio);
    DmaTxProgress.EveryWriteCompletes(buf, dma);
    CompleteCounts(p.finished, d.finished);
    assert p.drained + [] == p.drained && d.drained + [] == d.drained;
  }

  lemma OnlyPayload(done: seq<Done>, payload: seq<byte>)
    requires multiset(Payloads(done)) == multiset{payload}
    ensures Payloads(done) == [payload]
  {
    var all := Payloads(done);
    assert |multiset(all)| == |all| == 1;
    assert all[0] in multiset(all);
  }

  /** One payload: the host gets it whole and the write returns its length, whichever the driver. */
  lemma OnePayloadArrivesWhole(buf: seq<byte>, payload: seq<byte>,
                               pio: seq<PioSystem.Action>, dma: seq<DmaTxSystem.Action>)
    requires PioOver(pio) && DmaOver(buf, dma)
    requires PioProgress.Run(PioSystem.Start(), pio).arrived == multiset{payload}
    requires DmaTxProgress.Run(DmaTxSystem.Start(buf), dma).arrived == multiset{payload}
    ensures var p := PioProgress.Run(PioSystem.Start(), pio);
            var d := DmaTxProgress.Run(DmaTxSystem.Start(buf), dma);
            && p.drained == d.drained == payload
            && Counts(p.finished) == Counts(d.finished) == [|payload|]
  {
    var p := PioProgress.Run(PioSystem.Start(), pio);
    var d := DmaTxProgress.Run(DmaTxSystem.Start(buf), dma);
    PioProgress.EveryWriteCompletes(pio);
    DmaTxProgress.EveryWriteCompletes(buf, dma);
    OnlyPayload(p.finished, payload);
    OnlyPayload(d.finished, payload);
    PioAndDmaAgree(buf, pio, dma);
    assert Concat([payload]) == payload by { assert [payload][..0] == []; }
    assert p.drained + [] == p.drained;
    assert Payloads(p.finished)[0] == p.finished[0].payload;
  }
}
