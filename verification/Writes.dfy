/** Returned writes, and the byte stream they stand for. */
module Writes {
  import opened Registers

  datatype Option<T> = None | Some(value: T)

  /** A write that returned `count`; `clean` if no map or prepare call failed in it. */
  datatype Done = Done(payload: seq<byte>, count: nat, clean: bool)

  /** The bytes a returned write sent: the first `count` of its payload. */
  function Sent(d: Done): seq<byte> {
    if d.count <= |d.payload| then d.payload[..d.count] else d.payload
  }

  function Stream(done: seq<Done>): seq<byte> {
    if done == [] then [] else Stream(done[..|done| - 1]) + Sent(done[|done| - 1])
  }

  lemma StreamAppend(done: seq<Done>, d: Done)
    ensures Stream(done + [d]) == Stream(done) + Sent(d)
  {
    assert (done + [d])[..|done|] == done;
  }

  function Payloads(done: seq<Done>): seq<seq<byte>> {
    seq(|done|, i requires 0 <= i < |done| => done[i].payload)
  }

  lemma PayloadsAppend(done: seq<Done>, d: Done)
    ensures multiset(Payloads(done + [d])) == multiset(Payloads(done)) + multiset{d.payload}
  {
    assert Payloads(done + [d]) == Payloads(done) + [d.payload];
  }

  /** Every write returned the length of its payload. */
  predicate AllComplete(done: seq<Done>) {
    forall i :: 0 <= i < |done| ==> done[i].count == |done[i].payload|
  }

  function Concat(payloads: seq<seq<byte>>): seq<byte> {
    if payloads == [] then [] else Concat(payloads[..|payloads| - 1]) + payloads[|payloads| - 1]
  }

  /** Complete writes make up whole payloads, one after the other. */
  lemma {:induction false} CompleteStream(done: seq<Done>)
    requires AllComplete(done)
    ensures Stream(done) == Concat(Payloads(done))
  {
    if done != [] {
      var front := done[..|done| - 1];
      CompleteStream(front);
      assert Payloads(front) == Payloads(done)[..|done| - 1];
    }
  }

  lemma TakeOut<T>(q: seq<T>, k: nat)
    requires k < |q|
    ensures multiset(q) == multiset(q[..k] + q[k + 1..]) + multiset{q[k]}
  {
    assert q == q[..k] + [q[k]] + q[k + 1..];
  }

  /** The work waiting writers stand for: `perByte` a byte, `perWrite` a write. */
  function Outstanding(payloads: seq<seq<byte>>, perByte: nat, perWrite: nat): nat {
    if payloads == [] then 0 else
    var n := |payloads| - 1;
    Outstanding(payloads[..n], perByte, perWrite) + perByte * |payloads[n]| + perWrite
  }

  lemma OutstandingAppend(payloads: seq<seq<byte>>, p: seq<byte>, perByte: nat, perWrite: nat)
    ensures Outstanding(payloads + [p], perByte, perWrite) ==
            Outstanding(payloads, perByte, perWrite) + perByte * |p| + perWrite
  {
    assert (payloads + [p])[..|payloads|] == payloads;
  }

  lemma {:induction false} OutstandingRemove(payloads: seq<seq<byte>>, k: nat, perByte: nat, perWrite: nat)
    requires k < |payloads|
    ensures Outstanding(payloads, perByte, perWrite) ==
            Outstanding(payloads[..k] + payloads[k + 1..], perByte, perWrite) + perByte * |payloads[k]| + perWrite
    decreases |payloads|
  {
    var n := |payloads| - 1;
    if k == n {
      assert payloads[..k] + payloads[k + 1..] == payloads[..n];
    } else {
      OutstandingRemove(payloads[..n], k, perByte, perWrite);
      var rest := payloads[..k] + payloads[k + 1..];
      assert rest[..|rest| - 1] == payloads[..n][..k] + payloads[..n][k + 1..];
    }
  }
}
