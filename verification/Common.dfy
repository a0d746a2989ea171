/** Constants and small vocabulary shared by the models of the loopback bridge. */
module Common {

  const MAX_VHOST_DEVICES: nat := 256
  const MAX_QUEUE_PAIRS: nat := 8
  const PKT_BURST_SZ: nat := 32
  const MAX_ENQUEUE_RETRIES: nat := 1000

  // Elements of each transmit queue's mempool.
  const MEMPOOL_ELEMENTS: nat := 8191
  // A DPDK ring created with 131072 slots stores one element less.
  const RING_CAPACITY: nat := 131071

  datatype Option<+T> = None | Some(value: T)

  datatype ThreadMode = EachQTwoThread | EachQOneThread | AllQTwoThread | AllQOneThread

  // The modes in which one worker serves both ends of every ring.
  predicate OneThread(mode: ThreadMode) {
    mode.EachQOneThread? || mode.AllQOneThread?
  }

  // None stands for the exception thrown on an unknown name.
  function StringToThreadMode(name: string): Option<ThreadMode> {
    if name == "EachQ-TwoThread" then Some(EachQTwoThread)
    else if name == "EachQ-OneThread" then Some(EachQOneThread)
    else if name == "AllQ-TwoThread" then Some(AllQTwoThread)
    else if name == "AllQ-OneThread" then Some(AllQOneThread)
    else None
  }

  function Min(a: nat, b: nat): nat {
    if a < b then a else b
  }

  /** `f` maps the positions of `a` to strictly increasing positions of `b` holding the same elements. */
  ghost predicate Embeds<T>(f: seq<nat>, a: seq<T>, b: seq<T>) {
    && |f| == |a|
    && (forall i, j | 0 <= i < j < |f| :: f[i] < f[j])
    && (forall i | 0 <= i < |f| :: f[i] < |b| && b[f[i]] == a[i])
  }

  ghost predicate IsSubsequence<T>(a: seq<T>, b: seq<T>) {
    exists f: seq<nat> :: Embeds(f, a, b)
  }

  lemma SubsequenceReflexive<T>(a: seq<T>)
    ensures IsSubsequence(a, a)
  {
    assert Embeds(seq(|a|, i requires 0 <= i => i), a, a);
  }

  lemma SubsequenceSkip<T>(a: seq<T>, b: seq<T>, c: seq<T>)
    requires IsSubsequence(a, b)
    ensures IsSubsequence(a, b + c)
  {
    var f: seq<nat> :| Embeds(f, a, b);
    assert Embeds(f, a, b + c);
  }

  lemma SubsequenceExtend<T>(a: seq<T>, b: seq<T>, c: seq<T>)
    requires IsSubsequence(a, b)
    ensures IsSubsequence(a + c, b + c)
  {
    var f: seq<nat> :| Embeds(f, a, b);
    var g: seq<nat> := f + seq(|c|, i requires 0 <= i => |b| + i);
    assert Embeds(g, a + c, b + c);
  }
}
