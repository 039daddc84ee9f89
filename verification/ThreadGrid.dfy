/** Kernels as sets of stores performed in some order: what every order of the same
    stores has in common, and when the order does not matter at all. */
module ThreadGrid {

  /** What one step of a thread does to the output buffer. */
  datatype Store<T> = Skip | At(addr: nat, value: T)

  function Apply<T>(buf: seq<T>, st: Store<T>): (r: seq<T>)
    ensures |r| == |buf|
  {
    if st.At? && st.addr < |buf| then buf[st.addr := st.value] else buf
  }

  /** The buffer after the steps of `order`, step n performing the store f(n). */
  function Replay<T>(buf: seq<T>, f: nat -> Store<T>, order: seq<nat>): (r: seq<T>)
    ensures |r| == |buf|
  {
    if order == [] then buf
    else Apply(Replay(buf, f, order[..|order| - 1]), f(order[|order| - 1]))
  }

  /** An interleaving of all threads: every step below `total` occurs, nothing else. */
  ghost predicate Schedule(order: seq<nat>, total: nat) {
    && (forall i :: 0 <= i < |order| ==> order[i] < total)
    && (forall n :: 0 <= n < total ==> n in order)
  }

  ghost predicate WritesTo<T>(f: nat -> Store<T>, n: nat, a: nat) { f(n).At? && f(n).addr == a }

  /** Cell a ends with the value of some step that wrote it, or as it was. */
  lemma {:induction false} ReplayAt<T>(buf: seq<T>, f: nat -> Store<T>, order: seq<nat>, a: nat)
    requires a < |buf|
    ensures (exists i :: 0 <= i < |order| && WritesTo(f, order[i], a))
              ==> exists i ::
                    0 <= i < |order| && WritesTo(f, order[i], a) && Replay(buf, f, order)[a] == f(order[i]).value
    ensures (forall i :: 0 <= i < |order| ==> !WritesTo(f, order[i], a)) ==> Replay(buf, f, order)[a] == buf[a]
  {
    if order != [] {
      var init, last := order[..|order| - 1], |order| - 1;
      ReplayAt(buf, f, init, a);
      if WritesTo(f, order[last], a) {
      } else if exists i :: 0 <= i < |init| && WritesTo(f, init[i], a) {
        var i :| 0 <= i < |init| && WritesTo(f, init[i], a) && Replay(buf, f, init)[a] == f(init[i]).value;
        assert WritesTo(f, order[i], a);
      }
    }
  }

  /** Two steps that write the same cell write the same value. */
  ghost predicate RaceFree<T(!new)>(f: nat -> Store<T>, total: nat) {
    forall n, n', a :: 0 <= n < total && 0 <= n' < total && WritesTo(f, n, a) && WritesTo(f, n', a)
      ==> f(n).value == f(n').value
  }

  /** Each cell is written by at most one step. */
  ghost predicate SingleWriter<T(!new)>(f: nat -> Store<T>, total: nat) {
    forall n, n', a :: 0 <= n < total && 0 <= n' < total && WritesTo(f, n, a) && WritesTo(f, n', a) ==> n == n'
  }

  /** Without races every interleaving leaves the same buffer. */
  lemma ScheduleIndependent<T(!new)>(buf: seq<T>, f: nat -> Store<T>, total: nat, order: seq<nat>, order': seq<nat>)
    requires RaceFree(f, total) && Schedule(order, total) && Schedule(order', total)
    ensures Replay(buf, f, order) == Replay(buf, f, order')
  {
    forall a | 0 <= a < |buf| ensures Replay(buf, f, order)[a] == Replay(buf, f, order')[a] {
      ReplayAt(buf, f, order, a);
      ReplayAt(buf, f, order', a);
      if i :| 0 <= i < |order| && WritesTo(f, order[i], a) {
        assert order[i] in order';
      } else if i' :| 0 <= i' < |order'| && WritesTo(f, order'[i'], a) {
        assert order'[i'] in order;
      }
    }
  }

  lemma ReplaySnoc<T>(buf: seq<T>, f: nat -> Store<T>, order: seq<nat>, n: nat)
    ensures Replay(buf, f, order + [n]) == Apply(Replay(buf, f, order), f(n))
  {
    assert (order + [n])[..|order + [n]| - 1] == order;
  }

  const K_THREADS := 256

  /** Blocks of a launch over `work` items: at least one, at most 2^20. */
  function BlocksFor(work: nat): (blocks: nat)
    ensures 1 <= blocks <= 0x100000
    ensures work <= K_THREADS * 0x100000 ==> work <= blocks * K_THREADS
  {
    var blocks := (work + K_THREADS - 1) / K_THREADS;
    if blocks < 1 then 1 else if blocks > 0x100000 then 0x100000 else blocks
  }

  /** Threads of the whole grid: the step of a grid-stride loop. */
  function Stride(work: nat): (s: nat)
    ensures s > 0
  {
    BlocksFor(work) * K_THREADS
  }
}
