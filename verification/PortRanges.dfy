/**
 Port ranges of the endpoint workers.  One pair of bounds is carried through the
 creation of all workers, core by core and process by process; each worker takes the
 ports from where the previous one stopped, and listens on each of its own.
 */
module PortRanges {
  import opened Common

  /** Ports start after the privileged range. */
  const FIRST: nat := 1024

  datatype EndpointWorker = EndpointWorker(cpu: nat, process: nat, lower: nat, upper: nat)

  /** The ports a worker tries to listen on in one round of its payload. */
  function Listens(w: EndpointWorker): (ports: seq<nat>)
    requires w.lower <= w.upper
    ensures |ports| == w.upper - w.lower
  {
    seq(w.upper - w.lower, i requires 0 <= i => w.lower + i)
  }

  /** The sum of the first k samples. */
  function Sum(samples: seq<nat>, k: nat): nat
    requires k <= |samples|
  {
    if k == 0 then 0 else Sum(samples, k - 1) + samples[k - 1]
  }

  /** The bound after all samples. */
  function Final(samples: seq<nat>): nat {
    FIRST + Sum(samples, |samples|)
  }

  /** A sum as a 64-bit `usize` shows it. */
  function Wrap64(x: nat): nat {
    x % 0x1_0000_0000_0000_0000
  }

  lemma NoWrap(x: nat)
    requires x < U64
    ensures Wrap64(x) == x
  {
  }

  /** The bounds that `main` owns and `new_worker` updates. */
  class Bounds {
    var lower: nat
    var upper: nat

    constructor ()
      ensures lower == upper == FIRST
    {
      lower, upper := FIRST, FIRST;
    }

    /** `new_worker` for an endpoints workload, given the sampled number of ports. */
    method NewWorker(cpu: nat, process: nat, ports: nat) returns (w: EndpointWorker)
      modifies this
      ensures lower == old(upper)
      ensures upper == Wrap64(old(upper) + ports)
      ensures w == EndpointWorker(cpu, process, lower, upper)
    {
      lower := upper;
      upper := Wrap64(upper + ports);
      w := EndpointWorker(cpu, process, lower, upper);
    }
  }

  /** `iproduct!`: every core with every process number, core by core. */
  function Product(cores: seq<nat>, workers: nat): (r: seq<(nat, nat)>)
    ensures |r| == |cores| * workers
    ensures forall i :: 0 <= i < |r| ==> r[i].0 in cores && r[i].1 < workers
  {
    if cores == [] then []
    else
      var n := |cores| - 1;
      assert |cores| * workers == n * workers + workers;
      Product(cores[..n], workers) + seq(workers, p requires 0 <= p => (cores[n], p))
  }

  /** Process by process on the first core, then on the second, and so on. */
  lemma {:induction false} ProductAt(cores: seq<nat>, workers: nat, i: nat)
    requires i < |cores| * workers
    ensures workers > 0 && i / workers < |cores|
    ensures Product(cores, workers)[i] == (cores[i / workers], i % workers)
  {
    assert workers > 0 by { assert workers == 0 ==> |cores| * workers == 0; }
    var n := |cores| - 1;
    assert |cores| * workers == n * workers + workers;
    if i < n * workers {
      ProductAt(cores[..n], workers, i);
    } else {
      UniqueQuotient(n, i - n * workers, workers);
    }
  }

  /** No pair of core and process comes twice, and none is missing. */
  lemma ProductOnce(cores: seq<nat>, workers: nat)
    requires Distinct(cores)
    ensures Distinct(Product(cores, workers))
    ensures forall c, p: nat :: (c, p) in Product(cores, workers) <==> c in cores && p < workers
  {
    var all := Product(cores, workers);
    forall i, j | 0 <= i < j < |all|
      ensures all[i] != all[j]
    {
      ProductAt(cores, workers, i);
      ProductAt(cores, workers, j);
      Recompose(i, workers);
      Recompose(j, workers);
    }
    forall c, p: nat | c in cores && p < workers
      ensures (c, p) in all
    {
      var k :| 0 <= k < |cores| && cores[k] == c;
      PairAt(cores, workers, k, p);
    }
  }

  /** Where a pair of core and process comes. */
  lemma PairAt(cores: seq<nat>, workers: nat, k: nat, p: nat)
    requires k < |cores| && p < workers
    ensures (cores[k], p) in Product(cores, workers)
  {
    MulMonotone(k + 1, |cores|, workers);
    var i := k * workers + p;
    assert 0 <= i < (k + 1) * workers by { MulMonotone(0, k, workers); }
    UniqueQuotient(k, p, workers);
    ProductAt(cores, workers, i);
    assert Product(cores, workers)[i] == (cores[k], p);
  }

  /** Worker k takes its samples' worth of ports from where the samples before it end. */
  ghost predicate Contiguous(ws: seq<EndpointWorker>, samples: seq<nat>) {
    && |ws| <= |samples|
    && forall k :: 0 <= k < |ws| ==>
         ws[k].lower == FIRST + Sum(samples, k) && ws[k].upper == FIRST + Sum(samples, k + 1)
  }

  lemma {:induction false} SumMonotone(samples: seq<nat>, k: nat, l: nat)
    requires k <= l <= |samples|
    ensures Sum(samples, k) <= Sum(samples, l)
  {
    if k < l {
      SumMonotone(samples, k, l - 1);
    }
  }

  lemma ContiguousNext(ws: seq<EndpointWorker>, w: EndpointWorker, samples: seq<nat>)
    requires Contiguous(ws, samples) && |ws| < |samples|
    requires w.lower == FIRST + Sum(samples, |ws|) && w.upper == FIRST + Sum(samples, |ws| + 1)
    ensures Contiguous(ws + [w], samples)
  {
    hide Sum;
    assert forall k :: 0 <= k < |ws| ==> (ws + [w])[k] == ws[k];
  }

  /** Creating the workers of the given slots, with the number of ports sampled for each. */
  method CreateWorkers(slots: seq<(nat, nat)>, samples: seq<nat>) returns (ws: seq<EndpointWorker>, final: nat)
    requires |samples| == |slots|
    requires Final(samples) < U64
    ensures final == Final(samples)
    ensures |ws| == |slots| && Contiguous(ws, samples)
    ensures forall k :: 0 <= k < |ws| ==> (ws[k].cpu, ws[k].process) == slots[k]
  {
    hide Wrap64;
    var bounds := new Bounds();
    ws := [];
    for k := 0 to |slots|
      invariant fresh(bounds)
      invariant bounds.upper == FIRST + Sum(samples, k)
      invariant |ws| == k && Contiguous(ws, samples)
      invariant forall i :: 0 <= i < k ==> (ws[i].cpu, ws[i].process) == slots[i]
    {
      SumMonotone(samples, k + 1, |samples|);
      NoWrap(FIRST + Sum(samples, k + 1));
      var w := bounds.NewWorker(slots[k].0, slots[k].1, samples[k]);
      ContiguousNext(ws, w, samples);
      ws := ws + [w];
    }
    final := bounds.upper;
  }

  // ----- the ranges partition the ports

  /** All listening attempts of one round, worker after worker. */
  ghost function AllListens(ws: seq<EndpointWorker>): seq<nat>
    requires forall k :: 0 <= k < |ws| ==> ws[k].lower <= ws[k].upper
  {
    if ws == [] then []
    else AllListens(ws[..|ws| - 1]) + Listens(ws[|ws| - 1])
  }

  /** In one round the workers together try every port from FIRST up to their last bound once, in order. */
  lemma {:induction false} PortsPartitioned(ws: seq<EndpointWorker>, samples: seq<nat>)
    requires Contiguous(ws, samples)
    ensures forall k :: 0 <= k < |ws| ==> ws[k].lower <= ws[k].upper
    ensures |AllListens(ws)| == Sum(samples, |ws|)
    ensures forall i :: 0 <= i < Sum(samples, |ws|) ==> AllListens(ws)[i] == FIRST + i
  {
    forall k | 0 <= k < |ws|
      ensures ws[k].lower <= ws[k].upper
    {
      SumMonotone(samples, k, k + 1);
    }
    if ws != [] {
      PortsPartitioned(ws[..|ws| - 1], samples);
    }
  }

  /** Each port up to the final bound belongs to exactly one worker, and no worker reaches outside. */
  lemma PortHasOneOwner(ws: seq<EndpointWorker>, samples: seq<nat>, port: nat)
    requires Contiguous(ws, samples) && |ws| == |samples|
    ensures FIRST <= port < Final(samples) <==> exists k :: 0 <= k < |ws| && ws[k].lower <= port < ws[k].upper
    ensures forall k, l :: 0 <= k < l < |ws| ==> ws[k].upper <= ws[l].lower
  {
    forall k, l | 0 <= k < l < |ws|
      ensures ws[k].upper <= ws[l].lower
    {
      SumMonotone(samples, k + 1, l);
    }
    if FIRST <= port < Final(samples) {
      var k := OwnerOf(samples, |samples|, port - FIRST);
      assert ws[k].lower <= port < ws[k].upper;
    }
    if k :| 0 <= k < |ws| && ws[k].lower <= port < ws[k].upper {
      SumMonotone(samples, k + 1, |samples|);
    }
  }

  lemma {:induction false} OwnerOf(samples: seq<nat>, n: nat, offset: nat) returns (k: nat)
    requires n <= |samples| && offset < Sum(samples, n)
    ensures k < n && Sum(samples, k) <= offset < Sum(samples, k + 1)
  {
    if offset < Sum(samples, n - 1) {
      k := OwnerOf(samples, n - 1, offset);
    } else {
      k := n - 1;
    }
  }

  function Slot(w: EndpointWorker): (nat, nat) {
    (w.cpu, w.process)
  }

  predicate Owns(w: EndpointWorker, port: nat) {
    w.lower <= port < w.upper
  }

  /** All workers in order, core by core and process by process, with the samples' worth of ports each. */
  ghost predicate Started(cores: seq<nat>, workers: nat, samples: seq<nat>, ws: seq<EndpointWorker>) {
    && |ws| == |samples| == |cores| * workers && Contiguous(ws, samples)
    && forall k :: 0 <= k < |ws| ==>
         && workers > 0 && k / workers < |cores|
         && ws[k].cpu == cores[k / workers] && ws[k].process == k % workers
  }

  /** `main`: workers for the product of cores and process numbers. */
  method StartWorkers(cores: seq<nat>, workers: nat, samples: seq<nat>) returns (ws: seq<EndpointWorker>, final: nat)
    requires |samples| == |cores| * workers && Final(samples) < U64
    ensures Started(cores, workers, samples, ws) && final == Final(samples)
  {
    ws, final := CreateWorkers(Product(cores, workers), samples);
    forall k | 0 <= k < |ws|
      ensures && workers > 0 && k / workers < |cores|
              && ws[k].cpu == cores[k / workers] && ws[k].process == k % workers
    {
      ProductAt(cores, workers, k);
    }
  }

  lemma SlotInProduct(cores: seq<nat>, workers: nat, samples: seq<nat>, ws: seq<EndpointWorker>, k: nat)
    requires Started(cores, workers, samples, ws) && k < |ws|
    ensures Slot(ws[k]) == Product(cores, workers)[k]
  {
    ProductAt(cores, workers, k);
  }

  /** A slot owns a port: its worker does, and no other worker does. */
  ghost predicate SlotOwns(ws: seq<EndpointWorker>, slot: (nat, nat), port: nat) {
    && (exists w :: w in ws && Slot(w) == slot)
    && (forall w :: w in ws ==> (Owns(w, port) <==> Slot(w) == slot))
  }

  lemma OneOwner(ws: seq<EndpointWorker>, samples: seq<nat>, port: nat, k: nat, l: nat)
    requires Contiguous(ws, samples) && |ws| == |samples| && k < |ws| && l < |ws|
    requires Owns(ws[k], port) && Owns(ws[l], port)
    ensures k == l
  {
    PortHasOneOwner(ws, samples, port);
  }

  /** The slot of a worker that owns a port owns it. */
  lemma SlotOfOwner(cores: seq<nat>, workers: nat, samples: seq<nat>, ws: seq<EndpointWorker>, port: nat, k: nat)
    requires Distinct(cores) && Started(cores, workers, samples, ws) && k < |ws| && Owns(ws[k], port)
    ensures SlotOwns(ws, Slot(ws[k]), port)
    ensures Slot(ws[k]).0 in cores && Slot(ws[k]).1 < workers
  {
    hide Contiguous, Owns;
    ProductOnce(cores, workers);
    SlotInProduct(cores, workers, samples, ws, k);
    forall w | w in ws
      ensures Owns(w, port) <==> Slot(w) == Slot(ws[k])
    {
      var l :| 0 <= l < |ws| && ws[l] == w;
      SlotInProduct(cores, workers, samples, ws, l);
      if Owns(w, port) {
        OneOwner(ws, samples, port, k, l);
      }
    }
  }

  lemma OwnerOfSlot(ws: seq<EndpointWorker>, slot: (nat, nat), port: nat) returns (k: nat)
    requires SlotOwns(ws, slot, port)
    ensures k < |ws| && Owns(ws[k], port) && Slot(ws[k]) == slot
  {
    var w :| w in ws && Slot(w) == slot;
    k :| 0 <= k < |ws| && ws[k] == w;
  }

  /**
   Every port from 1024 up to the final bound belongs to exactly one pair of core and
   process number, and no other port belongs to any.
   */
  lemma PortHasOneSlot(cores: seq<nat>, workers: nat, samples: seq<nat>, ws: seq<EndpointWorker>, port: nat)
    requires Distinct(cores) && Started(cores, workers, samples, ws)
    ensures 1024 <= port < 1024 + Sum(samples, |samples|)
            <==> exists c, p: nat :: c in cores && p < workers && SlotOwns(ws, (c, p), port)
    ensures forall slot, slot' :: SlotOwns(ws, slot, port) && SlotOwns(ws, slot', port) ==> slot == slot'
  {
    hide SlotOwns, Product, Sum;
    PortHasOneOwner(ws, samples, port);
    if FIRST <= port < Final(samples) {
      var k :| 0 <= k < |ws| && ws[k].lower <= port < ws[k].upper;
      SlotOfOwner(cores, workers, samples, ws, port, k);
      var (c, p) := Slot(ws[k]);
      assert SlotOwns(ws, (c, p), port);
    }
    if c, p: nat :| c in cores && p < workers && SlotOwns(ws, (c, p), port) {
      var k := OwnerOfSlot(ws, (c, p), port);
    }
    forall slot, slot' | SlotOwns(ws, slot, port) && SlotOwns(ws, slot', port)
      ensures slot == slot'
    {
      var k := OwnerOfSlot(ws, slot, port);
      var l := OwnerOfSlot(ws, slot', port);
      OneOwner(ws, samples, port, k, l);
    }
  }

  /** Under uniform sampling the final bound lies between the extremes the distribution allows. */
  lemma UniformBounds(samples: seq<nat>, low: nat, high: nat)
    requires low < high && forall i :: 0 <= i < |samples| ==> low <= samples[i] < high
    ensures FIRST + |samples| * low <= Final(samples) <= FIRST + |samples| * (high - 1)
  {
    UniformSum(samples, low, high - 1, |samples|);
  }

  lemma OneMore(k: nat, x: nat)
    ensures (k + 1) * x == k * x + x
  {
  }

  lemma {:induction false} UniformSum(samples: seq<nat>, low: nat, most: nat, k: nat)
    requires k <= |samples| && forall i :: 0 <= i < |samples| ==> low <= samples[i] <= most
    ensures k * low <= Sum(samples, k) <= k * most
  {
    if k > 0 {
      UniformSum(samples, low, most, k - 1);
      OneMore(k - 1, low);
      OneMore(k - 1, most);
    }
  }
}
