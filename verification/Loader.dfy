/** The double-buffered loading loop of `validate_detector`. */
module Loader {
  import opened Facts

  datatype Image = Junk | Loaded(path: string)

  /** What the thread of a slot is doing. */
  datatype Work = Idle | Loading(path: string)

  /** The buffers and loading threads. Until a load is joined, its buffer may hold anything. */
  class Slots {
    var buf: seq<Image>
    var work: seq<Work>
    var launched: nat
    var joined: nat

    constructor (n: nat)
      ensures buf == seq(n, _ => Junk) && work == seq(n, _ => Idle) && launched == joined == 0
    {
      buf := seq(n, _ => Junk);
      work := seq(n, _ => Idle);
      launched := 0;
      joined := 0;
    }

    /** `load_data_in_thread`. */
    method Launch(t: nat, path: string)
      requires t < |buf| == |work| && work[t].Idle?
      modifies this
      ensures |buf| == |old(buf)| && forall k :: 0 <= k < |buf| && k != t ==> buf[k] == old(buf)[k]
      ensures work == old(work)[t := Loading(path)] && launched == old(launched) + 1 && joined == old(joined)
    {
      var anything: Image := *;
      buf := buf[t := anything];
      work := work[t := Loading(path)];
      launched := launched + 1;
    }

    method Join(t: nat)
      requires t < |buf| == |work| && work[t].Loading?
      modifies this
      ensures buf == old(buf)[t := Loaded(old(work)[t].path)]
      ensures work == old(work)[t := Idle] && joined == old(joined) + 1 && launched == old(launched)
    {
      buf := buf[t := Loaded(work[t].path)];
      work := work[t := Idle];
      joined := joined + 1;
    }

    /** A buffer may be read only while its thread is not loading. */
    method Read(t: nat) returns (im: Image)
      requires t < |buf| == |work| && work[t].Idle?
      ensures im == buf[t]
    {
      im := buf[t];
    }
  }

  /** An image as it is predicted on and printed: its number from 1, its path and the picture. */
  datatype Detection = Detection(number: nat, path: string, im: Image)

  function AllDetections(paths: seq<string>, n: nat): seq<Detection>
    requires n <= |paths|
  {
    seq(n, k requires 0 <= k < n => Detection(k + 1, paths[k], Loaded(paths[k])))
  }

  /** The slots while images from `base` on are being loaded. */
  predicate InFlight(work: seq<Work>, paths: seq<string>, base: nat) {
    forall t :: 0 <= t < |work| ==> work[t] == if base + t < |paths| then Loading(paths[base + t]) else Idle
  }

  /** The first loop of a round: wait for the loads of the images from `base` on and take the pictures over. */
  method JoinRound(paths: seq<string>, base: nat, slots: Slots) returns (val: seq<Image>)
    requires |slots.buf| == |slots.work| && InFlight(slots.work, paths, base)
    modifies slots
    ensures |slots.buf| == |slots.work| == |val| == |old(slots.work)|
    ensures slots.work == seq(|val|, _ => Idle) && slots.launched == old(slots.launched)
    ensures slots.joined == old(slots.joined) + Min(|val|, if base < |paths| then |paths| - base else 0)
    ensures forall k :: 0 <= k < |val| && base + k < |paths| ==> val[k] == Loaded(paths[base + k])
  {
    val := seq(|slots.work|, _ => Junk);
    var t := 0;
    while t < |slots.work| && base + t < |paths|
      invariant 0 <= t <= |slots.work| && (t == 0 || base + t <= |paths|)
      invariant |slots.buf| == |slots.work| == |val| == |old(slots.work)|
      invariant forall k :: 0 <= k < |val| ==>
                  slots.work[k] == if k >= t && base + k < |paths| then Loading(paths[base + k]) else Idle
      invariant forall k :: 0 <= k < t ==> val[k] == Loaded(paths[base + k])
      invariant slots.joined == old(slots.joined) + t && slots.launched == old(slots.launched)
    {
      slots.Join(t);
      var im := slots.Read(t);
      val := val[t := im];
      t := t + 1;
    }
  }

  /** The second loop: start loading the images from `base` on. */
  method LoadRound(paths: seq<string>, base: nat, slots: Slots)
    requires |slots.buf| == |slots.work| && slots.work == seq(|slots.work|, _ => Idle)
    modifies slots
    ensures |slots.buf| == |slots.work| == |old(slots.work)| && InFlight(slots.work, paths, base)
    ensures slots.joined == old(slots.joined)
    ensures slots.launched == old(slots.launched) + Min(|slots.work|, if base < |paths| then |paths| - base else 0)
  {
    var t := 0;
    while t < |slots.work| && base + t < |paths|
      invariant 0 <= t <= |slots.work| && (t == 0 || base + t <= |paths|) &&
                |slots.buf| == |slots.work| == |old(slots.work)|
      invariant forall k :: 0 <= k < |slots.work| ==> slots.work[k] == if k < t then Loading(paths[base + k]) else Idle
      invariant slots.launched == old(slots.launched) + t && slots.joined == old(slots.joined)
    {
      slots.Launch(t, paths[base + t]);
      t := t + 1;
    }
  }

  /** Every image is consumed once, in order and from a finished load, and every load is joined; with fewer images than
      threads, and only then, the first round reads past the list of paths. */
  method ValidateDetector(paths: seq<string>, nthreads: nat, slots: Slots)
    returns (overrun: bool, found: seq<Detection>)
    requires nthreads > 0 && slots.work == seq(nthreads, _ => Idle) && |slots.buf| == nthreads &&
             slots.launched == slots.joined == 0
    modifies slots
    ensures overrun <==> |paths| < nthreads
    ensures !overrun ==>
              |found| == |paths| &&
              forall k :: 0 <= k < |paths| ==> found[k] == Detection(k + 1, paths[k], Loaded(paths[k]))
    ensures !overrun ==> slots.work == seq(nthreads, _ => Idle) && slots.launched == slots.joined == |paths|
  {
    overrun, found := false, [];
    var m := |paths|;
    var t := 0;
    while t < nthreads
      invariant 0 <= t <= nthreads && t <= m && |slots.buf| == |slots.work| == nthreads
      invariant forall k :: 0 <= k < nthreads ==> slots.work[k] == if k < t then Loading(paths[k]) else Idle
      invariant slots.launched == t && slots.joined == 0
    {
      if t >= |paths| { return true, []; }
      slots.Launch(t, paths[t]);
      t := t + 1;
    }
    var i := nthreads;
    while i < m + nthreads
      invariant nthreads <= i && m >= nthreads && |slots.buf| == |slots.work| == nthreads
      invariant InFlight(slots.work, paths, i - nthreads)
      invariant found == AllDetections(paths, Min(i - nthreads, m))
      invariant slots.joined == Min(i - nthreads, m) && slots.launched == Min(i, m)
    {
      var val := JoinRound(paths, i - nthreads, slots);
      LoadRound(paths, i, slots);
      t := 0;
      while t < nthreads && i + t - nthreads < m
        invariant 0 <= t <= nthreads && i + t - nthreads <= m
        invariant found == AllDetections(paths, i + t - nthreads)
      {
        found := found + [Detection(i + t - nthreads + 1, paths[i + t - nthreads], val[t])];
        t := t + 1;
      }
      i := i + nthreads;
    }
  }
}
