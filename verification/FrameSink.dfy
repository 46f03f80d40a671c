/**
 The bounded home of the frames written to a streaming client: the newest are kept, within a cap
 on their total length, and never fewer than the last one.
 */
module FrameSink {

  /** The cap on the total length of what is held. */
  const CAP: nat := 524288

  function Total(frames: seq<string>): nat {
    if frames == [] then 0 else |frames[0]| + Total(frames[1..])
  }

  lemma {:induction false} TotalPush(frames: seq<string>, frame: string)
    ensures Total(frames + [frame]) == Total(frames) + |frame|
  {
    if frames == [] {
      assert frames + [frame] == [frame] && [frame][1..] == [];
    } else {
      TotalPush(frames[1..], frame);
      assert (frames + [frame])[1..] == frames[1..] + [frame];
    }
  }

  /** Dropping `k` frames leaves what fits, and dropping one fewer does not; the last frame stays. */
  predicate Cut(written: seq<string>, k: nat) {
    && k <= |written|
    && (written != [] ==> k < |written|)
    && (Total(written[k..]) <= CAP || k == |written| - 1)
    && (k > 0 ==> Total(written[k - 1..]) > CAP)
  }

  lemma {:induction false} ShorterIsLess(written: seq<string>, j: nat, k: nat)
    requires j <= k <= |written|
    ensures Total(written[k..]) <= Total(written[j..])
    decreases k - j
  {
    if j < k {
      assert written[j..][1..] == written[j + 1..];
      ShorterIsLess(written, j + 1, k);
    }
  }

  /** The cut is the longest suffix that fits: every longer one is over the cap. */
  lemma {:induction false} CutIsLongest(written: seq<string>, k: nat, j: nat)
    requires Cut(written, k) && j < k
    ensures Total(written[j..]) > CAP
  {
    ShorterIsLess(written, j, k - 1);
  }

  /** So the history alone decides what is held. */
  lemma {:induction false} CutIsUnique(written: seq<string>, k: nat, l: nat)
    requires Cut(written, k) && Cut(written, l)
    ensures k == l
  {
    if k < l {
      CutIsLongest(written, l, k);
    } else if l < k {
      CutIsLongest(written, k, l);
    }
  }

  class Sink {
    var frames: seq<string>
    var bytes: int
    var truncated: bool
    /** Every frame written so far, and how many of them were dropped. */
    ghost var written: seq<string>
    ghost var dropped: nat

    /** What is held is a function of the history: its longest suffix that fits. */
    ghost predicate Valid()
      reads this
    {
      && Cut(written, dropped) && frames == written[dropped..]
      && bytes == Total(frames) && truncated == (dropped > 0)
    }

    constructor ()
      ensures Valid() && written == []
    {
      frames, bytes, truncated := [], 0, false;
      written, dropped := [], 0;
    }

    method Write(frame: string)
      requires Valid()
      modifies this
      ensures Valid() && written == old(written) + [frame]
      ensures frames != [] && frames[|frames| - 1] == frame
    {
      TotalPush(frames, frame);
      frames := frames + [frame];
      bytes := bytes + |frame|;
      Pushed(written, dropped, frame);
      written := written + [frame];
      Evict();
    }

    /** Drops the oldest frames while the cap is exceeded and more than one is held. */
    method Evict()
      requires dropped < |written| && frames == written[dropped..] && bytes == Total(frames)
      requires OverBefore(written, dropped) && truncated == (dropped > 0)
      modifies `frames, `bytes, `truncated, `dropped
      ensures Valid() && dropped < |written|
    {
      while bytes > CAP && |frames| > 1
        invariant dropped < |written| && frames == written[dropped..] && bytes == Total(frames)
        invariant OverBefore(written, dropped) && truncated == (dropped > 0)
        decreases |frames|
      {
        Shifted(written, dropped);
        bytes := bytes - |frames[0]|;
        frames := frames[1..];
        dropped := dropped + 1;
        truncated := true;
      }
    }
  }

  /** One frame more than is held would be over the cap. */
  predicate OverBefore(written: seq<string>, k: nat)
    requires k <= |written|
  {
    k > 0 ==> Total(written[k - 1..]) > CAP
  }

  lemma {:induction false} Pushed(written: seq<string>, k: nat, frame: string)
    requires Cut(written, k)
    ensures OverBefore(written + [frame], k) && (written + [frame])[k..] == written[k..] + [frame]
  {
    if k > 0 {
      TotalPush(written[k - 1..], frame);
      assert (written + [frame])[k - 1..] == written[k - 1..] + [frame];
    }
  }

  lemma {:induction false} Shifted(written: seq<string>, k: nat)
    requires k < |written|
    ensures written[k..][1..] == written[k + 1..] && written[k..][0] == written[k]
    ensures Total(written[k..]) == |written[k]| + Total(written[k + 1..])
  {
    assert written[k..][1..] == written[k + 1..];
  }
}
