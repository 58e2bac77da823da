/**
 * The presentation registry's records and the silence test the animation
 * frame applies to the analyser's frequency bins.
 */
module Presentation {
  import opened Wrappers

  /** One byte of the analyser's frequency data. */
  newtype Byte = x: int | 0 <= x < 256

  /** A frame whose mean bin value is below this level counts as silent. */
  const QuietLevel: nat := 2

  /**
   * One entry of the visualizer registry: the name shown and the handle of
   * the remove timer last stored in it (None for a null handle). The canvas
   * and audio-analysis objects are not part of the model.
   */
  datatype Visualizer = Visualizer(speakerName: string, removeTimer: Option<nat>)

  /** The sum of the bins, added up from the left as the frame's reduce does. */
  function Sum(s: seq<Byte>): (r: nat)
    ensures r <= 255 * |s|
    ensures |s| > 0 && r == 0 ==> forall i :: 0 <= i < |s| ==> s[i] == 0
  {
    if s == [] then 0 else Sum(s[..|s| - 1]) + s[|s| - 1] as nat
  }

  /**
   * The frame's silence test `sum / length < 2`, in integers. For an empty
   * frame the mean is not a number and the comparison is false; so is this one.
   */
  function Quiet(s: seq<Byte>): (r: bool)
    ensures |s| == 0 ==> !r
  {
    Sum(s) < QuietLevel * |s|
  }

  /** A frame of only zero bins sums to zero. */
  lemma {:induction false} SumOfZeros(s: seq<Byte>)
    requires forall i :: 0 <= i < |s| ==> s[i] == 0
    ensures Sum(s) == 0
  {
    if s != [] {
      SumOfZeros(s[..|s| - 1]);
    }
  }

  /** A non-empty frame of silence is quiet, so it arms the remove timer. */
  lemma SilenceIsQuiet(s: seq<Byte>)
    requires |s| > 0 && forall i :: 0 <= i < |s| ==> s[i] == 0
    ensures Quiet(s)
  {
    SumOfZeros(s);
  }

  /** Scaling by a positive divisor keeps a strict comparison. */
  lemma MeanBelow(sum: real, n: real, level: real)
    requires n > 0.0
    ensures sum / n < level <==> sum < level * n
  {
    var mean := sum / n;
    assert mean * n == sum;
    if mean < level {
      assert (level - mean) * n > 0.0;
    } else {
      assert (mean - level) * n >= 0.0;
    }
  }

  /** The integer test agrees with the mean computed in real numbers for every non-empty frame. */
  lemma QuietIsMeanBelowLevel(s: seq<Byte>)
    requires |s| > 0
    ensures Quiet(s) <==> (Sum(s) as real) / (|s| as real) < QuietLevel as real
  {
    MeanBelow(Sum(s) as real, |s| as real, QuietLevel as real);
    assert (QuietLevel as real) * (|s| as real) == (QuietLevel * |s|) as real;
  }

  /**
   * The visualizer registry together with the browser's pending timeouts
   * (handle to the key their callback removes) and the next handle the
   * browser will give out. Handles are positive.
   */
  datatype Panel = Panel(visualizers: map<string, Visualizer>, timers: map<nat, string>, nextTimer: nat)

  /**
   * Every pending timer belongs to a live entry and is the handle that entry
   * holds, every handle ever given out is below `nextTimer`: so an entry has
   * at most one pending remove timer, and a timer never fires for a key
   * that has no entry.
   */
  ghost predicate Coherent(p: Panel)
  {
    && 0 < p.nextTimer
    && (forall h :: h in p.timers ==>
          0 < h < p.nextTimer && p.timers[h] in p.visualizers && p.visualizers[p.timers[h]].removeTimer == Some(h))
    && (forall key :: key in p.visualizers && p.visualizers[key].removeTimer.Some? ==>
          0 < p.visualizers[key].removeTimer.value < p.nextTimer)
  }

  /** clearTimeout: the timer with that handle, if any, will not fire; a null handle changes nothing. */
  function Cancel(timers: map<nat, string>, handle: Option<nat>): (r: map<nat, string>)
    ensures handle.None? ==> r == timers
    ensures handle.Some? ==> r.Keys == timers.Keys - {handle.value}
    ensures forall h :: h in r ==> h in timers && r[h] == timers[h]
  {
    if handle.Some? then timers - {handle.value} else timers
  }

  /**
   * activateVisualizer's bookkeeping: an absent key gets a new entry with a
   * null timer; a present one keeps its entry, and the timer whose handle
   * it holds is cleared (the handle itself stays stored in the entry).
   */
  function Activate(p: Panel, key: string, speakerName: string): (r: Panel)
    ensures r.visualizers.Keys == p.visualizers.Keys + {key} && r.nextTimer == p.nextTimer
    ensures key !in p.visualizers ==> r.visualizers == p.visualizers[key := Visualizer(speakerName, None)] && r.timers == p.timers
    ensures key in p.visualizers ==> r.visualizers == p.visualizers && r.timers == Cancel(p.timers, p.visualizers[key].removeTimer)
  {
    if key in p.visualizers then
      p.(timers := Cancel(p.timers, p.visualizers[key].removeTimer))
    else
      p.(visualizers := p.visualizers[key := Visualizer(speakerName, None)])
  }

  /**
   * The timer branch of one animation frame of `key`: a quiet frame arms a
   * new remove timer only when the entry holds no handle; any other frame
   * clears the held timer and nulls the handle. A frame for a key without
   * entry does nothing.
   */
  function Frame(p: Panel, key: string, samples: seq<Byte>): (r: Panel)
    ensures r.visualizers.Keys == p.visualizers.Keys
    ensures forall k :: k in p.visualizers && k != key ==> r.visualizers[k] == p.visualizers[k]
    ensures key !in p.visualizers || (Quiet(samples) && p.visualizers[key].removeTimer.Some?) ==> r == p
    ensures key in p.visualizers && Quiet(samples) && p.visualizers[key].removeTimer.None? ==>
      && r.visualizers[key] == p.visualizers[key].(removeTimer := Some(p.nextTimer))
      && r.timers == p.timers[p.nextTimer := key]
      && r.nextTimer == p.nextTimer + 1
    ensures key in p.visualizers && !Quiet(samples) ==>
      && r.visualizers[key] == p.visualizers[key].(removeTimer := None)
      && r.timers == Cancel(p.timers, p.visualizers[key].removeTimer)
      && r.nextTimer == p.nextTimer
  {
    if key !in p.visualizers then p
    else
      var v := p.visualizers[key];
      if Quiet(samples) then
        if v.removeTimer.None? then
          Panel(p.visualizers[key := v.(removeTimer := Some(p.nextTimer))], p.timers[p.nextTimer := key], p.nextTimer + 1)
        else p
      else
        p.(visualizers := p.visualizers[key := v.(removeTimer := None)], timers := Cancel(p.timers, v.removeTimer))
  }

  /** removeVisualizer: an absent key changes nothing; otherwise exactly that entry is deleted. */
  function Remove(p: Panel, key: string): (r: Panel)
    ensures r.visualizers.Keys == p.visualizers.Keys - {key}
    ensures forall k :: k in r.visualizers ==> r.visualizers[k] == p.visualizers[k]
    ensures r.timers == p.timers && r.nextTimer == p.nextTimer
  {
    if key !in p.visualizers then p else p.(visualizers := p.visualizers - {key})
  }

  /** A pending remove timer fires: it is no longer pending, and its key's entry is removed. */
  function Fire(p: Panel, handle: nat): (r: Panel)
    requires handle in p.timers
    ensures r.visualizers.Keys == p.visualizers.Keys - {p.timers[handle]}
    ensures forall k :: k in r.visualizers ==> r.visualizers[k] == p.visualizers[k]
    ensures r.timers.Keys == p.timers.Keys - {handle}
    ensures forall h :: h in r.timers ==> r.timers[h] == p.timers[h]
    ensures r.nextTimer == p.nextTimer
  {
    Remove(p.(timers := p.timers - {handle}), p.timers[handle])
  }

  /**
   * Activation keeps the timer bookkeeping coherent, and afterwards no timer
   * is pending for the activated key: a new entry has none, a refreshed one
   * had its only one cleared.
   */
  lemma ActivateKeepsCoherent(p: Panel, key: string, speakerName: string)
    requires Coherent(p)
    ensures Coherent(Activate(p, key, speakerName))
    ensures forall h :: h in Activate(p, key, speakerName).timers ==> Activate(p, key, speakerName).timers[h] != key
  {
  }

  /** A frame keeps the timer bookkeeping coherent: the timer it arms has a handle never given out before. */
  lemma FrameKeepsCoherent(p: Panel, key: string, samples: seq<Byte>)
    requires Coherent(p)
    ensures Coherent(Frame(p, key, samples))
  {
  }

  /** A firing timer keeps the timer bookkeeping coherent: it was its entry's only pending timer. */
  lemma FireKeepsCoherent(p: Panel, handle: nat)
    requires Coherent(p) && handle in p.timers
    ensures Coherent(Fire(p, handle))
  {
  }

  /**
   * A new speaker whose first frame is quiet is removed when the timer that
   * frame armed fires, unless something cancels it first.
   */
  lemma SilentSpeakerRemoved(p: Panel, key: string, name: string, samples: seq<Byte>)
    requires Coherent(p) && key !in p.visualizers && Quiet(samples)
    ensures var shown := Frame(Activate(p, key, name), key, samples);
      && key in shown.visualizers
      && p.nextTimer in shown.timers && shown.timers[p.nextTimer] == key
      && key !in Fire(shown, p.nextTimer).visualizers
  {
    var active := Activate(p, key, name);
    assert active.visualizers[key].removeTimer.None?;
    ActivateKeepsCoherent(p, key, name);
  }

  /**
   * Activating an entry whose remove timer is armed clears that timer but
   * leaves its handle stored; quiet frames then arm no new one until a loud
   * frame nulls the handle, so silence alone no longer removes the entry: no
   * timer is pending for it.
   */
  lemma RefreshedEntryOutlivesSilence(p: Panel, key: string, name: string, samples: seq<Byte>)
    requires Coherent(p) && key in p.visualizers && p.visualizers[key].removeTimer.Some? && Quiet(samples)
    ensures var refreshed := Activate(p, key, name);
      && Frame(refreshed, key, samples) == refreshed
      && refreshed.visualizers[key].removeTimer == p.visualizers[key].removeTimer
      && forall h :: h in refreshed.timers ==> refreshed.timers[h] != key
  {
    ActivateKeepsCoherent(p, key, name);
  }

  /**
   * The stale handle is undone by a loud frame: after a refresh of an entry
   * whose timer was armed, a loud frame nulls the handle, and the next quiet
   * frame arms a new timer, whose firing removes the entry.
   */
  lemma LoudFrameRearms(p: Panel, key: string, name: string, loud: seq<Byte>, quiet: seq<Byte>)
    requires Coherent(p) && key in p.visualizers && p.visualizers[key].removeTimer.Some?
    requires !Quiet(loud) && Quiet(quiet)
    ensures var cleared := Frame(Activate(p, key, name), key, loud);
      var armed := Frame(cleared, key, quiet);
      && cleared.visualizers[key].removeTimer.None?
      && armed.visualizers[key].removeTimer == Some(p.nextTimer)
      && p.nextTimer in armed.timers && armed.timers[p.nextTimer] == key
      && key !in Fire(armed, p.nextTimer).visualizers
  {
    var cleared := Frame(Activate(p, key, name), key, loud);
    assert cleared.visualizers[key].removeTimer.None? && cleared.nextTimer == p.nextTimer;
  }
}
