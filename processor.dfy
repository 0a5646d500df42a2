/** The frame processor `findFaceGetPulse` of lib/processors_noopenmdao.py:
    face choice and jitter suppression, the forehead box, the bounded sample
    and timestamp buffers, the heart-rate band and peak pick, and the
    search/lock toggle with its record counter.

    What the processor gets from cameras, OpenCV and numpy is passed in:
    the candidate boxes the Haar detector returns, the mean intensity of the
    forehead pixels, and the magnitudes `abs(rfft(...))` of the resampled,
    windowed and centred buffer. Clock readings are parameters too. */
module Processor {
  import opened Builtins
  import opened SessionData

  /** A box `[x, y, w, h]` in pixels, as the detector and `face_rect` hold it. */
  datatype Rect = Rect(x: int, y: int, w: int, h: int)

  function Area(r: Rect): int { r.w * r.h }

  /** The value `face_rect` starts with, before any face was accepted. */
  const InitialFace := Rect(1, 1, 2, 2)
  /** `buffer_size`: how many samples and timestamps are kept. */
  const BufferSize: nat := 250
  /** A spectrum is computed only once more than this many samples exist. */
  const MinSamples: nat := 10
  /** A candidate replaces the face only if its centre moved more than 10 px
      (modelled by the squared distance and 10 * 10). */
  const JitterSquared: real := 100.0
  /** The plausible heart-rate band, exclusive at both ends, in BPM. */
  const LowBpm: real := 50.0
  const HighBpm: real := 180.0

  /** The face box holds only the values 1 and 2, and both of them. */
  predicate IsPlaceholder(r: Rect) {
    (r.x == 1 || r.x == 2) && (r.y == 1 || r.y == 2) && (r.w == 1 || r.w == 2) && (r.h == 1 || r.h == 2) &&
    (r.x == 1 || r.y == 1 || r.w == 1 || r.h == 1) && (r.x == 2 || r.y == 2 || r.w == 2 || r.h == 2)
  }

  /** `IsPlaceholder` is the source's test `set(face_rect) == set([1, 1, 2, 2])`. */
  lemma PlaceholderIsSetTest(r: Rect)
    ensures IsPlaceholder(r) <==> {r.x, r.y, r.w, r.h} == {1, 2}
  {
    var s := {r.x, r.y, r.w, r.h};
    if s == {1, 2} {
      assert r.x in s && r.y in s && r.w in s && r.h in s;
      assert 1 in s && 2 in s;
    }
  }

  datatype Point = Point(x: real, y: real)

  /** `[x + 0.5 * w, y + 0.5 * h]`. */
  function Center(r: Rect): Point {
    Point(r.x as real + 0.5 * r.w as real, r.y as real + 0.5 * r.h as real)
  }

  /** The square of `np.linalg.norm(a - b)`. */
  function SquaredDistance(a: Point, b: Point): real {
    (a.x - b.x) * (a.x - b.x) + (a.y - b.y) * (a.y - b.y)
  }

  /** For a non-negative norm d, `d > 10` holds exactly when `d * d > 100`, so
      comparing squares decides the source's comparison of norms. */
  lemma NormComparison(d: real)
    requires d >= 0.0
    ensures d > 10.0 <==> d * d > JitterSquared
  {
    if d > 10.0 {
      assert d * d > 10.0 * d;
    } else {
      assert d * d <= 10.0 * d;
    }
  }

  // ---------------------------------------------------------------------------
  // Face choice

  /** Index of the candidate `detected[-1]` after `detected.sort(key=w*h)`.
      Python's sort is stable, so that is the last candidate, in detector
      order, among those of maximal area. */
  function LastMaxArea(ds: seq<Rect>): (k: nat)
    requires ds != []
    ensures k < |ds|
    ensures forall j :: 0 <= j < |ds| ==> Area(ds[j]) <= Area(ds[k])
    ensures forall j :: k < j < |ds| ==> Area(ds[j]) < Area(ds[k])
  {
    if |ds| == 1 then 0
    else
      var k := LastMaxArea(ds[..|ds| - 1]);
      if Area(ds[|ds| - 1]) >= Area(ds[k]) then |ds| - 1 else k
  }

  /** The part of the processor that `detect_face` and `shift` update. */
  datatype Tracker = Tracker(face: Rect, lastCenter: Point)

  /** One search-mode frame: with no candidates nothing changes; otherwise
      the largest candidate becomes the face if its centre is more than 10 px
      from the last centre, and the last centre becomes that candidate's
      centre whether it was accepted or not. */
  function Track(t: Tracker, detections: seq<Rect>): (r: Tracker)
    ensures detections == [] ==> r == t
    ensures r.face == t.face || r.face in detections
  {
    if detections == [] then t
    else
      var c := detections[LastMaxArea(detections)];
      Tracker(if SquaredDistance(Center(c), t.lastCenter) > JitterSquared then c else t.face, Center(c))
  }

  /** Jitter suppression: the face changes only to a largest candidate whose
      centre is more than 10 px from the previous centre, and every accepted
      candidate becomes the face. */
  lemma TrackChangesOnlyOnJump(t: Tracker, detections: seq<Rect>)
    ensures detections == [] ==> Track(t, detections) == t
    ensures detections != [] ==>
      var c := detections[LastMaxArea(detections)];
      Track(t, detections).lastCenter == Center(c) &&
      (SquaredDistance(Center(c), t.lastCenter) > JitterSquared ==> Track(t, detections).face == c) &&
      (Track(t, detections).face != t.face ==>
         Track(t, detections).face in detections &&
         (forall d :: d in detections ==> Area(d) <= Area(Track(t, detections).face)) &&
         SquaredDistance(Center(Track(t, detections).face), t.lastCenter) > JitterSquared)
  {
  }

  /** The frames of a run in which each frame reports exactly one candidate. */
  function TrackPath(t: Tracker, path: seq<Rect>): Tracker
    decreases |path|
  {
    if path == [] then t else TrackPath(Track(t, [path[0]]), path[1..])
  }

  /** Each step of `path` stays within 10 px of the centre before it. */
  predicate SmallSteps(start: Point, path: seq<Rect>) {
    (path != [] ==> SquaredDistance(Center(path[0]), start) <= JitterSquared) &&
    (forall i :: 0 < i < |path| ==> SquaredDistance(Center(path[i]), Center(path[i - 1])) <= JitterSquared)
  }

  /** Because `last_center` follows every candidate, a face that drifts in
      steps of at most 10 px is never re-acquired, however far it drifts. */
  lemma {:induction false} DriftIsNeverAccepted(t: Tracker, path: seq<Rect>)
    requires SmallSteps(t.lastCenter, path)
    ensures TrackPath(t, path).face == t.face
    ensures path != [] ==> TrackPath(t, path).lastCenter == Center(path[|path| - 1])
    decreases |path|
  {
    if path != [] {
      var t' := Track(t, [path[0]]);
      assert t'.face == t.face && t'.lastCenter == Center(path[0]);
      assert SmallSteps(t'.lastCenter, path[1..]) by {
        forall i | 0 < i < |path[1..]|
          ensures SquaredDistance(Center(path[1..][i]), Center(path[1..][i - 1])) <= JitterSquared
        {
          assert path[1..][i] == path[i + 1] && path[1..][i - 1] == path[i];
        }
      }
      DriftIsNeverAccepted(t', path[1..]);
    }
  }

  // ---------------------------------------------------------------------------
  // Forehead box

  /** `get_subface_coord(fh_x, fh_y, fh_w, fh_h)` on the box `face`. */
  function SubfaceCoord(face: Rect, fx: real, fy: real, fw: real, fh: real): Rect {
    var x, y, w, h := face.x as real, face.y as real, face.w as real, face.h as real;
    Rect(Trunc(x + w * fx - (w * fw / 2.0)), Trunc(y + h * fy - (h * fh / 2.0)),
         Trunc(w * fw), Trunc(h * fh))
  }

  /** The forehead box used for sampling: `get_subface_coord(0.5, 0.18, 0.25, 0.15)`. */
  function Forehead(face: Rect): Rect {
    SubfaceCoord(face, 0.5, 0.18, 0.25, 0.15)
  }

  /** `int(a + n / d)` for a non-negative integer a and fraction n / d. */
  lemma TruncOfFraction(a: int, n: int, d: int)
    requires a >= 0 && n >= 0 && d > 0
    ensures Trunc(a as real + n as real / d as real) == a + n / d
  {
    var q, m := n / d, n % d;
    assert n == d * q + m;
    assert n as real / d as real == q as real + m as real / d as real;
    assert 0.0 <= m as real / d as real < 1.0;
  }

  /** For a face box with non-negative coordinates the forehead box is
      `[x + 3w/8, y + 21h/200, w/4, 3h/20]` in integer division, and it lies
      inside the face box. It depends on the face box alone. */
  lemma ForeheadOfFace(face: Rect)
    requires face.x >= 0 && face.y >= 0 && face.w >= 0 && face.h >= 0
    ensures Forehead(face) ==
      Rect(face.x + 3 * face.w / 8, face.y + 21 * face.h / 200, face.w / 4, 3 * face.h / 20)
    ensures face.x <= Forehead(face).x && Forehead(face).x + Forehead(face).w <= face.x + face.w
    ensures face.y <= Forehead(face).y && Forehead(face).y + Forehead(face).h <= face.y + face.h
  {
    var x, y, w, h := face.x as real, face.y as real, face.w as real, face.h as real;
    assert x + w * 0.5 - (w * 0.25 / 2.0) == face.x as real + (3 * face.w) as real / 8 as real;
    TruncOfFraction(face.x, 3 * face.w, 8);
    assert y + h * 0.18 - (h * 0.15 / 2.0) == face.y as real + (21 * face.h) as real / 200 as real;
    TruncOfFraction(face.y, 21 * face.h, 200);
    assert w * 0.25 == 0 as real + face.w as real / 4 as real;
    TruncOfFraction(0, face.w, 4);
    assert h * 0.15 == 0 as real + (3 * face.h) as real / 20 as real;
    TruncOfFraction(0, 3 * face.h, 20);
  }

  // ---------------------------------------------------------------------------
  // Bounded buffers

  /** `s[-n:]` when `s` is longer than n, else `s`. */
  function KeepLast<T>(s: seq<T>, n: nat): (r: seq<T>)
    ensures |r| == if |s| > n then n else |s|
    ensures r == s[|s| - |r|..]
  {
    if |s| > n then s[|s| - n..] else s
  }

  /** Appending to a buffer of at most n elements and trimming keeps at most n
      elements, ends with the new element, and keeps the newest ones in order. */
  lemma AppendAndTrim<T>(s: seq<T>, x: T, n: nat)
    requires |s| <= n && n > 0
    ensures |KeepLast(s + [x], n)| <= n
    ensures KeepLast(s + [x], n)[|KeepLast(s + [x], n)| - 1] == x
    ensures |s| == n ==> KeepLast(s + [x], n) == s[1..] + [x]
    ensures |s| < n ==> KeepLast(s + [x], n) == s + [x]
  {
    if |s| == n {
      assert (s + [x])[1..] == s[1..] + [x];
    }
  }

  // ---------------------------------------------------------------------------
  // Band restriction and peak pick

  /** Frequency of rfft bin k in BPM: `60. * (float(fps) / L * k)`. */
  function BinBpm(fps: real, n: nat, k: nat): real
    requires n > 0
  {
    60.0 * (fps / n as real * k as real)
  }

  predicate InBand(f: real) { LowBpm < f < HighBpm }

  /** `np.where((freqs > 50) & (freqs < 180))` over bins 0 .. count-1: the
      in-band bins in increasing order. */
  function BandBins(fps: real, n: nat, count: nat): (idx: seq<nat>)
    requires n > 0
    ensures forall i :: 0 <= i < |idx| ==> idx[i] < count && InBand(BinBpm(fps, n, idx[i]))
    ensures forall i, j :: 0 <= i < j < |idx| ==> idx[i] < idx[j]
    ensures forall k :: 0 <= k < count && InBand(BinBpm(fps, n, k)) ==> k in idx
  {
    if count == 0 then []
    else
      var prev := BandBins(fps, n, count - 1);
      if InBand(BinBpm(fps, n, count - 1)) then prev + [count - 1] else prev
  }

  /** `a[idx]` for an index array. */
  function Pick(a: seq<real>, idx: seq<nat>): (r: seq<real>)
    requires forall i :: 0 <= i < |idx| ==> idx[i] < |a|
    ensures |r| == |idx|
    ensures forall i :: 0 <= i < |idx| ==> r[i] == a[idx[i]]
  {
    seq(|idx|, i requires 0 <= i < |idx| => a[idx[i]])
  }

  /** `np.argmax(a)`: the first position of a maximal element. */
  function FirstArgMax(a: seq<real>): (k: nat)
    requires a != []
    ensures k < |a|
    ensures forall j :: 0 <= j < |a| ==> a[j] <= a[k]
    ensures forall j :: 0 <= j < k ==> a[j] < a[k]
  {
    if |a| == 1 then 0
    else
      var k := FirstArgMax(a[..|a| - 1]);
      if a[|a| - 1] > a[k] then |a| - 1 else k
  }

  /** `a.any()`: some element is non-zero. */
  predicate AnyNonZero(a: seq<real>) {
    exists i :: 0 <= i < |a| && a[i] != 0.0
  }

  /** What the estimator leaves behind: the band-restricted frequencies (BPM)
      and magnitudes, and `idx2`, the position of the peak among them, when
      there is one. */
  datatype Spectrum = Spectrum(freqs: seq<real>, fft: seq<real>, peak: Option<nat>)

  /** The band restriction and peak pick of `run` for a buffer of n samples
      with sampling rate `fps`, given the rfft magnitudes. */
  function Estimate(fps: real, n: nat, mags: seq<real>): (e: Spectrum)
    requires n > 0
    ensures |e.freqs| == |e.fft| && (e.peak.Some? ==> e.peak.value < |e.fft|)
    ensures forall i :: 0 <= i < |e.freqs| ==> InBand(e.freqs[i])
  {
    var band := BandBins(fps, n, |mags|);
    var freqs := seq(|band|, i requires 0 <= i < |band| => BinBpm(fps, n, band[i]));
    var fft := Pick(mags, band);
    Spectrum(freqs, fft, if AnyNonZero(fft) then Some(FirstArgMax(fft)) else None)
  }

  /** Bin k has the largest in-band magnitude, and no in-band bin before it
      has as large a one. */
  ghost predicate IsFirstBandMaximum(fps: real, n: nat, mags: seq<real>, k: nat)
    requires n > 0
  {
    k < |mags| && InBand(BinBpm(fps, n, k)) &&
    (forall j :: 0 <= j < |mags| && InBand(BinBpm(fps, n, j)) ==> mags[j] <= mags[k]) &&
    (forall j :: 0 <= j < k && InBand(BinBpm(fps, n, j)) ==> mags[j] < mags[k])
  }

  /** The estimate exists exactly when some in-band bin has a non-zero
      magnitude; it is then the frequency of the first in-band bin of maximal
      magnitude. The stored frequencies are all in the band and pair up with
      the stored magnitudes. */
  lemma EstimateIsFirstBandPeak(fps: real, n: nat, mags: seq<real>)
    requires n > 0
    ensures var e := Estimate(fps, n, mags);
      |e.freqs| == |e.fft| &&
      (forall i :: 0 <= i < |e.freqs| ==> InBand(e.freqs[i])) &&
      (e.peak.None? <==> forall k :: 0 <= k < |mags| && InBand(BinBpm(fps, n, k)) ==> mags[k] == 0.0) &&
      (e.peak.Some? ==> (e.peak.value < |e.freqs| &&
         exists k :: IsFirstBandMaximum(fps, n, mags, k) && e.freqs[e.peak.value] == BinBpm(fps, n, k)))
  {
    if Estimate(fps, n, mags).peak.Some? {
      PeakIsFirstBandMaximum(fps, n, mags);
    }
    SilentBand(fps, n, mags);
  }

  /** A peak found is the first in-band bin of maximal magnitude. */
  lemma PeakIsFirstBandMaximum(fps: real, n: nat, mags: seq<real>)
    requires n > 0 && Estimate(fps, n, mags).peak.Some?
    ensures var e := Estimate(fps, n, mags);
      e.peak.value < |e.freqs| &&
      exists k :: IsFirstBandMaximum(fps, n, mags, k) && e.freqs[e.peak.value] == BinBpm(fps, n, k)
  {
    var band := BandBins(fps, n, |mags|);
    var e := Estimate(fps, n, mags);
    BandMaximumAt(fps, n, mags, band, e.fft, e.peak.value);
    assert e.freqs[e.peak.value] == BinBpm(fps, n, band[e.peak.value]);
  }

  /** The first maximum of the band-restricted magnitudes sits at the first
      in-band bin of maximal magnitude. */
  lemma BandMaximumAt(fps: real, n: nat, mags: seq<real>, band: seq<nat>, fft: seq<real>, p: nat)
    requires n > 0 && band == BandBins(fps, n, |mags|) && fft == Pick(mags, band) && p < |fft|
    requires forall j :: 0 <= j < |fft| ==> fft[j] <= fft[p]
    requires forall j :: 0 <= j < p ==> fft[j] < fft[p]
    ensures IsFirstBandMaximum(fps, n, mags, band[p])
  {
    var k := band[p];
    forall j | 0 <= j < |mags| && InBand(BinBpm(fps, n, j)) ensures mags[j] <= mags[k] {
      var i :| 0 <= i < |band| && band[i] == j;
      assert fft[i] == mags[j];
    }
    forall j | 0 <= j < k && InBand(BinBpm(fps, n, j)) ensures mags[j] < mags[k] {
      var i :| 0 <= i < |band| && band[i] == j;
      assert fft[i] == mags[j];
    }
  }

  /** No peak is found exactly when every in-band magnitude is zero. */
  lemma SilentBand(fps: real, n: nat, mags: seq<real>)
    requires n > 0
    ensures Estimate(fps, n, mags).peak.None? <==>
      forall k :: 0 <= k < |mags| && InBand(BinBpm(fps, n, k)) ==> mags[k] == 0.0
  {
    var band := BandBins(fps, n, |mags|);
    var e := Estimate(fps, n, mags);
    if e.peak.None? {
      forall k | 0 <= k < |mags| && InBand(BinBpm(fps, n, k)) ensures mags[k] == 0.0 {
        var i :| 0 <= i < |band| && band[i] == k;
        assert e.fft[i] == mags[k];
      }
    }
    if forall k :: 0 <= k < |mags| && InBand(BinBpm(fps, n, k)) ==> mags[k] == 0.0 {
      forall i | 0 <= i < |e.fft| ensures e.fft[i] == 0.0 {
        assert e.fft[i] == mags[band[i]];
      }
    }
  }

  /** With a positive timestamp span, a buffer of n samples and the frequency
      rule `fps = L / span` (L samples, not L - 1 intervals), bin k stands
      for `60 * k / span` BPM. */
  lemma BinBpmFromSpan(n: nat, span: real, k: nat)
    requires n > 0 && span > 0.0
    ensures BinBpm(n as real / span, n, k) == 60.0 * k as real / span
  {
    var L := n as real;
    assert L / span / L == 1.0 / span;
  }

  /** The part of the processor state that the estimator updates. */
  datatype Estimation = Estimation(fps: real, freqs: seq<real>, fft: seq<real>, bpm: real, idx: int,
                                   heartRates: seq<real>)

  /** What lines 174-233 of `run` make of the estimator state `prev`, for a
      buffer of n samples with timestamps `times`: nothing with at most
      `MinSamples` samples; raise when the timestamp span is zero; else set
      `fps = L / span` and the band-restricted `freqs` and `fft`, and, when
      the band holds a non-zero magnitude, set `bpm` to the peak's frequency,
      count it in `idx` and append it to `heart_rates`. */
  function EstimateFrom(times: seq<real>, n: nat, mags: seq<real>, prev: Estimation): (r: (Outcome, Estimation))
    requires |times| == n > 0
    ensures r.0 == Raised(ZeroDivisionError) <==> n > MinSamples && times[n - 1] == times[0]
    ensures r.0.Raised? ==> r.0 == Raised(ZeroDivisionError) && r.1 == prev
    ensures n <= MinSamples ==> r == (Completed, prev)
    ensures r.1.heartRates == prev.heartRates ==> r.1.bpm == prev.bpm && r.1.idx == prev.idx
    ensures r.1.heartRates != prev.heartRates ==>
      r.1.heartRates == prev.heartRates + [r.1.bpm] && InBand(r.1.bpm) && r.1.idx == prev.idx + 1 &&
      r.1.bpm in r.1.freqs
    ensures r.1.heartRates != prev.heartRates ==>
      var e := Estimate(r.1.fps, n, mags); e.peak.Some? && r.1.bpm == e.freqs[e.peak.value]
    ensures n > MinSamples && r.0 == Completed ==>
      r.1.fps == n as real / (times[n - 1] - times[0]) &&
      r.1.freqs == Estimate(r.1.fps, n, mags).freqs && r.1.fft == Estimate(r.1.fps, n, mags).fft &&
      (r.1.heartRates != prev.heartRates <==> Estimate(r.1.fps, n, mags).peak.Some?)
  {
    if n <= MinSamples then (Completed, prev)
    else if times[n - 1] == times[0] then (Raised(ZeroDivisionError), prev)
    else
      var fps := n as real / (times[n - 1] - times[0]);
      var e := Estimate(fps, n, mags);
      if e.peak.None? then (Completed, prev.(fps := fps, freqs := e.freqs, fft := e.fft))
      else
        var bpm := e.freqs[e.peak.value];
        (Completed, Estimation(fps, e.freqs, e.fft, bpm, prev.idx + 1, prev.heartRates + [bpm]))
  }

  // ---------------------------------------------------------------------------
  // The processor

  class FindFaceGetPulse {
    const t0: real
    var dataBuffer: seq<real>
    var times: seq<real>
    var samples: seq<real>
    var freqs: seq<real>
    var fft: seq<real>
    var fps: real
    var bpm: real
    var idx: int
    var faceRect: Rect
    var lastCenter: Point
    var findFaces: bool
    var counter: int
    var isSuccess: bool
    var trained: bool
    var heartRates: seq<real>
    var startTime: int
    var endTime: int
    var data: Option<SessionData>

    /** The buffers agree: no samples are held while the face box is the
        placeholder; otherwise there is one timestamp per sample; never more
        than `BufferSize` samples. Every recorded heart rate lies in the band. */
    ghost predicate Valid()
      reads this
    {
      |dataBuffer| <= BufferSize && RatesInBand() &&
      (IsPlaceholder(faceRect) ==> dataBuffer == []) &&
      (!IsPlaceholder(faceRect) ==> |times| == |dataBuffer|)
    }

    /** Every recorded heart rate lies strictly between `LowBpm` and `HighBpm`. */
    ghost predicate RatesInBand()
      reads this
    {
      forall i :: 0 <= i < |heartRates| ==> InBand(heartRates[i])
    }

    /** `__init__`, with `t0` the clock reading `time.time()` it takes. */
    constructor (t0: real)
      ensures Valid()
      ensures this.t0 == t0 && faceRect == InitialFace && lastCenter == Point(0.0, 0.0)
      ensures dataBuffer == [] && times == [] && samples == [] && freqs == [] && fft == []
      ensures fps == 0.0 && bpm == 0.0 && idx == 1
      ensures findFaces && counter == 0 && isSuccess && !trained
      ensures heartRates == [] && data == None
    {
      this.t0 := t0;
      dataBuffer, times, samples, freqs, fft := [], [], [], [], [];
      fps, bpm, idx := 0.0, 0.0, 1;
      faceRect, lastCenter := InitialFace, Point(0.0, 0.0);
      findFaces, counter, isSuccess, trained := true, 0, true, false;
      heartRates, startTime, endTime, data := [], 0, 0, None;
    }

    /** `find_faces_toggle(data)`, with `now` the reading of `get_current_time()`. */
    method FindFacesToggle(data: SessionData, now: int) returns (searching: bool)
      requires Valid()
      modifies this`findFaces, this`startTime, this`endTime, this`data, this`heartRates, this`counter, this`isSuccess
      ensures Valid()
      ensures searching == findFaces && findFaces == !old(findFaces)
      ensures startTime == now && endTime == data.recordLength + now && this.data == Some(data)
      ensures heartRates == []
      ensures counter == old(counter) + (if old(isSuccess) then 1 else 0) && !isSuccess
    {
      findFaces := !findFaces;
      startTime := now;
      endTime := data.recordLength + startTime;
      this.data := Some(data);
      heartRates := [];
      if isSuccess {
        counter := counter + 1;
        isSuccess := false;
      }
      searching := findFaces;
    }

    /** `shift(detected)`: returns the squared distance of the candidate's
        centre from `last_center`, which it then overwrites. */
    method Shift(detected: Rect) returns (squaredShift: real)
      modifies this`lastCenter
      ensures squaredShift == SquaredDistance(Center(detected), old(lastCenter))
      ensures lastCenter == Center(detected)
    {
      var center := Center(detected);
      squaredShift := SquaredDistance(center, lastCenter);
      lastCenter := center;
    }

    /** `detect_face()` given the candidate boxes the detector returned. */
    method DetectFace(detections: seq<Rect>)
      requires RatesInBand()
      modifies this`dataBuffer, this`times, this`trained, this`faceRect, this`lastCenter
      ensures Valid()
      ensures dataBuffer == [] && times == [] && !trained
      ensures Tracker(faceRect, lastCenter) == Track(old(Tracker(faceRect, lastCenter)), detections)
    {
      dataBuffer, times, trained := [], [], false;
      if |detections| > 0 {
        var candidate := detections[LastMaxArea(detections)];
        var s := Shift(candidate);
        if s > JitterSquared {
          faceRect := candidate;
        }
      }
    }

    /** The estimator's part of the processor state. */
    function Estimator(): Estimation
      reads this
    {
      Estimation(fps, freqs, fft, bpm, idx, heartRates)
    }

    /** Lines 174-233 of `run`: the estimator state becomes what
        `EstimateFrom` makes of it for the current buffers. */
    method UpdateEstimate(mags: seq<real>) returns (outcome: Outcome)
      requires |times| == |dataBuffer| > 0
      modifies this`fps, this`freqs, this`fft, this`bpm, this`idx, this`heartRates
      ensures var r := EstimateFrom(times, |dataBuffer|, mags, old(Estimator()));
        outcome == r.0 && Estimator() == r.1
    {
      var r := EstimateFrom(times, |dataBuffer|, mags, Estimator());
      outcome := r.0;
      SetEstimator(r.1);
    }

    /** Stores an estimator state in the fields it is made of. */
    method SetEstimator(e: Estimation)
      modifies this`fps, this`freqs, this`fft, this`bpm, this`idx, this`heartRates
      ensures Estimator() == e
    {
      fps, freqs, fft, bpm, idx, heartRates := e.fps, e.freqs, e.fft, e.bpm, e.idx, e.heartRates;
    }

    /** Lines 156-233 of `run`, the lock-mode branch on a real face, after the
        frame's timestamp was appended: add the forehead sample, keep the
        newest `BufferSize` entries of both buffers, publish `samples`, and
        update the estimate. */
    method MeasureFrame(intensity: real, mags: seq<real>) returns (outcome: Outcome)
      requires |times| == |dataBuffer| + 1 && |dataBuffer| <= BufferSize && RatesInBand()
      modifies this`dataBuffer, this`times, this`samples, this`fps, this`freqs, this`fft,
        this`bpm, this`idx, this`heartRates
      ensures RatesInBand()
      ensures dataBuffer == KeepLast(old(dataBuffer) + [intensity], BufferSize)
      ensures times == KeepLast(old(times), BufferSize)
      ensures |times| == |dataBuffer| <= BufferSize && samples == dataBuffer
      ensures var r := EstimateFrom(times, |dataBuffer|, mags, old(Estimator()));
        outcome == r.0 && Estimator() == r.1
    {
      dataBuffer := dataBuffer + [intensity];
      var L := |dataBuffer|;
      if L > BufferSize {
        dataBuffer := dataBuffer[L - BufferSize..];
        times := times[|times| - BufferSize..];
      }
      samples := dataBuffer;
      outcome := UpdateEstimate(mags);
    }

    /** What one `run(cam)` does between the state before it and the state
        after it, with `outcome` what it returned. */
    twostate predicate RanFrame(now: real, detections: seq<Rect>, intensity: real, mags: seq<real>, outcome: Outcome)
      reads this
    {
      // Search mode: buffers cleared, face tracked, estimate untouched.
      (old(findFaces) ==>
        outcome == Completed && dataBuffer == [] && times == [] &&
        Tracker(faceRect, lastCenter) == Track(old(Tracker(faceRect, lastCenter)), detections) &&
        bpm == old(bpm) && heartRates == old(heartRates) && freqs == old(freqs) && fft == old(fft) &&
        fps == old(fps) && idx == old(idx) && samples == old(samples) && !trained) &&
      // Lock mode on the placeholder box: only a timestamp is added.
      (!old(findFaces) && IsPlaceholder(old(faceRect)) ==>
        outcome == Completed && times == old(times) + [now - t0] &&
        dataBuffer == old(dataBuffer) && samples == old(samples) && bpm == old(bpm) &&
        heartRates == old(heartRates) && freqs == old(freqs) && fft == old(fft) && fps == old(fps) &&
        idx == old(idx) && trained == old(trained)) &&
      (!old(findFaces) ==> faceRect == old(faceRect) && lastCenter == old(lastCenter)) &&
      // Lock mode on a real face: sample, trim, and perhaps a new estimate.
      (!old(findFaces) && !IsPlaceholder(old(faceRect)) ==>
        dataBuffer == KeepLast(old(dataBuffer) + [intensity], BufferSize) &&
        times == KeepLast(old(times) + [now - t0], BufferSize) &&
        samples == dataBuffer && |times| == |dataBuffer| && trained == old(trained) &&
        outcome == EstimateFrom(times, |dataBuffer|, mags, old(Estimator())).0 &&
        Estimator() == EstimateFrom(times, |dataBuffer|, mags, old(Estimator())).1)
    }

    /** `run(cam)` for one frame. `now` is `time.time()`, `detections` what
        the detector finds in this frame (read in search mode), `intensity`
        the forehead's mean pixel value and `mags` the rfft magnitudes of the
        buffer once this frame's sample is in it, L/2 + 1 bins for L samples
        (both read in lock mode). */
    method Run(now: real, detections: seq<Rect>, intensity: real, mags: seq<real>) returns (outcome: Outcome)
      requires Valid()
      modifies this`dataBuffer, this`times, this`samples, this`fps, this`freqs, this`fft,
        this`bpm, this`idx, this`heartRates, this`trained, this`faceRect, this`lastCenter
      ensures Valid()
      ensures RanFrame(now, detections, intensity, mags, outcome)
    {
      times := times + [now - t0];
      if findFaces {
        DetectFace(detections);
        outcome := Completed;
      } else if IsPlaceholder(faceRect) {
        outcome := Completed;
      } else {
        outcome := MeasureFrame(intensity, mags);
      }
    }
  }
}
