/** `cusum_onsets` and `_backtrack` over a sequence of residual z-scores. */
module Cusum {
  import opened Basics

  datatype Direction = Up | Down

  datatype Onset = Onset(idx: nat, direction: Direction, zpeak: real)

  datatype Alarm = Alarm(at: nat, direction: Direction)

  const CONTRIBUTES: real := 0.5
  const REARM := 3

  function Sign(d: Direction): real { if d == Up then 1.0 else -1.0 }

  // ---- Reference: alarms from window sums ----

  /** The sum of sign * z - k over the window [a, b). */
  ghost function WindowSum(z: seq<real>, d: Direction, k: real, a: nat, b: nat): real
    requires a <= b <= |z|
  {
    if a == b then 0.0 else WindowSum(z, d, k, a, b - 1) + Sign(d) * z[b - 1] - k
  }

  /** Some non-empty window that starts since `from` and ends before `to` sums above h. */
  ghost predicate Exceeds(z: seq<real>, d: Direction, k: real, h: real, from: nat, to: nat)
    requires to <= |z|
  {
    exists a :: from <= a < to && WindowSum(z, d, k, a, to) > h
  }

  ghost predicate Fires(z: seq<real>, k: real, h: real, from: nat, armed: nat, i: nat)
    requires i < |z|
  {
    i >= armed && (Exceeds(z, Up, k, h, from, i + 1) || Exceeds(z, Down, k, h, from, i + 1))
  }

  ghost function FiredDirection(z: seq<real>, k: real, h: real, from: nat, i: nat): Direction
    requires i < |z|
  {
    if Exceeds(z, Up, k, h, from, i + 1) then Up else Down
  }

  /**
   * The alarms from sample i on, when the last reset was just before `from`: every alarm resets the
   * windows and disarms the detector for REARM samples.
   */
  ghost function Alarms(z: seq<real>, k: real, h: real, from: nat, armed: nat, i: nat): seq<Alarm>
    decreases |z| - i
  {
    if i >= |z| then []
    else if Fires(z, k, h, from, armed, i)
    then [Alarm(i, FiredDirection(z, k, h, from, i))] + Alarms(z, k, h, i + 1, i + REARM, i + 1)
    else Alarms(z, k, h, from, armed, i + 1)
  }

  /** Walk back while the preceding sample contributes to the shift. */
  function BackFrom(z: seq<real>, d: Direction, i: nat): nat
    requires i < |z|
  {
    if i > 0 && Sign(d) * z[i - 1] > CONTRIBUTES then BackFrom(z, d, i - 1) else i
  }

  ghost function OnsetOf(z: seq<real>, a: Alarm): Onset
    requires a.at < |z|
  {
    Onset(BackFrom(z, a.direction, a.at), a.direction, z[a.at])
  }

  ghost predicate OnsetsOf(z: seq<real>, onsets: seq<Onset>, alarms: seq<Alarm>) {
    |onsets| == |alarms| && forall n :: 0 <= n < |alarms| ==> alarms[n].at < |z| && onsets[n] == OnsetOf(z, alarms[n])
  }

  // ---- The one-pass recurrence ----

  /** g is the largest sum of a window, possibly empty, that starts since `from` and ends before `to`. */
  ghost predicate IsDrift(z: seq<real>, d: Direction, k: real, from: nat, to: nat, g: real)
    requires to <= |z|
  {
    && (forall a :: from <= a <= to ==> WindowSum(z, d, k, a, to) <= g)
    && (exists a :: from <= a <= to && WindowSum(z, d, k, a, to) == g)
  }

  lemma DriftStarts(z: seq<real>, d: Direction, k: real, from: nat)
    requires from <= |z|
    ensures IsDrift(z, d, k, from, from, 0.0)
  {
    assert WindowSum(z, d, k, from, from) == 0.0;
  }

  lemma DriftStep(z: seq<real>, d: Direction, k: real, from: nat, i: nat, g: real)
    requires from <= i < |z| && IsDrift(z, d, k, from, i, g)
    ensures IsDrift(z, d, k, from, i + 1, Max(0.0, g + Sign(d) * z[i] - k))
  {
    var g' := Max(0.0, g + Sign(d) * z[i] - k);
    var to := i + 1;
    forall a | from <= a <= to ensures WindowSum(z, d, k, a, to) <= g' {
      if a <= i { assert WindowSum(z, d, k, a, i) <= g; }
    }
    var a :| from <= a <= i && WindowSum(z, d, k, a, i) == g;
    assert WindowSum(z, d, k, a, to) == g + Sign(d) * z[i] - k;
    assert WindowSum(z, d, k, to, to) == 0.0;
  }

  lemma DriftDecides(z: seq<real>, d: Direction, k: real, h: real, from: nat, to: nat, g: real)
    requires from <= to <= |z| && h >= 0.0 && IsDrift(z, d, k, from, to, g)
    ensures g > h <==> Exceeds(z, d, k, h, from, to)
  {
  }

  /** Both drifts of the recurrence over one sample, and what comparing them with h decides. */
  lemma DriftsStep(z: seq<real>, k: real, h: real, from: nat, i: nat, gp: real, gn: real)
    requires from <= i < |z| && h >= 0.0 && IsDrift(z, Up, k, from, i, gp) && IsDrift(z, Down, k, from, i, gn)
    ensures var gp', gn' := Max(0.0, gp + z[i] - k), Max(0.0, gn - z[i] - k);
            && IsDrift(z, Up, k, from, i + 1, gp') && (gp' > h <==> Exceeds(z, Up, k, h, from, i + 1))
            && IsDrift(z, Down, k, from, i + 1, gn') && (gn' > h <==> Exceeds(z, Down, k, h, from, i + 1))
  {
    assert Sign(Up) * z[i] == z[i] && Sign(Down) * z[i] == -z[i];
    DriftStep(z, Up, k, from, i, gp);
    DriftStep(z, Down, k, from, i, gn);
    DriftDecides(z, Up, k, h, from, i + 1, Max(0.0, gp + z[i] - k));
    DriftDecides(z, Down, k, h, from, i + 1, Max(0.0, gn - z[i] - k));
  }

  method Backtrack(z: seq<real>, alarm: nat, d: Direction) returns (i: nat)
    requires alarm < |z|
    ensures i == BackFrom(z, d, alarm)
  {
    i := alarm;
    while i > 0 && Sign(d) * z[i - 1] > CONTRIBUTES
      invariant i <= alarm && BackFrom(z, d, i) == BackFrom(z, d, alarm)
    {
      i := i - 1;
    }
  }

  /** The recurrence reports exactly the alarms of the window definition. */
  method CusumOnsets(z: seq<real>, k: real, h: real, warmup: nat) returns (onsets: seq<Onset>)
    requires h >= 0.0
    ensures |z| < warmup + 4 ==> onsets == []
    ensures |z| >= warmup + 4 ==> OnsetsOf(z, onsets, Alarms(z, k, h, warmup, warmup, warmup))
  {
    onsets := [];
    if |z| < warmup + 4 {
      return;
    }
    var gp, gn := 0.0, 0.0;
    var armedAt: nat := warmup;
    ghost var from: nat, alarms: seq<Alarm> := warmup, [];
    DriftStarts(z, Up, k, warmup);
    DriftStarts(z, Down, k, warmup);
    for i := warmup to |z|
      invariant from <= i
      invariant IsDrift(z, Up, k, from, i, gp) && IsDrift(z, Down, k, from, i, gn)
      invariant OnsetsOf(z, onsets, alarms)
      invariant Alarms(z, k, h, warmup, warmup, warmup) == alarms + Alarms(z, k, h, from, armedAt, i)
    {
      DriftsStep(z, k, h, from, i, gp, gn);
      gp := Max(0.0, gp + z[i] - k);
      gn := Max(0.0, gn - z[i] - k);
      if gp > h && i >= armedAt {
        var idx := Backtrack(z, i, Up);
        onsets := onsets + [Onset(idx, Up, z[i])];
        alarms := alarms + [Alarm(i, Up)];
        gp, gn, armedAt, from := 0.0, 0.0, i + REARM, i + 1;
        DriftStarts(z, Up, k, from);
        DriftStarts(z, Down, k, from);
      } else if gn > h && i >= armedAt {
        var idx := Backtrack(z, i, Down);
        onsets := onsets + [Onset(idx, Down, z[i])];
        alarms := alarms + [Alarm(i, Down)];
        gp, gn, armedAt, from := 0.0, 0.0, i + REARM, i + 1;
        DriftStarts(z, Up, k, from);
        DriftStarts(z, Down, k, from);
      }
    }
  }

  // ---- Consequences ----

  /** Every sample from the onset up to the alarm contributes, and the one before the onset does not. */
  lemma {:induction false} OnsetStretch(z: seq<real>, d: Direction, alarm: nat)
    requires alarm < |z|
    ensures var r := BackFrom(z, d, alarm);
            && r <= alarm
            && (forall t :: r <= t < alarm ==> Sign(d) * z[t] > CONTRIBUTES)
            && (r > 0 ==> !(Sign(d) * z[r - 1] > CONTRIBUTES))
  {
    if alarm > 0 && Sign(d) * z[alarm - 1] > CONTRIBUTES { OnsetStretch(z, d, alarm - 1); }
  }

  /** In order, not before i nor before the detector is armed, and three samples apart. */
  ghost predicate Apart(z: seq<real>, armed: nat, i: nat, A: seq<Alarm>) {
    && (forall n :: 0 <= n < |A| ==> i <= A[n].at < |z| && armed <= A[n].at)
    && (forall m, n :: 0 <= m < n < |A| ==> A[n].at >= A[m].at + 3)
  }

  lemma {:induction false} AlarmsApart(z: seq<real>, k: real, h: real, from: nat, armed: nat, i: nat)
    ensures Apart(z, armed, i, Alarms(z, k, h, from, armed, i))
    decreases |z| - i
  {
    if i < |z| {
      if Fires(z, k, h, from, armed, i) {
        AlarmsApart(z, k, h, i + 1, i + REARM, i + 1);
      } else {
        AlarmsApart(z, k, h, from, armed, i + 1);
      }
    }
  }

  /** Where the n-th alarm's windows may start, and where the detector is armed for it. */
  function WindowStart(warmup: nat, A: seq<Alarm>, n: nat): nat
    requires n <= |A|
  {
    if n == 0 then warmup else A[n - 1].at + 1
  }

  function ArmedFrom(warmup: nat, A: seq<Alarm>, n: nat): nat
    requires n <= |A|
  {
    if n == 0 then warmup else A[n - 1].at + REARM
  }

  /** No sample between two alarms fires, and each alarm fires in its direction. */
  ghost predicate Exact(z: seq<real>, k: real, h: real, from: nat, armed: nat, i: nat, A: seq<Alarm>)
    requires forall n :: 0 <= n < |A| ==> A[n].at < |z|
  {
    && (forall t :: i <= t < (if |A| > 0 then A[0].at else |z|) ==> !Fires(z, k, h, from, armed, t))
    && (|A| > 0 ==> Fires(z, k, h, from, armed, A[0].at) && A[0].direction == FiredDirection(z, k, h, from, A[0].at))
  }

  /** Between the (n-1)-th and n-th alarms nothing fires, and the n-th alarm does. */
  lemma {:induction false} AlarmsExact(z: seq<real>, k: real, h: real, from: nat, armed: nat, i: nat, n: nat)
    requires n <= |Alarms(z, k, h, from, armed, i)|
    ensures var A := Alarms(z, k, h, from, armed, i);
            && (forall m :: 0 <= m < |A| ==> A[m].at < |z|)
            && (n == 0 ==> Exact(z, k, h, from, armed, i, A))
            && (n > 0 ==> Exact(z, k, h, WindowStart(0, A, n), ArmedFrom(0, A, n), A[n - 1].at + 1, A[n..]))
    decreases |z| - i
  {
    AlarmsApart(z, k, h, from, armed, i);
    var A := Alarms(z, k, h, from, armed, i);
    if i < |z| {
      if Fires(z, k, h, from, armed, i) {
        if n > 0 {
          AlarmsExact(z, k, h, i + 1, i + REARM, i + 1, n - 1);
          assert A[1..] == Alarms(z, k, h, i + 1, i + REARM, i + 1);
          assert A[n..] == A[1..][n - 1..];
          if n > 1 { assert A[1..][n - 2] == A[n - 1]; }
        }
      } else {
        AlarmsExact(z, k, h, from, armed, i + 1, n);
      }
    }
  }

  /** An alarm is raised by a window that sums above h in its direction, upward if there is any such window. */
  lemma AlarmDirection(z: seq<real>, k: real, h: real, warmup: nat, n: nat)
    requires n < |Alarms(z, k, h, warmup, warmup, warmup)|
    ensures var A := Alarms(z, k, h, warmup, warmup, warmup);
            var from, i := WindowStart(warmup, A, n), A[n].at;
            && i < |z| && Exceeds(z, A[n].direction, k, h, from, i + 1)
            && (A[n].direction == Down ==> !Exceeds(z, Up, k, h, from, i + 1))
  {
    var A := Alarms(z, k, h, warmup, warmup, warmup);
    AlarmsApart(z, k, h, warmup, warmup, warmup);
    AlarmsExact(z, k, h, warmup, warmup, warmup, n);
    assert n > 0 ==> A[n..][0] == A[n];
  }

  /**
   * The n-th onset has the direction of the n-th alarm and the z-score of its sample; it starts the longest
   * stretch of samples beyond 0.5 in that direction that ends just before the alarm.
   */
  lemma OnsetMeans(z: seq<real>, onsets: seq<Onset>, alarms: seq<Alarm>, n: nat)
    requires OnsetsOf(z, onsets, alarms) && n < |onsets|
    ensures n < |alarms| && alarms[n].at < |z|
    ensures var o, at := onsets[n], alarms[n].at;
            && o.direction == alarms[n].direction && o.zpeak == z[at] && o.idx <= at
            && (forall t :: o.idx <= t < at ==> if o.direction == Up then z[t] > 0.5 else -z[t] > 0.5)
            && (o.idx > 0 ==> if o.direction == Up then z[o.idx - 1] <= 0.5 else -z[o.idx - 1] <= 0.5)
  {
    OnsetStretch(z, alarms[n].direction, alarms[n].at);
  }

  lemma {:induction false} WindowSumReads(z: seq<real>, z': seq<real>, d: Direction, k: real, a: nat, b: nat)
    requires a <= b <= |z| && b <= |z'| && forall t :: a <= t < b ==> z[t] == z'[t]
    ensures WindowSum(z, d, k, a, b) == WindowSum(z', d, k, a, b)
  {
    if a < b { WindowSumReads(z, z', d, k, a, b - 1); }
  }

  lemma ExceedsReads(z: seq<real>, z': seq<real>, d: Direction, k: real, h: real, from: nat, to: nat)
    requires to <= |z| && to <= |z'| && forall t :: from <= t < to ==> z[t] == z'[t]
    ensures Exceeds(z, d, k, h, from, to) <==> Exceeds(z', d, k, h, from, to)
  {
    forall a: nat | from <= a < to ensures WindowSum(z, d, k, a, to) == WindowSum(z', d, k, a, to) {
      WindowSumReads(z, z', d, k, a, to);
    }
  }

  /** When no window was above h before the sample, only a sample above k takes one there. */
  lemma RisesFromQuiet(z: seq<real>, d: Direction, k: real, h: real, from: nat, i: nat)
    requires h >= 0.0 && from <= i < |z| && Exceeds(z, d, k, h, from, i + 1) && !Exceeds(z, d, k, h, from, i)
    ensures Sign(d) * z[i] > k
  {
    var a :| from <= a < i + 1 && WindowSum(z, d, k, a, i + 1) > h;
    if a < i {
      assert WindowSum(z, d, k, a, i) <= h;
    } else {
      assert WindowSum(z, d, k, i, i) == 0.0;
    }
  }

  /** A sample that adds exactly k leaves every window where it was. */
  lemma LevelSample(z: seq<real>, d: Direction, k: real, h: real, from: nat, i: nat)
    requires from <= i < |z| && Sign(d) * z[i] == k && Exceeds(z, d, k, h, from, i)
    ensures Exceeds(z, d, k, h, from, i + 1)
  {
    var a :| from <= a < i && WindowSum(z, d, k, a, i) > h;
    assert WindowSum(z, d, k, a, i + 1) == WindowSum(z, d, k, a, i);
  }

  /** The value x at sample i would take a window of direction d above h while the detector is armed. */
  ghost predicate Alarming(z: seq<real>, d: Direction, k: real, h: real, from: nat, armed: nat, i: nat, x: real)
    requires i < |z|
  {
    i >= armed && Exceeds(z[i := x], d, k, h, from, i + 1)
  }

  /** Sample i can raise the alarm only by contributing to the shift itself. */
  ghost predicate OnlyByRising(z: seq<real>, d: Direction, k: real, h: real, from: nat, armed: nat, i: nat)
    requires i < |z|
  {
    forall x :: Alarming(z, d, k, h, from, armed, i, x) ==> Sign(d) * x > k
  }

  /** Which it can, exactly when no window that ends at the previous sample is already above h. */
  lemma OnlyByRisingIff(z: seq<real>, d: Direction, k: real, h: real, from: nat, armed: nat, i: nat)
    requires h >= 0.0 && from <= i < |z| && armed <= i
    ensures OnlyByRising(z, d, k, h, from, armed, i) <==> !Exceeds(z, d, k, h, from, i)
  {
    if Exceeds(z, d, k, h, from, i) {
      var x := Sign(d) * k;
      ExceedsReads(z, z[i := x], d, k, h, from, i);
      LevelSample(z[i := x], d, k, h, from, i);
      assert Alarming(z, d, k, h, from, armed, i, x);
    } else {
      forall x | Alarming(z, d, k, h, from, armed, i, x) ensures Sign(d) * x > k {
        ExceedsReads(z, z[i := x], d, k, h, from, i);
        RisesFromQuiet(z[i := x], d, k, h, from, i);
      }
    }
  }

  lemma QuietBefore(z: seq<real>, d: Direction, k: real, h: real, from: nat, armed: nat, i: nat)
    requires from <= i < |z| && (i == from || (i > armed && !Fires(z, k, h, from, armed, i - 1)))
    ensures !Exceeds(z, d, k, h, from, i)
  {
    if i > from { assert d == Up || d == Down; }
  }

  /**
   * The n-th alarm's sample is part of the shift unless a window was already above h when it came, which
   * takes an alarm exactly REARM samples after its predecessor.
   */
  lemma AlarmContributes(z: seq<real>, k: real, h: real, warmup: nat, n: nat)
    requires h >= 0.0 && n < |Alarms(z, k, h, warmup, warmup, warmup)|
    ensures var A := Alarms(z, k, h, warmup, warmup, warmup);
            var from, armed, i, d := WindowStart(warmup, A, n), ArmedFrom(warmup, A, n), A[n].at, A[n].direction;
            && armed <= i < |z|
            && (OnlyByRising(z, d, k, h, from, armed, i) <==> !Exceeds(z, d, k, h, from, i))
            && (!Exceeds(z, d, k, h, from, i) ==> Sign(d) * z[i] > k)
            && (Exceeds(z, d, k, h, from, i) ==> n > 0 && i == A[n - 1].at + REARM)
  {
    var A := Alarms(z, k, h, warmup, warmup, warmup);
    AlarmsApart(z, k, h, warmup, warmup, warmup);
    AlarmsExact(z, k, h, warmup, warmup, warmup, n);
    var from, armed, i, d := WindowStart(warmup, A, n), ArmedFrom(warmup, A, n), A[n].at, A[n].direction;
    assert n > 0 ==> A[n..][0] == A[n];
    OnlyByRisingIff(z, d, k, h, from, armed, i);
    if !Exceeds(z, d, k, h, from, i) { RisesFromQuiet(z, d, k, h, from, i); }
    if n == 0 || i > armed { QuietBefore(z, d, k, h, from, armed, i); }
  }

  const REARM_BURST: seq<real> :=
    [0.0, 0.0, 0.0, 0.0, 0.0, 0.0, 0.0, 0.0, 0.0, 0.0, 0.0, 0.0, 10.0, 10.0, 10.0, 0.0]

  /**
   * Such an alarm exists: drift built up while disarmed fires at the re-arming sample even when that
   * sample is quiet, so the alarm sample itself need not contribute.
   */
  lemma RearmFiresOnQuietSample()
    ensures Alarms(REARM_BURST, 0.5, 5.0, 12, 12, 12) == [Alarm(12, Up), Alarm(15, Up)]
    ensures !(Sign(Up) * REARM_BURST[15] > CONTRIBUTES)
  {
    var z := REARM_BURST;
    assert WindowSum(z, Up, 0.5, 12, 12) == 0.0 && WindowSum(z, Up, 0.5, 12, 13) == 9.5;
    assert Exceeds(z, Up, 0.5, 5.0, 12, 13);
    assert WindowSum(z, Up, 0.5, 13, 13) == 0.0 && WindowSum(z, Up, 0.5, 13, 14) == 9.5;
    assert WindowSum(z, Up, 0.5, 13, 15) == 19.0 && WindowSum(z, Up, 0.5, 13, 16) == 18.5;
    assert Exceeds(z, Up, 0.5, 5.0, 13, 16);
    assert Alarms(z, 0.5, 5.0, 16, 18, 16) == [];
    assert Alarms(z, 0.5, 5.0, 13, 15, 15) == [Alarm(15, Up)];
    assert Alarms(z, 0.5, 5.0, 13, 15, 14) == [Alarm(15, Up)];
    assert Alarms(z, 0.5, 5.0, 13, 15, 13) == [Alarm(15, Up)];
  }
}
