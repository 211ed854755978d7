/**
 * The DiRT Rally 2.0 handler: the datagram layout, the decoder of the two times the run
 * lifecycle needs, and the polling loop that detects the start and the end of a run.
 */
module GameDirtRally2 {
  import opened Wrappers
  import opened Floats
  import opened RunData
  import opened GameHandler

  /** The latest datagram received, or None while nothing has been received yet. */
  type Payload = Option<seq<bv8>>

  /** The number of 4-byte fields in a datagram. */
  const FieldCount: nat := 66

  /**
   * A field of the datagram, named by the constants below and identified by its value: its
   * position in the datagram, counted in 4-byte fields.
   */
  newtype DirtRally2Field = i: int | 0 <= i < FieldCount

  const RunTime: DirtRally2Field := 0
  const LapTime: DirtRally2Field := 1
  const Distance: DirtRally2Field := 2
  const Progress: DirtRally2Field := 3
  const PosX: DirtRally2Field := 4
  const PosY: DirtRally2Field := 5
  const PosZ: DirtRally2Field := 6
  const SpeedMs: DirtRally2Field := 7
  const VelX: DirtRally2Field := 8
  const VelY: DirtRally2Field := 9
  const VelZ: DirtRally2Field := 10
  const RollX: DirtRally2Field := 11
  const RollY: DirtRally2Field := 12
  const RollZ: DirtRally2Field := 13
  const PitchX: DirtRally2Field := 14
  const PitchY: DirtRally2Field := 15
  const PitchZ: DirtRally2Field := 16
  const SuspRL: DirtRally2Field := 17
  const SuspRR: DirtRally2Field := 18
  const SuspFL: DirtRally2Field := 19
  const SuspFR: DirtRally2Field := 20
  const SuspVelRL: DirtRally2Field := 21
  const SuspVelRR: DirtRally2Field := 22
  const SuspVelFL: DirtRally2Field := 23
  const SuspVelFR: DirtRally2Field := 24
  const WspRL: DirtRally2Field := 25
  const WspRR: DirtRally2Field := 26
  const WspFL: DirtRally2Field := 27
  const WspFR: DirtRally2Field := 28
  const Throttle: DirtRally2Field := 29
  const Steering: DirtRally2Field := 30
  const Brakes: DirtRally2Field := 31
  const Clutch: DirtRally2Field := 32
  const Gear: DirtRally2Field := 33
  const GForceLat: DirtRally2Field := 34
  const GForceLon: DirtRally2Field := 35
  const CurrentLap: DirtRally2Field := 36
  const Rpm: DirtRally2Field := 37
  const SliProSupport: DirtRally2Field := 38
  const CarPos: DirtRally2Field := 39
  const KersLevel: DirtRally2Field := 40
  const KersMaxLevel: DirtRally2Field := 41
  const Drs: DirtRally2Field := 42
  const TractionControl: DirtRally2Field := 43
  const AntiLockBrakes: DirtRally2Field := 44
  const FuelInTank: DirtRally2Field := 45
  const FuelCapacity: DirtRally2Field := 46
  const InPit: DirtRally2Field := 47
  const Sector: DirtRally2Field := 48
  const Sector1Time: DirtRally2Field := 49
  const Sector2Time: DirtRally2Field := 50
  const BrakesTempRL: DirtRally2Field := 51
  const BrakesTempRR: DirtRally2Field := 52
  const BrakesTempFL: DirtRally2Field := 53
  const BrakesTempFR: DirtRally2Field := 54
  const TyrePressureRL: DirtRally2Field := 55
  const TyrePressureRR: DirtRally2Field := 56
  const TyrePressureFL: DirtRally2Field := 57
  const TyrePressureFR: DirtRally2Field := 58
  const LapsCompleted: DirtRally2Field := 59
  const TotalLaps: DirtRally2Field := 60
  const TrackLength: DirtRally2Field := 61
  const LastLapTime: DirtRally2Field := 62
  const MaxRpm: DirtRally2Field := 63
  const IdleRpm: DirtRally2Field := 64
  const MaxGears: DirtRally2Field := 65

  /** Byte offset of a field: its value times 4; its window lies inside a full datagram. */
  function Offset(f: DirtRally2Field): (o: nat)
    ensures o % 4 == 0 && o + 4 <= 4 * FieldCount
  {
    4 * f as int
  }

  /** The 4-byte windows of two distinct fields do not overlap. */
  lemma FieldWindowsDisjoint(f: DirtRally2Field, g: DirtRally2Field)
    requires f != g
    ensures Offset(f) + 4 <= Offset(g) || Offset(g) + 4 <= Offset(f)
  {
  }

  // ---------------------------------------------------------------------------
  // Decoding

  /**
   * Reads the float at byte offset pos: exactly the bytes [pos, pos + 4); 0 when the payload
   * is missing or ends before pos + 4. The read never fails.
   */
  function BitStreamToFloat32(data: Payload, pos: nat): (r: Float32)
    ensures data.None? || |data.value| < pos + 4 ==> r == Zero
    ensures data.Some? && pos + 4 <= |data.value| ==> r.bits == data.value[pos..pos + 4]
  {
    match data
    case None => Zero
    case Some(bytes) => if pos + 4 <= |bytes| then Float32(bytes[pos..pos + 4]) else Zero
  }

  /** The datagram the game sends for the given field values, field i at bytes [4i, 4i + 4). */
  function Pack(fields: seq<Float32>): (bytes: seq<bv8>)
    ensures |bytes| == 4 * |fields|
  {
    if fields == [] then [] else fields[0].bits + Pack(fields[1..])
  }

  /** Reading field i of a packed datagram gives back the value that was packed there. */
  lemma {:induction false} ReadPacked(fields: seq<Float32>, i: nat)
    requires i < |fields|
    ensures BitStreamToFloat32(Some(Pack(fields)), 4 * i) == fields[i]
    decreases i
  {
    var bytes := Pack(fields);
    var rest := Pack(fields[1..]);
    assert bytes == fields[0].bits + rest;
    if i == 0 {
      assert bytes[0..4] == fields[0].bits;
    } else {
      ReadPacked(fields[1..], i - 1);
      assert bytes[4 * i..4 * i + 4] == rest[4 * (i - 1)..4 * (i - 1) + 4];
    }
  }

  /** Decodes the latest datagram: the run time is the lap_time field, plus the last lap time. */
  function ParseUdpData(data: Payload): (r: RunData)
    ensures r.runTimeSec == BitStreamToFloat32(data, 4)
    ensures r.lastLapTimeSec == BitStreamToFloat32(data, 248)
    ensures data.None? ==> r == Fresh()
  {
    RunData(BitStreamToFloat32(data, Offset(LapTime)), BitStreamToFloat32(data, Offset(LastLapTime)))
  }

  /** On a full datagram, the record holds the lap_time field (not run_time) and last_lap_time. */
  lemma ParsePacket(fields: seq<Float32>)
    requires |fields| == FieldCount
    ensures ParseUdpData(Some(Pack(fields))) == RunData(fields[LapTime], fields[LastLapTime])
  {
    ReadPacked(fields, LapTime as nat);
    ReadPacked(fields, LastLapTime as nat);
  }

  // ---------------------------------------------------------------------------
  // Edge detection over the sequence of run times

  /** The run times the loop sees, one per datagram it decodes. */
  function RunTimes(ps: seq<Payload>): (ts: seq<Float32>)
    ensures |ts| == |ps|
    ensures forall i :: 0 <= i < |ps| ==> ts[i] == ParseUdpData(ps[i]).runTimeSec
  {
    seq(|ps|, i requires 0 <= i < |ps| => ParseUdpData(ps[i]).runTimeSec)
  }

  /** The value before sample i; the loop starts from 0. */
  function Previous(ts: seq<Float32>, i: nat): Float32
    requires i < |ts|
  {
    if i == 0 then Zero else ts[i - 1]
  }

  /** Sample i is a 0 -> non-zero step: the run starts. */
  predicate StartsAt(ts: seq<Float32>, i: nat)
    requires i < |ts|
    ensures i == 0 ==> (StartsAt(ts, i) <==> !ts[0].IsZero())
  {
    Previous(ts, i).IsZero() && !ts[i].IsZero()
  }

  /** Sample i is a non-zero -> 0 step: the run ends. */
  predicate EndsAt(ts: seq<Float32>, i: nat)
    requires i < |ts|
    ensures i == 0 ==> !EndsAt(ts, i)
  {
    !Previous(ts, i).IsZero() && ts[i].IsZero()
  }

  /** No sample fires both transitions: the two steps test opposite facts about the previous value. */
  lemma OneTransitionPerSample(ts: seq<Float32>, i: nat)
    requires i < |ts|
    ensures !(StartsAt(ts, i) && EndsAt(ts, i))
  {
  }

  /** Some sample among the first n starts a run. */
  predicate Started(ts: seq<Float32>, n: nat)
    requires n <= |ts|
  {
    exists j :: 0 <= j < n && StartsAt(ts, j)
  }

  /** The first end step at or after from, or |ts| when there is none. */
  function FirstEnd(ts: seq<Float32>, from: nat): (k: nat)
    requires from <= |ts|
    ensures from <= k <= |ts|
    ensures forall i :: from <= i < k ==> !EndsAt(ts, i)
    ensures k < |ts| ==> EndsAt(ts, k)
    decreases |ts| - from
  {
    if from == |ts| then |ts|
    else if EndsAt(ts, from) then from
    else FirstEnd(ts, from + 1)
  }

  /** How many samples the loop decodes: up to and including the first end step, or all of them. */
  function Consumed(ts: seq<Float32>): (n: nat)
    ensures n <= |ts|
  {
    var k := FirstEnd(ts, 0);
    if k < |ts| then k + 1 else |ts|
  }

  /** The states the loop sets while decoding the first n samples, in order. */
  function Emitted(ts: seq<Float32>, n: nat): (r: seq<GameHandlerState>)
    requires n <= |ts|
    ensures |r| <= n
    ensures forall j :: 0 <= j < |r| ==> r[j] == Running || r[j] == Finished
  {
    if n == 0 then []
    else Emitted(ts, n - 1)
         + (if StartsAt(ts, n - 1) then [Running] else [])
         + (if EndsAt(ts, n - 1) then [Finished] else [])
  }

  /** Extending the prefix by sample i adds exactly the start step at i, if there is one. */
  lemma StartedStep(ts: seq<Float32>, i: nat)
    requires i < |ts|
    ensures Started(ts, i + 1) <==> Started(ts, i) || StartsAt(ts, i)
  {
  }

  /**
   * Before any end step, the loop has set Running at most once, and has set it exactly when
   * the latest value is non-zero.
   */
  lemma {:induction false} EmittedBeforeEnd(ts: seq<Float32>, n: nat)
    requires n <= |ts|
    requires forall i :: 0 <= i < n ==> !EndsAt(ts, i)
    ensures Emitted(ts, n) == if Started(ts, n) then [Running] else []
    ensures 0 < n ==> (!ts[n - 1].IsZero() <==> Started(ts, n))
  {
    if n > 0 {
      var i := n - 1;
      EmittedBeforeEnd(ts, i);
      StartedStep(ts, i);
      assert !EndsAt(ts, i);
      assert Emitted(ts, n) == Emitted(ts, i) + (if StartsAt(ts, i) then [Running] else []);
      if i > 0 {
        assert Previous(ts, i) == ts[i - 1];
        assert StartsAt(ts, i) ==> !Started(ts, i);
      }
    }
  }

  /**
   * What the loop sets over a whole stream: Running then Finished when the stream holds an end
   * step (Finished never comes without Running before it), otherwise Running once if a run
   * started, otherwise nothing.
   */
  lemma {:induction false} EmittedShape(ts: seq<Float32>)
    ensures Emitted(ts, Consumed(ts)) ==
      if FirstEnd(ts, 0) < |ts| then [Running, Finished]
      else if Started(ts, |ts|) then [Running]
      else []
  {
    var k := FirstEnd(ts, 0);
    EmittedBeforeEnd(ts, k);
    if k < |ts| {
      assert EndsAt(ts, k);
      assert k > 0 && !ts[k - 1].IsZero();
      assert Started(ts, k);
    }
  }

  /**
   * A sample run: two idle samples, two running ones (12.4 and 45.1 as floats), then 0. The run
   * starts at the third sample and ends at the fifth.
   */
  lemma ExampleRun()
    ensures var ts := [Zero, Zero, Float32([0x66, 0x66, 0x46, 0x41]), Float32([0x66, 0x66, 0x34, 0x42]), Zero];
      StartsAt(ts, 2) && FirstEnd(ts, 0) == 4 && Consumed(ts) == 5 &&
      Emitted(ts, Consumed(ts)) == [Running, Finished]
  {
    var ts := [Zero, Zero, Float32([0x66, 0x66, 0x46, 0x41]), Float32([0x66, 0x66, 0x34, 0x42]), Zero];
    assert EndsAt(ts, 4);
    EmittedShape(ts);
  }

  // ---------------------------------------------------------------------------
  // The run lifecycle

  /**
   * The polling loop, fed the datagrams it would find one after another: a 0 -> non-zero step
   * sets Running; a non-zero -> 0 step stores that sample's record as the result, sets Finished
   * and stops. When the datagrams run out first, the loop has consumed them all.
   */
  method GatherData(handler: GameHandler, ps: seq<Payload>) returns (consumed: nat)
    modifies handler`state, handler`runResult, handler`transitions
    ensures consumed == Consumed(RunTimes(ps))
    ensures handler.transitions == old(handler.transitions) + Emitted(RunTimes(ps), consumed)
    ensures FirstEnd(RunTimes(ps), 0) < |ps| ==>
      handler.GetState() == Finished && handler.runResult == Some(ParseUdpData(ps[consumed - 1]))
    ensures FirstEnd(RunTimes(ps), 0) == |ps| ==>
      handler.runResult == old(handler.runResult) &&
      handler.GetState() == if Started(RunTimes(ps), |ps|) then Running else old(handler.GetState())
  {
    ghost var ts := RunTimes(ps);
    ghost var firstEnd := FirstEnd(ts, 0);
    var lastRuntimeValue := Zero;
    var currentRuntimeValue := Zero;
    var finished := false;
    consumed := 0;
    while !finished && consumed < |ps|
      invariant consumed <= |ps| && consumed <= firstEnd + 1
      invariant finished <==> consumed == firstEnd + 1
      invariant currentRuntimeValue == if consumed == 0 then Zero else ts[consumed - 1]
      invariant finished ==>
        handler.state == Finished && handler.runResult == Some(ParseUdpData(ps[consumed - 1])) &&
        handler.transitions == old(handler.transitions) + [Running, Finished]
      invariant !finished ==>
        var running := !currentRuntimeValue.IsZero();
        handler.runResult == old(handler.runResult) &&
        handler.state == (if running then Running else old(handler.state)) &&
        handler.transitions == old(handler.transitions) + (if running then [Running] else [])
    {
      var data := ParseUdpData(ps[consumed]);
      lastRuntimeValue := currentRuntimeValue;
      currentRuntimeValue := data.runTimeSec;
      assert lastRuntimeValue == Previous(ts, consumed) && currentRuntimeValue == ts[consumed];
      assert consumed < firstEnd ==> !EndsAt(ts, consumed);
      assert consumed == firstEnd ==> EndsAt(ts, consumed);
      if lastRuntimeValue.IsZero() && !currentRuntimeValue.IsZero() {
        handler.SetState(Running);
      }
      if !lastRuntimeValue.IsZero() && currentRuntimeValue.IsZero() {
        handler.runResult := Some(data);
        handler.SetState(Finished);
        finished := true;
      }
      consumed := consumed + 1;
    }
    EmittedShape(ts);
    if finished {
      assert firstEnd < |ts| && consumed == Consumed(ts);
      assert Emitted(ts, consumed) == [Running, Finished];
    } else {
      assert firstEnd == |ts| == consumed == Consumed(ts);
      EmittedBeforeEnd(ts, consumed);
      assert Started(ts, consumed) <==> !currentRuntimeValue.IsZero();
    }
  }

  /**
   * Starts a run: the handler waits for the start, then the loop polls the datagrams. The run is
   * over exactly when the stream holds an end step.
   */
  method StartRun(handler: GameHandler, ps: seq<Payload>) returns (consumed: nat)
    modifies handler`state, handler`runResult, handler`transitions
    ensures consumed == Consumed(RunTimes(ps))
    ensures handler.transitions == old(handler.transitions) + [WaitingForStart]
                                   + Emitted(RunTimes(ps), consumed)
    ensures handler.GetState() ==
      if FirstEnd(RunTimes(ps), 0) < |ps| then Finished
      else if Started(RunTimes(ps), |ps|) then Running
      else WaitingForStart
    ensures handler.IsRunOver() <==> FirstEnd(RunTimes(ps), 0) < |ps|
    ensures FirstEnd(RunTimes(ps), 0) < |ps| ==> handler.runResult == Some(ParseUdpData(ps[consumed - 1]))
    ensures FirstEnd(RunTimes(ps), 0) == |ps| ==> handler.runResult == old(handler.runResult)
  {
    handler.SetState(WaitingForStart);
    consumed := GatherData(handler, ps);
  }
}
