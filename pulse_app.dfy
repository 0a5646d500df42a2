/** `PulseApp` of lib/PulseApp.py: the session controller around the
    processor, together with the start-up logic it shares with `getPulseApp`
    of get_pulse.py (the `--serial/--baud/--udp` handling, the probe for up to
    three cameras) and the CSV file name of `write_csv`. */
module Pulse {
  import opened Builtins
  import opened SessionData
  import opened Processor

  const DefaultBaud: int := 9600
  const DefaultUdpPort: int := 5005
  /** `for i in xrange(3)`: camera indices probed at start-up. */
  const CameraProbes: nat := 3
  const CsvPrefix: string := "Webcam-pulse"
  const CsvSuffix: string := ".csv"

  // ---------------------------------------------------------------------------
  // Command-line options

  datatype SerialOut = SerialOut(port: string, baud: int)
  datatype Endpoint = Endpoint(host: string, port: int)

  /** Where `main_loop` sends each bpm: `self.serial` when `send_serial`,
      `self.udp` when `send_udp`. */
  datatype OutputConfig = OutputConfig(serial: Option<SerialOut>, udp: Option<Endpoint>)

  /** Python truthiness of an optional command-line string (`None` and `""`
      are false). */
  predicate Given(a: Option<string>) {
    a.Some? && a.value != []
  }

  /** `baud = 9600 if not baud else int(baud)`. */
  function ParseBaud(baud: Option<string>): (r: Result<int>)
    ensures !Given(baud) ==> r == Ok(DefaultBaud)
    ensures Given(baud) ==> (r.Ok? <==> PyInt(baud.value).Some?)
    ensures Given(baud) && r.Ok? ==> PyInt(baud.value) == Some(r.value)
  {
    if !Given(baud) then Ok(DefaultBaud)
    else match PyInt(baud.value)
      case Some(n) => Ok(n)
      case None => Err(ValueError)
  }

  /** A baud rate written in decimal, with or without surrounding blanks, is
      read back as itself. */
  lemma BaudRoundTrip(n: nat, pre: string, post: string)
    requires AllSpaces(pre) && AllSpaces(post)
    ensures ParseBaud(Some(pre + Decimal(n) + post)) == Ok(n)
  {
    PyIntDecimal(n, pre, post);
  }

  /** A signed baud rate is read as `int()` reads it, blanks after the sign
      included: `--baud "+ 9600"` gives 9600. */
  lemma SignedBaudRoundTrip(n: nat, pre: string, sign: char, gap: string, post: string)
    requires sign == '+' || sign == '-'
    requires AllSpaces(pre) && AllSpaces(gap) && AllSpaces(post)
    ensures ParseBaud(Some(pre + ([sign] + gap + Decimal(n)) + post)) == Ok(if sign == '-' then -(n as int) else n)
  {
    PyIntSignedDecimal(n, pre, sign, gap, post);
  }

  /** The `host[:port]` parse of `--udp`: no ':' means the default port;
      `ip, port = udp.split(":")` raises unless there is exactly one ':', and
      `int(port)` raises on a port that is not a number. */
  function ParseUdp(spec: string): (r: Result<Endpoint>)
    ensures ':' !in spec ==> r == Ok(Endpoint(spec, DefaultUdpPort))
    ensures CountChar(spec, ':') > 1 ==> r == Err(ValueError)
    ensures r.Ok? && ':' in spec ==> ':' !in r.value.host && CountChar(spec, ':') == 1
  {
    if ':' !in spec then Ok(Endpoint(spec, DefaultUdpPort))
    else if CountChar(spec, ':') != 1 then Err(ValueError)
    else
      var i := IndexOf(spec, ':');
      match PyInt(spec[i + 1..])
      case Some(p) => Ok(Endpoint(spec[..i], p))
      case None => Err(ValueError)
  }

  /** What `ParseUdp` accepts with a ':' is exactly a host without ':', the
      ':', and a text `int()` reads as the port. */
  lemma UdpAccepted(spec: string)
    requires ':' in spec && ParseUdp(spec).Ok?
    ensures exists portText ::
      (spec == ParseUdp(spec).value.host + ":" + portText && PyInt(portText) == Some(ParseUdp(spec).value.port))
  {
    var i := IndexOf(spec, ':');
    SingleOccurrence(spec, ':');
    assert spec == spec[..i] + ":" + spec[i + 1..];
  }

  /** With one ':' between a host and a port text, `ParseUdp` succeeds exactly
      when `int()` reads the port text, and then with that port. */
  lemma UdpSplit(host: string, rest: string)
    requires ':' !in host && ':' !in rest
    ensures ParseUdp(host + ":" + rest) ==
      if PyInt(rest).Some? then Ok(Endpoint(host, PyInt(rest).value)) else Err(ValueError)
  {
    SplitAtColon(host, rest);
  }

  /** `host` alone yields the default port; `host:port` yields that port. */
  lemma UdpRoundTrip(host: string, port: nat)
    requires ':' !in host
    ensures ParseUdp(host) == Ok(Endpoint(host, DefaultUdpPort))
    ensures ParseUdp(host + ":" + Decimal(port)) == Ok(Endpoint(host, port))
  {
    var d := Decimal(port);
    assert ':' !in d by {
      forall k | 0 <= k < |d| ensures d[k] != ':' { assert IsDigit(d[k]); }
    }
    SplitAtColon(host, d);
    PyIntOfDecimal(port);
  }

  /** A port written with a sign, blanks after the sign and decimal digits,
      as in "host:+ 5005", is read as the signed number. */
  lemma SignedUdpRoundTrip(host: string, n: nat, pre: string, sign: char, gap: string, post: string)
    requires ':' !in host
    requires sign == '+' || sign == '-'
    requires AllSpaces(pre) && AllSpaces(gap) && AllSpaces(post)
    ensures ParseUdp(host + ":" + (pre + ([sign] + gap + Decimal(n)) + post)) ==
      Ok(Endpoint(host, if sign == '-' then -(n as int) else n))
  {
    var d := Decimal(n);
    assert ':' !in d by {
      forall k | 0 <= k < |d| ensures d[k] != ':' { assert IsDigit(d[k]); }
    }
    NoColonInSpaces(pre);
    NoColonInSpaces(gap);
    NoColonInSpaces(post);
    SplitAtColon(host, pre + ([sign] + gap + d) + post);
    PyIntSignedDecimal(n, pre, sign, gap, post);
  }

  /** Whitespace holds no ':'. */
  lemma NoColonInSpaces(s: string)
    requires AllSpaces(s)
    ensures ':' !in s
  {
  }

  /** `host + ":" + rest` with no ':' in either part has exactly one ':',
      found right after the host. */
  lemma SplitAtColon(host: string, rest: string)
    requires ':' !in host && ':' !in rest
    ensures var spec := host + ":" + rest;
      ':' in spec && CountChar(spec, ':') == 1 && IndexOf(spec, ':') == |host| &&
      spec[..|host|] == host && spec[|host| + 1..] == rest
  {
    var spec := host + ":" + rest;
    CountAppend(host + ":", rest, ':');
    CountAppend(host, ":", ':');
    assert CountChar(":", ':') == 1;
    IndexOfAfter(host, ':', rest);
  }

  lemma {:induction false} CountAppend(a: string, b: string, c: char)
    ensures CountChar(a + b, c) == CountChar(a, c) + CountChar(b, c)
    decreases |a|
  {
    if a != [] {
      assert (a + b)[1..] == a[1..] + b;
      CountAppend(a[1..], b, c);
    } else {
      assert a + b == b;
    }
  }

  /** Lines 34-55 of `__init__` (and lines 45-68 of get_pulse.py): the serial
      output exists exactly when `--serial` is given and the udp output
      exactly when `--udp` is; either parse may raise `ValueError`. A baud
      rate is only read when a serial port is given. */
  function Configure(serial: Option<string>, baud: Option<string>, udp: Option<string>): (r: Result<OutputConfig>)
    ensures r.Err? <==> (Given(serial) && ParseBaud(baud).Err?) || (Given(udp) && ParseUdp(udp.value).Err?)
    ensures r.Err? ==> r.error == ValueError
    ensures r.Ok? ==> (r.value.serial.Some? <==> Given(serial)) && (r.value.udp.Some? <==> Given(udp))
    ensures r.Ok? && r.value.serial.Some? ==>
      r.value.serial.value.port == serial.value && ParseBaud(baud) == Ok(r.value.serial.value.baud)
    ensures r.Ok? && r.value.udp.Some? ==> ParseUdp(udp.value) == Ok(r.value.udp.value)
  {
    if Given(serial) && ParseBaud(baud).Err? then Err(ValueError)
    else if Given(udp) && ParseUdp(udp.value).Err? then Err(ValueError)
    else Ok(OutputConfig(
      if Given(serial) then Some(SerialOut(serial.value, ParseBaud(baud).value)) else None,
      if Given(udp) then Some(ParseUdp(udp.value).value) else None))
  }

  // ---------------------------------------------------------------------------
  // Camera probe and CSV file name

  /** The camera loop of `__init__`: camera i is kept when it is valid or
      when no camera has been kept yet, and the probe stops at the first
      invalid camera after that. `valid[i]` is `Camera(camera=i).valid`;
      the result lists the kept cameras by index. */
  method ProbeCameras(valid: seq<bool>) returns (cameras: seq<nat>)
    requires |valid| == CameraProbes
    ensures 1 <= |cameras| <= CameraProbes
    ensures forall i :: 0 <= i < |cameras| ==> cameras[i] == i
    ensures forall i :: 1 <= i < |cameras| ==> valid[i]
    ensures |cameras| < CameraProbes ==> !valid[|cameras|]
  {
    cameras := [];
    for i := 0 to CameraProbes
      invariant |cameras| == i
      invariant forall j :: 0 <= j < i ==> cameras[j] == j
      invariant forall j :: 1 <= j < i ==> valid[j]
    {
      if valid[i] || |cameras| == 0 {
        cameras := cameras + [i];
      } else {
        break;
      }
    }
  }

  /** `write_csv`'s file name, with `now` the text of `str(datetime.now())`:
      the prefix and `now` with every ':' and '.' turned into '_', then
      ".csv" (also get_pulse.py:116-119). */
  function CsvFileName(now: string): (fn: string)
    ensures |fn| == |CsvPrefix| + |now| + |CsvSuffix|
    ensures fn[|fn| - |CsvSuffix|..] == CsvSuffix && fn[..|CsvPrefix|] == CsvPrefix
    ensures ':' !in fn[..|fn| - |CsvSuffix|] && '.' !in fn[..|fn| - |CsvSuffix|]
    ensures forall i :: 0 <= i < |now| ==>
      fn[|CsvPrefix| + i] == if now[i] == ':' || now[i] == '.' then '_' else now[i]
  {
    var stem := ReplaceChar(ReplaceChar(CsvPrefix + now, ':', '_'), '.', '_');
    assert forall i :: 0 <= i < |CsvPrefix| ==> stem[i] == CsvPrefix[i];
    assert stem + CsvSuffix == (stem + CsvSuffix)[..|stem|] + CsvSuffix;
    assert (stem + CsvSuffix)[..|stem|] == stem;
    stem + CsvSuffix
  }

  /** The whole number `int(np.average(heart_rates))` that `upload_measurements`
      appends to `avgData`: with every rate in the band, it is at least
      `LowBpm` and below `HighBpm`. */
  lemma AverageInBand(rates: seq<real>)
    requires rates != []
    requires forall i :: 0 <= i < |rates| ==> InBand(rates[i])
    ensures LowBpm.Floor <= Trunc(Mean(rates)) < HighBpm.Floor
  {
    MeanBounds(rates, LowBpm, HighBpm);
  }

  // ---------------------------------------------------------------------------
  // The controller

  class PulseApp {
    var bpm: real
    const config: OutputConfig
    /** `self.cameras`, by camera index. */
    const cameras: seq<nat>
    var selectedCam: nat
    const processor: FindFaceGetPulse
    var bpmPlot: bool
    /** `self.data`, which does not exist until `setAppData` runs. */
    var data: Option<SessionData>
    var avgData: seq<int>

    ghost predicate Valid()
      reads this, processor
    {
      processor.Valid() && 1 <= |cameras| <= CameraProbes && selectedCam < |cameras|
    }

    /** `__init__` after the options were parsed by `Configure`:
        `cameraValid` answers the probe, `t0` is the processor's start clock. */
    constructor (config: OutputConfig, cameraValid: seq<bool>, t0: real)
      requires |cameraValid| == CameraProbes
      ensures Valid() && fresh(processor)
      ensures bpm == 0.0 && this.config == config && selectedCam == 0 && !bpmPlot
      ensures data == None && avgData == []
      ensures forall i :: 0 <= i < |cameras| ==> cameras[i] == i
      ensures forall i :: 1 <= i < |cameras| ==> cameraValid[i]
      ensures |cameras| < CameraProbes ==> !cameraValid[|cameras|]
      ensures processor.findFaces && processor.counter == 0 && processor.isSuccess && processor.bpm == 0.0
    {
      bpm := 0.0;
      this.config := config;
      var probed := ProbeCameras(cameraValid);
      cameras := probed;
      selectedCam := 0;
      processor := new FindFaceGetPulse(t0);
      bpmPlot := false;
      data := None;
      avgData := [];
    }

    /** `toggle_cam`: with more than one camera, select the next one
        cyclically, drop the plot and go back to searching for a face. */
    method ToggleCam()
      requires Valid()
      modifies this`selectedCam, this`bpmPlot, processor`findFaces
      ensures Valid()
      ensures |cameras| > 1 ==>
        processor.findFaces && !bpmPlot && selectedCam == (old(selectedCam) + 1) % |cameras|
      ensures |cameras| <= 1 ==>
        selectedCam == old(selectedCam) && bpmPlot == old(bpmPlot) && processor.findFaces == old(processor.findFaces)
    {
      if |cameras| > 1 {
        processor.findFaces := true;
        bpmPlot := false;
        selectedCam := (selectedCam + 1) % |cameras|;
      }
    }

    /** `toggle_search`: hand the session data to `find_faces_toggle`;
        reading `self.data` before `setAppData` raises. */
    method ToggleSearch(now: int) returns (outcome: Outcome)
      requires Valid()
      modifies processor`findFaces, processor`startTime, processor`endTime, processor`data,
        processor`heartRates, processor`counter, processor`isSuccess
      ensures Valid()
      ensures data.None? ==> outcome == Raised(AttributeError) && unchanged(processor)
      ensures data.Some? ==>
        (outcome == Completed &&
         processor.findFaces == !old(processor.findFaces) &&
         processor.startTime == now && processor.endTime == data.value.recordLength + now &&
         processor.data == data && processor.heartRates == [] &&
         processor.counter == old(processor.counter) + (if old(processor.isSuccess) then 1 else 0) &&
         !processor.isSuccess && processor.bpm == old(processor.bpm))
    {
      if data.None? {
        return Raised(AttributeError);
      }
      var _ := processor.FindFacesToggle(data.value, now);
      outcome := Completed;
    }

    /** `start_measuring`: lock onto the face and open a new measurement
        window at `now`; `counter` and `is_success` are not touched. */
    method StartMeasuring(now: int) returns (outcome: Outcome)
      requires Valid()
      modifies processor`findFaces, processor`startTime, processor`endTime, processor`data, processor`heartRates
      ensures Valid()
      ensures !processor.findFaces && processor.startTime == now
      ensures data.None? ==>
        (outcome == Raised(AttributeError) &&
         processor.endTime == old(processor.endTime) && processor.data == old(processor.data) &&
         processor.heartRates == old(processor.heartRates))
      ensures data.Some? ==>
        (outcome == Completed &&
         processor.endTime == data.value.recordLength + now && processor.data == data && processor.heartRates == [])
    {
      processor.findFaces := false;
      processor.startTime := now;
      if data.None? {
        return Raised(AttributeError);
      }
      processor.endTime := data.value.recordLength + processor.startTime;
      processor.data := data;
      processor.heartRates := [];
      outcome := Completed;
    }

    /** `stop_measuring`: back to searching, clear the estimate, and count
        the record when the last upload succeeded. */
    method StopMeasuring()
      requires Valid()
      modifies processor`findFaces, processor`bpm, processor`counter, processor`isSuccess
      ensures Valid()
      ensures processor.findFaces && processor.bpm == 0.0 && !processor.isSuccess
      ensures processor.counter == old(processor.counter) + (if old(processor.isSuccess) then 1 else 0)
    {
      processor.findFaces := true;
      processor.bpm := 0.0;
      if processor.isSuccess {
        processor.counter := processor.counter + 1;
        processor.isSuccess := false;
      }
    }

    /** One iteration of `main_loop` for a frame of the selected camera: run
        the processor, then take over its estimate only when it is non-zero.
        An exception of `run` leaves the loop before the hand-off. */
    method MainLoop(now: real, detections: seq<Rect>, intensity: real, mags: seq<real>) returns (outcome: Outcome)
      requires Valid()
      modifies this`bpm, processor`dataBuffer, processor`times, processor`samples, processor`fps,
        processor`freqs, processor`fft, processor`bpm, processor`idx, processor`heartRates,
        processor`trained, processor`faceRect, processor`lastCenter
      ensures Valid()
      ensures outcome.Completed? ==> bpm == if processor.bpm != 0.0 then processor.bpm else old(bpm)
      ensures outcome.Raised? ==> bpm == old(bpm)
      // What `run` did to the processor.
      ensures processor.RanFrame(now, detections, intensity, mags, outcome)
    {
      outcome := processor.Run(now, detections, intensity, mags);
      if outcome.Completed? {
        TakeEstimate();
      }
    }

    /** The hand-off after `run`: `self.bpm` takes the processor's estimate
        when that is non-zero. */
    method TakeEstimate()
      modifies this`bpm
      ensures bpm == if processor.bpm != 0.0 then processor.bpm else old(bpm)
    {
      if processor.bpm != 0.0 {
        bpm := processor.bpm;
      }
    }

    /** `upload_measurements`, with `accepted` the verdict of
        `NetworkHelper.add_record`: a refused upload changes nothing; an
        accepted one appends the truncated mean heart rate to `avgData`, marks
        the upload as successful and toggles the search, which counts the
        record. `int()` of the mean of no heart rates (NaN) raises. */
    method UploadMeasurements(accepted: bool, now: int) returns (outcome: Outcome)
      requires Valid()
      modifies this`avgData, processor`findFaces, processor`startTime, processor`endTime, processor`data,
        processor`heartRates, processor`counter, processor`isSuccess
      ensures Valid()
      ensures data.None? ==> outcome == Raised(AttributeError) && avgData == old(avgData) && unchanged(processor)
      ensures data.Some? && !accepted ==> outcome == Completed && avgData == old(avgData) && unchanged(processor)
      ensures data.Some? && accepted && old(processor.heartRates) == [] ==>
        outcome == Raised(ValueError) && avgData == old(avgData) && unchanged(processor)
      ensures data.Some? && accepted && old(processor.heartRates) != [] ==>
        outcome == Completed &&
        avgData == old(avgData) + [Trunc(Mean(old(processor.heartRates)))] &&
        LowBpm.Floor <= avgData[|avgData| - 1] < HighBpm.Floor &&
        processor.counter == old(processor.counter) + 1 && !processor.isSuccess &&
        processor.findFaces == !old(processor.findFaces) && processor.heartRates == [] &&
        processor.startTime == now && processor.endTime == data.value.recordLength + now &&
        processor.data == data
    {
      if data.None? {
        return Raised(AttributeError);
      }
      if !accepted {
        return Completed;
      }
      if processor.heartRates == [] {
        return Raised(ValueError);
      }
      AverageInBand(processor.heartRates);
      avgData := avgData + [Trunc(Mean(processor.heartRates))];
      processor.isSuccess := true;
      outcome := ToggleSearch(now);
    }

    /** `setAppData`: store the session data and start a fresh list of
        averages. */
    method SetAppData(d: SessionData)
      requires Valid()
      modifies this`data, this`avgData
      ensures Valid()
      ensures data == Some(d) && avgData == []
    {
      data := Some(d);
      avgData := [];
    }
  }
}
