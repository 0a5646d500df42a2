/** The older single-file front end, get_pulse.py: its own login form, whose
    record ranges are 10..20 and 20..30, and `getPulseApp`, which shares the
    option handling and camera probe of lib/PulseApp.py. */
module GetPulse {
  import opened Builtins
  import opened LoginRules
  import opened Processor
  import opened Pulse

  const Ranges := Limits(10, 20, 20, 30)
  const DefaultRecordNum := "10"
  const DefaultRecordLength := "20"

  /** The record-length tooltip reads "Min 15, max 30", but `check_state`
      accepts only 20..30: a length of 15 to 19 is shown as an error. */
  lemma TooltipMinimumRejected(n: nat)
    requires 15 <= n < 20
    ensures Judge(RecordLength, Decimal(n), Ranges) == Verdict(false, Error)
  {
    DecimalRoundTrip(n);
  }

  /** The form of `Ui_Form.setupUi`; the JMBAG and record fields are
      digits-only, the name fields have no validator. */
  class UiForm {
    const fields: LoginFields

    ghost predicate Valid()
      reads this, fields
    {
      fields.Valid() && fields.limits == Ranges
    }

    /** `setupUi`: empty name, surname and JMBAG, the record defaults "10" and
        "20" with their flags true. */
    constructor ()
      ensures Valid() && fresh(fields)
      ensures fields.texts == map[Name := "", Surname := "", Jmbag := "", RecordNum := "10", RecordLength := "20"]
      ensures fields.flags == map[Name := false, Surname := false, Jmbag := false, RecordNum := true, RecordLength := true]
    {
      DefaultNumerals();
      fields := new LoginFields(Ranges, DefaultRecordNum, DefaultRecordLength);
    }

    /** The user edits field `f` to `text`; `textChanged` re-judges it. */
    method UserEdit(f: Field, text: string)
      requires Valid()
      requires DigitsOnly(f) ==> AllDigits(text)
      modifies fields`texts, fields`flags, fields`style
      ensures Valid()
      ensures fields.texts == old(fields.texts)[f := text]
      ensures fields.flags == old(fields.flags)[f := Judge(f, text, Ranges).valid]
      ensures fields.style == old(fields.style)[f := Judge(f, text, Ranges).color]
    {
      fields.TextChanged(f, text);
    }

    /** `check_state(None)`, the gate of `set_user`: true exactly when the
        form holds a name, a surname, a ten-digit JMBAG, 10..20 records and
        a length of 20..30. */
    method Submit() returns (ok: bool)
      requires Valid()
      modifies fields`flags, fields`style
      ensures Valid() && fields.flags == old(fields.flags) && fields.style == old(fields.style)
      ensures ok <==> Accepts(fields.texts, Ranges)
      ensures ok ==> fields.texts[RecordNum] != [] && 10 <= IntOf(fields.texts[RecordNum]) <= 20
      ensures ok ==> fields.texts[RecordLength] != [] && 20 <= IntOf(fields.texts[RecordLength]) <= 30
    {
      ok := fields.CheckState(None);
      if ok {
        AcceptedForm(fields.texts, Ranges);
      }
    }
  }

  /** `getPulseApp`: the output options, the probed cameras and a processor. */
  class GetPulseApp {
    const config: OutputConfig
    const cameras: seq<nat>
    var selectedCam: nat
    const processor: FindFaceGetPulse
    var bpmPlot: bool

    ghost predicate Valid()
      reads this, processor
    {
      processor.Valid() && 1 <= |cameras| <= CameraProbes && selectedCam < |cameras|
    }

    /** `__init__` after `Configure` read the options; `cameraValid` answers
        the camera probe and `t0` is the processor's start clock. */
    constructor (config: OutputConfig, cameraValid: seq<bool>, t0: real)
      requires |cameraValid| == CameraProbes
      ensures Valid() && fresh(processor)
      ensures this.config == config && selectedCam == 0 && !bpmPlot
      ensures forall i :: 0 <= i < |cameras| ==> cameras[i] == i
      ensures forall i :: 1 <= i < |cameras| ==> cameraValid[i]
      ensures |cameras| < CameraProbes ==> !cameraValid[|cameras|]
      ensures processor.findFaces && processor.bpm == 0.0
    {
      this.config := config;
      var probed := ProbeCameras(cameraValid);
      cameras := probed;
      selectedCam := 0;
      processor := new FindFaceGetPulse(t0);
      bpmPlot := false;
    }

    /** `toggle_cam`: with more than one camera, select the next one
        cyclically, drop the plot and go back to searching for a face. */
    method ToggleCam()
      requires Valid()
      modifies this`selectedCam, this`bpmPlot, processor`findFaces
      ensures Valid()
      ensures |cameras| > 1 ==>
        processor.findFaces && !bpmPlot && selectedCam == (old(selectedCam) + 1) % |cameras|
      ensures |cameras| <= 1 ==>
        selectedCam == old(selectedCam) && bpmPlot == old(bpmPlot) && processor.findFaces == old(processor.findFaces)
    {
      if |cameras| > 1 {
        processor.findFaces := true;
        bpmPlot := false;
        selectedCam := (selectedCam + 1) % |cameras|;
      }
    }

    /** The file `write_csv` saves to, with `now` the text of
        `str(datetime.datetime.now())`: "Webcam-pulse", then `now` with each
        ':' and '.' made '_', then ".csv". */
    method WriteCsv(now: string) returns (fileName: string)
      ensures |fileName| == |CsvPrefix| + |now| + |CsvSuffix|
      ensures fileName[..|CsvPrefix|] == CsvPrefix && fileName[|fileName| - |CsvSuffix|..] == CsvSuffix
      ensures ':' !in fileName[..|fileName| - |CsvSuffix|] && '.' !in fileName[..|fileName| - |CsvSuffix|]
      ensures forall i :: 0 <= i < |now| ==>
        fileName[|CsvPrefix| + i] == if now[i] == ':' || now[i] == '.' then '_' else now[i]
    {
      fileName := CsvFileName(now);
    }
  }
}
