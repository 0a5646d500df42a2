# Webcam pulse detector — a Dafny model

The webcam pulse detector estimates a person's heart rate from the colour
changes of their forehead in the frames of a webcam. A login form collects
the subject's name, surname, JMBAG (a ten-digit student number), the number
of records and the record length, and registers the subject with a server.
The main window then shows relaxing and disturbing images on a 30-second
timer. Meanwhile the pulse application feeds the camera's frames to the
frame processor `findFaceGetPulse`. The processor has two modes:

- In search mode it looks for the face, keeps the largest candidate, and
  ignores jitter of 10 px or less.
- In lock mode it buffers the mean intensity of a fixed forehead box and
  picks the strongest frequency between 50 and 180 BPM out of the buffer's
  spectrum.

The model covers these parts:

- **`processor.dfy`** (`Processor`): the processor as a class:
  - face choice (`detected.sort(...)[-1]`) and jitter suppression;
  - the forehead box;
  - the 250-entry sample and timestamp buffers;
  - the band restriction and the `argmax` peak pick;
  - the search/lock toggle with its record counter, and one `run` call per
    frame.
- **`pulse_app.dfy`** (`Pulse`):
  - the `--serial/--baud/--udp` parsing and the three-camera probe, which
    `PulseApp` and get_pulse.py's `getPulseApp` share;
  - the CSV file name;
  - the `PulseApp` controller: camera toggle, search toggle,
    start and stop of a measurement, the main-loop hand-off of the estimate,
    the upload of the mean heart rate, and `setAppData`.
- **`utc_time.dfy`** (`UtcTime`): `get_formatted_time`, that is,
  `time.gmtime` and the `%Y-%m-%d %H:%M:%S` rendering, with its inverse.
- **`login_rules.dfy`** (`LoginRules`): the `check_state` validation the
  three login forms share. Each field has one flag and one colour, is
  re-judged when its text changes, and the flags are combined by
  conjunction.
- **`gui_form.dfy`** (`GuiForm`): the Qt front end's form,
  lib/GUI_objects/Ui_Form.py:
  - records 1..100 and lengths 1..60;
  - the automatic session name;
  - `set_user` turning the `add_user` answer into the session data.
- **`lib_form.dfy`** (`LibForm`): the stand-alone form lib/Ui_Form.py, whose
  `set_user` contacts the server itself and stores the data only on
  status 200.
- **`get_pulse.dfy`** (`GetPulse`): get_pulse.py's form (records 10..20,
  lengths 20..30) and its `getPulseApp`.
- **`image_window.dfy`** (`Images`): the image window. It keeps one list of
  shown images, shared by both categories, so no image is shown twice until
  the list is restarted.
- **`main_window.dfy`** (`Window`): the main window's timer schedule
  (ten relaxing ticks, then ten disturbing ones), the S key, and the
  form's Ok callback.
- **`builtins.dfy`** (`Builtins`): the Python 2 built-ins the code relies on:
  `str.strip` (the blanks `int()` skips in a command-line argument),
  `unicode.strip` (the Qt form texts, which are `unicode`), `int(str)`,
  `int(float)`, `str.replace`, `str.split(":")`
  unpacking, and the mean. It also has the `Option`/`Result`/`Outcome`
  wrappers that model exceptions as values.
- **`session_data.dfy`** (`SessionData`): the `data` dictionary handed from
  the form to the application.

The model's inputs stand in for what it cannot see:

- the Haar detector's candidate boxes;
- the forehead's mean pixel value;
- the FFT magnitudes;
- clock readings;
- `randrange` picks;
- the servers' answers;
- the camera probe results.

State that the source changes in place is held in classes, with frames on
every method. Python's exceptions are `Raised(...)` outcomes, or `Err(...)`
results.

## Model

| member | source | states |
|---|---|---|
| Builtins.Strip | lib/PulseApp.py:43 | the ASCII-whitespace `strip()` that `int()` applies to a command-line text: the infix left after removing whitespace at both ends only; it is empty exactly when `s` is all whitespace, and otherwise starts and ends with a non-space |
| Builtins.UnicodeStrip | lib/GUI_objects/Ui_Form.py:160 | `text().strip()` on a form's `unicode` text removes the Unicode whitespace U+0009..U+000D, U+001C..U+0020, U+0085, U+00A0, U+1680, U+180E, U+2000..U+200A, U+2028, U+2029, U+202F, U+205F and U+3000 at both ends only: it is no longer than the text, empty exactly when the text is all such whitespace, otherwise starts and ends with a non-space, and leaves a text without edge whitespace unchanged |
| Builtins.PyInt | lib/PulseApp.py:43 | `int(s)` succeeds only when the stripped text is non-empty and ends in a digit, and gives a negative number only when it starts with '-'; which texts it accepts exactly is `PyIntGrammar` |
| Builtins.SignedNumeral | lib/PulseApp.py:43 | the number an already stripped text denotes: a success ends in a digit, and only a leading '-' makes it negative |
| Builtins.NumeralGrammar | lib/PulseApp.py:43 | a stripped text is read exactly when it is one or more digits, or a sign, blanks and one or more digits; so "1 2", "1a1", "+" and "" raise, while "007" and "- 5" are read |
| Builtins.PyIntGrammar | lib/PulseApp.py:43 | `int(s)` succeeds exactly when `s.strip()` is such a numeral, in both directions |
| Builtins.PyIntSignedDecimal | lib/PulseApp.py:43 | `int()` reads a sign, any blanks, and the decimal digits of `n`, with any surrounding blanks, as `n` or `-n`, as `PyOS_strtol` skips blanks again after the sign |
| Builtins.IntOf | lib/GUI_objects/Ui_Form.py:193 | `int()` of a non-empty digit field is a non-negative number |
| Builtins.IntOfAgrees | lib/GUI_objects/Ui_Form.py:193 | on a non-empty digit field `int()` never raises and reads exactly `IntOf` |
| Builtins.PyIntDecimal | lib/PulseApp.py:43 | `int(str(n)) == n`, with any surrounding whitespace |
| Builtins.StripAround | lib/PulseApp.py:43 | `strip()` of a body without edge whitespace, padded with whitespace on both sides, is the body |
| Builtins.DecimalRoundTrip | lib/PulseApp.py:54 | reading back the decimal digits of `n` gives `n` |
| Builtins.IndexOf | lib/PulseApp.py:53 | the first position of a character that occurs: it holds the character and nothing before it does |
| Builtins.SingleOccurrence | lib/PulseApp.py:53 | a string with exactly one ':' is the part before it, ':', and a part after it without ':' (the two-way `split(":")`) |
| Builtins.CountChar | lib/PulseApp.py:53 | the count of a character is 0 exactly when it does not occur, and at most the length |
| Builtins.ReplaceChar | lib/PulseApp.py:105 | `s.replace(a, b)` keeps the length, turns every `a` into `b` and leaves every other character alone; afterwards no `a` is left |
| Builtins.Trunc | lib/processors_noopenmdao.py:87-90 | `int(x)` truncates toward zero: the result lies within 1 of `x`, on the side of zero |
| Builtins.MeanBounds | lib/PulseApp.py:241 | the mean of values strictly between `lo` and `hi` is strictly between them |
| Processor.PlaceholderIsSetTest | lib/processors_noopenmdao.py:144 | `IsPlaceholder` holds exactly when `set(face_rect) == set([1, 1, 2, 2])` |
| Processor.NormComparison | lib/processors_noopenmdao.py:251 | for a norm `d >= 0`, `d > 10` exactly when `d * d > 100`, so squared distances decide the jitter test |
| Processor.LastMaxArea | lib/processors_noopenmdao.py:248-252 | `detected[-1]` after the stable sort by `w*h`: a candidate of maximal area, with every later candidate strictly smaller |
| Processor.Track | lib/processors_noopenmdao.py:248-252 | no candidates leave the tracker alone; the face is either kept or one of the candidates |
| Processor.TrackChangesOnlyOnJump | lib/processors_noopenmdao.py:248-252 | no candidates change nothing; `last_center` always becomes the chosen candidate's centre; the face changes only to a largest candidate more than 10 px away, and always does for one |
| Processor.DriftIsNeverAccepted | lib/processors_noopenmdao.py:73-79 | since `shift` overwrites `last_center` even for a rejected candidate, a face that moves in steps of at most 10 px is never re-acquired, however far it moves |
| Processor.ForeheadOfFace | lib/processors_noopenmdao.py:85-90 | for a non-negative face box, `get_subface_coord(0.5, 0.18, 0.25, 0.15)` is `[x + 3w/8, y + 21h/200, w/4, 3h/20]` in integer division and lies inside the face box |
| Processor.KeepLast | lib/processors_noopenmdao.py:165-167 | `s[-n:]` for a longer list: the last `min(n, len(s))` elements |
| Processor.AppendAndTrim | lib/processors_noopenmdao.py:161-168 | appending to a full buffer drops the oldest entry; otherwise nothing is dropped; the buffer never exceeds its size and ends with the new sample |
| Processor.BandBins | lib/processors_noopenmdao.py:185-187 | `np.where((freqs > 50) & (freqs < 180))`: exactly the in-band bins, in increasing order |
| Processor.Pick | lib/processors_noopenmdao.py:189 | `fft[idx]` pairs each index with its magnitude |
| Processor.FirstArgMax | lib/processors_noopenmdao.py:196 | `np.argmax`: a maximal element, with no earlier element as large |
| Processor.Estimate | lib/processors_noopenmdao.py:185-198 | the stored frequencies are all in band and pair up with the stored magnitudes; the peak, when present, indexes one of them |
| Processor.PeakIsFirstBandMaximum | lib/processors_noopenmdao.py:187-196 | a peak that is found indexes the stored frequencies and is the frequency of the first in-band bin of maximal magnitude |
| Processor.SilentBand | lib/processors_noopenmdao.py:195-198 | no peak is found exactly when every in-band magnitude is zero |
| Processor.EstimateFrom | lib/processors_noopenmdao.py:174-226 | with at most 10 samples the estimator state is kept; a zero timestamp span raises `ZeroDivisionError` and keeps it; otherwise `fps = L / span` and the band-restricted spectrum is stored, and exactly when a peak is found `heart_rates` grows by `bpm` and `idx` goes up by one. That `bpm` is a frequency of the band, namely the one at `Estimate`'s peak, which `EstimateIsFirstBandPeak` shows is the first in-band bin of maximal magnitude; when `heart_rates` is kept so are `bpm` and `idx` |
| Processor.EstimateIsFirstBandPeak | lib/processors_noopenmdao.py:185-205 | there is no estimate exactly when every in-band magnitude is zero; otherwise the estimate is the frequency of the first in-band bin of maximal magnitude |
| Processor.BinBpmFromSpan | lib/processors_noopenmdao.py:177-186 | with `fps = L / span`, bin k stands for `60 k / span` BPM |
| Processor.FindFaceGetPulse.constructor | lib/processors_noopenmdao.py:21-55 | the initial processor: placeholder face `[1, 1, 2, 2]`, empty buffers, `bpm = 0`, `idx = 1`, searching, `counter = 0`, `is_success` true |
| Processor.FindFaceGetPulse.FindFacesToggle | lib/processors_noopenmdao.py:57-68 | flips and returns `find_faces`; opens a window of `record_length` at `now`; clears `heart_rates`; counts a record once per successful upload; changes nothing else |
| Processor.FindFaceGetPulse.Shift | lib/processors_noopenmdao.py:73-79 | returns the (squared) distance from the old `last_center` and moves `last_center` to the candidate's centre |
| Processor.FindFaceGetPulse.DetectFace | lib/processors_noopenmdao.py:235-252 | clears the buffers and `trained`, and updates face and centre exactly as `Track` does |
| Processor.FindFaceGetPulse.UpdateEstimate | lib/processors_noopenmdao.py:174-226 | the outcome and the new `fps`, `freqs`, `fft`, `bpm`, `idx` and `heart_rates` are what `EstimateFrom` makes of the buffers and the old values; nothing else changes |
| Processor.FindFaceGetPulse.MeasureFrame | lib/processors_noopenmdao.py:156-226 | appends the forehead sample, keeps the newest 250 samples and timestamps in step, publishes `samples`, updates the estimate as `EstimateFrom` does, and keeps every heart rate in the band |
| Processor.FindFaceGetPulse.Run | lib/processors_noopenmdao.py:130-233 | every frame timestamps. Search mode tracks the face, clears the buffers and `trained`, and keeps the estimator state. Lock mode on the placeholder only timestamps and keeps everything else. Lock mode on a face samples, trims and estimates as `EstimateFrom` does, and keeps the face and `trained`. The buffers stay consistent, and every heart rate stays in the band |
| Pulse.ParseBaud | lib/PulseApp.py:40-43 | no or empty `--baud` gives 9600; otherwise the result is an error exactly when `int()` rejects the text, and otherwise the number `int()` reads, blanks after a sign included |
| Pulse.BaudRoundTrip | lib/PulseApp.py:40-43 | a baud rate written in decimal, with or without blanks, is read back as itself |
| Pulse.SignedBaudRoundTrip | lib/PulseApp.py:40-43 | a `--baud` written with a sign, blanks after the sign and decimal digits (such as "+ 9600") is read as the signed number, not rejected |
| Pulse.ParseUdp | lib/PulseApp.py:49-54 | no ':' gives port 5005; more than one ':' raises; an accepted `host:port` has a host without ':' (the port is what `int()` reads, by `UdpAccepted`) |
| Pulse.UdpAccepted | lib/PulseApp.py:52-54 | every accepted `--udp` with ':' is exactly host, ':' and a text `int()` reads as the port |
| Pulse.UdpSplit | lib/PulseApp.py:49-54 | for a host and a port text without ':', `host:rest` gives `(host, int(rest))` when `int()` reads `rest`, and `ValueError` otherwise |
| Pulse.UdpRoundTrip | lib/PulseApp.py:49-54 | `host` gives `(host, 5005)` and `host:port` gives `(host, port)` |
| Pulse.SignedUdpRoundTrip | lib/PulseApp.py:49-54 | a port written with a sign, blanks after it and decimal digits (such as "host:+ 5005") is read as the signed number |
| Pulse.SplitAtColon | lib/PulseApp.py:53 | `host + ":" + rest` without other ':' has exactly one ':', right after the host, so `udp.split(":")` unpacks into `host` and `rest` |
| Pulse.Configure | lib/PulseApp.py:34-57 | serial output exactly when `--serial` is given, UDP output exactly when `--udp` is; the outputs carry the parsed baud rate and endpoint; it fails, with `ValueError`, exactly when a parse that is used fails (same code in get_pulse.py:45-68) |
| Pulse.ProbeCameras | lib/PulseApp.py:59-66 | keeps camera 0 always, then cameras 1, 2 while valid, and stops at the first invalid one after camera 0 |
| Pulse.CsvFileName | lib/PulseApp.py:104-107 | "Webcam-pulse", then the timestamp with every ':' and '.' turned into '_', then ".csv"; no ':' or '.' remains before the extension |
| Pulse.AverageInBand | lib/PulseApp.py:241 | `int(np.average(heart_rates))` of in-band rates is at least 50 and below 180 |
| Pulse.PulseApp.constructor | lib/PulseApp.py:27-90 | `bpm = 0`, the parsed outputs, the probed cameras with the first selected, no plot, and a fresh searching processor |
| Pulse.PulseApp.ToggleCam | lib/PulseApp.py:92-98 | with several cameras, selects the next one cyclically, turns off the plot and resumes the search; with one camera nothing changes |
| Pulse.PulseApp.ToggleSearch | lib/PulseApp.py:110-119 | raises `AttributeError` before `setAppData`, changing nothing; otherwise does what `find_faces_toggle` does with the session data; only the processor fields `find_faces_toggle` writes may change, so buffers, face, estimate and `trained` stay |
| Pulse.PulseApp.StartMeasuring | lib/PulseApp.py:121-126 | locks and sets `start_time = now`; without session data it then raises; otherwise opens the window of `record_length` and clears `heart_rates` |
| Pulse.PulseApp.StopMeasuring | lib/PulseApp.py:128-133 | resumes the search, zeroes `bpm`, counts the record once when the upload succeeded |
| Pulse.PulseApp.MainLoop | lib/PulseApp.py:185-208 | the processor's `run` on the frame, with the same two-state contract `RanFrame` that `Run` ensures: search mode clears the buffers and tracks the face as `Track` does; lock mode keeps the face; on the placeholder it only timestamps; on a face it keeps the newest 250 samples and timestamps and the estimate is what `EstimateFrom` gives; afterwards the application's `bpm` takes the processor's estimate only when that is non-zero, and a raise leaves it alone |
| Pulse.PulseApp.TakeEstimate | lib/PulseApp.py:206-207 | `self.bpm` takes the processor's estimate when that is non-zero and otherwise keeps its value |
| Pulse.PulseApp.UploadMeasurements | lib/PulseApp.py:231-251 | a refused upload changes nothing; an accepted one appends the truncated mean heart rate (between 50 and 180) to `avgData` and toggles the search, counting the record; an empty `heart_rates` raises; the processor's `data` becomes the session data handed in; only `avgData` and the processor fields `find_faces_toggle` writes may change |
| Pulse.PulseApp.SetAppData | lib/PulseApp.py:256-258 | stores the session data and empties `avgData` |
| UtcTime.DaysBeforeMonth | lib/PulseApp.py:262 | the days before month 13 are the days of the year |
| UtcTime.MonthStep | lib/PulseApp.py:262 | each month starts where the one before it ends |
| UtcTime.YearOf | lib/PulseApp.py:262 | the year holding a day count, and the day's index within that year |
| UtcTime.MonthOf | lib/PulseApp.py:262 | the month holding a day of the year, and the day's index within that month |
| UtcTime.GmTime | lib/PulseApp.py:262 | `time.gmtime(t)` is a valid calendar instant whose epoch seconds are `t` |
| UtcTime.GmTimeOfEpochSeconds | lib/PulseApp.py:262 | `gmtime` inverts `timegm`: each valid instant is the only one with its seconds |
| UtcTime.Pad | lib/PulseApp.py:261 | a zero-padded field reads back as its number and has exactly the given width when the number fits |
| UtcTime.ParseJoined | lib/PulseApp.py:261 | six digit fields of widths 4, 2, 2, 2, 2, 2 joined by the format's separators read back field by field |
| UtcTime.FormatTime | lib/PulseApp.py:260-262 | `get_formatted_time(t)` has at least 19 characters, and exactly 19 up to year 9999 |
| UtcTime.FormatTimeRoundTrip | lib/PulseApp.py:260-262 | up to year 9999 `get_formatted_time(t)` has the `YYYY-MM-DD HH:MM:SS` shape and reads back as `gmtime(t)`, whose epoch seconds are `t` |
| LoginRules.NameVerdict | lib/GUI_objects/Ui_Form.py:159-179 | a name or surname is valid exactly when it holds a character that `unicode.strip()` keeps, and is never coloured as an error |
| LoginRules.JmbagVerdict | lib/GUI_objects/Ui_Form.py:181-190 | a digits-only JMBAG is valid exactly when it has ten digits; it is coloured as an error exactly when it is non-empty and not ten digits long |
| LoginRules.RecordVerdict | lib/GUI_objects/Ui_Form.py:192-212 | a record field is valid exactly when `int()` reads it as a number in range; it is coloured as an error exactly when it is non-empty and out of range |
| LoginRules.Rejudged | lib/GUI_objects/Ui_Form.py:122-126 | re-judging the field whose text changed keeps every flag equal to the verdict on its field's text |
| LoginRules.RejudgedSame | lib/GUI_objects/Ui_Form.py:157-212 | re-judging a field on unchanged text keeps the flags consistent |
| LoginRules.ConsistentConjunction | lib/GUI_objects/Ui_Form.py:214-218 | with consistent flags, their conjunction is exactly the verdict on the whole form |
| LoginRules.AcceptedForm | lib/GUI_objects/Ui_Form.py:214-218 | an accepted form has a name and a surname that are not all Unicode whitespace, a ten-digit JMBAG and both record numbers in range |
| LoginRules.DefaultsConsistent | lib/Ui_Form.py:27-31 | the starting texts and flags of a form agree with the verdicts when the default record texts are in range |
| LoginRules.DefaultNumerals | lib/GUI_objects/Ui_Form.py:55-64 | the default record texts "5", "10", "20", "30" are digits that `int()` reads as 5, 10, 20, 30 |
| LoginRules.LoginFields.constructor | lib/Ui_Form.py:27-31 | empty name, surname and JMBAG with false flags; the default record texts with true flags, which in-range defaults justify; normal colours |
| LoginRules.LoginFields.CheckState | lib/GUI_objects/Ui_Form.py:157-218 | re-judges only the sender's field (nothing for `None`), sets its flag and colour, and returns the conjunction of the five flags, which is the verdict on the form |
| LoginRules.LoginFields.TextChanged | lib/GUI_objects/Ui_Form.py:122-126 | a new text in a field is followed by `check_state` for that field: only that field's flag and colour change, to the verdict on the new text |
| GuiForm.AutoName | lib/GUI_objects/Ui_Form.py:134-141 | the session name `name_surname_stamp` has the three lengths plus two |
| GuiForm.AutoNameSplits | lib/GUI_objects/Ui_Form.py:116-118 | names the `[a-zA-Z ]+` validator admits have no '_', so the session name splits back into name, surname and stamp at its first two underscores |
| GuiForm.UiForm.constructor | lib/GUI_objects/Ui_Form.py:20-64 | empty text fields, records "5" and length "30" with true flags, an empty session name, the latch cleared, no data |
| GuiForm.UiForm.SessionTextEdited | lib/GUI_objects/Ui_Form.py:130-132 | a manual edit of the session name sets the latch for good |
| GuiForm.UiForm.UpdateSessionName | lib/GUI_objects/Ui_Form.py:134-141 | with the latch set, the name stays; otherwise it becomes `name_surname_stamp`, or the call raises `AttributeError` when no stamp is available |
| GuiForm.UiForm.UserEdit | lib/GUI_objects/Ui_Form.py:122-141 | re-judges the edited field; editing a name or surname also refreshes the session name unless the latch is set; only that refresh can raise |
| GuiForm.UiForm.SetUser | lib/GUI_objects/Ui_Form.py:220-229 | an empty record number raises; a failed answer returns false and leaves the data; otherwise the answer is stored and then completed with `int()` of both record fields, where an empty record length raises after the answer was stored |
| GuiForm.UiForm.Admit | lib/GUI_objects/MainWindow.py:47-48 | proceeds exactly when all five flags are set and `add_user` succeeded with data; the form's data then holds the user and both record numbers |
| LibForm.UiForm.constructor | lib/Ui_Form.py:27-84 | empty text fields, records "5" and length "30" with true flags, no data |
| LibForm.UiForm.UserEdit | lib/Ui_Form.py:121-125 | re-judges the edited field only |
| LibForm.UiForm.SetUser | lib/Ui_Form.py:206-231 | a rejected form changes nothing; an accepted one has both record fields non-empty; a failed connection or an unreadable body shows a message; a status other than 200 changes nothing; on 200 the user and both record numbers are stored |
| GetPulse.TooltipMinimumRejected | get_pulse.py:283 | lengths 15 to 19, which the tooltip "Min 15, max 30" announces, are rejected and shown as errors |
| GetPulse.UiForm.constructor | get_pulse.py:240-280 | empty text fields, records "10" and length "20" with true flags |
| GetPulse.UiForm.UserEdit | get_pulse.py:301-310 | re-judges the edited field only |
| GetPulse.UiForm.Submit | get_pulse.py:330-394 | `check_state(None)` is true exactly when the form is accepted: 10..20 records and a length of 20..30 |
| GetPulse.GetPulseApp.constructor | get_pulse.py:42-102 | the parsed outputs, the probed cameras with the first selected, no plot, a fresh searching processor |
| GetPulse.GetPulseApp.ToggleCam | get_pulse.py:104-110 | with several cameras, selects the next one cyclically, turns off the plot and resumes the search; with one camera nothing changes |
| GetPulse.GetPulseApp.WriteCsv | get_pulse.py:116-119 | the CSV file name: prefix, the timestamp with ':' and '.' turned into '_', ".csv" |
| Images.Available | lib/GUI_objects/ImageWindow.py:55 | the images not yet shown: exactly the folder's images absent from `shown_images` |
| Images.AvailableNoDuplicates | lib/GUI_objects/ImageWindow.py:55 | filtering a duplicate-free listing keeps it duplicate-free |
| Images.AvailableShrinks | lib/GUI_objects/ImageWindow.py:59-62 | showing an available image makes exactly one fewer available, so n unseen images last for n shows |
| Images.AvailableOfForeign | lib/GUI_objects/ImageWindow.py:65 | marking an image of the other folder as shown does not change what is available |
| Images.SharedShown | lib/GUI_objects/ImageWindow.py:52 | an image once shown is not available again, in either category, because the list is shared |
| Images.AppendFresh | lib/GUI_objects/ImageWindow.py:62 | appending an image the list lacks keeps the list duplicate-free |
| Images.RestartedAvailable | lib/GUI_objects/ImageWindow.py:75-76 | after a restart every image of a folder is available, in folder order |
| Images.ImageWindow.constructor | lib/GUI_objects/ImageWindow.py:11-52 | the two listings, nothing shown yet, nothing displayed |
| Images.ImageWindow.ShowFrom | lib/GUI_objects/ImageWindow.py:54-62 | nothing available raises `FileNotFoundError`, changing nothing; otherwise the picked available image is displayed and appended to `shown_images` |
| Images.ImageWindow.ShowRelaxingImage | lib/GUI_objects/ImageWindow.py:54-62 | as `ShowFrom` on the relaxing folder: the image shown is a relaxing image not shown before |
| Images.ImageWindow.ShowDisturbingImage | lib/GUI_objects/ImageWindow.py:64-73 | as `ShowFrom` on the disturbing folder: the image shown is a disturbing image not shown before |
| Images.ImageWindow.RestartShownImages | lib/GUI_objects/ImageWindow.py:75-76 | empties `shown_images`, which keeps the window consistent |
| Window.NextCounter | lib/GUI_objects/MainWindow.py:87-91 | tick 19 leaves the counter at 1; any other tick adds one |
| Window.Schedule | lib/GUI_objects/MainWindow.py:82-85 | n ticks show n images |
| Window.TimerLifetime | lib/GUI_objects/MainWindow.py:80-91 | a timer started at counter c shows the relaxing images still due, then ten disturbing ones; only its last tick kills it; the counter ends at 1 |
| Window.FirstRun | lib/GUI_objects/MainWindow.py:19-20 | from a fresh window: ten relaxing shows, ten disturbing shows, then the timer is killed and the counter is 1 |
| Window.SecondRun | lib/GUI_objects/MainWindow.py:70-76 | the S key leaves the counter at 1, so a second timer shows only nine relaxing images before the ten disturbing ones |
| Window.MainWindow.constructor | lib/GUI_objects/MainWindow.py:16-31 | counter 0, no timer, with the form, image window and application |
| Window.MainWindow.TimerEvent | lib/GUI_objects/MainWindow.py:80-91 | a tick of another timer changes nothing; a tick of the current timer shows an image of the counter's category; a raise leaves at once; otherwise the counter moves on and tick 19 kills the timer |
| Window.MainWindow.ShowTick | lib/GUI_objects/MainWindow.py:82-85 | shows one image not shown before from the category the counter selects, or raises `FileNotFoundError` with nothing changed when none is left |
| Window.MainWindow.KeyS | lib/GUI_objects/MainWindow.py:70-76 | toggles the search as `toggle_search` does (raising before the session data exists, with nothing else done): `find_faces` flips, a window of `record_length` opens at `now`, `heart_rates` is cleared and the record counted once per successful upload; then restarts the shown images and starts a new timer; the counter and the old timer are left alone |
| Window.MainWindow.FormOkCallback | lib/GUI_objects/MainWindow.py:46-58 | only an accepted form with a successful `set_user` moves on: a relaxing image is shown first, and then the session data is handed to the application; when no relaxing image is left the callback raises before the hand-off; on the hand-off the form's data is the user's answer with `int()` of the record-length and record-count fields, the form's flags and colours are kept, the shown image is the one displayed, and every other path leaves the display as it was |

## Left out

- The processor's image handling (`cv2` drawing, the grey-level equalisation, the Haar cascade) is left out. What the detector finds is a parameter of `run`.
- The pixel means from `get_subface_means` are left out, because they need the frame's pixels. The mean forehead intensity is a parameter.
- The resampling (`np.linspace`, `np.interp`), the Hamming window, centring, `np.fft.rfft` and the phase-based recolouring are left out: floating-point signal processing. The rfft magnitudes are a parameter. The model does not require them to have `L/2 + 1` bins.
- Floating-point rounding is left out. Times, intensities and frequencies are exact reals.
- Processor.FindFaceGetPulse.UpdateEstimate: `time_gap`, `output_dim`, `slices` and the on-screen text are left out, because nothing modelled reads them.
- `train`, `get_faces`, `draw_rect` and `plot` of the processor are left out. They are unused or only draw.
- Processor.FindFaceGetPulse.constructor: `heart_rates`, `start_time`, `end_time` and `data` are not set by `__init__`. They are first assigned by `find_faces_toggle`, or by a `start_measuring` that finds session data. Until then, reading them raises `AttributeError`. The model starts them empty, at zero and at `None`, and so does not raise on two paths where the source does:
  - `start_measuring` without session data sets `find_faces = False` and `start_time`, then raises at lib/PulseApp.py:124, before `end_time` and `heart_rates` are assigned. Say a face is then locked and frames with a peak follow, with no toggle in between. The source then raises at lib/processors_noopenmdao.py:221 (`end_time`) and :226 (`heart_rates`). The model appends the estimate to an empty `heart_rates`.
  - `setAppData` sets the application's `data`, not the processor's attributes. An upload before any toggle reads the processor's `start_time` (lib/PulseApp.py:234) and raises. The model returns `Completed`, or `ValueError` from the mean of no heart rates.
- Clocks (`time.time`, `get_current_time`, `datetime.now`) are parameters of the operations that read them. So are the random choice of `randrange` and the Qt timer ids.
- Serial, UDP and socket output, `requests.post` and `NetworkHelper.add_user` are left out as I/O. Their verdicts are parameters, and the request bodies are not modelled.
- Pulse.PulseApp.UploadMeasurements: models the evidently intended `NetworkHelper.add_record`, whose verdict is a parameter. As written, lib/network/NetworkHelper.py defines only `add_user`, so the attribute lookup at lib/PulseApp.py:232 raises `AttributeError` on every call, before any argument is evaluated. Nothing calls `upload_measurements`: its call in `main_loop` sits inside a string literal (lib/PulseApp.py:210-216).
- LibForm.UiForm.SetUser: a status-200 reply whose JSON is not an object (`null`, a list, a number) is not modelled. The source assigns it to `self.data` and then raises `TypeError` at the item assignment (lib/Ui_Form.py:222-224), which the `except` turns into a message box while the bad `data` stays. The model's reply body is either a user record or unreadable.
- GuiForm.UiForm.SetUser: likewise, an `add_user` answer that is not a dictionary is stored in `self.data` and then raises `TypeError` at lib/GUI_objects/Ui_Form.py:226-227. The model's answer is a user record or none.
- LoginRules.LoginFields.TextChanged: a digit field is modelled with ASCII digits only. Qt's `\d` validator also admits the other Unicode decimal digits, which Python 2's `int()` of a `unicode` text reads; such texts are outside the model.
- GuiForm.UiForm.UserEdit: the same ASCII-only digit fields as `TextChanged`; Unicode decimal digits other than '0'..'9' are not modelled.
- LibForm.UiForm.UserEdit: the same ASCII-only digit fields as `TextChanged`; Unicode decimal digits other than '0'..'9' are not modelled.
- GetPulse.UiForm.UserEdit: the same ASCII-only digit fields as `TextChanged`; Unicode decimal digits other than '0'..'9' are not modelled.
- `constants.APP_SECRET` is absent from constants.py, so building the request body in `add_user` and in lib/Ui_Form.py's `set_user` would raise `AttributeError`. The model assumes the body can be built, and models the reply. constants.py and lib/network/NetworkHelper.py are not part of this model beyond that.
- GuiForm.UiForm.UpdateSessionName: `NetworkHelper` has no `get_formatted_time`, so in the source this call raises `AttributeError` on every edit of a name or surname. The model takes the stamp as `Option<string>`, with `None` for that raise. `Some(stamp)` models the evidently intended `get_formatted_time` of `PulseApp`.
- UtcTime.FormatTimeRoundTrip: only non-negative whole numbers of seconds and years up to 9999 are covered. Fractional or negative times are left out.
- UtcTime.FormatTime: `time.gmtime` raises `ValueError` or `OverflowError` beyond the platform's `time_t` or year range. The model's `GmTime` and `FormatTime` are total over all natural numbers and do not model that bound.
- Qt itself is left out: widgets, layouts, style sheets, message boxes, `setMaxLength` (45 and 10) and signal wiring. A text change is modelled as the text update followed by its `check_state`. The order of `textEdited` against `textChanged` does not matter, because the two slots write disjoint state.
- The GUI form creates its record fields but does not add them to its layout. They still hold their default texts, which the model keeps.
- `CameraLabel` and its capture thread are left out as concurrency. `open_camera`'s call of `setAppData` is modelled inside `FormOkCallback`.
- lib/MainWindow.py is left out: the older main window, not the one the application starts.
- The Escape key, `close_program`, `form_cancel_callback`, `PulseApp.close` and `get_measurement` are left out. They close windows and release devices.
- `make_bpm_plot`, `toggle_display_plot` and get_pulse.py's `key_handler` and `main_loop` are left out. They draw, or read the keyboard.
- get_pulse.py's `toggle_search` is left out because it always raises. At get_pulse.py:130 it calls `self.processor.find_faces_toggle()` without the `data` argument that lib/processors_noopenmdao.py:57 requires, so Python raises `TypeError` before any state changes. That happens on every 's' key (get_pulse.py:99) and on every plot toggle in search mode (get_pulse.py:143-144).
- In get_pulse.py, `set_user` and `open_camera` are left out because they are I/O. The form's gate (`check_state(None)`) is modelled as GetPulse.UiForm.Submit.
- get_pulse.py's `write_csv` saving of `times` and `samples` with `np.savetxt` is left out as file I/O. Only its file name is modelled.
- Pulse.PulseApp.MainLoop: the frame size (`h`, `w`) and the serial and UDP writes of the estimate are left out as I/O.

## Where the source and its description differ

The model follows the code in each case:

- The sampling rate is `L / (t_last - t_first)`, not `(L - 1) / span` (Processor.BinBpmFromSpan).
- `last_center` is moved even when a candidate is rejected. This makes slow drift invisible (Processor.DriftIsNeverAccepted).
- An upload with no heart rates raises when computing `int(nan)`.
- get_pulse.py's `toggle_search` calls `find_faces_toggle()` without its `data` argument, so the 's' key raises `TypeError` instead of toggling the face lock (get_pulse.py:130).
- get_pulse.py's record-length tooltip says "Min 15", but the code accepts only 20..30 (GetPulse.TooltipMinimumRejected).
