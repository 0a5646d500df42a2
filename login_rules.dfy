/** The `check_state` validation shared by the three login forms
    (lib/GUI_objects/Ui_Form.py, lib/Ui_Form.py and get_pulse.py): one
    validity flag and one background colour per input field, re-judged for the
    field that sent `textChanged`, and the conjunction of all flags as the
    verdict. The forms differ only in the accepted record ranges and the
    default texts, which are parameters here. */
module LoginRules {
  import opened Builtins

  datatype Field = Name | Surname | Jmbag | RecordNum | RecordLength

  /** `self.color` and `self.errorColor`. */
  datatype Color = Normal | Error

  function ColorCode(c: Color): string {
    match c
    case Normal => "#ffffff"
    case Error => "#f6989d"
  }

  const JmbagLength: nat := 10

  /** Inclusive ranges for the number of records and the record length. */
  datatype Limits = Limits(numLo: int, numHi: int, lenLo: int, lenHi: int)

  /** Fields behind `QRegExpValidator(QRegExp("\d+"))`: they only ever hold
      decimal digits (possibly none). */
  predicate DigitsOnly(f: Field) {
    f == Jmbag || f == RecordNum || f == RecordLength
  }

  /** What `QRegExpValidator(QRegExp("[a-zA-Z ]+"))` lets into the name
      fields of the two `Ui_Form` classes: ASCII letters and spaces. */
  predicate IsNameChar(c: char) {
    'a' <= c <= 'z' || 'A' <= c <= 'Z' || c == ' '
  }

  predicate NameText(s: string) {
    forall i :: 0 <= i < |s| ==> IsNameChar(s[i])
  }

  /** `m` has an entry for every field. */
  predicate Total<V>(m: map<Field, V>) {
    forall f: Field :: f in m
  }

  /** The digits-only fields hold digits. */
  predicate DigitsWhereRequired(texts: map<Field, string>)
    requires Total(texts)
  {
    AllDigits(texts[Jmbag]) && AllDigits(texts[RecordNum]) && AllDigits(texts[RecordLength])
  }

  /** The flag and colour `check_state` gives a field. */
  datatype Verdict = Verdict(valid: bool, color: Color)

  /** The record-field branch: valid when non-empty and `lo <= int(text) <= hi`;
      empty text keeps the normal colour; anything else is shown as an error. */
  function RangeVerdict(text: string, lo: int, hi: int): Verdict
    requires AllDigits(text)
  {
    if |text| > 0 && lo <= IntOf(text) <= hi then Verdict(true, Normal)
    else if |text| == 0 then Verdict(false, Normal)
    else Verdict(false, Error)
  }

  /** The branch of `check_state` for `sender == field`. Name and surname are
      valid when their stripped text is non-empty (their third branch cannot
      be reached); the JMBAG is valid when its stripped text has exactly
      `JmbagLength` characters. */
  function Judge(f: Field, text: string, limits: Limits): Verdict
    requires DigitsOnly(f) ==> AllDigits(text)
  {
    match f
    case Name => Verdict(|UnicodeStrip(text)| > 0, Normal)
    case Surname => Verdict(|UnicodeStrip(text)| > 0, Normal)
    case Jmbag =>
      if |UnicodeStrip(text)| == JmbagLength then Verdict(true, Normal)
      else if |UnicodeStrip(text)| == 0 then Verdict(false, Normal)
      else Verdict(false, Error)
    case RecordNum => RangeVerdict(text, limits.numLo, limits.numHi)
    case RecordLength => RangeVerdict(text, limits.lenLo, limits.lenHi)
  }

  /** A name is accepted exactly when it holds a non-blank character, and
      is never coloured as an error. */
  lemma NameVerdict(f: Field, text: string, limits: Limits)
    requires f == Name || f == Surname
    ensures Judge(f, text, limits).valid <==> exists i :: 0 <= i < |text| && !IsUnicodeSpace(text[i])
    ensures Judge(f, text, limits).color == Normal
  {
  }

  /** On digits-only text a JMBAG is accepted exactly when it has ten digits;
      it is coloured as an error exactly when it is non-empty and has not. */
  lemma JmbagVerdict(text: string, limits: Limits)
    requires AllDigits(text)
    ensures Judge(Jmbag, text, limits).valid <==> |text| == JmbagLength
    ensures Judge(Jmbag, text, limits).color == Error <==> text != [] && |text| != JmbagLength
  {
    if text != [] {
      assert !IsUnicodeSpace(text[0]) && !IsUnicodeSpace(text[|text| - 1]);
    }
  }

  /** A record field is accepted exactly when `int()` reads its text as a
      number in range; it is coloured as an error exactly when it is
      non-empty and out of range. */
  lemma RecordVerdict(f: Field, text: string, limits: Limits)
    requires (f == RecordNum || f == RecordLength) && AllDigits(text)
    ensures var lo := if f == RecordNum then limits.numLo else limits.lenLo;
      var hi := if f == RecordNum then limits.numHi else limits.lenHi;
      (Judge(f, text, limits).valid <==> exists n :: PyInt(text) == Some(n) && lo <= n <= hi) &&
      (Judge(f, text, limits).color == Error <==> text != [] && !(lo <= IntOf(text) <= hi))
  {
    if text == [] {
      assert Strip(text) == [];
    } else {
      IntOfAgrees(text);
    }
  }

  /** Each flag is the verdict on its field's text. */
  predicate Consistent(texts: map<Field, string>, flags: map<Field, bool>, limits: Limits)
    requires Total(texts) && Total(flags) && DigitsWhereRequired(texts)
  {
    flags[Name] == Judge(Name, texts[Name], limits).valid &&
    flags[Surname] == Judge(Surname, texts[Surname], limits).valid &&
    flags[Jmbag] == Judge(Jmbag, texts[Jmbag], limits).valid &&
    flags[RecordNum] == Judge(RecordNum, texts[RecordNum], limits).valid &&
    flags[RecordLength] == Judge(RecordLength, texts[RecordLength], limits).valid
  }

  /** The value `check_state` returns: all five flags are true. */
  predicate AllSet(flags: map<Field, bool>)
    requires Total(flags)
  {
    flags[Name] && flags[Surname] && flags[Jmbag] && flags[RecordNum] && flags[RecordLength]
  }

  /** Re-judging the one field whose text changed keeps every flag the
      verdict on its text. */
  lemma Rejudged(texts: map<Field, string>, flags: map<Field, bool>, limits: Limits, f: Field, text: string)
    requires Total(texts) && Total(flags) && DigitsWhereRequired(texts)
    requires DigitsOnly(f) ==> AllDigits(text)
    requires Consistent(texts, flags, limits)
    ensures Total(texts[f := text]) && DigitsWhereRequired(texts[f := text])
    ensures Consistent(texts[f := text], flags[f := Judge(f, text, limits).valid], limits)
  {
    match f
    case Name =>
    case Surname =>
    case Jmbag =>
    case RecordNum =>
    case RecordLength =>
  }

  /** Re-judging a field on its unchanged text keeps the flags consistent. */
  lemma RejudgedSame(texts: map<Field, string>, flags: map<Field, bool>, limits: Limits, f: Field)
    requires Total(texts) && Total(flags) && DigitsWhereRequired(texts)
    requires Consistent(texts, flags, limits)
    ensures Total(flags[f := Judge(f, texts[f], limits).valid])
    ensures Consistent(texts, flags[f := Judge(f, texts[f], limits).valid], limits)
  {
    match f
    case Name =>
    case Surname =>
    case Jmbag =>
    case RecordNum =>
    case RecordLength =>
  }

  /** Under consistent flags their conjunction is the verdict on the form. */
  lemma ConsistentConjunction(texts: map<Field, string>, flags: map<Field, bool>, limits: Limits)
    requires Total(texts) && Total(flags) && DigitsWhereRequired(texts)
    requires Consistent(texts, flags, limits)
    ensures AllSet(flags) <==>
      Accepts(texts, limits)
  {
  }

  /** Every field is judged acceptable: what `check_state(None)` returns
      once every field has been judged on its current text. */
  predicate Accepts(texts: map<Field, string>, limits: Limits)
    requires Total(texts) && DigitsWhereRequired(texts)
  {
    Judge(Name, texts[Name], limits).valid && Judge(Surname, texts[Surname], limits).valid &&
    Judge(Jmbag, texts[Jmbag], limits).valid && Judge(RecordNum, texts[RecordNum], limits).valid &&
    Judge(RecordLength, texts[RecordLength], limits).valid
  }

  /** An accepted form has a non-blank name and surname, a ten-digit JMBAG
      and both record numbers in range. */
  lemma AcceptedForm(texts: map<Field, string>, limits: Limits)
    requires Total(texts) && DigitsWhereRequired(texts)
    requires Accepts(texts, limits)
    ensures !AllUnicodeSpaces(texts[Name]) && !AllUnicodeSpaces(texts[Surname]) && |texts[Jmbag]| == JmbagLength
    ensures texts[RecordNum] != [] && limits.numLo <= IntOf(texts[RecordNum]) <= limits.numHi
    ensures texts[RecordLength] != [] && limits.lenLo <= IntOf(texts[RecordLength]) <= limits.lenHi
  {
    JmbagVerdict(texts[Jmbag], limits);
  }

  /** The starting texts and flags of a form agree when its default record
      texts are in range. */
  lemma DefaultsConsistent(limits: Limits, recordNum: string, recordLength: string)
    requires recordNum != [] && AllDigits(recordNum) && limits.numLo <= IntOf(recordNum) <= limits.numHi
    requires recordLength != [] && AllDigits(recordLength) && limits.lenLo <= IntOf(recordLength) <= limits.lenHi
    ensures var t := map[Name := "", Surname := "", Jmbag := "", RecordNum := recordNum, RecordLength := recordLength];
      var fl := map[Name := false, Surname := false, Jmbag := false, RecordNum := true, RecordLength := true];
      Total(t) && Total(fl) && DigitsWhereRequired(t) && Consistent(t, fl, limits)
  {
    var t := map[Name := "", Surname := "", Jmbag := "", RecordNum := recordNum, RecordLength := recordLength];
    var fl := map[Name := false, Surname := false, Jmbag := false, RecordNum := true, RecordLength := true];
    assert UnicodeStrip("") == [];
    forall g: Field ensures g in t && g in fl {
      match g
      case Name =>
      case Surname =>
      case Jmbag =>
      case RecordNum =>
      case RecordLength =>
    }
  }

  /** `int()` of the default record texts of the three forms. */
  lemma DefaultNumerals()
    ensures AllDigits("5") && AllDigits("10") && AllDigits("20") && AllDigits("30")
    ensures IntOf("5") == 5 && IntOf("10") == 10 && IntOf("20") == 20 && IntOf("30") == 30
  {
    assert "10"[..1] == "1" && "20"[..1] == "2" && "30"[..1] == "3";
  }

  /** The five input fields of a login form with their flags and colours. */
  class LoginFields {
    const limits: Limits
    var texts: map<Field, string>
    var flags: map<Field, bool>
    var style: map<Field, Color>

    /** Every field has a text, a flag and a colour, and digits-only fields
        hold digits. */
    ghost predicate WellFormed()
      reads this
    {
      Total(texts) && Total(flags) && Total(style) && DigitsWhereRequired(texts)
    }

    /** Each flag is the verdict on its field's current text, because every
        text change is followed by `check_state` for that field. */
    ghost predicate Valid()
      reads this
    {
      WellFormed() && Consistent(texts, flags, limits)
    }

    /** The fields as `__init__` leaves them: empty name, surname and JMBAG
        with false flags, the default record texts with true flags ("minimal
        default value is set"), which the defaults must justify. */
    constructor (limits: Limits, recordNum: string, recordLength: string)
      requires recordNum != [] && AllDigits(recordNum) && limits.numLo <= IntOf(recordNum) <= limits.numHi
      requires recordLength != [] && AllDigits(recordLength) && limits.lenLo <= IntOf(recordLength) <= limits.lenHi
      ensures Valid() && this.limits == limits
      ensures texts[Name] == [] && texts[Surname] == [] && texts[Jmbag] == []
      ensures texts == map[Name := "", Surname := "", Jmbag := "", RecordNum := recordNum, RecordLength := recordLength]
      ensures flags == map[Name := false, Surname := false, Jmbag := false, RecordNum := true, RecordLength := true]
      ensures style == map[Name := Normal, Surname := Normal, Jmbag := Normal, RecordNum := Normal, RecordLength := Normal]
    {
      var t := map[Name := "", Surname := "", Jmbag := "", RecordNum := recordNum, RecordLength := recordLength];
      var fl := map[Name := false, Surname := false, Jmbag := false, RecordNum := true, RecordLength := true];
      var st := map[Name := Normal, Surname := Normal, Jmbag := Normal, RecordNum := Normal, RecordLength := Normal];
      DefaultsConsistent(limits, recordNum, recordLength);
      forall g: Field ensures g in st {
        match g
        case Name =>
        case Surname =>
        case Jmbag =>
        case RecordNum =>
        case RecordLength =>
      }
      this.limits := limits;
      texts, flags, style := t, fl, st;
    }

    /** `check_state(sender)`: re-judge the sender's field only (nothing for
        `None`), then return the conjunction of all five flags. */
    method CheckState(sender: Option<Field>) returns (ok: bool)
      requires WellFormed()
      modifies this`flags, this`style
      ensures WellFormed()
      ensures sender.None? ==> flags == old(flags) && style == old(style)
      ensures sender.Some? ==>
        (var v := Judge(sender.value, texts[sender.value], limits);
         flags == old(flags)[sender.value := v.valid] && style == old(style)[sender.value := v.color])
      ensures ok == AllSet(flags)
      ensures old(Valid()) ==> Valid() && (ok <==> Accepts(texts, limits))
    {
      if sender.Some? {
        var f := sender.value;
        var v := Judge(f, texts[f], limits);
        if Valid() {
          RejudgedSame(texts, flags, limits, f);
        }
        flags := flags[f := v.valid];
        style := style[f := v.color];
      }
      ok := flags[Name] && flags[Surname] && flags[Jmbag] && flags[RecordNum] && flags[RecordLength];
      if old(Valid()) {
        ConsistentConjunction(texts, flags, limits);
      }
    }

    /** A new text in field `f` (`setText` or typing), which the validator
        keeps to digits for the digits-only fields, and the `textChanged`
        signal that runs `check_state(f)`. */
    method TextChanged(f: Field, text: string)
      requires Valid() && (DigitsOnly(f) ==> AllDigits(text))
      modifies this`texts, this`flags, this`style
      ensures Valid()
      ensures texts == old(texts)[f := text]
      ensures flags == old(flags)[f := Judge(f, text, limits).valid]
      ensures style == old(style)[f := Judge(f, text, limits).color]
    {
      Rejudged(texts, flags, limits, f, text);
      texts := texts[f := text];
      var _ := CheckState(Some(f));
    }
  }
}
