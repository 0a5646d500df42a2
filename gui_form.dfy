/** The login form of the Qt front end (lib/GUI_objects/Ui_Form.py): the
    shared field validation with records 1..100 and lengths 1..60, the
    session name filled in from name, surname and a timestamp until the user
    edits it, and `set_user`, which turns the server's answer into the session
    data. */
module GuiForm {
  import opened Builtins
  import opened LoginRules
  import opened SessionData

  const Ranges := Limits(1, 100, 1, 60)
  const DefaultRecordNum := "5"
  const DefaultRecordLength := "30"

  /** What `NetworkHelper.add_user` hands back: `(is_success, data)`. */
  datatype AddUserReply = AddUserReply(isSuccess: bool, data: Option<UserRecord>)

  /** `self.data`: never assigned, assigned the server's dictionary but not
      yet completed (an exception interrupted `set_user`), or complete. */
  datatype FormData = Unset | UserOnly(user: UserRecord) | Complete(session: SessionData)

  /** The automatic session name. */
  function AutoName(name: string, surname: string, stamp: string): (r: string)
    ensures |r| == |name| + |surname| + |stamp| + 2
  {
    name + "_" + surname + "_" + stamp
  }

  /** Names that the validator admits contain no `_`, so the automatic
      session name splits back into name, surname and timestamp at its
      first two underscores. */
  lemma AutoNameSplits(name: string, surname: string, stamp: string)
    requires NameText(name) && NameText(surname)
    ensures var r := AutoName(name, surname, stamp);
      '_' in r && IndexOf(r, '_') == |name| && r[..|name|] == name &&
      (var rest := r[|name| + 1..];
       '_' in rest && IndexOf(rest, '_') == |surname| &&
       rest[..|surname|] == surname && rest[|surname| + 1..] == stamp)
  {
    var r := AutoName(name, surname, stamp);
    assert '_' !in name && '_' !in surname;
    assert r == name + ['_'] + (surname + "_" + stamp);
    IndexOfAfter(name, '_', surname + "_" + stamp);
    var rest := r[|name| + 1..];
    assert rest == surname + ['_'] + stamp;
    IndexOfAfter(surname, '_', stamp);
  }

  class UiForm {
    const fields: LoginFields
    var sessionName: string
    var sessionTextEditedFlag: bool
    var data: FormData

    /** The fields are consistent, use this form's ranges, and the name
        fields hold what their validator admits. */
    ghost predicate Valid()
      reads this, fields
    {
      fields.Valid() && fields.limits == Ranges &&
      NameText(fields.texts[Name]) && NameText(fields.texts[Surname])
    }

    /** `__init__` and `setupUi`: empty name, surname, JMBAG and session name,
        the record defaults "5" and "30", no manual session-name edit yet. */
    constructor ()
      ensures Valid() && fresh(fields)
      ensures fields.texts == map[Name := "", Surname := "", Jmbag := "", RecordNum := "5", RecordLength := "30"]
      ensures fields.flags == map[Name := false, Surname := false, Jmbag := false, RecordNum := true, RecordLength := true]
      ensures sessionName == "" && !sessionTextEditedFlag && data == Unset
    {
      DefaultNumerals();
      fields := new LoginFields(Ranges, DefaultRecordNum, DefaultRecordLength);
      sessionName := "";
      sessionTextEditedFlag := false;
      data := Unset;
    }

    /** The user types `text` into the session-name field (`textEdited`,
        connected to `session_text_edited`): the latch is set for good. */
    method SessionTextEdited(text: string)
      modifies this`sessionName, this`sessionTextEditedFlag
      ensures sessionName == text && sessionTextEditedFlag
    {
      sessionName := text;
      if !sessionTextEditedFlag {
        sessionTextEditedFlag := true;
      }
    }

    /** `update_session_name`, with `stamp` the value of
        `NetworkHelper.get_formatted_time(None)` (`None` when `NetworkHelper`
        has no such member, which raises before the name is set). Once the
        latch is set the session name is left alone. */
    method UpdateSessionName(stamp: Option<string>) returns (outcome: Outcome)
      requires Valid()
      modifies this`sessionName
      ensures sessionTextEditedFlag ==> outcome == Completed && sessionName == old(sessionName)
      ensures !sessionTextEditedFlag && stamp.None? ==>
        outcome == Raised(AttributeError) && sessionName == old(sessionName)
      ensures !sessionTextEditedFlag && stamp.Some? ==>
        outcome == Completed && sessionName == AutoName(fields.texts[Name], fields.texts[Surname], stamp.value)
    {
      if sessionTextEditedFlag {
        return Completed;
      }
      if stamp.None? {
        return Raised(AttributeError);
      }
      sessionName := AutoName(fields.texts[Name], fields.texts[Surname], stamp.value);
      outcome := Completed;
    }

    /** The user edits field `f` to `text`: `textChanged` re-judges the
        field; for the name and surname `textEdited` also refreshes the
        session name (the two touch different state). */
    method UserEdit(f: Field, text: string, stamp: Option<string>) returns (outcome: Outcome)
      requires Valid()
      requires DigitsOnly(f) ==> AllDigits(text)
      requires (f == Name || f == Surname) ==> NameText(text)
      modifies this`sessionName, fields`texts, fields`flags, fields`style
      ensures Valid()
      ensures fields.texts == old(fields.texts)[f := text]
      ensures fields.flags == old(fields.flags)[f := Judge(f, text, Ranges).valid]
      ensures fields.style == old(fields.style)[f := Judge(f, text, Ranges).color]
      ensures !(f == Name || f == Surname) || sessionTextEditedFlag || stamp.None? ==>
        sessionName == old(sessionName)
      ensures (f == Name || f == Surname) && !sessionTextEditedFlag && stamp.Some? ==>
        sessionName == AutoName(fields.texts[Name], fields.texts[Surname], stamp.value)
      ensures outcome.Raised? <==> (f == Name || f == Surname) && !sessionTextEditedFlag && stamp.None?
    {
      fields.TextChanged(f, text);
      if f == Name || f == Surname {
        outcome := UpdateSessionName(stamp);
      } else {
        outcome := Completed;
      }
    }

    /** `set_user` with `reply` the answer of `add_user`. `int()` of the
        record number is taken for the request and raises on an empty field;
        a failed or empty answer returns `False`; otherwise the answer is
        stored and completed, where `int()` of an empty record length raises
        after the answer was stored. */
    method SetUser(reply: AddUserReply) returns (r: Result<bool>)
      requires Valid()
      modifies this`data
      ensures Valid()
      ensures fields.texts[RecordNum] == [] ==> r == Err(ValueError) && data == old(data)
      ensures fields.texts[RecordNum] != [] && (!reply.isSuccess || reply.data.None?) ==>
        r == Ok(false) && data == old(data)
      ensures fields.texts[RecordNum] != [] && reply.isSuccess && reply.data.Some? ==>
        if fields.texts[RecordLength] == [] then
          r == Err(ValueError) && data == UserOnly(reply.data.value)
        else
          r == Ok(true) &&
          data == Complete(SessionData(reply.data.value, IntOf(fields.texts[RecordLength]), IntOf(fields.texts[RecordNum])))
    {
      var num := fields.texts[RecordNum];
      if num == [] {
        return Err(ValueError);
      }
      if !reply.isSuccess || reply.data.None? {
        return Ok(false);
      }
      data := UserOnly(reply.data.value);
      var len := fields.texts[RecordLength];
      if len == [] {
        return Err(ValueError);
      }
      data := Complete(SessionData(reply.data.value, IntOf(len), IntOf(num)));
      r := Ok(true);
    }

    /** The two calls `form_ok_callback` makes on the form: `check_state(None)`
        (which re-judges nothing) and, when it passes, `set_user`; true when
        both return true. On an accepted form `set_user` cannot raise. */
    method Admit(reply: AddUserReply) returns (proceed: bool)
      requires Valid()
      modifies fields`flags, fields`style, this`data
      ensures Valid() && fields.flags == old(fields.flags) && fields.style == old(fields.style)
      ensures proceed <==> AllSet(fields.flags) && reply.isSuccess && reply.data.Some?
      ensures !proceed ==> data == old(data)
      ensures proceed ==>
        data == Complete(SessionData(reply.data.value, IntOf(fields.texts[RecordLength]), IntOf(fields.texts[RecordNum])))
    {
      var ok := fields.CheckState(None);
      if !ok {
        return false;
      }
      AcceptedForm(fields.texts, Ranges);
      var r := SetUser(reply);
      proceed := r == Ok(true);
    }
  }
}
