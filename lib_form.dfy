/** The stand-alone login form (lib/Ui_Form.py): the shared field
    validation with records 1..100 and lengths 1..60, and a `set_user` that
    only contacts the server for an accepted form and stores the session data
    only on status 200. */
module LibForm {
  import opened Builtins
  import opened LoginRules
  import opened SessionData

  const Ranges := Limits(1, 100, 1, 60)
  const DefaultRecordNum := "5"
  const DefaultRecordLength := "30"
  const StatusOk := 200

  /** The outcome of `requests.post`: no connection, or a status code with a
      body that `json.loads` reads as a user record (`None` when it cannot,
      which raises inside the `try`). */
  datatype ServerReply = ConnectionFailed | Response(status: int, body: Option<UserRecord>)

  class UiForm {
    const fields: LoginFields
    /** `self.data`, which does not exist until a successful `set_user`. */
    var data: Option<SessionData>

    ghost predicate Valid()
      reads this, fields
    {
      fields.Valid() && fields.limits == Ranges &&
      NameText(fields.texts[Name]) && NameText(fields.texts[Surname])
    }

    /** `__init__` and `setupUi`: empty name, surname and JMBAG, the record
        defaults "5" and "30" with their flags true. */
    constructor ()
      ensures Valid() && fresh(fields)
      ensures fields.texts == map[Name := "", Surname := "", Jmbag := "", RecordNum := "5", RecordLength := "30"]
      ensures fields.flags == map[Name := false, Surname := false, Jmbag := false, RecordNum := true, RecordLength := true]
      ensures data == None
    {
      DefaultNumerals();
      fields := new LoginFields(Ranges, DefaultRecordNum, DefaultRecordLength);
      data := None;
    }

    /** The user edits field `f` to `text`; `textChanged` re-judges it. */
    method UserEdit(f: Field, text: string)
      requires Valid()
      requires DigitsOnly(f) ==> AllDigits(text)
      requires (f == Name || f == Surname) ==> NameText(text)
      modifies fields`texts, fields`flags, fields`style
      ensures Valid()
      ensures fields.texts == old(fields.texts)[f := text]
      ensures fields.flags == old(fields.flags)[f := Judge(f, text, Ranges).valid]
      ensures fields.style == old(fields.style)[f := Judge(f, text, Ranges).color]
    {
      fields.TextChanged(f, text);
    }

    /** `set_user` with `reply` what the server did with the request. Only
        an accepted form is sent; the session data is stored only for status
        200 with a readable body; a failed connection or an unreadable body is
        caught and reported in a message box, leaving `data` as it was. */
    method SetUser(reply: ServerReply) returns (messageShown: bool)
      requires Valid()
      modifies fields`flags, fields`style, this`data
      ensures Valid()
      ensures fields.flags == old(fields.flags) && fields.style == old(fields.style)
      ensures !Accepts(fields.texts, Ranges) ==> data == old(data) && !messageShown
      ensures Accepts(fields.texts, Ranges) ==> fields.texts[RecordNum] != [] && fields.texts[RecordLength] != []
      ensures Accepts(fields.texts, Ranges) ==> match reply
        case ConnectionFailed => data == old(data) && messageShown
        case Response(status, body) =>
          if status != StatusOk then data == old(data) && !messageShown
          else if body.None? then data == old(data) && messageShown
          else
            !messageShown &&
            data == Some(SessionData(body.value, IntOf(fields.texts[RecordLength]), IntOf(fields.texts[RecordNum])))
    {
      var ok := fields.CheckState(None);
      if !ok {
        return false;
      }
      AcceptedForm(fields.texts, Ranges);
      match reply
      case ConnectionFailed =>
        messageShown := true;
      case Response(status, body) =>
        if status != StatusOk {
          messageShown := false;
        } else if body.None? {
          messageShown := true;
        } else {
          data := Some(SessionData(body.value, IntOf(fields.texts[RecordLength]), IntOf(fields.texts[RecordNum])));
          messageShown := false;
        }
    }
  }
}
