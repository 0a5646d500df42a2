/** The `data` dictionary that travels from the login form to the pulse
    application and its processor: what the server returned for the new user
    (`user_id`, `identifier_id`) plus the two numbers the form adds,
    `record_length` and `number_of_records`. */
module SessionData {

  /** The JSON object the server answers `add_user` with. */
  datatype UserRecord = UserRecord(userId: int, identifierId: int)

  datatype SessionData = SessionData(user: UserRecord, recordLength: int, numberOfRecords: int)
}
