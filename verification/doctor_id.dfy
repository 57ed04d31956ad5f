/**
  `generate_doctor_id`: the identifier `DR-HHMM-ddmmyy` built from the current time, and
  the reading of such an identifier back into its five two-digit fields.
 */
module DoctorId {
  import opened Options
  import opened Digits
  import opened Calendar

  /** The moment `datetime.now()` returns, to the second. */
  datatype Timestamp = Timestamp(date: Date, hour: int, minute: int, second: int)

  predicate ValidTimestamp(t: Timestamp) {
    && ValidDate(t.date)
    && 0 <= t.hour < 24
    && 0 <= t.minute < 60
    && 0 <= t.second < 60
  }

  /** The five fields an identifier keeps: hour, minute, day, month and the year modulo 100. */
  datatype IdStamp = IdStamp(hour: nat, minute: nat, day: nat, month: nat, yy: nat)

  predicate StampInRange(s: IdStamp) {
    s.hour < 100 && s.minute < 100 && s.day < 100 && s.month < 100 && s.yy < 100
  }

  /** What `%H%M-%d%m%y` reads from a timestamp; `%y` is the year without its century. */
  function StampOf(t: Timestamp): (s: IdStamp)
    requires ValidTimestamp(t)
    ensures StampInRange(s)
  {
    IdStamp(t.hour, t.minute, t.date.day, t.date.month, t.date.year % 100)
  }

  const Prefix: string := "DR-"

  /** An identifier of the generated shape: `DR-`, four digits, `-`, six digits. */
  predicate IsDoctorIdShape(id: string) {
    && |id| == 14
    && id[..3] == Prefix
    && id[7] == '-'
    && (forall i | 3 <= i < 7 :: IsDigit(id[i]))
    && (forall i | 8 <= i < 14 :: IsDigit(id[i]))
  }

  function FormatStamp(s: IdStamp): (id: string)
    requires StampInRange(s)
    ensures IsDoctorIdShape(id)
  {
    Prefix + TwoDigits(s.hour) + TwoDigits(s.minute) + "-"
      + TwoDigits(s.day) + TwoDigits(s.month) + TwoDigits(s.yy)
  }

  /**
    Reads an identifier back into its fields. Every identifier of the generated shape is
    read, and writing the fields out again gives the identifier back.
   */
  function ParseDoctorId(id: string): (r: Option<IdStamp>)
    ensures r.Some? <==> IsDoctorIdShape(id)
    ensures r.Some? ==> StampInRange(r.value) && FormatStamp(r.value) == id
  {
    if IsDoctorIdShape(id) then
      var s := IdStamp(ParseTwoDigits(id[3..5]).value, ParseTwoDigits(id[5..7]).value,
                       ParseTwoDigits(id[8..10]).value, ParseTwoDigits(id[10..12]).value,
                       ParseTwoDigits(id[12..14]).value);
      assert id == id[..3] + id[3..5] + id[5..7] + id[7..8] + id[8..10] + id[10..12] + id[12..14];
      Some(s)
    else
      None
  }

  /** Reading a written identifier gives back exactly the fields it was written from. */
  lemma ParseFormatStamp(s: IdStamp)
    requires StampInRange(s)
    ensures ParseDoctorId(FormatStamp(s)) == Some(s)
  {
  }

  /** `generate_doctor_id`: `DR-` followed by `%H%M-%d%m%y` of `now`, 14 characters in all. */
  function GenerateDoctorId(now: Timestamp): (id: string)
    requires ValidTimestamp(now)
    ensures |id| == 14 && id[..3] == "DR-"
  {
    FormatStamp(StampOf(now))
  }

  /**
    Every generated identifier has the generated shape, and its digits read back as the hour,
    minute, day, month and two-digit year of `now`.
   */
  lemma GeneratedIdReadsBack(now: Timestamp)
    requires ValidTimestamp(now)
    ensures IsDoctorIdShape(GenerateDoctorId(now))
    ensures ParseDoctorId(GenerateDoctorId(now)) == Some(StampOf(now))
  {
  }

  /**
    Two generated identifiers are equal exactly when the timestamps agree on hour, minute,
    day, month and year modulo 100; seconds and the century are not part of the identifier.
   */
  lemma GeneratedIdsCollide(t1: Timestamp, t2: Timestamp)
    requires ValidTimestamp(t1) && ValidTimestamp(t2)
    ensures GenerateDoctorId(t1) == GenerateDoctorId(t2) <==> StampOf(t1) == StampOf(t2)
  {
    GeneratedIdReadsBack(t1);
    GeneratedIdReadsBack(t2);
  }

}
