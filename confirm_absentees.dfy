/** The ConfirmAbsentees screen: the absentees of a draft with a per-parent
    SMS switch, the "send to all" switch, and the attendance request built
    from the class's current roster. */
module ConfirmAbsentees {
  import opened Outcomes
  import opened Seqs
  import opened Decimal
  import opened Roster
  import opened TakeAttendance

  /** An absentee with its SMS switch: `{...student, sendSms}`. */
  datatype AbsentStudent = AbsentStudent(student: Student, sendSms: bool)

  /** One element of the request's `records`. */
  datatype Record = Record(student: string, present: bool)

  /** The JSON body of `POST /attendance`. */
  datatype AttendanceBody = AttendanceBody(
    classroomId: string,
    date: string,
    records: seq<Record>,
    sendSmsTo: seq<string>,
    sendSmsToAllAbsent: bool)

  predicate WantsSms(a: AbsentStudent) {
    a.sendSms
  }

  function AbsentStudentId(a: AbsentStudent): string {
    a.student.id
  }

  function AbsenteeStudents(list: seq<AbsentStudent>): (r: seq<Student>)
    ensures |r| == |list| && forall i :: 0 <= i < |r| ==> r[i] == list[i].student
  {
    Map(list, (a: AbsentStudent) => a.student)
  }

  /** The initial list: every absentee of the draft, SMS switched on. */
  function InitialAbsentStudents(absentees: seq<Entry>): (r: seq<AbsentStudent>)
    ensures AbsenteeStudents(r) == StudentsOf(absentees)
    ensures forall i :: 0 <= i < |r| ==> r[i].sendSms
  {
    Map(absentees, (e: Entry) => AbsentStudent(e.student, true))
  }

  /** `toggleAllSms(value)` on the list: every switch set to `value`. */
  function WithSms(list: seq<AbsentStudent>, value: bool): (r: seq<AbsentStudent>)
    ensures AbsenteeStudents(r) == AbsenteeStudents(list)
    ensures forall i :: 0 <= i < |r| ==> r[i].sendSms == value
  {
    Map(list, (a: AbsentStudent) => AbsentStudent(a.student, value))
  }

  /** `toggleStudentSms(id)` on the list: the switches of the entries with
      that id flip, every other entry is kept. */
  function ToggledSms(list: seq<AbsentStudent>, id: string): (r: seq<AbsentStudent>)
    ensures AbsenteeStudents(r) == AbsenteeStudents(list)
    ensures forall i :: 0 <= i < |r| && list[i].student.id == id ==> r[i].sendSms == !list[i].sendSms
    ensures forall i :: 0 <= i < |r| && list[i].student.id != id ==> r[i] == list[i]
  {
    Map(list, (a: AbsentStudent) => if a.student.id == id then AbsentStudent(a.student, !a.sendSms) else a)
  }

  /** `list.every((student) => student.sendSms)`, true for the empty list. */
  predicate AllWantSms(list: seq<AbsentStudent>) {
    forall i :: 0 <= i < |list| ==> list[i].sendSms
  }

  /** `list.some((student) => student.sendSms)`. */
  predicate SomeWantSms(list: seq<AbsentStudent>) {
    exists i :: 0 <= i < |list| && list[i].sendSms
  }

  /** `smsStudentIds`: the ids whose switch is on, in list order. */
  function SmsStudentIds(list: seq<AbsentStudent>): seq<string> {
    Map(Filter(list, WantsSms), AbsentStudentId)
  }

  /** `records`: one record per id of the fetched roster, in roster order,
      present unless the id is among the draft's absent ids. */
  function BuildRecords(rosterIds: seq<string>, absentIds: seq<string>): (r: seq<Record>)
    ensures |r| == |rosterIds|
    ensures forall i :: 0 <= i < |r| ==> r[i].student == rosterIds[i]
    ensures forall i :: 0 <= i < |r| ==> (r[i].present <==> rosterIds[i] !in absentIds)
  {
    Map(rosterIds, (id: string) => Record(id, id !in absentIds))
  }

  const NoRecords := "No student records found for attendance"

  /** The request `handleSubmitAttendance` would send, given what the fetch
      of the class (through `handleApiResponse`) produced: the ids of its
      current students, or the error it threw. */
  function SubmissionRequest(classroomId: string, date: string, absentIds: seq<string>,
                             list: seq<AbsentStudent>, sendToAll: bool,
                             fetched: Result<seq<string>>): (r: Result<AttendanceBody>)
    ensures fetched.Err? ==> r == Err(fetched.message)
    ensures fetched.Ok? && fetched.value == [] ==> r == Err(NoRecords)
    ensures fetched.Ok? && fetched.value != [] ==>
              r == Ok(AttendanceBody(classroomId, date, BuildRecords(fetched.value, absentIds),
                                     SmsStudentIds(list), sendToAll))
  {
    match fetched
    case Err(m) => Err(m)
    case Ok(ids) =>
      var records := BuildRecords(ids, absentIds);
      if |records| == 0 then Err(NoRecords)
      else Ok(AttendanceBody(classroomId, date, records, SmsStudentIds(list), sendToAll))
  }

  /** The success text: how many parents get an SMS, with the plural. */
  function SuccessMessage(classroomName: string, smsCount: nat): string {
    "Attendance marked successfully for " + classroomName + ".\n" +
    (if smsCount > 0
     then "SMS will be sent to parents of " + NatToString(smsCount) + " absent student" +
          (if smsCount > 1 then "s" else "") + "."
     else "No SMS notifications will be sent.")
  }

  /** The alert at the end of `handleSubmitAttendance`: `posted` is what the
      POST produced through `handleApiResponse`, when it was sent. */
  function SubmitAlert(classroomName: string, request: Result<AttendanceBody>, posted: Result<()>): (a: Alert)
    ensures request.Ok? && posted.Ok? ==> a == Alert("Success", SuccessMessage(classroomName, |request.value.sendSmsTo|))
    ensures request.Err? ==> a == Alert("Error", OrElse(request.message, "Failed to mark attendance. Please try again."))
    ensures request.Ok? && posted.Err? ==> a == Alert("Error", OrElse(posted.message, "Failed to mark attendance. Please try again."))
  {
    match request
    case Err(m) => Alert("Error", OrElse(m, "Failed to mark attendance. Please try again."))
    case Ok(body) =>
      match posted
      case Err(m) => Alert("Error", OrElse(m, "Failed to mark attendance. Please try again."))
      case Ok(_) => Alert("Success", SuccessMessage(classroomName, |body.sendSmsTo|))
  }

  /** The summary line: `totalStudents - absentStudentIds.length`. */
  function PresentDisplay(totalStudents: nat, absentIds: seq<string>): int {
    totalStudents - |absentIds|
  }

  /** The submit button's title. */
  function ButtonTitle(list: seq<AbsentStudent>): string {
    "Save Attendance" + (if SomeWantSms(list) then " & Send SMS" else "")
  }

  lemma {:induction false} FilterEmptyIffNone(list: seq<AbsentStudent>)
    ensures Filter(list, WantsSms) == [] <==> !SomeWantSms(list)
    decreases |list|
  {
    if list != [] {
      FilterEmptyIffNone(list[1..]);
      assert SomeWantSms(list) <==> list[0].sendSms || SomeWantSms(list[1..]) by {
        if SomeWantSms(list[1..]) {
          var i :| 0 <= i < |list[1..]| && list[1..][i].sendSms;
          assert list[i + 1].sendSms;
        }
        if SomeWantSms(list) {
          var i :| 0 <= i < |list| && list[i].sendSms;
          if i > 0 {
            assert list[1..][i - 1].sendSms;
          }
        }
      }
    }
  }

  /** The title promises an SMS exactly when the request will name at least
      one parent to text. */
  lemma ButtonTitleIff(list: seq<AbsentStudent>)
    ensures ButtonTitle(list) == "Save Attendance & Send SMS" <==> |SmsStudentIds(list)| > 0
    ensures ButtonTitle(list) == "Save Attendance" <==> SmsStudentIds(list) == []
  {
    FilterEmptyIffNone(list);
  }

  /** Every id an SMS goes to belongs to an absentee whose switch is on. */
  lemma SmsIdsAreSwitchedOnAbsentees(list: seq<AbsentStudent>, id: string)
    ensures id in SmsStudentIds(list) ==> exists i :: 0 <= i < |list| && list[i].student.id == id && list[i].sendSms
  {
    var f := Filter(list, WantsSms);
    if id in SmsStudentIds(list) {
      var k :| 0 <= k < |f| && SmsStudentIds(list)[k] == id;
      assert f[k] in f;
      var i :| 0 <= i < |list| && list[i] == f[k];
    }
  }

  /** With every switch on, every absentee gets an SMS. */
  lemma AllSwitchedOnSendsToEveryone(list: seq<AbsentStudent>)
    requires AllWantSms(list)
    ensures SmsStudentIds(list) == Map(list, AbsentStudentId)
  {
    FilterKeepsAll(list, WantsSms);
  }

  /** With every switch off, no SMS is requested. */
  lemma AllSwitchedOffSendsToNoone(list: seq<AbsentStudent>)
    requires forall i :: 0 <= i < |list| ==> !list[i].sendSms
    ensures SmsStudentIds(list) == []
  {
    FilterKeepsNone(list, WantsSms);
  }

  /** The present count shown here is the present count of the draft it
      came from. */
  lemma PresentDisplayMatchesDraft(classroomId: string, classroomName: string, date: string, entries: seq<Entry>)
    ensures var p := ProceedParamsOf(classroomId, classroomName, date, entries);
            PresentDisplay(p.totalStudents, p.absentStudentIds) == PresentCount(entries)
  {
  }

  /** When the class's roster is the one the draft was taken on, each
      record's `present` is that student's mark in the draft. */
  lemma RecordsMatchDraft(entries: seq<Entry>)
    requires SameIdSameStatus(entries)
    ensures var r := BuildRecords(Map(entries, EntryId), AbsentIds(entries));
            |r| == |entries| &&
            forall i :: 0 <= i < |r| ==> r[i] == Record(entries[i].student.id, entries[i].status == Present)
  {
    var ids := Map(entries, EntryId);
    var r := BuildRecords(ids, AbsentIds(entries));
    forall i | 0 <= i < |r| ensures r[i] == Record(entries[i].student.id, entries[i].status == Present) {
      AbsentIdsAgreeWithMarks(entries, i);
    }
  }

  /** An absent id that is not on the fetched roster adds no record, and a
      student who joined after the draft is recorded present. */
  lemma RecordsFollowFetchedRoster(rosterIds: seq<string>, absentIds: seq<string>, id: string)
    ensures (exists i :: 0 <= i < |BuildRecords(rosterIds, absentIds)| && BuildRecords(rosterIds, absentIds)[i].student == id)
            <==> id in rosterIds
  {
    var r := BuildRecords(rosterIds, absentIds);
    if id in rosterIds {
      var i :| 0 <= i < |rosterIds| && rosterIds[i] == id;
      assert r[i].student == id;
    }
  }

  /** The screen's state. */
  class AbsenteeReview {
    const classroomId: string
    const classroomName: string
    const date: string
    const absentStudentIds: seq<string>
    const totalStudents: nat
    /** The absentees the screen was opened with. */
    const absentees: seq<Student>
    var absentStudents: seq<AbsentStudent>
    var sendToAll: bool

    /** The "send to all" switch shows whether every switch is on. With no
        absentee the switch is not shown; `toggleAllSms(false)` would still
        turn it off there, although `every` on the empty list is true. */
    ghost predicate Valid()
      reads this
    {
      && AbsenteeStudents(absentStudents) == absentees
      && (absentStudents != [] ==> sendToAll == AllWantSms(absentStudents))
    }

    /** Opening the screen with the parameters of `handleProceed`. */
    constructor(p: ProceedParams)
      ensures Valid()
      ensures classroomId == p.classroomId && classroomName == p.classroomName && date == p.date
      ensures absentStudentIds == p.absentStudentIds && totalStudents == p.totalStudents
      ensures absentStudents == InitialAbsentStudents(p.absentStudents) && sendToAll
    {
      classroomId := p.classroomId;
      classroomName := p.classroomName;
      date := p.date;
      absentStudentIds := p.absentStudentIds;
      totalStudents := p.totalStudents;
      absentees := StudentsOf(p.absentStudents);
      absentStudents := InitialAbsentStudents(p.absentStudents);
      sendToAll := true;
    }

    method ToggleAllSms(value: bool)
      requires Valid()
      modifies this
      ensures Valid()
      ensures absentStudents == WithSms(old(absentStudents), value) && sendToAll == value
    {
      sendToAll := value;
      absentStudents := WithSms(absentStudents, value);
    }

    method ToggleStudentSms(id: string)
      requires Valid()
      modifies this
      ensures Valid()
      ensures absentStudents == ToggledSms(old(absentStudents), id)
      ensures sendToAll == AllWantSms(absentStudents)
    {
      var updated := ToggledSms(absentStudents, id);
      absentStudents := updated;
      sendToAll := forall i | 0 <= i < |updated| :: updated[i].sendSms;
    }

    /** `handleSubmitAttendance` up to the alert it shows: the request built
      from the fetched roster (none when that fetch failed or the roster is
      empty) and the alert for the outcome of the POST. */
    method SubmitAttendance(fetched: Result<seq<string>>, posted: Result<()>)
      returns (request: Result<AttendanceBody>, alert: Alert)
      requires Valid()
      ensures request == SubmissionRequest(classroomId, date, absentStudentIds, absentStudents, sendToAll, fetched)
      ensures request.Ok? ==> request.value.sendSmsToAllAbsent == sendToAll
      ensures request.Ok? && absentStudents != [] ==> request.value.sendSmsToAllAbsent == AllWantSms(absentStudents)
      ensures alert == SubmitAlert(classroomName, request, posted)
    {
      var smsStudentIds := SmsStudentIds(absentStudents);
      if fetched.Err? {
        request := Err(fetched.message);
      } else {
        var records := BuildRecords(fetched.value, absentStudentIds);
        if |records| == 0 {
          request := Err(NoRecords);
        } else {
          request := Ok(AttendanceBody(classroomId, date, records, smsStudentIds, sendToAll));
        }
      }
      alert := SubmitAlert(classroomName, request, posted);
    }
  }
}
