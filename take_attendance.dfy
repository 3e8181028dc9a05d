/** The attendance draft of the TakeAttendance screen: every student of the
    class with a present/absent mark, a search box over them, and the
    parameters handed to the confirmation screen. */
module TakeAttendance {
  import opened Seqs
  import opened JsString
  import opened Roster

  datatype Status = Present | Absent

  /** A roster entry with its mark: `{...student, status}`. */
  datatype Entry = Entry(student: Student, status: Status)

  function Flip(s: Status): (r: Status)
    ensures r != s
  {
    if s == Present then Absent else Present
  }

  predicate IsAbsent(e: Entry) {
    e.status == Absent
  }

  predicate IsPresent(e: Entry) {
    e.status == Present
  }

  function StudentOfEntry(e: Entry): Student {
    e.student
  }

  function EntryId(e: Entry): string {
    e.student.id
  }

  function StudentsOf(entries: seq<Entry>): (r: seq<Student>)
    ensures |r| == |entries| && forall i :: 0 <= i < |r| ==> r[i] == entries[i].student
  {
    Map(entries, StudentOfEntry)
  }

  /** The initial state: each student of the route's roster, marked present. */
  function InitialEntries(roster: seq<Student>): (r: seq<Entry>)
    ensures StudentsOf(r) == roster
    ensures forall i :: 0 <= i < |r| ==> r[i].status == Present
  {
    Map(roster, (s: Student) => Entry(s, Present))
  }

  /** `toggleStudentStatus(id)`: every entry with that id changes mark,
      every other entry is kept as it is. */
  function Toggled(entries: seq<Entry>, id: string): (r: seq<Entry>)
    ensures StudentsOf(r) == StudentsOf(entries)
    ensures forall i :: 0 <= i < |r| && entries[i].student.id == id ==> r[i].status != entries[i].status
    ensures forall i :: 0 <= i < |r| && entries[i].student.id != id ==> r[i] == entries[i]
  {
    Map(entries, (e: Entry) => if e.student.id == id then Entry(e.student, Flip(e.status)) else e)
  }

  /** `handleAllPresent`: the whole list, not only the visible part, is
      marked present. */
  function AllPresent(entries: seq<Entry>): (r: seq<Entry>)
    ensures StudentsOf(r) == StudentsOf(entries)
    ensures forall i :: 0 <= i < |r| ==> r[i].status == Present
  {
    Map(entries, (e: Entry) => Entry(e.student, Present))
  }

  /** `students.filter((student) => student.status === "absent")`. */
  function Absentees(entries: seq<Entry>): seq<Entry> {
    Filter(entries, IsAbsent)
  }

  /** The ids of the absentees, in roster order. */
  function AbsentIds(entries: seq<Entry>): seq<string> {
    Map(Absentees(entries), EntryId)
  }

  function AbsentCount(entries: seq<Entry>): nat {
    |Absentees(entries)|
  }

  /** `students.length - absentCount`. */
  function PresentCount(entries: seq<Entry>): int {
    |entries| - AbsentCount(entries)
  }

  /** The visible list: everyone when the trimmed search is empty, else
      the entries whose name or registration id contains the lower-cased,
      untrimmed query. */
  function SearchView(entries: seq<Entry>, search: string): seq<Entry> {
    TrimmedSearch(entries, StudentOfEntry, search)
  }

  /** Entries that share an id share a mark; the roster's ids are expected
      to be distinct, and the handlers keep this even when they are not. */
  predicate SameIdSameStatus(entries: seq<Entry>) {
    forall i, j :: 0 <= i < |entries| && 0 <= j < |entries| && entries[i].student.id == entries[j].student.id ==>
      entries[i].status == entries[j].status
  }

  /** The route parameters of `navigation.navigate("ConfirmAbsentees", ...)`. */
  datatype ProceedParams = ProceedParams(
    classroomId: string,
    classroomName: string,
    date: string,
    absentStudentIds: seq<string>,
    absentStudents: seq<Entry>,
    totalStudents: nat)

  /** The parameters `handleProceed` passes for a given list. */
  function ProceedParamsOf(classroomId: string, classroomName: string, date: string, entries: seq<Entry>): (p: ProceedParams)
    ensures p.absentStudents == Absentees(entries)
    ensures |p.absentStudentIds| == |p.absentStudents|
    ensures forall k :: 0 <= k < |p.absentStudentIds| ==> p.absentStudentIds[k] == p.absentStudents[k].student.id
    ensures p.totalStudents == |entries|
  {
    ProceedParams(classroomId, classroomName, date, AbsentIds(entries), Absentees(entries), |entries|)
  }

  /** Toggling the same id twice restores the list. */
  lemma ToggleTwice(entries: seq<Entry>, id: string)
    ensures Toggled(Toggled(entries, id), id) == entries
  {
    var once := Toggled(entries, id);
    var twice := Toggled(once, id);
    assert StudentsOf(twice) == StudentsOf(entries);
    forall i | 0 <= i < |entries| ensures twice[i] == entries[i] {
      assert twice[i].student == entries[i].student by {
        assert StudentsOf(twice)[i] == StudentsOf(entries)[i];
      }
      assert once[i].student == entries[i].student by {
        assert StudentsOf(once)[i] == StudentsOf(entries)[i];
      }
    }
  }

  /** The two marks split the list: `absentCount + presentCount` is the
      length, and `presentCount` really is the number of present entries. */
  lemma CountsAddUp(entries: seq<Entry>)
    ensures AbsentCount(entries) <= |entries|
    ensures PresentCount(entries) == |Filter(entries, IsPresent)|
    ensures AbsentCount(entries) + PresentCount(entries) == |entries|
  {
    FilterPartition(entries, IsAbsent, IsPresent);
  }

  /** Once everyone is marked present there is no absentee to send on. */
  lemma {:induction false} AllPresentHasNoAbsentees(entries: seq<Entry>)
    ensures Absentees(AllPresent(entries)) == []
    ensures PresentCount(AllPresent(entries)) == |entries|
  {
    FilterKeepsNone(AllPresent(entries), IsAbsent);
  }

  /** An id is among the absent ids exactly when some entry with that id is
      marked absent. */
  lemma AbsentIdsIff(entries: seq<Entry>, id: string)
    ensures id in AbsentIds(entries) <==> exists i :: 0 <= i < |entries| && entries[i].student.id == id && IsAbsent(entries[i])
  {
    var abs := Absentees(entries);
    if id in AbsentIds(entries) {
      var k :| 0 <= k < |abs| && AbsentIds(entries)[k] == id;
      assert abs[k] in abs;
      var i :| 0 <= i < |entries| && entries[i] == abs[k];
    }
    if exists i :: 0 <= i < |entries| && entries[i].student.id == id && IsAbsent(entries[i]) {
      var i :| 0 <= i < |entries| && entries[i].student.id == id && IsAbsent(entries[i]);
      assert entries[i] in abs;
      var k :| 0 <= k < |abs| && abs[k] == entries[i];
      assert AbsentIds(entries)[k] == id;
    }
  }

  /** When entries sharing an id share a mark, an entry's id is among the
      absent ids exactly when that entry is absent. */
  lemma AbsentIdsAgreeWithMarks(entries: seq<Entry>, i: nat)
    requires SameIdSameStatus(entries) && i < |entries|
    ensures entries[i].student.id in AbsentIds(entries) <==> entries[i].status == Absent
  {
    AbsentIdsIff(entries, entries[i].student.id);
  }

  /** Toggling and marking everyone present keep entries that share an id
      in agreement. */
  lemma TogglePreservesSameIdSameStatus(entries: seq<Entry>, id: string)
    requires SameIdSameStatus(entries)
    ensures SameIdSameStatus(Toggled(entries, id))
  {
    var r := Toggled(entries, id);
    forall i, j | 0 <= i < |r| && 0 <= j < |r| && r[i].student.id == r[j].student.id
      ensures r[i].status == r[j].status
    {
      assert StudentsOf(r)[i] == StudentsOf(entries)[i];
      assert StudentsOf(r)[j] == StudentsOf(entries)[j];
    }
  }

  lemma AllPresentPreservesSameIdSameStatus(entries: seq<Entry>)
    ensures SameIdSameStatus(AllPresent(entries))
  {
  }

  /** Everyone starts present, so the initial list is consistent. */
  lemma InitialSameIdSameStatus(roster: seq<Student>)
    ensures SameIdSameStatus(InitialEntries(roster))
  {
  }

  /** The screen's state. The list is replaced by the handlers; the effect
      on `[search, students]` then recomputes the visible list, and each
      method below ends in the state after that effect. */
  class AttendanceSheet {
    const classroomId: string
    const classroomName: string
    const date: string
    /** The roster the screen was opened with. */
    const roster: seq<Student>
    var students: seq<Entry>
    var search: string
    var filteredStudents: seq<Entry>

    ghost predicate Valid()
      reads this
    {
      && StudentsOf(students) == roster
      && SameIdSameStatus(students)
      && filteredStudents == SearchView(students, search)
    }

    /** Opening the screen: everyone present, empty search, all visible. */
    constructor(classroomId: string, classroomName: string, roster: seq<Student>, date: string)
      ensures Valid()
      ensures this.classroomId == classroomId && this.classroomName == classroomName && this.date == date
      ensures this.roster == roster
      ensures students == InitialEntries(roster)
      ensures search == "" && filteredStudents == students
    {
      this.classroomId := classroomId;
      this.classroomName := classroomName;
      this.date := date;
      this.roster := roster;
      students := InitialEntries(roster);
      search := "";
      filteredStudents := InitialEntries(roster);
      InitialSameIdSameStatus(roster);
      BlankIff("");
    }

    method ToggleStudentStatus(id: string)
      requires Valid()
      modifies this
      ensures Valid()
      ensures students == Toggled(old(students), id)
      ensures search == old(search)
    {
      TogglePreservesSameIdSameStatus(students, id);
      students := Toggled(students, id);
      filteredStudents := SearchView(students, search);
    }

    method HandleAllPresent()
      requires Valid()
      modifies this
      ensures Valid()
      ensures students == AllPresent(old(students))
      ensures search == old(search)
    {
      AllPresentPreservesSameIdSameStatus(students);
      students := AllPresent(students);
      filteredStudents := SearchView(students, search);
    }

    /** Typing in the search box changes only the visible list. */
    method SetSearch(q: string)
      requires Valid()
      modifies this
      ensures Valid()
      ensures search == q && students == old(students)
    {
      search := q;
      filteredStudents := SearchView(students, search);
    }

    /** `handleProceed`: the absentees in roster order, their ids, and the
      roster length. */
    method HandleProceed() returns (p: ProceedParams)
      requires Valid()
      ensures p == ProceedParamsOf(classroomId, classroomName, date, students)
      ensures p.absentStudents == Absentees(students) && p.totalStudents == |roster|
      ensures forall k :: 0 <= k < |students| ==> (students[k].student.id in p.absentStudentIds <==> students[k].status == Absent)
    {
      var absent := Filter(students, IsAbsent);
      var ids := Map(absent, EntryId);
      p := ProceedParams(classroomId, classroomName, date, ids, absent, |students|);
      forall k | 0 <= k < |students|
        ensures students[k].student.id in p.absentStudentIds <==> students[k].status == Absent
      {
        AbsentIdsAgreeWithMarks(students, k);
      }
    }
  }
}
