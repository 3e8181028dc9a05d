/** The ClassroomStudents screen: the students of one class, a search box
    over them, and removal of one student from the class. */
module ClassroomStudents {
  import opened Outcomes
  import opened Seqs
  import opened Decimal
  import opened JsString
  import opened Roster

  function Identity(s: Student): Student {
    s
  }

  /** The visible list: everyone when the trimmed search is empty, else the
      students whose name or registration id contains the query. */
  function SearchView(students: seq<Student>, search: string): seq<Student> {
    TrimmedSearch(students, Identity, search)
  }

  /** `prev.filter((s) => s._id !== student._id)`. */
  function RemoveById(students: seq<Student>, id: string): (r: seq<Student>)
    ensures forall s :: s in r <==> s in students && s.id != id
    ensures |r| <= |students|
  {
    Filter(students, (s: Student) => s.id != id)
  }

  /** Removal keeps the order of the others: it acts on each part of a
      list separately. */
  lemma RemoveByIdConcat(a: seq<Student>, b: seq<Student>, id: string)
    ensures RemoveById(a + b, id) == RemoveById(a, id) + RemoveById(b, id)
  {
    FilterConcat(a, b, (s: Student) => s.id != id);
  }

  /** A list without the id is left as it is. */
  lemma RemoveAbsentId(students: seq<Student>, id: string)
    requires forall i :: 0 <= i < |students| ==> students[i].id != id
    ensures RemoveById(students, id) == students
  {
    FilterKeepsAll(students, (s: Student) => s.id != id);
  }

  /** Removing a student whose id occurs once shortens the list by one and
      leaves the students before and after it in place. */
  lemma RemoveUniqueId(students: seq<Student>, i: nat)
    requires i < |students|
    requires forall j :: 0 <= j < |students| && j != i ==> students[j].id != students[i].id
    ensures RemoveById(students, students[i].id) == students[..i] + students[i + 1..]
  {
    var id := students[i].id;
    assert students == students[..i] + ([students[i]] + students[i + 1..]);
    RemoveByIdConcat(students[..i], [students[i]] + students[i + 1..], id);
    RemoveByIdConcat([students[i]], students[i + 1..], id);
    RemoveAbsentId(students[..i], id);
    RemoveAbsentId(students[i + 1..], id);
    assert RemoveById([students[i]], id) == [];
  }

  /** `{n} student{n !== 1 ? "s" : ""}`. */
  function CountLabel(n: nat): string {
    NatToString(n) + " student" + (if n != 1 then "s" else "")
  }

  /** The singular is used exactly for one student. */
  lemma CountLabelSingularIff(n: nat)
    ensures CountLabel(n) == NatToString(n) + " student" <==> n == 1
    ensures n != 1 ==> CountLabel(n) == NatToString(n) + " students"
  {
  }

  const RemoveFailed := Alert("Error", "Failed to remove student. Please try again.")

  /** The screen's state; the effect on `[search, students]` recomputes the
      visible list after each change, and each method ends after it. */
  class ClassRoster {
    const classroomId: string
    const classroomName: string
    var students: seq<Student>
    var search: string
    var filteredStudents: seq<Student>

    ghost predicate Valid()
      reads this
    {
      filteredStudents == SearchView(students, search)
    }

    /** Both lists start as the roster the screen was opened with. */
    constructor(classroomId: string, classroomName: string, roster: seq<Student>)
      ensures Valid()
      ensures this.classroomId == classroomId && this.classroomName == classroomName
      ensures students == roster && filteredStudents == roster && search == ""
    {
      this.classroomId := classroomId;
      this.classroomName := classroomName;
      students := roster;
      filteredStudents := roster;
      search := "";
      BlankIff("");
    }

    method SetSearch(q: string)
      requires Valid()
      modifies this
      ensures Valid()
      ensures search == q && students == old(students)
    {
      search := q;
      filteredStudents := SearchView(students, search);
    }

    /** `handleRemoveStudent(student)`: the confirmation `prompt`; when the
      user confirms, the DELETE's outcome `deleted` (through
      `handleApiResponse`) decides whether the list loses that id, and
      `result` is the alert shown afterwards. */
    method RemoveStudent(student: Student, confirmed: bool, deleted: Result<()>)
      returns (prompt: Alert, result: Option<Alert>)
      requires Valid()
      modifies this
      ensures Valid() && search == old(search)
      ensures prompt == Alert("Remove Student", "Are you sure you want to remove " + student.name + " from this class?")
      ensures !confirmed ==> result.None? && students == old(students)
      ensures confirmed && deleted.Ok? ==>
                && students == RemoveById(old(students), student.id)
                && result == Some(Alert("Success", "Student " + student.name + " has been removed from the class."))
      ensures confirmed && deleted.Err? ==> students == old(students) && result == Some(RemoveFailed)
    {
      prompt := Alert("Remove Student", "Are you sure you want to remove " + student.name + " from this class?");
      if !confirmed {
        return prompt, None;
      }
      if deleted.Ok? {
        students := RemoveById(students, student.id);
        filteredStudents := SearchView(students, search);
        result := Some(Alert("Success", "Student " + student.name + " has been removed from the class."));
      } else {
        result := Some(RemoveFailed);
      }
    }
  }
}
