/**
 * The onboarding handlers of the API application. The database is a `Store` holding the
 * users, employee-task and documents tables as sequences of rows; `select ... where` is a
 * `Filter`, `session.add` of a new row is an append, and an update of a loaded row
 * replaces that row. Every handler receives the caller resolved by get_current_user.
 */
module App {
  import opened Wrappers
  import opened Text
  import opened Seqs
  import opened Enums
  import opened Models
  import opened Http
  import opened Deps

  /** `UPLOAD_DIR = Path("uploads")`. */
  const UploadDir := "uploads"

  function TaskKey(t: EmployeeTask): Id
  {
    t.id
  }

  /** The (employee, task) pair an assignment is for. */
  function PairKey(t: EmployeeTask): (Id, Id)
  {
    (t.employeeId, t.taskId)
  }

  function DocumentKey(d: Document): Id
  {
    d.id
  }

  predicate IsEmployee(u: User)
  {
    u.role == Employee
  }

  predicate IsCompletedTask(t: EmployeeTask)
  {
    t.status == TaskStatus.Completed
  }

  predicate IsPendingTask(t: EmployeeTask)
  {
    t.status == TaskStatus.Pending
  }

  predicate IsPendingDocument(d: Document)
  {
    d.verificationStatus == VerificationStatus.Pending
  }

  /** The guards run before a handler touches the store: `require_role(UserRole.HR)` on the
      HR-only endpoints, then `verify_user_access` on the path. None: the request may go on. */
  function Authorize(name: string, role: string, caller: User, hrOnly: bool): (r: Option<HttpError>)
    ensures r == None <==> (!hrOnly || caller.role == Hr) && VerifyUserAccess(name, role, caller)
    ensures r != None ==> r.value == AccessDenied
  {
    if hrOnly && RequireRole(Hr, caller).Err? then Some(RequireRole(Hr, caller).error)
    else if !VerifyUserAccess(name, role, caller) then Some(AccessDenied)
    else None
  }

  /** On an HR-only endpoint the path check adds nothing: the role guard alone decides. */
  lemma HrOnlyIgnoresPath(name: string, role: string, caller: User)
    ensures Authorize(name, role, caller, true) == None <==> caller.role == Hr
  {
  }

  /** `select(EmployeeTaskModel).where(EmployeeTaskModel.employee_id == employeeId)`. */
  function TasksOf(tasks: seq<EmployeeTask>, employeeId: Id): (r: seq<EmployeeTask>)
    ensures forall t :: t in r <==> t in tasks && t.employeeId == employeeId
    ensures forall t: EmployeeTask {:trigger multiset(r)[t]} :: multiset(r)[t] == if t.employeeId == employeeId then multiset(tasks)[t] else 0
  {
    Filter(tasks, (t: EmployeeTask) => t.employeeId == employeeId)
  }

  /** `select(DocumentModel).where(DocumentModel.employee_id == employeeId)`. */
  function DocumentsOf(docs: seq<Document>, employeeId: Id): (r: seq<Document>)
    ensures forall d :: d in r <==> d in docs && d.employeeId == employeeId
    ensures forall d {:trigger multiset(r)[d]} :: multiset(r)[d] == if d.employeeId == employeeId then multiset(docs)[d] else 0
  {
    Filter(docs, (d: Document) => d.employeeId == employeeId)
  }

  /** An assignment of this task to this employee exists. */
  predicate IsAssigned(tasks: seq<EmployeeTask>, employeeId: Id, taskId: Id)
  {
    exists t :: t in tasks && PairKey(t) == (employeeId, taskId)
  }

  /** `session.get(EmployeeTaskModel, id)`: the position of the row with that primary key. */
  function FindTask(tasks: seq<EmployeeTask>, id: Id): (k: Option<nat>)
    ensures k.Some? ==> k.value < |tasks| && tasks[k.value].id == id
    ensures k.None? <==> forall t :: t in tasks ==> t.id != id
  {
    if tasks == [] then None
    else if tasks[0].id == id then Some(0)
    else match FindTask(tasks[1..], id)
      case None => None
      case Some(j) => Some(j + 1)
  }

  /** The assignment with this id exists and belongs to this employee. */
  predicate Owns(tasks: seq<EmployeeTask>, id: Id, employeeId: Id)
  {
    exists t :: t in tasks && t.id == id && t.employeeId == employeeId
  }

  /** Completed and pending assignments together are all of them: TaskStatus has no third value. */
  function StatusCounts(tasks: seq<EmployeeTask>): (counts: (nat, nat))
    ensures counts.0 + counts.1 == |tasks|
    ensures counts.0 == Count(tasks, IsCompletedTask) && counts.1 == Count(tasks, IsPendingTask)
  {
    CountSplit(tasks, IsCompletedTask, IsPendingTask);
    (Count(tasks, IsCompletedTask), Count(tasks, IsPendingTask))
  }

  /** `name ILIKE '%query%'` on an employee row: the query occurs in the name, ignoring case. */
  predicate NameMatches(query: string, u: User)
  {
    u.role == Employee && IsInfix(Lower(query), Lower(u.name))
  }

  function MatchingEmployees(users: seq<User>, query: string): (r: seq<User>)
    ensures forall u :: u in r <==> u in users && NameMatches(query, u)
    ensures forall u {:trigger multiset(r)[u]} ::
              multiset(r)[u] == if NameMatches(query, u) then multiset(users)[u] else 0
  {
    Filter(users, (u: User) => NameMatches(query, u))
  }

  datatype Dashboard =
    | HrDashboard(totalEmployees: nat, pendingTasks: nat, pendingDocuments: nat)
    | EmployeeDashboard(totalTasks: nat, completedTasks: nat, pendingTasks: nat)

  /** One entry of the employee list (the completion rate, a float, is not modelled). */
  datatype EmployeeRow = EmployeeRow(id: Id, name: string, email: string, isActive: bool, totalTasks: nat, completedTasks: nat)

  /** What manage_employee returns: the employee with their assignments and documents. */
  datatype EmployeeProfile = EmployeeProfile(employee: User, tasks: seq<EmployeeTask>, documents: seq<Document>)

  /** The row describes employee e: e's own columns, and the count of e's assignments in all and completed. */
  predicate RowDescribes(row: EmployeeRow, e: User, tasks: seq<EmployeeTask>)
  {
    && row.id == e.id && row.name == e.name && row.email == e.email && row.isActive == e.isActive
    && row.totalTasks == |TasksOf(tasks, e.id)|
    && row.completedTasks == Count(TasksOf(tasks, e.id), IsCompletedTask)
  }

  /** The `employee_data` entry for employee e: their columns and their assignment counts. */
  function RowOf(e: User, tasks: seq<EmployeeTask>): (row: EmployeeRow)
    ensures RowDescribes(row, e, tasks)
    ensures row.completedTasks <= row.totalTasks
  {
    var mine := TasksOf(tasks, e.id);
    EmployeeRow(e.id, e.name, e.email, e.isActive, |mine|, Count(mine, IsCompletedTask))
  }

  /** The loop of get_all_employees: one entry per employee, appended in order. */
  method EmployeeRows(employees: seq<User>, tasks: seq<EmployeeTask>) returns (data: seq<EmployeeRow>)
    ensures |data| == |employees|
    ensures forall k :: 0 <= k < |data| ==> RowDescribes(data[k], employees[k], tasks)
    ensures forall row :: row in data ==> row.completedTasks <= row.totalTasks
  {
    data := [];
    var i := 0;
    while i < |employees|
      invariant 0 <= i <= |employees|
      invariant |data| == i
      invariant forall k :: 0 <= k < i ==> data[k] == RowOf(employees[k], tasks)
    {
      data := data + [RowOf(employees[i], tasks)];
      i := i + 1;
    }
  }

  class Store {
    var users: seq<User>
    var assignments: seq<EmployeeTask>
    var documents: seq<Document>

    /** Primary keys are unique, and no employee holds the same task twice. */
    predicate Valid()
      reads this
    {
      && Distinct(users, UserKey)
      && Distinct(assignments, TaskKey)
      && Distinct(assignments, PairKey)
      && Distinct(documents, DocumentKey)
    }

    constructor (initialUsers: seq<User>)
      requires Distinct(initialUsers, UserKey)
      ensures Valid()
      ensures users == initialUsers && assignments == [] && documents == []
    {
      users := initialUsers;
      assignments := [];
      documents := [];
    }

    /** GET /{name}/{role}/dashboard. None stands for the empty (null) answer an HR caller gets
        on a role segment that is neither "hr" nor "employee". */
    function GetDashboard(name: string, role: string, caller: User): (r: Result<Option<Dashboard>>)
      reads this
      ensures r.Err? <==> !VerifyUserAccess(name, role, caller)
      ensures r.Err? ==> r.error == AccessDenied
      ensures r.Ok? && Lower(role) == "hr" ==>
                r.value == Some(HrDashboard(Count(users, IsEmployee), Count(assignments, IsPendingTask),
                                            Count(documents, IsPendingDocument)))
      ensures r.Ok? && Lower(role) == "employee" ==>
                && r.value.Some? && r.value.value.EmployeeDashboard?
                && r.value.value.totalTasks == |TasksOf(assignments, caller.id)|
                && r.value.value.completedTasks == Count(TasksOf(assignments, caller.id), IsCompletedTask)
                && r.value.value.pendingTasks == Count(TasksOf(assignments, caller.id), IsPendingTask)
                && r.value.value.completedTasks + r.value.value.pendingTasks == r.value.value.totalTasks
      ensures r.Ok? && Lower(role) != "hr" && Lower(role) != "employee" ==> r.value == None && caller.role == Hr
    {
      if !VerifyUserAccess(name, role, caller) then Err(AccessDenied)
      else if Lower(role) == "hr" then
        Ok(Some(HrDashboard(Count(users, IsEmployee), Count(assignments, IsPendingTask),
                            Count(documents, IsPendingDocument))))
      else if Lower(role) == "employee" then
        var mine := TasksOf(assignments, caller.id);
        var counts := StatusCounts(mine);
        Ok(Some(EmployeeDashboard(|mine|, counts.0, counts.1)))
      else Ok(None)
    }

    /** GET /{name}/{role}/documents: everything on the "hr" path, otherwise the caller's own. */
    function GetDocuments(name: string, role: string, caller: User): (r: Result<seq<Document>>)
      reads this
      ensures r.Err? <==> !VerifyUserAccess(name, role, caller)
      ensures r.Err? ==> r.error == AccessDenied
      ensures r.Ok? && Lower(role) == "hr" ==> r.value == documents
      ensures r.Ok? && Lower(role) != "hr" ==>
                forall d :: d in r.value <==> d in documents && d.employeeId == caller.id
      ensures r.Ok? && Lower(role) != "hr" ==>
                forall d: Document :: d.employeeId == caller.id ==> multiset(r.value)[d] == multiset(documents)[d]
    {
      if !VerifyUserAccess(name, role, caller) then Err(AccessDenied)
      else if Lower(role) == "hr" then Ok(documents)
      else Ok(DocumentsOf(documents, caller.id))
    }

    /** GET /{name}/{role}/manage/{employee_name} (HR only): the one employee whose name
        contains the query, with their assignments and documents. */
    function ManageEmployee(name: string, role: string, caller: User, employeeName: string): (r: Result<EmployeeProfile>)
      reads this
      ensures Authorize(name, role, caller, true) != None ==> r == Err(AccessDenied)
      ensures (Authorize(name, role, caller, true) == None && forall u :: u in users ==> !NameMatches(employeeName, u))
                ==> r == Err(HttpError(NotFound, "Employee not found"))
      ensures r.Ok? <==> caller.role == Hr && |MatchingEmployees(users, employeeName)| == 1
      ensures (caller.role == Hr && |MatchingEmployees(users, employeeName)| > 1)
                ==> r == Err(HttpError(InternalServerError, "Internal Server Error"))
      ensures r.Ok? ==> r.value.employee in users && NameMatches(employeeName, r.value.employee)
      ensures r.Ok? ==> forall u :: u in users && NameMatches(employeeName, u) ==> u == r.value.employee
      ensures r.Ok? ==> forall t :: t in r.value.tasks <==> t in assignments && t.employeeId == r.value.employee.id
      ensures r.Ok? ==> forall d :: d in r.value.documents <==> d in documents && d.employeeId == r.value.employee.id
      ensures r.Ok? ==> (r.value.tasks == TasksOf(assignments, r.value.employee.id)
                         && r.value.documents == DocumentsOf(documents, r.value.employee.id))
    {
      HrOnlyIgnoresPath(name, role, caller);
      var denied := Authorize(name, role, caller, true);
      var found := MatchingEmployees(users, employeeName);
      if denied.Some? then Err(denied.value)
      else if |found| == 0 then Err(HttpError(NotFound, "Employee not found"))
      // scalar_one_or_none raises MultipleResultsFound when the query matches several employees
      else if |found| > 1 then
        assert found[0] in found;
        Err(HttpError(InternalServerError, "Internal Server Error"))
      else
        var e := found[0];
        assert e in found;
        assert forall u :: u in found ==> u == e;
        Ok(EmployeeProfile(e, TasksOf(assignments, e.id), DocumentsOf(documents, e.id)))
    }

    /** GET /{name}/{role}/employees (HR only): one row per employee, in table order. */
    method GetAllEmployees(name: string, role: string, caller: User) returns (r: Result<seq<EmployeeRow>>)
      ensures r.Ok? <==> Authorize(name, role, caller, true) == None
      ensures r.Err? ==> r.error == AccessDenied
      ensures r.Ok? ==> |r.value| == Count(users, IsEmployee)
      ensures r.Ok? ==> forall i :: 0 <= i < |r.value| ==>
                RowDescribes(r.value[i], Filter(users, IsEmployee)[i], assignments)
      ensures r.Ok? ==> forall row :: row in r.value ==> row.completedTasks <= row.totalTasks
    {
      var denied := Authorize(name, role, caller, true);
      if denied.Some? {
        return Err(denied.value);
      }
      var employeeData := EmployeeRows(Filter(users, IsEmployee), assignments);
      return Ok(employeeData);
    }

    /** POST /{name}/{role}/assign-task (HR only). `newId` is the uuid the new row receives. */
    method AssignTask(name: string, role: string, caller: User, employeeId: Id, taskId: Id, newId: Id, now: Timestamp)
      returns (r: Result<()>)
      requires Valid()
      requires forall t :: t in assignments ==> t.id != newId
      modifies this
      ensures Valid()
      ensures users == old(users) && documents == old(documents)
      ensures Authorize(name, role, caller, true) != None ==> r == Err(AccessDenied)
      ensures r.Ok? <==> caller.role == Hr && !IsAssigned(old(assignments), employeeId, taskId)
      ensures (caller.role == Hr && IsAssigned(old(assignments), employeeId, taskId))
                ==> r == Err(HttpError(BadRequest, "Task already assigned"))
      ensures r.Err? ==> assignments == old(assignments)
      ensures r.Ok? ==>
                assignments == old(assignments) + [EmployeeTask(newId, employeeId, taskId, caller.id, TaskStatus.Pending, now, None)]
      ensures r.Ok? ==> Count(assignments, IsPendingTask) == Count(old(assignments), IsPendingTask) + 1
    {
      var denied := Authorize(name, role, caller, true);
      if denied.Some? {
        return Err(denied.value);
      }
      if IsAssigned(assignments, employeeId, taskId) {
        return Err(HttpError(BadRequest, "Task already assigned"));
      }
      var assignment := EmployeeTask(newId, employeeId, taskId, caller.id, TaskStatus.Pending, now, None);
      CountAppend(assignments, assignment, IsPendingTask);
      assert forall t :: t in assignments ==> PairKey(t) != PairKey(assignment);
      assignments := assignments + [assignment];
      r := Ok(());
    }

    /** POST /{name}/{role}/tasks/complete: the caller marks one of their own assignments done. */
    method CompleteTask(name: string, role: string, caller: User, assignmentId: Id, now: Timestamp)
      returns (r: Result<()>)
      requires Valid()
      modifies this
      ensures Valid()
      ensures users == old(users) && documents == old(documents)
      ensures !VerifyUserAccess(name, role, caller) ==> r == Err(AccessDenied)
      ensures r.Ok? <==> VerifyUserAccess(name, role, caller) && Owns(old(assignments), assignmentId, caller.id)
      ensures (VerifyUserAccess(name, role, caller) && !Owns(old(assignments), assignmentId, caller.id))
                ==> r == Err(HttpError(NotFound, "Task assignment not found"))
      ensures r.Err? ==> assignments == old(assignments)
      ensures r.Ok? ==> |assignments| == |old(assignments)|
      ensures r.Ok? ==>
                var k := FindTask(old(assignments), assignmentId).value;
                && assignments[k] == old(assignments)[k].(status := TaskStatus.Completed, completedAt := Some(now))
                && forall j :: 0 <= j < |assignments| && j != k ==> assignments[j] == old(assignments)[j]
    {
      if !VerifyUserAccess(name, role, caller) {
        return Err(AccessDenied);
      }
      var found := FindTask(assignments, assignmentId);
      if found.None? || assignments[found.value].employeeId != caller.id {
        return Err(HttpError(NotFound, "Task assignment not found"));
      }
      var k := found.value;
      var done := assignments[k].(status := TaskStatus.Completed, completedAt := Some(now));
      assert forall j :: 0 <= j < |assignments| ==> PairKey(assignments[k := done][j]) == PairKey(assignments[j]);
      assert forall j :: 0 <= j < |assignments| ==> TaskKey(assignments[k := done][j]) == TaskKey(assignments[j]);
      assignments := assignments[k := done];
      r := Ok(());
    }

    /** POST /{name}/{role}/documents/upload. `saved` is whether writing the bytes to the
        upload directory succeeded; `newId` is the uuid the new row receives. */
    method UploadDocument(name: string, role: string, caller: User, file: UploadFile, documentType: string,
                          taskId: Option<Id>, saved: bool, newId: Id, now: Timestamp)
      returns (r: Result<Id>)
      requires Valid()
      requires forall d :: d in documents ==> d.id != newId
      modifies this
      ensures Valid()
      ensures users == old(users) && assignments == old(assignments)
      ensures !VerifyUserAccess(name, role, caller) ==> r == Err(AccessDenied)
      ensures (VerifyUserAccess(name, role, caller) && ParseDocumentType(documentType) == None)
                ==> r == Err(HttpError(BadRequest, "Invalid document type"))
      ensures (VerifyUserAccess(name, role, caller) && ParseDocumentType(documentType) != None && !saved)
                ==> r == Err(HttpError(InternalServerError, "File upload failed"))
      ensures r.Ok? <==> VerifyUserAccess(name, role, caller) && ParseDocumentType(documentType) != None && saved
      ensures r.Err? ==> documents == old(documents)
      ensures r.Ok? ==> r.value == newId && |documents| == |old(documents)| + 1 && documents[..|old(documents)|] == old(documents)
      ensures r.Ok? ==>
                var d, t := documents[|old(documents)|], ParseDocumentType(documentType).value;
                && d.id == newId && d.employeeId == caller.id && d.documentType == t
                && d.originalFilename == file.filename
                && d.filePath == UploadDir + "/" + caller.id + "_" + t.Value() + "_" + file.filename
                && d.fileSize == file.size && d.mimeType == file.contentType && d.taskId == taskId
                && d.verificationStatus == VerificationStatus.Pending && d.uploadedAt == now && d.verifiedAt == None
      ensures r.Ok? ==> Count(documents, IsPendingDocument) == Count(old(documents), IsPendingDocument) + 1
    {
      if !VerifyUserAccess(name, role, caller) {
        return Err(AccessDenied);
      }
      var parsed := ParseDocumentType(documentType);
      if parsed.None? {
        return Err(HttpError(BadRequest, "Invalid document type"));
      }
      var docType := parsed.value;
      var filePath := UploadDir + "/" + caller.id + "_" + docType.Value() + "_" + file.filename;
      if !saved {
        return Err(HttpError(InternalServerError, "File upload failed"));
      }
      var document := Document(newId, caller.id, docType, file.filename, filePath, file.size, file.contentType,
                               taskId, VerificationStatus.Pending, now, None);
      CountAppend(documents, document, IsPendingDocument);
      documents := documents + [document];
      r := Ok(newId);
    }
  }

  /** An employee's listing never shows another employee's document. */
  lemma EmployeeSeesOnlyOwnDocuments(s: Store, name: string, role: string, caller: User)
    requires caller.role == Employee
    ensures s.GetDocuments(name, role, caller).Ok? ==>
              forall d :: d in s.GetDocuments(name, role, caller).value ==> d.employeeId == caller.id
  {
  }

  /** A refused request reads nothing: its answer is the same whatever the store holds. */
  lemma DeniedReadsNothing(s1: Store, s2: Store, name: string, role: string, caller: User, employeeName: string)
    requires !VerifyUserAccess(name, role, caller)
    ensures s1.GetDashboard(name, role, caller) == s2.GetDashboard(name, role, caller) == Err(AccessDenied)
    ensures s1.GetDocuments(name, role, caller) == s2.GetDocuments(name, role, caller) == Err(AccessDenied)
    ensures s1.ManageEmployee(name, role, caller, employeeName) == s2.ManageEmployee(name, role, caller, employeeName)
  {
  }
}
