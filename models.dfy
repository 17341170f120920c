/** The rows of the users, employee-task and documents tables, and the upload form's file. */
module Models {
  import opened Wrappers
  import opened Enums

  /** Row identifiers are uuid4 strings. */
  type Id = string

  /** A timestamp from `datetime.utcnow()`, as a number. */
  type Timestamp = int

  /** UserModel; the password hash and the audit timestamps are not modelled. */
  datatype User = User(id: Id, name: string, email: string, role: UserRole, isActive: bool)

  /** EmployeeTaskModel: one task assigned to one employee. */
  datatype EmployeeTask = EmployeeTask(
    id: Id,
    employeeId: Id,
    taskId: Id,
    assignedBy: Id,
    status: TaskStatus,
    assignedAt: Timestamp,
    completedAt: Option<Timestamp>)

  /** DocumentModel: one uploaded file and its verification state. */
  datatype Document = Document(
    id: Id,
    employeeId: Id,
    documentType: DocumentType,
    originalFilename: string,
    filePath: string,
    fileSize: Option<nat>,
    mimeType: Option<string>,
    taskId: Option<Id>,
    verificationStatus: VerificationStatus,
    uploadedAt: Timestamp,
    verifiedAt: Option<Timestamp>)

  /** The multipart file of an upload request: its name, size and content type as the client sent them. */
  datatype UploadFile = UploadFile(filename: string, size: Option<nat>, contentType: Option<string>)
}
