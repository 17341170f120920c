/** The enumerations of the onboarding system, each with the string value it is stored and sent as. */
module Enums {
  import opened Wrappers
  import opened Text

  datatype UserRole = Hr | Employee
  {
    function Value(): string
    {
      match this
      case Hr => "hr"
      case Employee => "employee"
    }
  }

  datatype TaskStatus = Pending | Completed
  {
    function Value(): string
    {
      match this
      case Pending => "pending"
      case Completed => "completed"
    }
  }

  datatype DocumentType = Aadhar | Resume | Other
  {
    function Value(): string
    {
      match this
      case Aadhar => "aadhar"
      case Resume => "resume"
      case Other => "other"
    }
  }

  datatype VerificationStatus = Pending | Verified | Failed
  {
    function Value(): string
    {
      match this
      case Pending => "pending"
      case Verified => "verified"
      case Failed => "failed"
    }
  }

  /** `DocumentType(v)`: the member whose value is exactly v, or none (Python raises ValueError). */
  function DocumentTypeFromValue(v: string): (r: Option<DocumentType>)
    ensures forall t: DocumentType :: r == Some(t) <==> v == t.Value()
    ensures r == None <==> forall t: DocumentType :: v != t.Value()
  {
    if v == "aadhar" then Some(Aadhar)
    else if v == "resume" then Some(Resume)
    else if v == "other" then Some(Other)
    else None
  }

  /** The upload form's `document_type` is parsed as `DocumentType(document_type.lower())`. */
  function ParseDocumentType(s: string): (r: Option<DocumentType>)
    ensures forall t: DocumentType :: r == Some(t) <==> Lower(s) == t.Value()
  {
    DocumentTypeFromValue(Lower(s))
  }

  /** Every document type is accepted under its own value, whatever the case of its letters. */
  lemma ParseDocumentTypeAnyCase(t: DocumentType)
    ensures ParseDocumentType(t.Value()) == Some(t)
    ensures ParseDocumentType(Upper(t.Value())) == Some(t)
  {
    LowerOfLowerCase(t.Value());
    LowerOfUpper(t.Value());
  }
}
