/**
 * The FHIR resources the converter fills in, as plain values: only the elements the converter
 * sets are present. Lists of identifiers and codings stay lists, as in FHIR.
 */
module Resources {
  import opened Wrappers

  const PatientIdSystem: string := "https://www.gmds.de/pk-nachwuchs/patient"
  const StudyPatientIdSystem: string := "https://www.cbioportal.org/patient"
  const StudyIdSystem: string := "https://www.cbioportal.org/study"
  const StudyIdValue: string := "paad_tcga_pan_can_atlas_2018"

  datatype Identifier = Identifier(system: string, value: string)

  /** A coding; `display` is absent when the code table has no label. */
  datatype Coding = Coding(system: string, code: string, display: Option<string>)

  datatype CodeableConcept = CodeableConcept(coding: seq<Coding>)

  datatype Reference = Reference(reference: string)

  /** An age; `value` is the onset field as it stands in the row (see README). */
  datatype Age = Age(value: string, unit: string)

  datatype Patient = Patient(
    id: string,
    identifier: seq<Identifier>,
    gender: string,
    deceasedBoolean: bool)

  datatype ResearchSubject = ResearchSubject(
    id: string,
    status: string,
    subject: Reference,
    study: Reference,
    identifier: seq<Identifier>)

  datatype Condition = Condition(
    id: string,
    clinicalStatus: CodeableConcept,
    subject: Reference,
    onsetAge: Age,
    code: CodeableConcept)

  datatype Procedure = Procedure(
    id: string,
    status: string,
    subject: Reference,
    code: CodeableConcept)

  datatype ProgressStatus = ProgressStatus(state: CodeableConcept)

  datatype ResearchStudy = ResearchStudy(
    id: string,
    status: string,
    identifier: seq<Identifier>,
    name: string,
    title: string,
    version: string,
    progressStatus: seq<ProgressStatus>)

  /** The resources a transaction bundle of the converter can carry. */
  datatype Resource =
    | OfPatient(patient: Patient)
    | OfResearchSubject(researchSubject: ResearchSubject)
    | OfCondition(condition: Condition)
    | OfProcedure(procedure: Procedure)
  {
    /** The FHIR resource type, which is also the prefix of the entry's fullUrl. */
    function ResourceType(): string
    {
      match this
      case OfPatient(_) => "Patient"
      case OfResearchSubject(_) => "ResearchSubject"
      case OfCondition(_) => "Condition"
      case OfProcedure(_) => "Procedure"
    }

    function Id(): string
    {
      match this
      case OfPatient(p) => p.id
      case OfResearchSubject(s) => s.id
      case OfCondition(c) => c.id
      case OfProcedure(p) => p.id
    }
  }

  /** `Bundle.entry.request`: a POST with an optional conditional-create query. */
  datatype Request = Request(httpVerb: string, url: string, ifNoneExist: Option<string>)

  datatype Entry = Entry(fullUrl: string, resource: Resource, request: Request)

  datatype Bundle = Bundle(bundleType: string, entry: seq<Entry>)

  /** The conditional-create query `identifier=<system>|<value>`. */
  function IdentifierQuery(system: string, value: string): string
  {
    "identifier=" + system + "|" + value
  }
}
