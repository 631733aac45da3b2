/**
 * The records `create_patient`, `create_research_subject`, `create_condition`,
 * `create_procedure` and `create_research_study` fill in, as functions of the values they
 * read: the row fields, the ids the registry holds and the study id.
 */
module Builders {
  import opened Wrappers
  import opened Text
  import opened Resources
  import opened CodeTable

  const IcdSystem: string := "http://fhir.de/CodeSystem/bfarm/icd-10-gm"
  const ConditionClinicalSystem: string := "http://terminology.hl7.org/CodeSystem/condition-clinical"
  const SnomedSystem: string := "http://snomed.info/sct"
  const RadiotherapyCode: string := "1287742003"
  const RadiotherapyDisplay: string := "Radiotherapy (procedure)"
  const StudyStatusSystem: string := "http://hl7.org/fhir/research-study-status"

  /** The relative URL `<ResourceType>/<id>` that names a resource in a bundle and in references. */
  function FullUrl(resourceType: string, id: string): (url: string)
    ensures |url| == |resourceType| + 1 + |id|
    ensures url[..|resourceType| + 1] == resourceType + "/"
    ensures url[|resourceType| + 1..] == id
  {
    resourceType + "/" + id
  }

  /** A resource type is a name without a slash. */
  predicate IsTypeName(t: string)
  {
    forall i :: 0 <= i < |t| ==> t[i] != '/'
  }

  /** The first slash of a fullUrl is the one right after the resource type. */
  lemma FirstSlash(t: string, id: string)
    requires IsTypeName(t)
    ensures FullUrl(t, id)[|t|] == '/'
    ensures forall k :: 0 <= k < |t| ==> FullUrl(t, id)[k] != '/'
  {
    forall k | 0 <= k < |t|
      ensures FullUrl(t, id)[k] != '/'
    {
      assert FullUrl(t, id)[k] == t[k];
    }
  }

  /**
   * A fullUrl names one resource: for slash-free resource types, two fullUrls are equal
   * exactly when both the types and the ids are.
   */
  lemma FullUrlInjective(t1: string, a: string, t2: string, b: string)
    requires IsTypeName(t1) && IsTypeName(t2)
    ensures FullUrl(t1, a) == FullUrl(t2, b) <==> t1 == t2 && a == b
  {
    var u, v := FullUrl(t1, a), FullUrl(t2, b);
    if u == v {
      // Each type ends where the first slash of the url stands, so neither is longer.
      FirstSlash(t1, a);
      FirstSlash(t2, b);
      assert |t1| == |t2|;
      assert t1 == u[..|t1|] && t2 == v[..|t2|];
    }
  }

  /** The FHIR reference to a resource with the given type and id. */
  function RefTo(resourceType: string, id: string): Reference
  {
    Reference(FullUrl(resourceType, id))
  }

  /** The Patient `create_patient` builds once the registry holds `id` for the subject. */
  function NewPatient(id: string, patientId: string, gender: string, livingStatus: bool): Patient
  {
    Patient(id, [Identifier(PatientIdSystem, Lower(patientId))], Lower(gender), livingStatus)
  }

  /** The ResearchSubject `create_research_subject` builds: its own id, the Patient's id and the study id. */
  function NewResearchSubject(id: string, patientUuid: string, studyPatientId: string, researchStudyId: string)
    : ResearchSubject
  {
    ResearchSubject(
      id, "active", RefTo("Patient", patientUuid), RefTo("ResearchStudy", researchStudyId),
      [Identifier(StudyPatientIdSystem, studyPatientId)])
  }

  /** The single ICD-10-GM coding of a Condition; its display is the code table's label, if any. */
  function DiagnosisCoding(icdCode: string): (c: Coding)
    ensures c.system == IcdSystem && c.code == icdCode
    ensures c.display.Some? <==> icdCode in KnownCodes
  {
    Coding(IcdSystem, icdCode, GetLabel(icdCode))
  }

  /** The Condition `create_condition` builds. The onset keeps the row's text; its unit is UCUM "a". */
  function NewCondition(id: string, patientUuid: string, icdCode: string, onsetAge: string): Condition
  {
    Condition(
      id,
      CodeableConcept([Coding(ConditionClinicalSystem, "active", Some("Active"))]),
      RefTo("Patient", patientUuid),
      Age(onsetAge, "a"),
      CodeableConcept([DiagnosisCoding(icdCode)]))
  }

  /** The radiotherapy Procedure `create_procedure` builds. */
  function NewProcedure(id: string, patientUuid: string): Procedure
  {
    Procedure(
      id, "completed", RefTo("Patient", patientUuid),
      CodeableConcept([Coding(SnomedSystem, RadiotherapyCode, Some(RadiotherapyDisplay))]))
  }

  /** `create_research_study`, with the run's study id passed in instead of read from a global. */
  function CreateResearchStudy(researchStudyId: string): ResearchStudy
  {
    ResearchStudy(
      researchStudyId, "active", [Identifier(StudyIdSystem, "paad_tcga_pan_can_atlas_2018")],
      "tcga_pancreatic_adenocarcinoma", "Pancreatic Adenocarcinoma (TCGA, PanCancer Atlas)", "1.0.0",
      [ProgressStatus(CodeableConcept([Coding(StudyStatusSystem, "completed", Some("Completed"))]))])
  }
}
