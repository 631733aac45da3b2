/**
 * `create_bundle`: one tab-split row of the clinical table becomes a FHIR transaction Bundle
 * holding the subject's Patient, ResearchSubject, Condition and, when radiotherapy is flagged,
 * Procedure. AssembleBundle is the bundle as a function of the row, the study id and the
 * registry's id counter; CreateBundle is the stateful conversion proved against it.
 */
module Converter {
  import opened Wrappers
  import opened Text
  import opened Resources
  import opened FreshIds
  import opened Builders
  import opened Registry

  /** Column positions of the fields the converter reads. */
  const SubjectIdColumn: nat := 1
  const OnsetAgeColumn: nat := 3
  const IcdCodeColumn: nat := 24
  const LivingStatusColumn: nat := 35
  const SecondaryPatientIdColumn: nat := 36
  const RadiotherapyColumn: nat := 46
  const GenderColumn: nat := 50

  /** A row needs this many fields; a shorter one makes the column reads raise. */
  const MinRowLength: nat := 51

  const LivingSentinel: string := "0:LIVING"
  const RadiotherapySentinel: string := "Yes"

  /** What converting a row can raise: a row too short for the column reads (`IndexError`). */
  datatype RowError = IndexError

  /** The Patient entry's request: a conditional create on the lower-cased secondary patient id. */
  function PatientRequest(secondaryPatientId: string): Request
  {
    Request("POST", "Patient", Some(IdentifierQuery(PatientIdSystem, Lower(secondaryPatientId))))
  }

  /** The ResearchSubject entry's request: a conditional create on the subject id as it stands. */
  function ResearchSubjectRequest(studySubjectId: string): Request
  {
    Request("POST", "ResearchSubject", Some(IdentifierQuery(StudyPatientIdSystem, studySubjectId)))
  }

  /** The ResearchStudy request `create_bundle` builds and then leaves out of the bundle. */
  function ResearchStudyRequest(): Request
  {
    Request("POST", "ResearchStudy", Some(IdentifierQuery(StudyIdSystem, StudyIdValue)))
  }

  /** An unconditional create, as the Condition and Procedure entries carry. */
  function PlainPost(resourceType: string): Request
  {
    Request("POST", resourceType, None)
  }

  /** How many entries the bundle of a row has: three, and a fourth for radiotherapy. */
  function EntryCount(dataValues: seq<string>): nat
    requires |dataValues| >= MinRowLength
  {
    if dataValues[RadiotherapyColumn] == RadiotherapySentinel then 4 else 3
  }

  /**
   * The Bundle and key `create_bundle` returns for `dataValues` when the registry has handed
   * out n ids so far: the Patient gets id n, the ResearchSubject n + 1, the Condition n + 2 and
   * the Procedure n + 3.
   */
  function AssembleBundle(dataValues: seq<string>, researchStudyId: string, n: nat)
    : (r: Result<(Bundle, string), RowError>)
    ensures r.Failure? <==> |dataValues| < MinRowLength
    ensures r.Success? ==> r.value.1 == dataValues[SubjectIdColumn]
    ensures r.Success? ==> r.value.0.bundleType == "transaction"
    ensures r.Success? ==>
      var entry := r.value.0.entry;
      (|entry| == 4 <==> dataValues[RadiotherapyColumn] == RadiotherapySentinel) &&
      (|entry| == 3 <==> dataValues[RadiotherapyColumn] != RadiotherapySentinel) &&
      |entry| >= 3 && entry[0].resource.OfPatient? && entry[1].resource.OfResearchSubject? &&
      entry[2].resource.OfCondition? && (|entry| == 4 ==> entry[3].resource.OfProcedure?)
  {
    if |dataValues| < MinRowLength then Failure(IndexError)
    else
      var studySubjectId := dataValues[SubjectIdColumn];
      var isAlive := dataValues[LivingStatusColumn] == LivingSentinel;
      var radioTherapy := dataValues[RadiotherapyColumn] == RadiotherapySentinel;
      var patientUuid := IdOf(n);
      var pat := NewPatient(patientUuid, dataValues[SecondaryPatientIdColumn], dataValues[GenderColumn], isAlive);
      var subject := NewResearchSubject(IdOf(n + 1), patientUuid, studySubjectId, researchStudyId);
      var condition := NewCondition(IdOf(n + 2), patientUuid, dataValues[IcdCodeColumn], dataValues[OnsetAgeColumn]);
      var entries := [
        Entry(FullUrl("Patient", pat.id), OfPatient(pat), PatientRequest(dataValues[SecondaryPatientIdColumn])),
        Entry(FullUrl("ResearchSubject", subject.id), OfResearchSubject(subject), ResearchSubjectRequest(studySubjectId)),
        Entry(FullUrl("Condition", condition.id), OfCondition(condition), PlainPost("Condition"))];
      var procedureEntries :=
        if radioTherapy then
          var procedure := NewProcedure(IdOf(n + 3), patientUuid);
          [Entry(FullUrl("Procedure", procedure.id), OfProcedure(procedure), PlainPost("Procedure"))]
        else [];
      Success((Bundle("transaction", entries + procedureEntries), studySubjectId))
  }

  /**
   * `create_bundle`. Reads the seven columns (an `IndexError`, with the registry untouched, for
   * a short row), runs the builders in the order Patient, ResearchSubject, Condition and, for
   * radiotherapy, Procedure, and wraps each record in its entry. The Patient, ResearchSubject
   * and Condition dictionaries, and for radiotherapy the Procedure one, get a fresh id at the
   * subject key; every other key, and the Procedure dictionary without radiotherapy, stay as
   * they were.
   */
  method CreateBundle(registry: IdentityRegistry, dataValues: seq<string>, researchStudyId: string)
    returns (r: Result<(Bundle, string), RowError>)
    requires registry.Valid()
    modifies registry
    ensures registry.Valid()
    ensures r == AssembleBundle(dataValues, researchStudyId, old(registry.issued))
    ensures r.Failure? ==> unchanged(registry)
    ensures r.Success? ==>
      var key, n := dataValues[SubjectIdColumn], old(registry.issued);
      registry.issued == n + EntryCount(dataValues) &&
      registry.patientsUuid == old(registry.patientsUuid)[key := IdOf(n)] &&
      registry.researchSubjectUuid == old(registry.researchSubjectUuid)[key := IdOf(n + 1)] &&
      registry.conditionUuid == old(registry.conditionUuid)[key := IdOf(n + 2)] &&
      registry.procedureUuid ==
        if EntryCount(dataValues) == 4 then old(registry.procedureUuid)[key := IdOf(n + 3)]
        else old(registry.procedureUuid)
    ensures r.Success? && dataValues[SubjectIdColumn] in old(registry.patientsUuid) ==>
      registry.patientsUuid[dataValues[SubjectIdColumn]] != old(registry.patientsUuid)[dataValues[SubjectIdColumn]]
  {
    if |dataValues| < MinRowLength {
      return Failure(IndexError);
    }
    var studySubjectId := dataValues[SubjectIdColumn];
    var onsetAge := dataValues[OnsetAgeColumn];
    var icd10Code := dataValues[IcdCodeColumn];
    var isAlive := dataValues[LivingStatusColumn] == LivingSentinel;
    var secondaryPatId := dataValues[SecondaryPatientIdColumn];
    var radioTherapy := dataValues[RadiotherapyColumn] == RadiotherapySentinel;
    var gender := dataValues[GenderColumn];

    var patEntryRequest := PatientRequest(secondaryPatId);
    var researchStudyRequest := ResearchStudyRequest();
    var researchSubjectRequest := ResearchSubjectRequest(studySubjectId);

    ghost var n := registry.issued;
    ghost var oldPatients := registry.patientsUuid;
    NextIdIsFresh(n);
    var pat := registry.CreatePatient(studySubjectId, secondaryPatId, gender, isAlive);
    assert registry.patientsUuid[studySubjectId] == IdOf(n);
    var researchSubject := registry.CreateResearchSubject(studySubjectId, researchStudyId);
    assert researchSubject.Success?;
    var condition := registry.CreateCondition(studySubjectId, icd10Code, onsetAge);
    assert condition.Success?;

    var procedureEntry: Option<Entry> := None;
    if radioTherapy {
      var procedure := registry.CreateProcedure(studySubjectId);
      procedureEntry := Some(Entry(
        FullUrl("Procedure", registry.procedureUuid[studySubjectId]), OfProcedure(procedure.value),
        PlainPost("Procedure")));
    }

    var patEntry := Entry(FullUrl("Patient", registry.patientsUuid[studySubjectId]), OfPatient(pat), patEntryRequest);
    var researchSubjectEntry := Entry(
      FullUrl("ResearchSubject", registry.researchSubjectUuid[studySubjectId]),
      OfResearchSubject(researchSubject.value), researchSubjectRequest);
    var conditionEntry := Entry(
      FullUrl("Condition", registry.conditionUuid[studySubjectId]), OfCondition(condition.value),
      PlainPost("Condition"));
    var entries := [patEntry, researchSubjectEntry, conditionEntry];
    if procedureEntry.Some? {
      entries := entries + [procedureEntry.value];
    }
    r := Success((Bundle("transaction", entries), studySubjectId));
    ghost var spec := AssembleBundle(dataValues, researchStudyId, n).value.0.entry;
    assert |spec| == |entries|;
    assert spec[0] == entries[0];
    assert spec[1] == entries[1];
    assert spec[2] == entries[2];
    assert |spec| == 4 ==> spec[3] == entries[3];
    assert spec == entries;
  }
}
