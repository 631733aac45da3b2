/**
 * What a bundle assembled from one row promises: the fields each entry takes from the row,
 * the conditional-create guards, the references between entries, distinct ids within a
 * bundle and across rows, and the study reference that points outside the bundle.
 */
module BundleProperties {
  import opened Wrappers
  import opened Text
  import opened Resources
  import opened CodeTable
  import opened FreshIds
  import opened Builders
  import opened Converter

  /** The entries of the bundle assembled from a row long enough to convert. */
  function EntriesOf(dataValues: seq<string>, researchStudyId: string, n: nat): (entry: seq<Entry>)
    requires |dataValues| >= MinRowLength
    ensures |entry| == EntryCount(dataValues)
  {
    AssembleBundle(dataValues, researchStudyId, n).value.0.entry
  }

  /**
   * The Patient: living flag stored in deceasedBoolean, lower-cased secondary id as identifier,
   * lower-cased gender, and a conditional create on that same identifier.
   */
  lemma PatientEntryFields(dataValues: seq<string>, researchStudyId: string, n: nat)
    requires |dataValues| >= MinRowLength
    ensures var e := EntriesOf(dataValues, researchStudyId, n)[0];
      var p := e.resource.patient;
      (p.deceasedBoolean <==> dataValues[LivingStatusColumn] == "0:LIVING") &&
      p.identifier == [Identifier(PatientIdSystem, Lower(dataValues[SecondaryPatientIdColumn]))] &&
      p.gender == Lower(dataValues[GenderColumn]) &&
      e.request == Request("POST", "Patient",
        Some("identifier=" + PatientIdSystem + "|" + Lower(dataValues[SecondaryPatientIdColumn])))
  {
  }

  /**
   * The ResearchSubject: status active, the subject id unchanged as identifier and in the
   * guard, and a reference to the run's ResearchStudy.
   */
  lemma ResearchSubjectEntryFields(dataValues: seq<string>, researchStudyId: string, n: nat)
    requires |dataValues| >= MinRowLength
    ensures var e := EntriesOf(dataValues, researchStudyId, n)[1];
      var s := e.resource.researchSubject;
      s.status == "active" &&
      s.identifier == [Identifier(StudyPatientIdSystem, dataValues[SubjectIdColumn])] &&
      s.study == Reference("ResearchStudy/" + researchStudyId) &&
      e.request == Request("POST", "ResearchSubject",
        Some("identifier=" + StudyPatientIdSystem + "|" + dataValues[SubjectIdColumn]))
  {
  }

  /**
   * The Condition: active clinical status, the ICD-10-GM coding of the row's code with the
   * table's label (absent for an unknown code, the Condition is built all the same), the onset
   * field with unit "a", and an unconditional create.
   */
  lemma ConditionEntryFields(dataValues: seq<string>, researchStudyId: string, n: nat)
    requires |dataValues| >= MinRowLength
    ensures var e := EntriesOf(dataValues, researchStudyId, n)[2];
      var c := e.resource.condition;
      var icdCode := dataValues[IcdCodeColumn];
      c.clinicalStatus.coding == [Coding(ConditionClinicalSystem, "active", Some("Active"))] &&
      c.code.coding == [Coding("http://fhir.de/CodeSystem/bfarm/icd-10-gm", icdCode, GetLabel(icdCode))] &&
      (c.code.coding[0].display.None? <==> icdCode !in KnownCodes) &&
      c.onsetAge == Age(dataValues[OnsetAgeColumn], "a") &&
      e.request == Request("POST", "Condition", None)
  {
  }

  /** The Procedure, when present: completed radiotherapy with its one SNOMED coding, created unconditionally. */
  lemma ProcedureEntryFields(dataValues: seq<string>, researchStudyId: string, n: nat)
    requires |dataValues| >= MinRowLength
    requires dataValues[RadiotherapyColumn] == "Yes"
    ensures var e := EntriesOf(dataValues, researchStudyId, n)[3];
      var p := e.resource.procedure;
      p.status == "completed" &&
      p.code.coding == [Coding("http://snomed.info/sct", "1287742003", Some("Radiotherapy (procedure)"))] &&
      e.request == Request("POST", "Procedure", None)
  {
  }

  /** The resource types of a bundle's entries, in entry order. */
  const EntryOrder: seq<string> := ["Patient", "ResearchSubject", "Condition", "Procedure"]

  /**
   * The i-th entry holds a resource of the i-th type of EntryOrder with the (n + i)-th id, and
   * the entry's fullUrl is `<ResourceType>/<id>` of that resource.
   */
  lemma EntryIdentity(dataValues: seq<string>, researchStudyId: string, n: nat, i: nat)
    requires |dataValues| >= MinRowLength && i < EntryCount(dataValues)
    ensures var e := EntriesOf(dataValues, researchStudyId, n)[i];
      e.resource.ResourceType() == EntryOrder[i] && e.resource.Id() == IdOf(n + i) &&
      e.fullUrl == e.resource.ResourceType() + "/" + e.resource.Id()
  {
  }

  /** Every Patient reference in the bundle is the fullUrl of its Patient entry: none dangles. */
  lemma PatientReferencesResolve(dataValues: seq<string>, researchStudyId: string, n: nat)
    requires |dataValues| >= MinRowLength
    ensures var entry := EntriesOf(dataValues, researchStudyId, n);
      entry[0].fullUrl == "Patient/" + entry[0].resource.patient.id &&
      entry[1].resource.researchSubject.subject.reference == entry[0].fullUrl &&
      entry[2].resource.condition.subject.reference == entry[0].fullUrl &&
      (|entry| == 4 ==> entry[3].resource.procedure.subject.reference == entry[0].fullUrl)
  {
  }

  /** The resources of one bundle have pairwise different ids, and so its entries different fullUrls. */
  lemma EntryIdsDistinct(dataValues: seq<string>, researchStudyId: string, n: nat)
    requires |dataValues| >= MinRowLength
    ensures var entry := EntriesOf(dataValues, researchStudyId, n);
      forall i, j :: 0 <= i < j < |entry| ==>
        entry[i].resource.Id() != entry[j].resource.Id() && entry[i].fullUrl != entry[j].fullUrl
  {
    var entry := EntriesOf(dataValues, researchStudyId, n);
    forall i, j | 0 <= i < j < |entry|
      ensures entry[i].resource.Id() != entry[j].resource.Id() && entry[i].fullUrl != entry[j].fullUrl
    {
      EntryIdentity(dataValues, researchStudyId, n, i);
      EntryIdentity(dataValues, researchStudyId, n, j);
      EntriesAtDiffer(entry[i], entry[j], n, i, j);
    }
  }

  /** Two entries at positions i < j, identified as EntryIdentity says, differ in id and fullUrl. */
  lemma EntriesAtDiffer(a: Entry, b: Entry, n: nat, i: nat, j: nat)
    requires i < j < |EntryOrder|
    requires a.resource.Id() == IdOf(n + i) && a.fullUrl == EntryOrder[i] + "/" + a.resource.Id()
    requires b.resource.Id() == IdOf(n + j) && b.fullUrl == EntryOrder[j] + "/" + b.resource.Id()
    ensures a.resource.Id() != b.resource.Id() && a.fullUrl != b.fullUrl
  {
    IdOfInjective(n + i, n + j);
    var pi, pj := EntryOrder[i] + "/", EntryOrder[j] + "/";
    assert IsPrefix(pi, a.fullUrl) && IsPrefix(pj, b.fullUrl);
    // Patient and Procedure differ in their second letter, every other pair in the first.
    var k := if i == 0 && j == 3 then 1 else 0;
    DistinctPrefixes(pi, pj, a.fullUrl, b.fullUrl, k);
  }

  /**
   * Only the Patient and ResearchSubject entries carry a conditional-create guard, and each
   * guard queries exactly the identifier its resource carries.
   */
  lemma GuardsMatchIdentifiers(dataValues: seq<string>, researchStudyId: string, n: nat)
    requires |dataValues| >= MinRowLength
    ensures var entry := EntriesOf(dataValues, researchStudyId, n);
      (forall i :: 2 <= i < |entry| ==> entry[i].request.ifNoneExist == None) &&
      var pid := entry[0].resource.patient.identifier[0];
      var sid := entry[1].resource.researchSubject.identifier[0];
      entry[0].request.ifNoneExist == Some(IdentifierQuery(pid.system, pid.value)) &&
      entry[1].request.ifNoneExist == Some(IdentifierQuery(sid.system, sid.value))
  {
  }

  /**
   * The study reference is `ResearchStudy/<id>`, which is the fullUrl of no entry: the bundle
   * holds no ResearchStudy, and the ResearchStudy request `create_bundle` builds is not used.
   */
  lemma StudyReferenceOutsideBundle(dataValues: seq<string>, researchStudyId: string, n: nat)
    requires |dataValues| >= MinRowLength
    ensures var entry := EntriesOf(dataValues, researchStudyId, n);
      forall i :: 0 <= i < |entry| ==>
        entry[i].fullUrl != entry[1].resource.researchSubject.study.reference &&
        entry[i].request != ResearchStudyRequest()
  {
    var entry := EntriesOf(dataValues, researchStudyId, n);
    var studyUrl := entry[1].resource.researchSubject.study.reference;
    assert IsPrefix("ResearchStudy/", studyUrl);
    forall i | 0 <= i < |entry|
      ensures entry[i].fullUrl != studyUrl && entry[i].request != ResearchStudyRequest()
    {
      EntryIdentity(dataValues, researchStudyId, n, i);
      var prefix := entry[i].resource.ResourceType() + "/";
      assert IsPrefix(prefix, entry[i].fullUrl);
      if entry[i].resource.OfResearchSubject? {
        DistinctPrefixes(prefix, "ResearchStudy/", entry[i].fullUrl, studyUrl, 9);
      } else {
        DistinctPrefixes(prefix, "ResearchStudy/", entry[i].fullUrl, studyUrl, 0);
      }
      assert entry[i].request.url != "ResearchStudy";
    }
  }

  /**
   * Rows converted one after the other share no ids: with the counter at m >= n + EntryCount
   * for the later row, no resource of the later bundle has the id of a resource of the
   * earlier one. In particular a subject key that comes back gets a new Patient id.
   */
  lemma RowsShareNoIds(
    row1: seq<string>, row2: seq<string>, researchStudyId: string, n: nat, m: nat, i: nat, j: nat)
    requires |row1| >= MinRowLength && |row2| >= MinRowLength
    requires n + EntryCount(row1) <= m
    requires i < EntryCount(row1) && j < EntryCount(row2)
    ensures EntriesOf(row1, researchStudyId, n)[i].resource.Id() != EntriesOf(row2, researchStudyId, m)[j].resource.Id()
  {
    EntryIdentity(row1, researchStudyId, n, i);
    EntryIdentity(row2, researchStudyId, m, j);
    IdOfInjective(n + i, m + j);
  }

  /** The guard for secondary id "TCGA-ABC" queries "tcga-abc". */
  lemma PatientGuardLowerCases()
    ensures PatientRequest("TCGA-ABC").ifNoneExist == Some("identifier=" + PatientIdSystem + "|tcga-abc")
  {
    assert Lower("TCGA-ABC") == "tcga-abc";
    assert "identifier=" + PatientIdSystem + "|" + "tcga-abc" == "identifier=" + PatientIdSystem + "|tcga-abc";
  }

  /** The sentinels are compared exactly: "yes" and "" flag no radiotherapy, "0:living" no living status. */
  lemma SentinelsAreExact(dataValues: seq<string>, researchStudyId: string, n: nat)
    requires |dataValues| >= MinRowLength
    requires dataValues[RadiotherapyColumn] in {"yes", "", "YES", "No"}
    requires dataValues[LivingStatusColumn] == "0:living"
    ensures |EntriesOf(dataValues, researchStudyId, n)| == 3
    ensures !EntriesOf(dataValues, researchStudyId, n)[0].resource.patient.deceasedBoolean
  {
  }

  /**
   * `create_research_study`: an active study with the run's id, the cBioPortal study identifier
   * that the unused ResearchStudy request queries, and one "completed" progress status.
   */
  lemma ResearchStudyFields(researchStudyId: string)
    ensures var s := CreateResearchStudy(researchStudyId);
      s.id == researchStudyId && s.status == "active" &&
      s.identifier == [Identifier("https://www.cbioportal.org/study", "paad_tcga_pan_can_atlas_2018")] &&
      ResearchStudyRequest().ifNoneExist == Some(IdentifierQuery(s.identifier[0].system, s.identifier[0].value)) &&
      |s.progressStatus| == 1 &&
      s.progressStatus[0].state.coding == [Coding("http://hl7.org/fhir/research-study-status", "completed", Some("Completed"))]
  {
  }
}
