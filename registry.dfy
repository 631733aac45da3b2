/**
 * The identity registry: the four module-level dictionaries `patients_uuid`,
 * `research_subject_uuid`, `condition_uuid` and `procedure_uuid`, keyed by the study subject
 * id, together with the fresh-id supplier that replaces `uuid.uuid4()`. The builders that
 * write an id into one of the dictionaries and read it back are methods of this class.
 */
module Registry {
  import opened Wrappers
  import opened Resources
  import opened FreshIds
  import opened Builders

  /** What a builder raises: a subject key with no Patient id (Python's `KeyError`). */
  datatype BuildError = KeyError(key: string)

  class IdentityRegistry {
    var patientsUuid: map<string, string>
    var researchSubjectUuid: map<string, string>
    var conditionUuid: map<string, string>
    var procedureUuid: map<string, string>
    /** How many ids the supplier has handed out; the next one is IdOf(issued). */
    var issued: nat

    /** Every id the dictionaries hold was handed out by the supplier before now. */
    ghost predicate Valid()
      reads this
    {
      (forall k | k in patientsUuid :: IssuedBefore(patientsUuid[k], issued)) &&
      (forall k | k in researchSubjectUuid :: IssuedBefore(researchSubjectUuid[k], issued)) &&
      (forall k | k in conditionUuid :: IssuedBefore(conditionUuid[k], issued)) &&
      (forall k | k in procedureUuid :: IssuedBefore(procedureUuid[k], issued))
    }

    /** The empty dictionaries at module load. */
    constructor ()
      ensures Valid() && issued == 0
      ensures patientsUuid == map[] && researchSubjectUuid == map[]
      ensures conditionUuid == map[] && procedureUuid == map[]
    {
      patientsUuid, researchSubjectUuid, conditionUuid, procedureUuid := map[], map[], map[], map[];
      issued := 0;
    }

    /** `str(uuid.uuid4())`: hands out an id that no dictionary holds yet. */
    method NextId() returns (id: string)
      requires Valid()
      modifies this`issued
      ensures Valid()
      ensures id == IdOf(old(issued)) && issued == old(issued) + 1
      ensures !IssuedBefore(id, old(issued))
    {
      id := IdOf(issued);
      NextIdIsFresh(issued);
      issued := issued + 1;
    }

    /** `create_patient`: stores a fresh Patient id under the subject key and builds the Patient. */
    method CreatePatient(studySubjectId: string, patientId: string, gender: string, livingStatus: bool)
      returns (pat: Patient)
      requires Valid()
      modifies this
      ensures Valid() && issued == old(issued) + 1
      ensures patientsUuid == old(patientsUuid)[studySubjectId := IdOf(old(issued))]
      ensures researchSubjectUuid == old(researchSubjectUuid)
      ensures conditionUuid == old(conditionUuid) && procedureUuid == old(procedureUuid)
      ensures pat == NewPatient(IdOf(old(issued)), patientId, gender, livingStatus)
    {
      var id := NextId();
      patientsUuid := patientsUuid[studySubjectId := id];
      pat := NewPatient(patientsUuid[studySubjectId], patientId, gender, livingStatus);
    }

    /**
     * `create_research_subject`: looks up the Patient id (a `KeyError`, with nothing changed,
     * when the subject has none), then stores a fresh ResearchSubject id and builds the record.
     */
    method CreateResearchSubject(studyPatientId: string, researchStudyId: string)
      returns (r: Result<ResearchSubject, BuildError>)
      requires Valid()
      modifies this
      ensures Valid()
      ensures r.Failure? <==> studyPatientId !in old(patientsUuid)
      ensures r.Failure? ==> r.error == KeyError(studyPatientId) && issued == old(issued)
      ensures r.Failure? ==> researchSubjectUuid == old(researchSubjectUuid)
      ensures r.Success? ==> issued == old(issued) + 1
      ensures r.Success? ==> researchSubjectUuid == old(researchSubjectUuid)[studyPatientId := IdOf(old(issued))]
      ensures patientsUuid == old(patientsUuid)
      ensures r.Success? ==>
        r.value == NewResearchSubject(IdOf(old(issued)), patientsUuid[studyPatientId], studyPatientId, researchStudyId)
      ensures conditionUuid == old(conditionUuid) && procedureUuid == old(procedureUuid)
    {
      if studyPatientId !in patientsUuid {
        return Failure(KeyError(studyPatientId));
      }
      var patientUuid := patientsUuid[studyPatientId];
      var id := NextId();
      researchSubjectUuid := researchSubjectUuid[studyPatientId := id];
      r := Success(NewResearchSubject(researchSubjectUuid[studyPatientId], patientUuid, studyPatientId, researchStudyId));
    }

    /** `create_condition`: the same lookup-then-fresh-id sequence for the Condition. */
    method CreateCondition(studySubjectId: string, icdCode: string, onsetAge: string)
      returns (r: Result<Condition, BuildError>)
      requires Valid()
      modifies this
      ensures Valid()
      ensures r.Failure? <==> studySubjectId !in old(patientsUuid)
      ensures r.Failure? ==> r.error == KeyError(studySubjectId) && issued == old(issued)
      ensures r.Failure? ==> conditionUuid == old(conditionUuid)
      ensures r.Success? ==> issued == old(issued) + 1
      ensures r.Success? ==> conditionUuid == old(conditionUuid)[studySubjectId := IdOf(old(issued))]
      ensures patientsUuid == old(patientsUuid) && researchSubjectUuid == old(researchSubjectUuid)
      ensures r.Success? ==>
        r.value == NewCondition(IdOf(old(issued)), patientsUuid[studySubjectId], icdCode, onsetAge)
      ensures procedureUuid == old(procedureUuid)
    {
      if studySubjectId !in patientsUuid {
        return Failure(KeyError(studySubjectId));
      }
      var patientUuid := patientsUuid[studySubjectId];
      var id := NextId();
      conditionUuid := conditionUuid[studySubjectId := id];
      r := Success(NewCondition(conditionUuid[studySubjectId], patientUuid, icdCode, onsetAge));
    }

    /** `create_procedure`: the same lookup-then-fresh-id sequence for the radiotherapy Procedure. */
    method CreateProcedure(studySubjectId: string) returns (r: Result<Procedure, BuildError>)
      requires Valid()
      modifies this
      ensures Valid()
      ensures r.Failure? <==> studySubjectId !in old(patientsUuid)
      ensures r.Failure? ==> r.error == KeyError(studySubjectId) && issued == old(issued)
      ensures r.Failure? ==> procedureUuid == old(procedureUuid)
      ensures r.Success? ==> issued == old(issued) + 1
      ensures r.Success? ==> procedureUuid == old(procedureUuid)[studySubjectId := IdOf(old(issued))]
      ensures patientsUuid == old(patientsUuid) && researchSubjectUuid == old(researchSubjectUuid)
      ensures r.Success? ==> r.value == NewProcedure(IdOf(old(issued)), patientsUuid[studySubjectId])
      ensures conditionUuid == old(conditionUuid)
    {
      if studySubjectId !in patientsUuid {
        return Failure(KeyError(studySubjectId));
      }
      var patientUuid := patientsUuid[studySubjectId];
      var id := NextId();
      procedureUuid := procedureUuid[studySubjectId := id];
      r := Success(NewProcedure(procedureUuid[studySubjectId], patientUuid));
    }
  }
}
