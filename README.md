# tcga-fhir converter, modelled in Dafny

The converter turns one tab-split row of the TCGA pancreatic adenocarcinoma clinical table
into a FHIR transaction Bundle. From fixed columns (1 subject id, 3 onset age, 24 ICD-10-GM
code, 35 living status, 36 secondary patient id, 46 radiotherapy flag, 50 gender) it builds a
Patient, a ResearchSubject that links the Patient to the run's ResearchStudy, a Condition
and, only when column 46 is exactly `"Yes"`, a radiotherapy Procedure. Each resource gets a
fresh id that is written into one of four module-level dictionaries keyed by the subject
id and read back. Each resource is wrapped in a POST entry whose `fullUrl` is
`<ResourceType>/<id>`. The Patient and ResearchSubject entries carry a FHIR conditional-create
guard (`ifNoneExist`). A separate run mode builds the ResearchStudy itself.

Files:

- `wrappers.dfy`: `Option` (Python's `None`) and `Result` (an exception).
- `text.dfy`: `str.lower()` restricted to ASCII, and prefix reasoning.
- `fresh_ids.dfy`: the fresh-id supplier that stands in for `uuid.uuid4()`. The n-th id is
  the decimal rendering of n, and distinct counters give distinct ids.
- `resources.dfy`: the FHIR resources, entries, requests and the bundle as datatypes, and
  the three identifier systems.
- `code_table.dfy`: `get_label`.
- `builders.dfy`: the records the builders fill in, as functions of the values they read.
  It also holds `create_research_study`, which takes the study id as a parameter instead of
  reading a global.
- `registry.dfy`: the four dictionaries as `map` fields of a class with an id counter.
  `create_patient`, `create_research_subject`, `create_condition` and `create_procedure` are
  its methods.
- `converter.dfy`: `create_bundle`. `AssembleBundle` gives the bundle as a function of the
  row, the study id and the id counter. `CreateBundle` updates the registry and is proved
  to return exactly that bundle.
- `bundle_properties.dfy`: what an assembled bundle promises.

The model follows the code in these places:

- The living flag (`"0:LIVING"`) is stored as the Patient's `deceasedBoolean`, so a living
  patient is recorded as deceased.
- The ResearchSubject guard uses the subject id as it stands. The Patient guard lower-cases
  the secondary id.
- The ResearchStudy request is built, but no entry carries it. The bundle holds no
  ResearchStudy, so the ResearchSubject's study reference points outside the bundle.
- The onset Age has the UCUM unit `"a"`, not "years".
- An unknown ICD code gives a coding whose display is absent (`None`), not an empty string.
- The dictionaries do not keep an id once it is assigned. Every builder call overwrites the
  entry at the subject key with a fresh id, so a subject key that comes back in a later row
  gets new ids.
- A row with fewer than 51 fields raises `IndexError` while the columns are read. This
  happens before any dictionary is written, so the registry is left unchanged.
- Called on its own for a subject with no Patient id, each of the ResearchSubject,
  Condition and Procedure builders raises `KeyError`. The lookup comes before the id is
  written, so nothing changes. Inside `create_bundle` this cannot happen, because the
  Patient id is written first.

## Model

| member | source | states |
|---|---|---|
| `Text.LowerHasNoUpper` | converter.py:60 | a lower-cased id has no upper-case letter left |
| `Text.LowerIdempotent` | converter.py:66 | lower-casing an already lower-cased value changes nothing |
| `FreshIds.IdOfInjective` | converter.py:62 | two ids from the supplier are equal exactly when they were handed out at the same count |
| `FreshIds.NextIdIsFresh` | converter.py:62 | the next id differs from every id handed out before it |
| `CodeTable.GetLabel` | converter.py:90-107 | a label exists exactly for C25.0-C25.4 and C25.7-C25.9, and each label starts "Bösartige Neubildung: " |
| `CodeTable.UnlistedCodesHaveNoLabel` | converter.py:90-107 | C25.5, C25.6, an unrelated code and a lower-case code get `None` |
| `Builders.FullUrlInjective` | converter.py:221 | two fullUrls built from slash-free resource types are equal exactly when their types and their ids are both equal |
| `Builders.DiagnosisCoding` | converter.py:131-140 | the Condition coding has the ICD-10-GM system and the row's code, and its display is present exactly for a known code |
| `Registry.IdentityRegistry.constructor` | converter.py:23-26 | the four dictionaries start empty, with no ids handed out |
| `Registry.IdentityRegistry.NextId` | converter.py:62 | hands out `IdOf(issued)`, which no dictionary holds yet, and advances the counter |
| `Registry.IdentityRegistry.CreatePatient` | converter.py:57-69 | overwrites `patients_uuid[key]` with a fresh id, leaves the other keys and dictionaries alone, and returns the Patient carrying that id |
| `Registry.IdentityRegistry.CreateResearchSubject` | converter.py:72-87 | `KeyError` with nothing changed when the subject has no Patient id; otherwise a fresh id at the key and a ResearchSubject that refers to the stored Patient id and to the study |
| `Registry.IdentityRegistry.CreateCondition` | converter.py:110-142 | `KeyError` with nothing changed when the subject has no Patient id; otherwise a fresh id at the key of `condition_uuid` only and the Condition that refers to the Patient |
| `Registry.IdentityRegistry.CreateProcedure` | converter.py:145-165 | `KeyError` with nothing changed when the subject has no Patient id; otherwise a fresh id at the key of `procedure_uuid` only and the radiotherapy Procedure |
| `Converter.AssembleBundle` | converter.py:168-243 | fails exactly for rows shorter than 51 fields; otherwise a "transaction" bundle keyed by column 1 whose entries are Patient, ResearchSubject, Condition, plus a Procedure exactly when column 46 is "Yes" |
| `Converter.CreateBundle` | converter.py:168-243 | returns `AssembleBundle` at the old counter; a short row changes nothing; otherwise each dictionary gets a new id at the subject key, the Procedure one only for radiotherapy, and a returning subject's Patient id changes |
| `BundleProperties.PatientEntryFields` | converter.py:175-204 | `deceasedBoolean` holds exactly when column 35 is "0:LIVING"; the identifier and the guard use the lower-cased column 36; gender is the lower-cased column 50 |
| `BundleProperties.ResearchSubjectEntryFields` | converter.py:72-87 | status "active", the identifier and the guard use column 1 unchanged, and the study reference is `ResearchStudy/<study id>` |
| `BundleProperties.ConditionEntryFields` | converter.py:110-142 | active clinical status, the ICD-10-GM coding with the table's label, absent exactly for an unknown code, onset with unit "a", and an unconditional POST |
| `BundleProperties.ProcedureEntryFields` | converter.py:145-165 | the Procedure is completed, carries the single SNOMED radiotherapy coding and has an unconditional POST |
| `BundleProperties.EntryIdentity` | converter.py:211-233 | entry i holds the i-th resource type with the (n+i)-th id, and its fullUrl is `<ResourceType>/<id>` |
| `BundleProperties.PatientReferencesResolve` | converter.py:218-233 | the ResearchSubject, Condition and Procedure subjects all equal the Patient entry's fullUrl |
| `BundleProperties.EntryIdsDistinct` | converter.py:62-152 | the resources of one bundle have pairwise different ids and fullUrls |
| `BundleProperties.GuardsMatchIdentifiers` | converter.py:180-197 | only Patient and ResearchSubject carry a guard, and each guard queries the identifier its own resource carries |
| `BundleProperties.StudyReferenceOutsideBundle` | converter.py:185-190 | no entry's fullUrl is the study reference, and no entry carries the ResearchStudy request |
| `BundleProperties.RowsShareNoIds` | converter.py:62-68 | a row converted after another shares no resource id with it, even for the same subject key |
| `BundleProperties.PatientGuardLowerCases` | converter.py:180-183 | the guard for secondary id "TCGA-ABC" queries "tcga-abc" |
| `BundleProperties.SentinelsAreExact` | converter.py:175-177 | "yes", "", "YES" or "No" in column 46 give three entries; "0:living" in column 35 gives a false `deceasedBoolean` |
| `BundleProperties.ResearchStudyFields` | converter.py:29-54 | the study is active, has the run's id and the cBioPortal study identifier that the ResearchStudy guard queries, and has one "completed" progress status |

## Left out

- The `__main__` block (converter.py:246-273) is not modelled. It covers reading the TSV file, skipping the header, splitting on tabs, argparse, the run-mode switch, writing one JSON file per subject and `print`. The study id that block puts in a global is a parameter here.
- JSON serialisation and the `fhir.resources` construct/validation machinery are not modelled. Resources are plain datatypes holding only the elements the converter sets.
- `uuid.uuid4()` is replaced by a counter-based supplier (`IdOf(n)`). Random UUIDs are distinct only with high probability; here distinctness is proved.
- `float(onset_age)` (converter.py:112) is not modelled. The onset keeps the row's text, and the `ValueError` for a non-numeric onset is not modelled. That error would come after the Patient and ResearchSubject ids had been written.
- Text.Lower: folds only the ASCII letters A-Z. Python's `str.lower()` also folds non-ASCII letters.
- `DATA_PATH` is an input path of the `__main__` block and is not modelled.
