/** The ICD-10-GM code table for malignant neoplasms of the pancreas. */
module CodeTable {
  import opened Wrappers

  const LabelPrefix: string := "Bösartige Neubildung: "

  /** The codes the table knows: C25.0 to C25.4 and C25.7 to C25.9. */
  const KnownCodes: set<string> :=
    {"C25.0", "C25.1", "C25.2", "C25.3", "C25.4", "C25.7", "C25.8", "C25.9"}

  /** The German label of an ICD-10-GM code, or None for a code outside the table. */
  function GetLabel(icdCode: string): (found: Option<string>)
    ensures found.Some? <==> icdCode in KnownCodes
    ensures found.Some? ==> |LabelPrefix| < |found.value| && found.value[..|LabelPrefix|] == LabelPrefix
  {
    match icdCode
    case "C25.0" => Some(LabelPrefix + "Pankreaskopf")
    case "C25.1" => Some(LabelPrefix + "Pankreaskörper")
    case "C25.2" => Some(LabelPrefix + "Pankreasschwanz")
    case "C25.3" => Some(LabelPrefix + "Ductus pancreaticus")
    case "C25.4" => Some(LabelPrefix + "Endokriner Drüsenanteil des Pankreas")
    case "C25.7" => Some(LabelPrefix + "Sonstige Teile des Pankreas")
    case "C25.8" => Some(LabelPrefix + "Pankreas, mehrere Teilbereiche überlappend")
    case "C25.9" => Some(LabelPrefix + "Pankreas, nicht näher bezeichnet")
    case _ => None
  }

  /** The gaps in the table: C25.5, C25.6 and any non-pancreas code have no label. */
  lemma UnlistedCodesHaveNoLabel()
    ensures GetLabel("C25.5") == None && GetLabel("C25.6") == None
    ensures GetLabel("Z99.9") == None && GetLabel("c25.0") == None
  {
  }
}
