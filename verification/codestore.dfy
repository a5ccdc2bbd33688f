/** The session's code store: one ordered list of ICD-10 codes and one of
    CPT codes, appended to by the two "Add" buttons and emptied by
    "Clear All Codes". No validation, duplicates allowed. */
module CodeStore {

  datatype Kind = Icd10 | Cpt

  /** `st.session_state.icd_10_codes` and `st.session_state.cpt_codes`. */
  datatype Store = Store(icd10: seq<string>, cpt: seq<string>)
  {
    function Codes(kind: Kind): seq<string>
    {
      match kind
      case Icd10 => icd10
      case Cpt => cpt
    }
  }

  function Other(kind: Kind): Kind
  {
    match kind
    case Icd10 => Cpt
    case Cpt => Icd10
  }

  /** The store at the start of a session. */
  const Empty: Store := Store([], [])

  /** The "Add" button of one panel: the entered text is appended to that
      panel's list when it is non-empty (Python truthiness of a string);
      the other list is left alone. */
  function Add(s: Store, kind: Kind, code: string): (r: Store)
    ensures code != [] ==> r.Codes(kind) == s.Codes(kind) + [code]
    ensures code == [] ==> r == s
    ensures r.Codes(Other(kind)) == s.Codes(Other(kind))
  {
    if code == [] then s
    else
      match kind
      case Icd10 => s.(icd10 := s.icd10 + [code])
      case Cpt => s.(cpt := s.cpt + [code])
  }

  /** "Clear All Codes": both lists become empty. */
  function ClearAll(s: Store): (r: Store)
    ensures r.Codes(Icd10) == [] && r.Codes(Cpt) == []
  {
    s.(icd10 := [], cpt := [])
  }

  /** Clearing twice is the same as clearing once. */
  lemma ClearAllIdempotent(s: Store)
    ensures ClearAll(ClearAll(s)) == ClearAll(s)
  {
  }
}
