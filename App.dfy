/** The top-level session state of the form builder: the uploaded fields,
    the sections, the selected signer roles and form creators, the form
    details and the file-upload reset trigger. Every handler replaces one of
    these slots; discarding restores the initial state. */
module App {
  import opened JsValues
  import opened FormModel

  /** The section every session starts with. */
  function DefaultSection(): (s: Section)
    ensures s.id == "section-0" && s.title == "Default Section" && s.attributeName == "defaultSection"
    ensures s.subtitle == "" && s.goTo == ""
  {
    MakeSection("section-0", "Default Section", "defaultSection")
  }

  /** The new field list of `handleFieldAssignment(fieldId, sectionId)`: every
      field whose id equals `fieldId` gets `sectionId` (`None` is null), the
      rest are kept. Ids compare as `===` does, so an absent id matches every
      field that has none. */
  function AssignField(fields: seq<Field>, fieldId: Option<string>, sectionId: Option<string>): (r: seq<Field>)
    ensures |r| == |fields|
    ensures forall i :: 0 <= i < |fields| && fields[i].id == fieldId ==>
              r[i].sectionId == sectionId && r[i].(sectionId := fields[i].sectionId) == fields[i]
    ensures forall i :: 0 <= i < |fields| && fields[i].id != fieldId ==> r[i] == fields[i]
  {
    seq(|fields|, i requires 0 <= i < |fields| => if fields[i].id == fieldId then fields[i].(sectionId := sectionId) else fields[i])
  }

  /** Assigning a field to the same section twice is assigning it once; a
      second assignment of the same id overrides the first. */
  lemma AssignFieldIdempotent(fields: seq<Field>, fieldId: Option<string>, s1: Option<string>, s2: Option<string>)
    ensures AssignField(AssignField(fields, fieldId, s1), fieldId, s2) == AssignField(fields, fieldId, s2)
    ensures AssignField(AssignField(fields, fieldId, s1), fieldId, s1) == AssignField(fields, fieldId, s1)
  {
    var once := AssignField(fields, fieldId, s1);
    assert forall i :: 0 <= i < |fields| ==> once[i].id == fields[i].id;
  }

  /** Assignments of different fields do not interfere. */
  lemma AssignFieldCommutes(fields: seq<Field>, a: Option<string>, sa: Option<string>, b: Option<string>, sb: Option<string>)
    requires a != b
    ensures AssignField(AssignField(fields, a, sa), b, sb) == AssignField(AssignField(fields, b, sb), a, sa)
  {
    var ab := AssignField(AssignField(fields, a, sa), b, sb);
    var ba := AssignField(AssignField(fields, b, sb), a, sa);
    forall i | 0 <= i < |fields| ensures ab[i] == ba[i] {
      assert AssignField(fields, a, sa)[i].id == fields[i].id;
      assert AssignField(fields, b, sb)[i].id == fields[i].id;
    }
  }

  class Session {
    var fields: seq<Field>
    var sections: seq<Section>
    var selectedRoles: seq<string>
    var selectedCreators: seq<string>
    var formDetails: FormDetails
    var resetFileUpload: bool

    /** The slots as `useState` initialises them (the reset flag aside). */
    predicate Initial()
      reads this
    {
      && fields == []
      && sections == [DefaultSection()]
      && selectedRoles == []
      && selectedCreators == []
      && formDetails == EmptyFormDetails
    }

    constructor ()
      ensures Initial() && !resetFileUpload
    {
      fields := [];
      sections := [DefaultSection()];
      selectedRoles := [];
      selectedCreators := [];
      formDetails := EmptyFormDetails;
      resetFileUpload := false;
    }

    /** `disabled={!!fields.length}` on the upload control. */
    predicate UploadDisabled()
      reads this
    {
      |fields| > 0
    }

    /** `handleFileUpload`: the uploaded records become the fields. */
    method HandleFileUpload(uploaded: seq<Field>)
      modifies this
      ensures fields == uploaded
      ensures sections == old(sections) && selectedRoles == old(selectedRoles) && selectedCreators == old(selectedCreators)
      ensures formDetails == old(formDetails) && resetFileUpload == old(resetFileUpload)
      ensures UploadDisabled() <==> uploaded != []
    {
      fields := uploaded;
    }

    /** `handleFieldAssignment`. */
    method HandleFieldAssignment(fieldId: Option<string>, sectionId: Option<string>)
      modifies this
      ensures fields == AssignField(old(fields), fieldId, sectionId)
      ensures sections == old(sections) && selectedRoles == old(selectedRoles) && selectedCreators == old(selectedCreators)
      ensures formDetails == old(formDetails) && resetFileUpload == old(resetFileUpload)
    {
      fields := AssignField(fields, fieldId, sectionId);
    }

    /** `handleRolesChange`. */
    method HandleRolesChange(newRoles: seq<string>)
      modifies this
      ensures selectedRoles == newRoles
      ensures fields == old(fields) && sections == old(sections) && selectedCreators == old(selectedCreators)
      ensures formDetails == old(formDetails) && resetFileUpload == old(resetFileUpload)
    {
      selectedRoles := newRoles;
    }

    /** `handleCreatorsChange`. */
    method HandleCreatorsChange(newCreators: seq<string>)
      modifies this
      ensures selectedCreators == newCreators
      ensures fields == old(fields) && sections == old(sections) && selectedRoles == old(selectedRoles)
      ensures formDetails == old(formDetails) && resetFileUpload == old(resetFileUpload)
    {
      selectedCreators := newCreators;
    }

    /** `handleFormDetailsChange`. */
    method HandleFormDetailsChange(newDetails: FormDetails)
      modifies this
      ensures formDetails == newDetails
      ensures fields == old(fields) && sections == old(sections) && selectedRoles == old(selectedRoles)
      ensures selectedCreators == old(selectedCreators) && resetFileUpload == old(resetFileUpload)
    {
      formDetails := newDetails;
    }

    /** `handleFieldsUpdate`. */
    method HandleFieldsUpdate(updatedFields: seq<Field>)
      modifies this
      ensures fields == updatedFields
      ensures sections == old(sections) && selectedRoles == old(selectedRoles) && selectedCreators == old(selectedCreators)
      ensures formDetails == old(formDetails) && resetFileUpload == old(resetFileUpload)
    {
      fields := updatedFields;
    }

    /** `setSections`, handed to the section editor. */
    method SetSections(newSections: seq<Section>)
      modifies this
      ensures sections == newSections
      ensures fields == old(fields) && selectedRoles == old(selectedRoles) && selectedCreators == old(selectedCreators)
      ensures formDetails == old(formDetails) && resetFileUpload == old(resetFileUpload)
    {
      sections := newSections;
    }

    /** `handleDiscard`: every slot back to its initial value, and the reset
      trigger flipped so the upload control clears its file. Uploading is
      possible again afterwards. */
    method HandleDiscard()
      modifies this
      ensures Initial()
      ensures resetFileUpload == !old(resetFileUpload)
      ensures !UploadDisabled()
    {
      fields := [];
      sections := [DefaultSection()];
      selectedRoles := [];
      selectedCreators := [];
      formDetails := EmptyFormDetails;
      resetFileUpload := !resetFileUpload;
    }
  }

  /** On a fresh session, uploading a non-empty spreadsheet disables the
      upload control, and discarding enables it again. */
  method UploadRequiresDiscard(uploaded: seq<Field>) returns (disabledAfterUpload: bool, disabledAfterDiscard: bool)
    ensures disabledAfterUpload <==> uploaded != []
    ensures !disabledAfterDiscard
  {
    var s := new Session();
    s.HandleFileUpload(uploaded);
    disabledAfterUpload := s.UploadDisabled();
    s.HandleDiscard();
    disabledAfterDiscard := s.UploadDisabled();
  }
}
