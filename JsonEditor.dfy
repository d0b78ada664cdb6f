/** The form-structure editor: the list of unassigned fields, adding and
    removing sections, dragging a field onto a section or back to the
    unassigned list, the field edit dialog, the section edit boxes and the
    two summary selects of a field. Its handlers act on the session through
    the callbacks the session passes down. */
module JsonEditor {
  import opened JsValues
  import opened Seqs
  import opened JsStrings
  import opened FormModel
  import opened App
  import Preview

  // ---------------------------------------------------------------------
  // Unassigned fields and the section lists

  /** `!field.sectionId`: no section, null or "". */
  predicate IsUnassigned(f: Field) {
    !Present(f.sectionId)
  }

  /** `fields.filter(field => !field.sectionId)`. */
  function Unassigned(fields: seq<Field>): (r: seq<Field>)
    ensures |r| <= |fields|
    ensures forall f :: f in r <==> f in fields && IsUnassigned(f)
  {
    Filter(fields, IsUnassigned)
  }

  /** The unassigned list keeps the fields' order: that of `a + b` is that
      of `a` followed by that of `b`. */
  lemma UnassignedConcat(a: seq<Field>, b: seq<Field>)
    ensures Unassigned(a + b) == Unassigned(a) + Unassigned(b)
  {
    FilterConcat(a, b, IsUnassigned);
  }

  /** True when no two sections share an id and no id is empty. */
  predicate ValidSectionIds(sections: seq<Section>) {
    && (forall i, j :: 0 <= i < j < |sections| ==> sections[i].id != sections[j].id)
    && (forall i :: 0 <= i < |sections| ==> sections[i].id != "")
  }

  /** Number of fields listed under the sections, summed over the sections. */
  function ListedInSections(fields: seq<Field>, sections: seq<Section>): nat {
    if sections == [] then 0 else |MembersOf(fields, sections[0].id)| + ListedInSections(fields, sections[1..])
  }

  /** True when the field is unassigned or assigned to one of the sections. */
  predicate Placed(f: Field, sections: seq<Section>) {
    IsUnassigned(f) || exists i :: 0 <= i < |sections| && InSection(f, sections[i].id)
  }

  /** With distinct, non-empty section ids, the unassigned list and the
      section lists together show every placed field exactly once. */
  lemma {:induction false} ListsPartitionFields(fields: seq<Field>, sections: seq<Section>)
    requires ValidSectionIds(sections)
    requires forall i :: 0 <= i < |fields| ==> Placed(fields[i], sections)
    ensures |Unassigned(fields)| + ListedInSections(fields, sections) == |fields|
  {
    if fields != [] {
      var f := fields[0];
      var rest := fields[1..];
      assert fields == [f] + rest;
      FilterConcat([f], rest, IsUnassigned);
      assert Unassigned(fields) == Unassigned([f]) + Unassigned(rest);
      assert |Unassigned(fields)| == |Unassigned([f])| + |Unassigned(rest)|;
      ListsPartitionFields(rest, sections);
      ListedSplit([f], rest, sections);
      OneListPerField(f, sections);
    } else {
      NoneListed(sections);
    }
  }

  lemma {:induction false} NoneListed(sections: seq<Section>)
    ensures ListedInSections([], sections) == 0
  {
    if sections != [] {
      NoneListed(sections[1..]);
    }
  }

  /** The section lists of `a + b` are those of `a` followed by those of `b`. */
  lemma {:induction false} ListedSplit(a: seq<Field>, b: seq<Field>, sections: seq<Section>)
    ensures ListedInSections(a + b, sections) == ListedInSections(a, sections) + ListedInSections(b, sections)
  {
    if sections != [] {
      FilterConcat(a, b, f => InSection(f, sections[0].id));
      ListedSplit(a, b, sections[1..]);
    }
  }

  /** A placed field shows in exactly one list. */
  lemma {:induction false} OneListPerField(f: Field, sections: seq<Section>)
    requires ValidSectionIds(sections) && Placed(f, sections)
    ensures |Unassigned([f])| + ListedInSections([f], sections) == 1
  {
    if IsUnassigned(f) {
      NotListed(f, sections);
    } else {
      var i :| 0 <= i < |sections| && InSection(f, sections[i].id);
      ListedOnce(f, sections, i);
    }
  }

  lemma {:induction false} NotListed(f: Field, sections: seq<Section>)
    requires IsUnassigned(f) && forall i :: 0 <= i < |sections| ==> sections[i].id != ""
    ensures ListedInSections([f], sections) == 0
  {
    if sections != [] {
      assert !InSection(f, sections[0].id);
      assert MembersOf([f], sections[0].id) == [];
      NotListed(f, sections[1..]);
    }
  }

  lemma {:induction false} ListedOnce(f: Field, sections: seq<Section>, i: nat)
    requires ValidSectionIds(sections) && i < |sections| && InSection(f, sections[i].id)
    ensures ListedInSections([f], sections) == 1
  {
    if i == 0 {
      assert MembersOf([f], sections[0].id) == [f];
      NotInSections(f, sections[1..]);
    } else {
      assert sections[0].id != sections[i].id;
      assert MembersOf([f], sections[0].id) == [];
      ListedOnce(f, sections[1..], i - 1);
    }
  }

  lemma {:induction false} NotInSections(f: Field, sections: seq<Section>)
    requires forall i :: 0 <= i < |sections| ==> !InSection(f, sections[i].id)
    ensures ListedInSections([f], sections) == 0
  {
    if sections != [] {
      assert MembersOf([f], sections[0].id) == [];
      NotInSections(f, sections[1..]);
    }
  }

  // ---------------------------------------------------------------------
  // Adding and removing sections

  /** The section `handleAddSection` appends to `n` sections. */
  function NewSection(n: nat): (s: Section)
    ensures s.subtitle == "" && s.goTo == ""
  {
    MakeSection("section-" + NatToString(n), "New Section " + NatToString(n + 1), "section" + NatToString(n + 1))
  }

  /** True when every section still has the id it was created with. */
  predicate CreationIds(sections: seq<Section>) {
    forall i :: 0 <= i < |sections| ==> sections[i].id == "section-" + NatToString(i)
  }

  /** As long as no section was removed, the id of a new section is fresh. */
  lemma NewSectionFresh(sections: seq<Section>)
    requires CreationIds(sections)
    ensures forall i :: 0 <= i < |sections| ==> sections[i].id != NewSection(|sections|).id
  {
    forall i | 0 <= i < |sections| ensures sections[i].id != NewSection(|sections|).id {
      var p := "section-";
      NatToStringInjective(i, |sections|);
      assert (p + NatToString(i))[|p|..] == NatToString(i);
      assert (p + NatToString(|sections|))[|p|..] == NatToString(|sections|);
    }
  }

  /** After a removal the id is not checked: of two new sections, remove
      "section-0"; the section added next is a copy of the one left, id
      "section-1" included. */
  lemma NewSectionMayRepeatAnId()
    ensures Filter([NewSection(0), NewSection(1)], KeepSection("section-0")) == [NewSection(1)]
    ensures NewSection(|[NewSection(1)]|) == NewSection(1) && NewSection(1).id == "section-1"
  {
    var two := [NewSection(0), NewSection(1)];
    assert NatToString(0) == "0" && NatToString(1) == "1";
    assert two[0].id == "section-0" && two[1].id == "section-1";
    assert two[1..] == [two[1]];
    assert two[1..][1..] == [];
  }

  /** `handleAddSection`: one section appended, numbered after the count. */
  method HandleAddSection(s: Session)
    modifies s
    ensures s.sections == old(s.sections) + [NewSection(|old(s.sections)|)]
    ensures s.fields == old(s.fields) && s.formDetails == old(s.formDetails)
    ensures s.selectedRoles == old(s.selectedRoles) && s.selectedCreators == old(s.selectedCreators)
    ensures s.resetFileUpload == old(s.resetFileUpload)
  {
    s.SetSections(s.sections + [NewSection(|s.sections|)]);
  }

  /** `section => section.id !== sectionId`. */
  function KeepSection(sectionId: string): Section -> bool {
    (t: Section) => t.id != sectionId
  }

  /** The ids of the fields of `fields` that are in the section, in order. */
  function MemberIds(fields: seq<Field>, sectionId: string): seq<Option<string>> {
    if fields == [] then []
    else
      var n := |fields| - 1;
      MemberIds(fields[..n], sectionId) + (if InSection(fields[n], sectionId) then [fields[n].id] else [])
  }

  /** One `onFieldAssign(id, null)` per id, in order. */
  function UnassignIds(fields: seq<Field>, ids: seq<Option<string>>): (r: seq<Field>)
    ensures |r| == |fields|
  {
    if ids == [] then fields
    else AssignField(UnassignIds(fields, ids[..|ids| - 1]), ids[|ids| - 1], None)
  }

  /** Unassigning a list of ids clears the section of exactly the fields
      whose id is in the list; nothing else about any field changes. */
  lemma {:induction false} UnassignIdsSpec(fields: seq<Field>, ids: seq<Option<string>>)
    ensures forall k :: 0 <= k < |fields| ==>
      UnassignIds(fields, ids)[k] == if fields[k].id in ids then fields[k].(sectionId := None) else fields[k]
  {
    if ids != [] {
      var n := |ids| - 1;
      UnassignIdsSpec(fields, ids[..n]);
      assert forall x :: x in ids <==> x in ids[..n] || x == ids[n] by {
        assert ids == ids[..n] + [ids[n]];
      }
    }
  }

  /** A member's id is among the member ids. */
  lemma {:induction false} MemberIdsHasMembers(fields: seq<Field>, sectionId: string, k: nat)
    requires k < |fields| && InSection(fields[k], sectionId)
    ensures fields[k].id in MemberIds(fields, sectionId)
  {
    var n := |fields| - 1;
    if k < n {
      MemberIdsHasMembers(fields[..n], sectionId, k);
    }
  }

  /** The fields after removing section `sectionId`. */
  function FieldsAfterRemoval(fields: seq<Field>, sectionId: string): (r: seq<Field>)
    ensures |r| == |fields|
  {
    UnassignIds(fields, MemberIds(fields, sectionId))
  }

  /** After a removal no field is left in the removed section; every other
      field keeps everything, unless it shares its id with a field of the
      removed section, in which case only its section is cleared. */
  lemma FieldsAfterRemovalSpec(fields: seq<Field>, sectionId: string)
    ensures forall k :: 0 <= k < |fields| ==> !InSection(FieldsAfterRemoval(fields, sectionId)[k], sectionId)
    ensures forall k :: 0 <= k < |fields| && fields[k].id !in MemberIds(fields, sectionId) ==>
      FieldsAfterRemoval(fields, sectionId)[k] == fields[k]
    ensures forall k :: 0 <= k < |fields| ==>
      FieldsAfterRemoval(fields, sectionId)[k].(sectionId := fields[k].sectionId) == fields[k]
  {
    var ids := MemberIds(fields, sectionId);
    UnassignIdsSpec(fields, ids);
    forall k | 0 <= k < |fields| && InSection(fields[k], sectionId) ensures fields[k].id in ids {
      MemberIdsHasMembers(fields, sectionId, k);
    }
  }

  /** Fields have no ids when they come from the upload, so they all match
      each other: removing a section that holds an id-less field clears
      every id-less field, in whatever section it was. */
  lemma RemovalClearsIdlessFields(fields: seq<Field>, sectionId: string, k: nat, j: nat)
    requires k < |fields| && j < |fields|
    requires InSection(fields[k], sectionId) && fields[k].id.None? && fields[j].id.None?
    ensures FieldsAfterRemoval(fields, sectionId)[j].sectionId.None?
  {
    MemberIdsHasMembers(fields, sectionId, k);
    UnassignIdsSpec(fields, MemberIds(fields, sectionId));
  }

  /** `handleRemoveSection(sectionId)`: one `onFieldAssign(field.id, null)`
      for each field of the section, then the section is filtered out. */
  method HandleRemoveSection(s: Session, sectionId: string)
    modifies s
    ensures s.fields == FieldsAfterRemoval(old(s.fields), sectionId)
    ensures s.sections == Filter(old(s.sections), KeepSection(sectionId))
    ensures s.formDetails == old(s.formDetails) && s.resetFileUpload == old(s.resetFileUpload)
    ensures s.selectedRoles == old(s.selectedRoles) && s.selectedCreators == old(s.selectedCreators)
  {
    var fields := s.fields;
    var sections := s.sections;
    var i := 0;
    while i < |fields|
      invariant 0 <= i <= |fields|
      invariant s.fields == UnassignIds(fields, MemberIds(fields[..i], sectionId))
      invariant s.sections == sections
      invariant s.formDetails == old(s.formDetails) && s.resetFileUpload == old(s.resetFileUpload)
      invariant s.selectedRoles == old(s.selectedRoles) && s.selectedCreators == old(s.selectedCreators)
    {
      var ids := MemberIds(fields[..i], sectionId);
      assert fields[..i + 1][..i] == fields[..i];
      if InSection(fields[i], sectionId) {
        assert MemberIds(fields[..i + 1], sectionId) == ids + [fields[i].id];
        assert (ids + [fields[i].id])[..|ids|] == ids;
        s.HandleFieldAssignment(fields[i].id, None);
      } else {
        assert MemberIds(fields[..i + 1], sectionId) == ids + [];
        assert ids + [] == ids;
      }
      i := i + 1;
    }
    assert fields[..i] == fields;
    s.SetSections(Filter(sections, KeepSection(sectionId)));
  }

  /** After a removal the section is gone and the others keep their order. */
  lemma RemovedSectionGone(sections: seq<Section>, sectionId: string)
    ensures forall i :: 0 <= i < |Filter(sections, KeepSection(sectionId))| ==>
      Filter(sections, KeepSection(sectionId))[i].id != sectionId
    ensures forall t :: t in sections && t.id != sectionId ==> t in Filter(sections, KeepSection(sectionId))
  {
    var r := Filter(sections, KeepSection(sectionId));
    forall i | 0 <= i < |r| ensures r[i].id != sectionId {
      assert KeepSection(sectionId)(r[i]);
    }
    forall t | t in sections && t.id != sectionId ensures t in r {
      var i :| 0 <= i < |sections| && sections[i] == t;
      assert KeepSection(sectionId)(sections[i]);
    }
  }

  // ---------------------------------------------------------------------
  // Dragging

  datatype Location = Location(droppableId: string, index: int)

  /** The result the drag-and-drop library reports at the end of a drag. */
  datatype DropResult = DropResult(source: Location, destination: Option<Location>, draggableId: Option<string>)

  /** What a drop asks of the session: nothing, or an assignment. */
  datatype DropAction = NoChange | AssignTo(sectionId: Option<string>)

  /** `fields.find(f => f.id === draggableId)` found something. A field
      read from a spreadsheet has no id, so its draggable id is undefined
      and finds the first such field. */
  predicate HasFieldWithId(fields: seq<Field>, id: Option<string>) {
    exists i :: 0 <= i < |fields| && fields[i].id == id
  }

  /** The decision `handleDragEnd` takes. */
  function DropActionOf(fields: seq<Field>, r: DropResult): (a: DropAction)
    ensures r.destination.None? ==> a == NoChange
    ensures r.destination == Some(r.source) ==> a == NoChange
    ensures !HasFieldWithId(fields, r.draggableId) ==> a == NoChange
    ensures a.AssignTo? && a.sectionId.Some? ==> StartsWith(a.sectionId.value, "section-") && Some(a.sectionId.value) == Some(r.destination.value.droppableId)
    ensures a.AssignTo? && a.sectionId.None? ==> r.destination.value.droppableId == "unassigned"
  {
    if r.destination.None? then NoChange
    else
      var dest := r.destination.value;
      if r.source.droppableId == dest.droppableId && r.source.index == dest.index then NoChange
      else if !HasFieldWithId(fields, r.draggableId) then NoChange
      else if StartsWith(dest.droppableId, "section-") then AssignTo(Some(dest.droppableId))
      else if dest.droppableId == "unassigned" then AssignTo(None)
      else NoChange
  }

  /** The fields after a drop. */
  function ApplyDrop(fields: seq<Field>, r: DropResult): (result: seq<Field>)
    ensures |result| == |fields|
  {
    match DropActionOf(fields, r)
    case NoChange => fields
    case AssignTo(sectionId) => AssignField(fields, r.draggableId, sectionId)
  }

  /** A drop never reorders fields and changes nothing but the dragged
      field's section: dropping on a section assigns it there, dropping on
      the unassigned list clears it. */
  lemma ApplyDropSpec(fields: seq<Field>, r: DropResult)
    ensures forall i :: 0 <= i < |fields| ==> ApplyDrop(fields, r)[i].(sectionId := fields[i].sectionId) == fields[i]
    ensures forall i :: 0 <= i < |fields| && fields[i].id != r.draggableId ==> ApplyDrop(fields, r)[i] == fields[i]
    ensures DropActionOf(fields, r).AssignTo? ==> forall i :: 0 <= i < |fields| && fields[i].id == r.draggableId ==>
      ApplyDrop(fields, r)[i].sectionId == DropActionOf(fields, r).sectionId
  {
  }

  /** A drop onto a section or onto the unassigned list of a field that
      exists, somewhere other than where it started, is acted on; a drop
      anywhere else is not. */
  lemma DropTargets(fields: seq<Field>, r: DropResult)
    requires r.destination.Some? && r.destination != Some(r.source) && HasFieldWithId(fields, r.draggableId)
    ensures StartsWith(r.destination.value.droppableId, "section-") ==>
      DropActionOf(fields, r) == AssignTo(Some(r.destination.value.droppableId))
    ensures r.destination.value.droppableId == "unassigned" ==> DropActionOf(fields, r) == AssignTo(None)
    ensures !StartsWith(r.destination.value.droppableId, "section-") && r.destination.value.droppableId != "unassigned" ==>
      DropActionOf(fields, r) == NoChange
  {
    if r.destination.value.droppableId == "unassigned" {
      assert "unassigned"[0] != "section-"[0];
    }
  }

  /** `handleDragEnd`. */
  method HandleDragEnd(s: Session, r: DropResult)
    modifies s
    ensures s.fields == ApplyDrop(old(s.fields), r)
    ensures s.sections == old(s.sections) && s.formDetails == old(s.formDetails) && s.resetFileUpload == old(s.resetFileUpload)
    ensures s.selectedRoles == old(s.selectedRoles) && s.selectedCreators == old(s.selectedCreators)
  {
    var action := DropActionOf(s.fields, r);
    match action
    case NoChange =>
    case AssignTo(sectionId) =>
      s.HandleFieldAssignment(r.draggableId, sectionId);
  }

  // ---------------------------------------------------------------------
  // Editing a field

  /** `fields.map(field => field.id === fieldId ? updatedField : field)`. */
  function UpdateFields(fields: seq<Field>, fieldId: Option<string>, updated: Field): (r: seq<Field>)
    ensures |r| == |fields|
    ensures forall i :: 0 <= i < |fields| && fields[i].id == fieldId ==> r[i] == updated
    ensures forall i :: 0 <= i < |fields| && fields[i].id != fieldId ==> r[i] == fields[i]
  {
    seq(|fields|, i requires 0 <= i < |fields| => if fields[i].id == fieldId then updated else fields[i])
  }

  /** Replacing by id twice is replacing once. */
  lemma UpdateFieldsIdempotent(fields: seq<Field>, fieldId: Option<string>, updated: Field)
    ensures UpdateFields(UpdateFields(fields, fieldId, updated), fieldId, updated) == UpdateFields(fields, fieldId, updated)
  {
    var once := UpdateFields(fields, fieldId, updated);
    var twice := UpdateFields(once, fieldId, updated);
    forall i | 0 <= i < |fields| ensures twice[i] == once[i] {
      if once[i].id == fieldId {
        assert fields[i].id == fieldId || once[i] == updated;
      }
    }
  }

  /** `handleFieldUpdate(fieldId, updatedField)`. */
  method HandleFieldUpdate(s: Session, fieldId: Option<string>, updated: Field)
    modifies s
    ensures s.fields == UpdateFields(old(s.fields), fieldId, updated)
    ensures s.sections == old(s.sections) && s.formDetails == old(s.formDetails) && s.resetFileUpload == old(s.resetFileUpload)
    ensures s.selectedRoles == old(s.selectedRoles) && s.selectedCreators == old(s.selectedCreators)
  {
    s.HandleFieldsUpdate(UpdateFields(s.fields, fieldId, updated));
  }

  /** The field edit dialog: `editingField`, null when the dialog is closed. */
  class FieldEditor {
    var editing: Option<Field>

    constructor ()
      ensures editing.None?
    {
      editing := None;
    }

    /** `handleFieldEdit(field)`: the dialog opens on a copy of the field. */
    method StartEdit(f: Field)
      modifies this
      ensures editing == Some(f)
    {
      editing := Some(f);
    }

    /** `{ ...prev }`: the field being edited, or `{}` when there is none. */
    function Current(): (f: Field)
      reads this
      ensures editing.Some? ==> f == editing.value
      ensures editing.None? ==> f == EmptyField
    {
      if editing.Some? then editing.value else EmptyField
    }

    /** The Label box. */
    method EditLabel(v: string)
      modifies this
      ensures editing == Some(old(Current()).(labelText := Some(v)))
    {
      editing := Some(Current().(labelText := Some(v)));
    }

    /** The Placeholder box. */
    method EditPlaceholder(v: string)
      modifies this
      ensures editing == Some(old(Current()).(placeholder := Some(v)))
    {
      editing := Some(Current().(placeholder := Some(v)));
    }

    /** The Attribute Name box of the dialog (not normalised). */
    method EditAttributeName(v: string)
      modifies this
      ensures editing == Some(old(Current()).(attributeName := Some(v)))
    {
      editing := Some(Current().(attributeName := Some(v)));
    }

    /** Cancel, or closing the dialog. */
    method Cancel()
      modifies this
      ensures editing.None?
    {
      editing := None;
    }

    /** `handleSaveEdit`: with a field being edited, every field with its id
      is replaced by it and the dialog closes; otherwise nothing happens. */
    method SaveEdit(s: Session)
      modifies this, s
      ensures old(editing).Some? ==> s.fields == UpdateFields(old(s.fields), old(editing).value.id, old(editing).value)
      ensures old(editing).None? ==> s.fields == old(s.fields)
      ensures editing.None?
      ensures s.sections == old(s.sections) && s.formDetails == old(s.formDetails) && s.resetFileUpload == old(s.resetFileUpload)
      ensures s.selectedRoles == old(s.selectedRoles) && s.selectedCreators == old(s.selectedCreators)
    {
      if editing.Some? {
        var f := editing.value;
        s.HandleFieldsUpdate(UpdateFields(s.fields, f.id, f));
        editing := None;
      }
    }
  }

  /** The dialog's three boxes never touch the id, so saving after editing a
      field replaces that field (and any other field with the same id) and
      keeps its section and summary flags. */
  method EditSession(s: Session, e: FieldEditor, k: nat, labelText: string, placeholder: string, attributeName: string)
    requires k < |s.fields|
    requires s != e as object
    modifies s, e
    ensures |s.fields| == |old(s.fields)|
    ensures s.fields[k].id == old(s.fields[k].id) && s.fields[k].sectionId == old(s.fields[k].sectionId)
    ensures s.fields[k].labelText == Some(labelText) && s.fields[k].placeholder == Some(placeholder)
    ensures s.fields[k].attributeName == Some(attributeName)
    ensures forall i :: 0 <= i < |s.fields| && old(s.fields[i].id) != old(s.fields[k].id) ==> s.fields[i] == old(s.fields[i])
  {
    var f := s.fields[k];
    e.StartEdit(f);
    e.EditLabel(labelText);
    e.EditPlaceholder(placeholder);
    e.EditAttributeName(attributeName);
    var edited := f.(labelText := Some(labelText)).(placeholder := Some(placeholder)).(attributeName := Some(attributeName));
    assert e.editing == Some(edited);
    e.SaveEdit(s);
    assert s.fields == UpdateFields(old(s.fields), f.id, edited);
  }

  // ---------------------------------------------------------------------
  // Editing a section

  /** `e.target.value.toLowerCase().replace(/\s+/g, '')`. */
  function NormaliseAttributeName(v: string): (r: string)
    ensures NoSpace(r) && NoUpper(r)
  {
    RemoveSpacesKeepsNoUpper(ToLower(v));
    RemoveSpaces(ToLower(v))
  }

  /** Normalising a normalised name changes nothing. */
  lemma NormaliseAttributeNameIdempotent(v: string)
    ensures NormaliseAttributeName(NormaliseAttributeName(v)) == NormaliseAttributeName(v)
  {
    var r := NormaliseAttributeName(v);
    ToLowerOfLower(r);
    RemoveSpacesOfNoSpace(r);
  }

  /** One of the four text boxes of a section card. */
  datatype SectionEdit = EditSectionTitle(v: string) | EditSectionAttributeName(v: string) | EditSectionSubtitle(v: string) | EditSectionGoTo(v: string)

  function ApplySectionEdit(t: Section, edit: SectionEdit): (r: Section)
    ensures r.id == t.id && r.kind == t.kind && r.description == t.description && r.info == t.info
    ensures edit.EditSectionAttributeName? ==> r.attributeName == NormaliseAttributeName(edit.v)
  {
    match edit
    case EditSectionTitle(v) => t.(title := v)
    case EditSectionAttributeName(v) => t.(attributeName := NormaliseAttributeName(v))
    case EditSectionSubtitle(v) => t.(subtitle := v)
    case EditSectionGoTo(v) => t.(goTo := v)
  }

  /** A section box's `onChange`: a copy of the sections with the one at
      `index` replaced by the edited section. */
  method HandleSectionEdit(s: Session, index: nat, edit: SectionEdit)
    requires index < |s.sections|
    modifies s
    ensures s.sections == old(s.sections)[index := ApplySectionEdit(old(s.sections)[index], edit)]
    ensures s.fields == old(s.fields) && s.formDetails == old(s.formDetails) && s.resetFileUpload == old(s.resetFileUpload)
    ensures s.selectedRoles == old(s.selectedRoles) && s.selectedCreators == old(s.selectedCreators)
  {
    var newSections := s.sections;
    newSections := newSections[index := ApplySectionEdit(s.sections[index], edit)];
    s.SetSections(newSections);
  }

  /** A section edit keeps the section ids, so it keeps every field where it is. */
  lemma SectionEditKeepsIds(sections: seq<Section>, index: nat, edit: SectionEdit)
    requires index < |sections|
    ensures var r := sections[index := ApplySectionEdit(sections[index], edit)];
      |r| == |sections| && forall i :: 0 <= i < |r| ==> r[i].id == sections[i].id
  {
  }

  // ---------------------------------------------------------------------
  // The summary selects

  datatype SummaryChoice = NotInSummary | Displayed | Hidden

  /** `field[summary] ? (field.summaryDisplay ? 'displayed' : 'hidden') : 'none'`. */
  function SelectValue(f: Field, kind: Preview.SummaryKind): (c: SummaryChoice)
    ensures c == NotInSummary <==> !IsSet(Preview.Flag(f, kind))
  {
    if IsSet(Preview.Flag(f, kind)) then (if IsSet(f.summaryDisplay) then Displayed else Hidden)
    else NotInSummary
  }

  /** `{ ...field, [summary]: value !== 'none', summaryDisplay: value === 'displayed' }`. */
  function SelectChange(f: Field, kind: Preview.SummaryKind, c: SummaryChoice): (r: Field)
    ensures Preview.Flag(r, kind) == Some(c != NotInSummary)
    ensures r.summaryDisplay == Some(c == Displayed)
  {
    match kind
    case DealSummary => f.(dealSummary := Some(c != NotInSummary), summaryDisplay := Some(c == Displayed))
    case FormSummary => f.(formSummary := Some(c != NotInSummary), summaryDisplay := Some(c == Displayed))
  }

  /** Reading a select back after choosing `c` gives `c`. */
  lemma SelectRoundTrip(f: Field, kind: Preview.SummaryKind, c: SummaryChoice)
    ensures SelectValue(SelectChange(f, kind, c), kind) == c
  {
  }

  /** Both selects write the one `summaryDisplay` flag: a choice in one select
      can change what the other shows, but not whether it is in its summary. */
  lemma SelectsShareDisplay(f: Field, c: SummaryChoice)
    ensures SelectValue(SelectChange(f, Preview.FormSummary, c), Preview.DealSummary) ==
      if !IsSet(f.dealSummary) then NotInSummary else if c == Displayed then Displayed else Hidden
    ensures SelectValue(SelectChange(f, Preview.DealSummary, c), Preview.FormSummary) ==
      if !IsSet(f.formSummary) then NotInSummary else if c == Displayed then Displayed else Hidden
  {
  }

  /** What the summary export makes of a choice: the field is listed even for
      "none" (the flag is `false`, not undefined), and the exported `display`
      is the flag itself, so "hidden" exports `true` like "displayed". */
  lemma SelectExport(f: Field, kind: Preview.SummaryKind, c: SummaryChoice)
    ensures var g := SelectChange(f, kind, c);
      var key := Preview.PropertyKey(g.attributeName);
      key in Preview.GenerateSummary([g], kind) &&
      Preview.GenerateSummary([g], kind)[key].display == (c != NotInSummary)
  {
    var g := SelectChange(f, kind, c);
    Preview.SummaryLastWins([g], kind, 0);
  }
}
