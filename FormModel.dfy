/** The records of the builder's session state. Fields arrive from the CSV
    upload carrying only `field`, `fieldType` and `placeholder`, so every
    attribute of a field is optional. `kind` is the field's `type` property and
    `labelText` its `label` property (`type` and `label` are Dafny keywords). */
module FormModel {
  import opened JsValues
  import opened Seqs

  datatype Field = Field(
    id: Option<string>,
    order: Option<int>,
    kind: Option<string>,
    field: Option<string>,
    fieldType: Option<string>,
    labelText: Option<string>,
    attributeName: Option<string>,
    placeholder: Option<string>,
    sectionId: Option<string>,
    constraint: Option<Json>,
    constraintId: Option<Json>,
    info: Option<Json>,
    hint: Option<Json>,
    eventTrigger: Option<Json>,
    value: Option<Json>,
    validation: Option<Json>,
    validationErrorMessage: Option<Json>,
    metadata: Option<map<string, Json>>,
    dealSummary: Option<bool>,
    formSummary: Option<bool>,
    summaryDisplay: Option<bool>,
    formUpload: Option<Json>)

  /** The object `{}`: a field with no properties at all. */
  const EmptyField: Field := Field(None, None, None, None, None, None, None, None, None,
                                   None, None, None, None, None, None, None, None,
                                   None, None, None, None, None)

  /** A section; `kind`, `description` and `info` are read by the export but
      never written by the editor. */
  datatype Section = Section(
    id: string,
    title: string,
    attributeName: string,
    subtitle: string,
    goTo: string,
    kind: Option<string>,
    description: Option<string>,
    info: Option<string>)

  /** A section as the editor creates it: the five string properties only. */
  function MakeSection(id: string, title: string, attributeName: string): (s: Section)
    ensures s.id == id && s.title == title && s.attributeName == attributeName
    ensures s.subtitle == "" && s.goTo == "" && s.kind.None? && s.description.None? && s.info.None?
  {
    Section(id, title, attributeName, "", "", None, None, None)
  }

  /** `kind` is the form's `type`; `formId` is absent until a locale is chosen. */
  datatype FormDetails = FormDetails(
    locale: string,
    kind: string,
    name: string,
    shortName: string,
    category: string,
    formId: Option<string>)

  const EmptyFormDetails: FormDetails := FormDetails("", "", "", "", "", None)

  /** `field.sectionId === sectionId`: a missing sectionId matches no section. */
  predicate InSection(f: Field, sectionId: string) {
    f.sectionId == Some(sectionId)
  }

  /** The fields assigned to the section with id `sectionId`, in field order
      (`fields.filter(field => field.sectionId === section.id)`). */
  function MembersOf(fields: seq<Field>, sectionId: string): (r: seq<Field>)
    ensures |r| <= |fields|
    ensures forall i :: 0 <= i < |r| ==> r[i] in fields && InSection(r[i], sectionId)
    ensures forall i :: 0 <= i < |fields| && InSection(fields[i], sectionId) ==> fields[i] in r
  {
    Filter(fields, f => InSection(f, sectionId))
  }
}
