/** The export document the preview shows and downloads: form metadata, the
    sections with their fields, the deal and form summaries, one signature
    template per selected signer role, and the signing rules. The document is
    a value; its JSON text and the download itself are not modelled, only the
    download's file name. */
module Preview {
  import opened JsValues
  import opened Seqs
  import opened JsStrings
  import opened FormModel
  import opened FormIdUtils
  import SignerRoleSelector

  // ---------------------------------------------------------------------
  // Signature templates

  datatype Signer = Signer(signerKey: string, email: string)

  /** One entry of `signaturesTemplate`; `defaultCount` is `default`. */
  datatype SignatureTemplate = SignatureTemplate(
    integrationRole: string,
    meviDealRole: string,
    min: nat,
    max: nat,
    defaultCount: nat,
    additionalSignaturePage: Option<nat>,
    signatures: seq<Signer>)

  /** `Array.from({ length: n }, (_, i) => ({ signerKey: `${prefix}${i + 1}`, … }))`. */
  function Signers(prefix: string, n: nat): (r: seq<Signer>)
    ensures |r| == n
  {
    seq(n, i requires 0 <= i < n => Signer(prefix + NatToString(i + 1), prefix + NatToString(i + 1) + "@mevi.io"))
  }

  /** `signaturesTemplate[role]`: `None` (undefined) for a role not in the table. */
  function TemplateFor(role: string): (t: Option<SignatureTemplate>)
    ensures t.Some? <==> role in SignerRoleSelector.RoleKeys()
  {
    SignerRoleSelector.RoleKeysDistinct();
    if role == "client.buy" then
      Some(SignatureTemplate("Buyer", "client.buy", 1, 6, 2, Some(3), Signers("Buyer", 6)))
    else if role == "client.sell" then
      Some(SignatureTemplate("Seller", "client.sell", 1, 6, 2, Some(3), Signers("Seller", 6)))
    else if role == "team.buy" then
      Some(SignatureTemplate("BuyerAgent", "team.buy", 1, 1, 1, None, [Signer("BuyerAgent1", "BuyerAgent1@mevi.io")]))
    else if role == "team.sell" then
      Some(SignatureTemplate("SellerAgent", "team.sell", 1, 1, 1, None, [Signer("SellerAgent1", "SellerAgent1@mevi.io")]))
    else None
  }

  /** Every template has `min <= default <= max` and exactly `max` signers,
      no two with the same key, each signing as `{signerKey}@mevi.io`; its
      details are those the signer-role picker shows for the same role. */
  lemma TemplateWellFormed(role: string)
    requires TemplateFor(role).Some?
    ensures var t := TemplateFor(role).value;
      && t.min <= t.defaultCount <= t.max
      && |t.signatures| == t.max
      && t.meviDealRole == role
      && (forall i :: 0 <= i < |t.signatures| ==> t.signatures[i].email == t.signatures[i].signerKey + "@mevi.io")
      && (forall i, j :: 0 <= i < j < |t.signatures| ==> t.signatures[i].signerKey != t.signatures[j].signerKey)
    ensures exists i :: (0 <= i < |SignerRoleSelector.Roles| && SignerRoleSelector.Roles[i].key == role &&
                         SameDetails(TemplateFor(role).value, SignerRoleSelector.Roles[i].details))
  {
    var t := TemplateFor(role).value;
    SignerRoleSelector.RoleKeysDistinct();
    forall i, j | 0 <= i < j < |t.signatures|
      ensures t.signatures[i].signerKey != t.signatures[j].signerKey
    {
      if IsClientTemplate(role) {
        SignerKeysDistinct(t.integrationRole, i, j);
      }
    }
    var k := if role == "client.buy" then 0 else if role == "client.sell" then 1 else if role == "team.buy" then 2 else 3;
    assert SignerRoleSelector.Roles[k].key == role;
  }

  predicate IsClientTemplate(role: string) {
    role == "client.buy" || role == "client.sell"
  }

  predicate SameDetails(t: SignatureTemplate, d: SignerRoleSelector.RoleDetails) {
    && t.integrationRole == d.integrationRole
    && t.meviDealRole == d.meviDealRole
    && t.min == d.min && t.max == d.max && t.defaultCount == d.defaultCount
    && t.additionalSignaturePage == d.additionalSignaturePage
  }

  lemma SignerKeysDistinct(prefix: string, i: nat, j: nat)
    requires i < j < 6
    ensures Signers(prefix, 6)[i].signerKey != Signers(prefix, 6)[j].signerKey
  {
    var a := prefix + NatToString(i + 1);
    var b := prefix + NatToString(j + 1);
    NatToStringInjective(i + 1, j + 1);
    assert a[|prefix|..] == NatToString(i + 1);
    assert b[|prefix|..] == NatToString(j + 1);
  }

  /** Client signers are `Buyer1` … `Buyer6` and `Seller1` … `Seller6`. */
  lemma ClientSignerKeys(i: nat)
    requires i < 6
    ensures TemplateFor("client.buy").value.signatures[i].signerKey == "Buyer" + NatToString(i + 1)
    ensures TemplateFor("client.sell").value.signatures[i].signerKey == "Seller" + NatToString(i + 1)
  {
  }

  /** The templates' keys are exactly the signer-role picker's keys. */
  lemma TemplateKeysAreRoleKeys(role: string)
    ensures TemplateFor(role).Some? <==> exists i :: 0 <= i < |SignerRoleSelector.Roles| && SignerRoleSelector.Roles[i].key == role
  {
    if TemplateFor(role).Some? {
      TemplateWellFormed(role);
    }
  }

  /** `generateSignaturesJSON()`: `{}` without roles, otherwise one entry per
      selected role (an unknown role maps to undefined). */
  function GenerateSignatures(selectedRoles: seq<string>): (m: map<string, Option<SignatureTemplate>>)
    ensures |selectedRoles| == 0 ==> m == map[]
    ensures forall role :: role in m <==> role in selectedRoles
    ensures forall role :: role in m ==> m[role] == TemplateFor(role)
  {
    if |selectedRoles| == 0 then map[]
    else map role | role in selectedRoles :: TemplateFor(role)
  }

  // ---------------------------------------------------------------------
  // Summaries

  datatype SummaryKind = DealSummary | FormSummary

  /** `field[summaryType]`. */
  function Flag(f: Field, kind: SummaryKind): Option<bool> {
    match kind
    case DealSummary => f.dealSummary
    case FormSummary => f.formSummary
  }

  /** `field => field[summaryType] !== undefined`. */
  function HasFlag(kind: SummaryKind): Field -> bool {
    f => Flag(f, kind).Some?
  }

  /** A summary entry; `labelText` is `label || null`, so its `None` is a JSON
      `null`; `kind` is the field's `type`, whose `None` is an undefined value,
      a key that `JSON.stringify` leaves out. */
  datatype SummaryEntry = SummaryEntry(labelText: Option<string>, kind: Option<string>, display: bool)

  /** An object key made from an attribute name: undefined becomes "undefined". */
  function PropertyKey(name: Option<string>): (k: string)
    ensures name.Some? ==> k == name.value
  {
    match name
    case Some(s) => s
    case None => "undefined"
  }

  function SummaryPair(f: Field, kind: SummaryKind): (string, SummaryEntry)
    requires Flag(f, kind).Some?
  {
    (PropertyKey(f.attributeName), SummaryEntry(StringOrNull(f.labelText), f.kind, Flag(f, kind).value))
  }

  /** `Object.fromEntries(entries)`: a later entry overrides an earlier one
      with the same key. */
  function FromEntries<V>(entries: seq<(string, V)>): (m: map<string, V>)
    ensures forall k :: k in m <==> exists i :: 0 <= i < |entries| && entries[i].0 == k
  {
    if entries == [] then map[]
    else
      var n := |entries| - 1;
      var m := FromEntries(entries[..n]);
      assert forall i :: 0 <= i < n ==> entries[..n][i] == entries[i];
      m[entries[n].0 := entries[n].1]
  }

  /** `summaryFields.map(field => [field.attributeName, { … }])`. */
  function SummaryEntries(fields: seq<Field>, kind: SummaryKind): (e: seq<(string, SummaryEntry)>)
    requires forall i :: 0 <= i < |fields| ==> Flag(fields[i], kind).Some?
    ensures |e| == |fields|
  {
    seq(|fields|, i requires 0 <= i < |fields| && Flag(fields[i], kind).Some? => SummaryPair(fields[i], kind))
  }

  /** `generateSummaryJSON(summaryType)`. */
  function GenerateSummary(fields: seq<Field>, kind: SummaryKind): map<string, SummaryEntry> {
    var flagged := Filter(fields, HasFlag(kind));
    FromEntries(SummaryEntries(flagged, kind))
  }

  /** Appending a field either leaves the summary alone (no flag) or sets its
      key to its entry, overriding an earlier field with the same name. */
  lemma {:induction false} SummaryAppend(fields: seq<Field>, f: Field, kind: SummaryKind)
    ensures Flag(f, kind).None? ==> GenerateSummary(fields + [f], kind) == GenerateSummary(fields, kind)
    ensures Flag(f, kind).Some? ==>
              GenerateSummary(fields + [f], kind) == GenerateSummary(fields, kind)[SummaryPair(f, kind).0 := SummaryPair(f, kind).1]
  {
    var p := HasFlag(kind);
    FilterConcat(fields, [f], p);
    var a := Filter(fields, p);
    if Flag(f, kind).Some? {
      assert Filter([f], p) == [f];
      EntriesAppend(a, f, kind);
      FromEntriesAppend(SummaryEntries(a, kind), SummaryPair(f, kind));
    } else {
      assert Filter([f], p) == [];
      assert a + [] == a;
    }
  }

  lemma EntriesAppend(flagged: seq<Field>, f: Field, kind: SummaryKind)
    requires forall i :: 0 <= i < |flagged| ==> Flag(flagged[i], kind).Some?
    requires Flag(f, kind).Some?
    ensures SummaryEntries(flagged + [f], kind) == SummaryEntries(flagged, kind) + [SummaryPair(f, kind)]
  {
    var e := SummaryEntries(flagged + [f], kind);
    assert e[..|flagged|] == SummaryEntries(flagged, kind);
  }

  lemma FromEntriesAppend<V>(entries: seq<(string, V)>, p: (string, V))
    ensures FromEntries(entries + [p]) == FromEntries(entries)[p.0 := p.1]
  {
    assert (entries + [p])[..|entries|] == entries;
  }

  /** The summary has a key for each field whose flag is defined, and no other. */
  lemma {:induction false} SummaryKeys(fields: seq<Field>, kind: SummaryKind, k: string)
    ensures k in GenerateSummary(fields, kind) <==>
      exists i :: 0 <= i < |fields| && Flag(fields[i], kind).Some? && PropertyKey(fields[i].attributeName) == k
    decreases |fields|
  {
    if fields == [] {
    } else {
      var n := |fields| - 1;
      assert fields == fields[..n] + [fields[n]];
      SummaryAppend(fields[..n], fields[n], kind);
      SummaryKeys(fields[..n], kind, k);
      assert forall i :: 0 <= i < n ==> fields[..n][i] == fields[i];
    }
  }

  /** The entry under a key comes from the last field with that key and a
      defined flag: its label (or null), its type, and the flag as `display`. */
  lemma {:induction false} SummaryLastWins(fields: seq<Field>, kind: SummaryKind, j: nat)
    requires j < |fields| && Flag(fields[j], kind).Some?
    requires forall i :: j < i < |fields| && Flag(fields[i], kind).Some? ==>
      PropertyKey(fields[i].attributeName) != PropertyKey(fields[j].attributeName)
    ensures PropertyKey(fields[j].attributeName) in GenerateSummary(fields, kind)
    ensures GenerateSummary(fields, kind)[PropertyKey(fields[j].attributeName)] ==
      SummaryEntry(StringOrNull(fields[j].labelText), fields[j].kind, Flag(fields[j], kind).value)
    decreases |fields|
  {
    var n := |fields| - 1;
    assert fields == fields[..n] + [fields[n]];
    SummaryAppend(fields[..n], fields[n], kind);
    if j < n {
      SummaryLastWins(fields[..n], kind, j);
    }
  }

  // ---------------------------------------------------------------------
  // Upload list and start section

  /** `fields.filter(f => f.formUpload).map(f => f.attributeName).filter(Boolean)`. */
  function FormUploadData(fields: seq<Field>): (r: seq<string>)
    ensures |r| <= |fields|
  {
    if fields == [] then []
    else
      var f := fields[0];
      (if f.formUpload.Some? && Truthy(f.formUpload.value) && Present(f.attributeName)
       then [f.attributeName.value] else [])
      + FormUploadData(fields[1..])
  }

  predicate MarkedForUpload(f: Field) {
    f.formUpload.Some? && Truthy(f.formUpload.value)
  }

  /** The list follows field order: it distributes over concatenation. */
  lemma {:induction false} FormUploadDataConcat(a: seq<Field>, b: seq<Field>)
    ensures FormUploadData(a + b) == FormUploadData(a) + FormUploadData(b)
  {
    if a == [] {
      assert a + b == b;
    } else {
      assert (a + b)[1..] == a[1..] + b;
      FormUploadDataConcat(a[1..], b);
    }
  }

  /** A name is listed exactly when some field marked for upload carries it
      and it is not empty. */
  lemma {:induction false} FormUploadDataMembers(fields: seq<Field>, name: string)
    ensures name in FormUploadData(fields) <==>
      name != "" && exists i :: 0 <= i < |fields| && MarkedForUpload(fields[i]) && fields[i].attributeName == Some(name)
  {
    if fields != [] {
      FormUploadDataMembers(fields[1..], name);
      assert forall i :: 1 <= i < |fields| ==> fields[1..][i - 1] == fields[i];
    }
  }

  /** `sections[0]?.attributeName || null`. */
  function StartSectionAttributeName(sections: seq<Section>): (r: Option<string>)
    ensures r.Some? <==> |sections| > 0 && sections[0].attributeName != ""
    ensures r.Some? ==> r.value == sections[0].attributeName
  {
    if |sections| > 0 && sections[0].attributeName != "" then Some(sections[0].attributeName) else None
  }

  /** `formDetails.formId || '00000000-0000-0000-0000-000000000000'`. */
  function DocumentId(details: FormDetails): (id: string)
    ensures Present(details.formId) ==> id == details.formId.value
    ensures !Present(details.formId) ==> id == ZeroFormId
  {
    if Present(details.formId) then details.formId.value else ZeroFormId
  }

  /** `s || null` for a string detail. */
  function TextOrNull(s: string): (r: Option<string>)
    ensures r.Some? <==> s != ""
    ensures r.Some? ==> r.value == s
  {
    if s != "" then Some(s) else None
  }

  // ---------------------------------------------------------------------
  // Sections and fields

  /** A field as exported; the nullable JSON attributes hold `x || null`.
      `None` means two things here: in `order`, `kind`, `labelText` and
      `attributeName` it is an undefined value, a key that `JSON.stringify`
      leaves out; in `placeholder` and `metadata` it is a JSON `null`. */
  datatype ExportField = ExportField(
    order: Option<int>,
    kind: Option<string>,
    constraint: Json,
    constraintId: Json,
    placeholder: Option<string>,
    info: Json,
    hint: Json,
    labelText: Option<string>,
    attributeName: Option<string>,
    eventTrigger: Json,
    value: Json,
    validation: Json,
    validationErrorMessage: Json,
    metadata: Option<map<string, Json>>)

  /** `{ ...metadata, options: metadata.options || [] }`. */
  function ExportMetadata(m: map<string, Json>): (r: map<string, Json>)
    ensures r.Keys == m.Keys + {"options"}
    ensures Truthy(r["options"])
    ensures forall k :: k in m && k != "options" ==> r[k] == m[k]
    ensures "options" in m && Truthy(m["options"]) ==> r["options"] == m["options"]
    ensures !("options" in m && Truthy(m["options"])) ==> r["options"] == JArray([])
  {
    m["options" := if "options" in m && Truthy(m["options"]) then m["options"] else JArray([])]
  }

  function EmitField(f: Field): (e: ExportField) {
    ExportField(
      f.order, f.kind,
      OrNull(f.constraint), OrNull(f.constraintId),
      StringOrNull(f.placeholder),
      OrNull(f.info), OrNull(f.hint),
      f.labelText, f.attributeName,
      OrNull(f.eventTrigger), OrNull(f.value), OrNull(f.validation), OrNull(f.validationErrorMessage),
      if f.metadata.Some? then Some(ExportMetadata(f.metadata.value)) else None)
  }

  /** `e` is what `x || null` gives for the optional attribute `o`: null
      when `o` is missing or falsy, `o` itself when it is truthy. */
  predicate KeptOrNull(e: Json, o: Option<Json>) {
    && (e == JNull <==> !(o.Some? && Truthy(o.value)))
    && (e != JNull ==> Some(e) == o)
  }

  /** An exported field keeps `order`, `type`, `label` and `attributeName` as
      they are; each nullable attribute becomes null when falsy and is kept
      when truthy; a placeholder is kept when non-empty; metadata is null
      exactly when the field has none, and otherwise gains `options`. */
  lemma EmitFieldSpec(f: Field)
    ensures var e := EmitField(f);
      && e.order == f.order && e.kind == f.kind && e.labelText == f.labelText && e.attributeName == f.attributeName
      && KeptOrNull(e.constraint, f.constraint) && KeptOrNull(e.constraintId, f.constraintId)
      && KeptOrNull(e.info, f.info) && KeptOrNull(e.hint, f.hint)
      && KeptOrNull(e.eventTrigger, f.eventTrigger) && KeptOrNull(e.value, f.value)
      && KeptOrNull(e.validation, f.validation) && KeptOrNull(e.validationErrorMessage, f.validationErrorMessage)
      && (e.placeholder.Some? <==> Present(f.placeholder))
      && (e.placeholder.Some? ==> e.placeholder == f.placeholder)
      && (e.metadata.Some? <==> f.metadata.Some?)
      && (e.metadata.Some? ==> e.metadata == Some(ExportMetadata(f.metadata.value)))
      && (e.metadata.Some? ==> e.metadata.value.Keys == f.metadata.value.Keys + {"options"})
  {
  }

  /** A section as exported; `None` in `subtitle`, `description`, `info` and
      `goTo` is a JSON `null`, never an omitted key. */
  datatype ExportSection = ExportSection(
    fields: seq<ExportField>,
    kind: string,
    attributeName: string,
    title: string,
    subtitle: Option<string>,
    description: Option<string>,
    info: Option<string>,
    goTo: Option<string>)

  /** The exported fields of the section with id `sectionId`, in field order. */
  function SectionFields(fields: seq<Field>, sectionId: string): (r: seq<ExportField>)
    ensures |r| == |MembersOf(fields, sectionId)|
  {
    var members := MembersOf(fields, sectionId);
    seq(|members|, i requires 0 <= i < |members| => EmitField(members[i]))
  }

  function EmitSection(s: Section, fields: seq<Field>): (e: ExportSection)
  {
    ExportSection(
      SectionFields(fields, s.id),
      if Present(s.kind) then s.kind.value else "data",
      s.attributeName, s.title,
      TextOrNull(s.subtitle),
      StringOrNull(s.description), StringOrNull(s.info),
      TextOrNull(s.goTo))
  }

  /** An exported section takes its type when it has a non-empty one and
      "data" otherwise, turns an empty goTo or subtitle and a missing or empty
      description or info into null and keeps them otherwise, and holds
      exactly the fields assigned to it. */
  lemma EmitSectionSpec(s: Section, fields: seq<Field>)
    ensures var e := EmitSection(s, fields);
      && (Present(s.kind) ==> e.kind == s.kind.value)
      && (!Present(s.kind) ==> e.kind == "data")
      && (e.goTo.None? <==> s.goTo == "")
      && (e.goTo.Some? ==> e.goTo.value == s.goTo)
      && (e.subtitle.None? <==> s.subtitle == "")
      && (e.subtitle.Some? ==> e.subtitle.value == s.subtitle)
      && (e.description.None? <==> !Present(s.description))
      && (e.description.Some? ==> e.description == s.description)
      && (e.info.None? <==> !Present(s.info))
      && (e.info.Some? ==> e.info == s.info)
      && e.attributeName == s.attributeName && e.title == s.title
      && |e.fields| == |MembersOf(fields, s.id)|
      && (forall i :: 0 <= i < |e.fields| ==> e.fields[i] == EmitField(MembersOf(fields, s.id)[i]))
  {
  }

  /** The `sections` array of the form data, one per input section in order. */
  function GenerateSections(sections: seq<Section>, fields: seq<Field>): (r: seq<ExportSection>)
    ensures |r| == |sections|
  {
    seq(|sections|, i requires 0 <= i < |sections| => EmitSection(sections[i], fields))
  }

  /** Output section `i` is input section `i`, holding the exported fields
      whose `sectionId` is that section's id, in input order. A field whose
      `sectionId` matches no section is exported in no section. */
  lemma GenerateSectionsSpec(sections: seq<Section>, fields: seq<Field>, f: Field)
    ensures forall i :: 0 <= i < |sections| ==>
                (GenerateSections(sections, fields)[i].attributeName == sections[i].attributeName &&
                 GenerateSections(sections, fields)[i].fields == SectionFields(fields, sections[i].id))
    ensures (forall i :: 0 <= i < |sections| ==> !InSection(f, sections[i].id)) ==>
      forall i :: 0 <= i < |sections| ==> f !in MembersOf(fields, sections[i].id)
  {
  }

  // ---------------------------------------------------------------------
  // The document

  datatype FormMetadata = FormMetadata(
    category: Option<string>,
    order: Option<int>,
    meviDealRoleCreator: seq<string>,
    otherSideCanUpload: bool,
    formUploadData: seq<string>)

  /** `formJSON`; `formData` holds one draft whose sections are `sections`. */
  datatype FormJson = FormJson(
    locale: Option<string>,
    kind: Option<string>,
    name: Option<string>,
    shortName: Option<string>,
    status: string,
    startSectionAttributeName: Option<string>,
    lineNumbers: bool,
    formDataStatus: string,
    sections: seq<ExportSection>)

  /** `rulesJSON`: the draft and executed contracts. */
  datatype Rules = Rules(getDesignatedSigners: seq<string>, setDesignatedSigners: seq<string>)

  datatype Document = Document(
    id: string,
    version: string,
    metadata: FormMetadata,
    formJson: FormJson,
    dealSummary: map<string, SummaryEntry>,
    formSummary: map<string, SummaryEntry>,
    signatures: map<string, Option<SignatureTemplate>>,
    rules: Rules)

  /** `generateJson()` before `JSON.stringify`. */
  function GenerateJson(fields: seq<Field>, sections: seq<Section>, selectedRoles: seq<string>,
                        selectedCreators: seq<string>, details: FormDetails): (d: Document)
  {
    Document(
      DocumentId(details),
      "1.0.0",
      FormMetadata(TextOrNull(details.category), None, selectedCreators, true, FormUploadData(fields)),
      FormJson(
        TextOrNull(details.locale), TextOrNull(details.kind), TextOrNull(details.name), TextOrNull(details.shortName),
        "new", StartSectionAttributeName(sections), true, "draft",
        GenerateSections(sections, fields)),
      GenerateSummary(fields, DealSummary),
      GenerateSummary(fields, FormSummary),
      GenerateSignatures(selectedRoles),
      Rules(selectedRoles, selectedRoles))
  }

  /** Both signing rules name exactly the selected roles, and the signature
      map has exactly those roles as keys; the creators are echoed in the
      metadata; the id is the form id or the all-zero id. */
  lemma GenerateJsonEchoesSelections(fields: seq<Field>, sections: seq<Section>, selectedRoles: seq<string>,
                                     selectedCreators: seq<string>, details: FormDetails)
    ensures var d := GenerateJson(fields, sections, selectedRoles, selectedCreators, details);
      && d.rules.getDesignatedSigners == selectedRoles
      && d.rules.setDesignatedSigners == selectedRoles
      && d.signatures.Keys == set r | r in selectedRoles
      && d.metadata.meviDealRoleCreator == selectedCreators
      && (|selectedRoles| == 0 ==> d.signatures == map[])
      && |d.formJson.sections| == |sections|
      && (details.formId.None? ==> d.id == ZeroFormId)
  {
  }

  // ---------------------------------------------------------------------
  // Download name

  /** `${formType}.json`, where `formType` is the lower-cased form type with
      each whitespace run replaced by "-", or "form-definition". */
  function DownloadFileName(formType: string): (name: string)
  {
    if formType != "" then ReplaceSpaceRuns(ToLower(formType), '-') + ".json"
    else "form-definition.json"
  }

  /** The name ends in ".json" and its stem has no whitespace and no
      upper-case letter; a type that already has neither is kept as is. */
  lemma DownloadFileNameSpec(formType: string)
    ensures var name := DownloadFileName(formType);
      |name| >= 5 && name[|name| - 5..] == ".json" &&
      NoSpace(name[..|name| - 5]) && NoUpper(name[..|name| - 5])
    ensures formType == "" ==> DownloadFileName(formType) == "form-definition.json"
    ensures formType != "" && NoSpace(formType) && NoUpper(formType) ==> DownloadFileName(formType) == formType + ".json"
  {
    if formType != "" {
      var stem := ReplaceSpaceRuns(ToLower(formType), '-');
      ReplaceSpaceRunsKeepsNoUpper(ToLower(formType), '-');
      var name := stem + ".json";
      assert name[..|name| - 5] == stem;
      assert name[|name| - 5..] == ".json";
      if NoSpace(formType) && NoUpper(formType) {
        ToLowerOfLower(formType);
        ReplaceSpaceRunsOfNoSpace(formType, '-');
      }
    } else {
      var name := "form-definition.json";
      assert name[..|name| - 5] == "form-definition";
    }
  }

  /** Each maximal whitespace run of the form type becomes one "-" in the
      name, and the text on either side is lower-cased and handled on its
      own. */
  lemma DownloadFileNameOfRun(a: string, w: string, b: string)
    requires w != [] && AllSpace(w)
    requires a == [] || !IsSpace(a[|a| - 1])
    requires b == [] || !IsSpace(b[0])
    ensures DownloadFileName(a + w + b) ==
      ReplaceSpaceRuns(ToLower(a), '-') + "-" + ReplaceSpaceRuns(ToLower(b), '-') + ".json"
  {
    ToLowerAppend(a, w);
    ToLowerAppend(a + w, b);
    var la, lw, lb := ToLower(a), ToLower(w), ToLower(b);
    assert la == [] || !IsSpace(la[|la| - 1]);
    assert lb == [] || !IsSpace(lb[0]);
    assert AllSpace(lw);
    ReplaceSpaceRunsSplit(la, lw, lb, '-');
    assert a + w + b != "";
  }
}
