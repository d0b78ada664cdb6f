# Form studio model

A Dafny model of the logic behind a browser-based builder of form
definitions. A user uploads a CSV list of fields and arranges them into
sections by drag and drop. The user edits the fields and sections, picks the
signer roles and the roles allowed to create the form, and fills in the form
details (locale, type, name, short name, category). The tool then shows and
downloads a JSON export document.

The model covers these parts of the program:

- the state-number table and the form-id template (`FormIdUtils`);
- the CSV row transform of the upload control (`FileUpload`);
- the session state and its handlers (`App`, a class `Session`);
- the section and field editor (`JsonEditor`): the unassigned list, adding
  and removing sections, the drag-end dispatch, field replacement, the field
  edit dialog (class `FieldEditor`), section edits with attribute-name
  normalisation, and the summary selects;
- the form-details panel (`FormDetailsSelector`): the locale-to-form-id
  effect, detail edits, and the category list with its store (class
  `CategoryEditor`);
- the signer-role and form-creator tables and their toggles
  (`SignerRoleSelector`, `FormCreatorSelector`, `Selection`);
- the export document and the download file name (`Preview`).

Shared modules:

- `JsValues` holds JavaScript's `undefined`/`null` as `Option`, JSON values
  and truthiness;
- `JsStrings` holds ASCII whitespace and case, `trim`, `toLowerCase`, the
  two whitespace replacements and decimal numerals;
- `Seqs` holds `filter` and its lemmas;
- `FormModel` holds the field, section and form-details records.

Field ids are compared as the program compares them, with `===`. A field
that came from the CSV has no id at all. So "the field with id x" can be
several fields, or every id-less field. Dragging works the same way: an
id-less field has an undefined draggable id, so dropping it moves every
id-less field.

## Model

| member | source | states |
|---|---|---|
| FormIdUtils.StateTable | src/utils/formIdUtils.js:2-53 | `STATE_NUMBERS` has 50 entries; entry `i` is row `i` of the table |
| FormIdUtils.StateRowValues | src/utils/formIdUtils.js:2-53 | every value in the table is four decimal digits; row `i` holds code `i + 1`, except Colorado, which holds 0 |
| FormIdUtils.StateRowKeysDistinct | src/utils/formIdUtils.js:2-53 | no two rows share a state key |
| FormIdUtils.StateRowValuesDistinct | src/utils/formIdUtils.js:2-53 | no two rows share a state number |
| FormIdUtils.RowOfKeyCodeOfRow | src/utils/formIdUtils.js:2-53 | each row's two-letter key identifies that row |
| FormIdUtils.StateTableRows | src/utils/formIdUtils.js:2-53 | the table as a list of key/value pairs has distinct keys, so it is a well-defined object |
| FormIdUtils.LookupFound | src/utils/formIdUtils.js:2-53 | in a table with distinct keys, looking up a row's key gives that row's value |
| FormIdUtils.LookupEntry | src/utils/formIdUtils.js:2-53 | a lookup that succeeds found a row whose key is the one asked for, and returns that row's value |
| FormIdUtils.StateNumberOfRow | src/utils/formIdUtils.js:2-53 | `STATE_NUMBERS[key]` is the value of the row holding `key` |
| FormIdUtils.StateNumberRow | src/utils/formIdUtils.js:2-53 | a locale that has a state number is the key of a row, and the number is that row's value |
| FormIdUtils.StateNumber | src/components/FormDetailsSelector.js:81 | `STATE_NUMBERS[locale]` as a lookup in the table; characterised by StateNumberOfRow, StateNumberRow and StateNumberSpec: defined exactly for the table keys, and then that key's four-digit number |
| FormIdUtils.StateNumberSpec | src/utils/formIdUtils.js:2-53 | a locale has a state number exactly when it is a key of the table, and that number is four digits |
| FormIdUtils.StateNumbersDistinct | src/utils/formIdUtils.js:2-53 | two different states have different state numbers |
| FormIdUtils.ColoradoIsZero | src/utils/formIdUtils.js:40 | `STATE_NUMBERS.CO` is "0000" |
| FormIdUtils.CaliforniaIs0031 | src/utils/formIdUtils.js:33 | `STATE_NUMBERS.CA` is "0031" |
| FormIdUtils.NoStateIs0038 | src/utils/formIdUtils.js:2-53 | no locale maps to "0038": the number Colorado would have by order of statehood is unused |
| FormIdUtils.UsStateRow | src/components/FormDetailsSelector.js:39-45 | each entry of the locale menu `US_STATES` is the key of a table row |
| FormIdUtils.UsStatesHaveNumbers | src/components/FormDetailsSelector.js:39-45 | every locale offered in the menu has a state number |
| FormIdUtils.FormatFormId | src/utils/formIdUtils.js:56-58 | the id is 32 characters longer than the state number; the number sits right after the prefix "00000000-", followed by the suffix "-0000-0000-000000000000" |
| FormIdUtils.FormatFormIdRoundTrip | src/utils/formIdUtils.js:56-58 | the state number can be read back from the id it formats |
| FormIdUtils.FormatFormIdInjective | src/utils/formIdUtils.js:56-58 | distinct state numbers give distinct ids |
| FormIdUtils.FormatFormIdShape | src/utils/formIdUtils.js:56-58 | a four-digit number gives a 36-character 8-4-4-4-12 hexadecimal id, the textual UUID form of section 3 of RFC 4122 |
| FormIdUtils.CaliforniaFormId | src/utils/formIdUtils.js:33 | "0031" formats to "00000000-0031-0000-0000-000000000000" |
| FormIdUtils.ZeroStateFormId | src/utils/formIdUtils.js:40 | Colorado's "0000" formats to the all-zero id |
| FileUpload.Cell | src/components/FileUpload.js:24-26 | `row[k]?.trim()` is defined exactly when the row has a cell `k`, and then has no surrounding whitespace |
| FileUpload.MapRows | src/components/FileUpload.js:23-27 | the `map` keeps one record per row |
| FileUpload.MapRowsAt | src/components/FileUpload.js:23-27 | record `i` of the `map` is made from row `i` |
| FileUpload.TransformRows | src/components/FileUpload.js:23 | no rows give no records |
| FileUpload.TransformRowsShape | src/components/FileUpload.js:23-27 | the header row is dropped: there are `max(0, rows - 1)` records, and record `i` comes from row `i + 1` |
| FileUpload.HeaderIgnored | src/components/FileUpload.js:23 | the header row's contents do not affect the result |
| FileUpload.RowRecord | src/components/FileUpload.js:23-27 | the record built from one row; characterised by RowRecordCells, ExtraCellsIgnored and PaddingIgnored: the three trimmed cells and nothing else |
| FileUpload.RowRecordCells | src/components/FileUpload.js:24-26 | `field`, `fieldType` and `placeholder` are the trimmed cells 0, 1 and 2, or undefined when the cell is missing; no other attribute is set |
| FileUpload.ExtraCellsIgnored | src/components/FileUpload.js:23-27 | cells after the third do not affect the record |
| FileUpload.TransformRowsTrimmed | src/components/FileUpload.js:24-26 | no value of any record has leading or trailing whitespace |
| FileUpload.PaddingIgnored | src/components/FileUpload.js:24-26 | cells that differ only in surrounding whitespace give the same record |
| JsStrings.Trim | src/components/FileUpload.js:24-26 | `trim`; characterised by TrimSpec, TrimBounds and TrimOfTrimmed: the result is the slice of the input between an all-whitespace prefix and suffix, with neither end whitespace |
| JsStrings.TrimSpec | src/components/FileUpload.js:24-26 | `trim` returns a contiguous slice of its input with no surrounding whitespace, and everything cut off is whitespace |
| JsStrings.TrimBounds | src/components/FileUpload.js:24-26 | `trim` keeps the slice between a whitespace prefix and a whitespace suffix |
| JsStrings.TrimIdempotent | src/components/FormDetailsSelector.js:111-112 | trimming twice is trimming once |
| JsStrings.TrimOfTrimmed | src/components/FormDetailsSelector.js:111-112 | a string without surrounding whitespace is its own trim |
| JsStrings.ToLower | src/components/JsonEditor.js:545 | `toLowerCase` keeps the length and leaves no upper-case letter, character by character |
| JsStrings.ToLowerOfLower | src/components/JsonEditor.js:545 | lower-casing a string without upper-case letters changes nothing |
| JsStrings.ToLowerAppend | src/components/Preview.js:185 | `toLowerCase` of a concatenation is the concatenation of the lower-cased parts |
| JsStrings.RemoveSpaces | src/components/JsonEditor.js:545 | `replace(/\s+/g, '')` is exactly the filter keeping the non-whitespace characters in their order, so it leaves no whitespace and never lengthens |
| JsStrings.RemoveSpacesOfNoSpace | src/components/JsonEditor.js:545 | removing whitespace from a string without any changes nothing |
| JsStrings.RemoveSpacesKeepsNoUpper | src/components/JsonEditor.js:545 | removing whitespace adds no upper-case letter |
| JsStrings.ReplaceSpaceRuns | src/components/Preview.js:185 | `replace(/\s+/g, '-')` leaves no whitespace and never lengthens |
| JsStrings.ReplaceSpaceRunsAppend | src/components/Preview.js:185 | when no whitespace run crosses the boundary of `a + b`, the two parts are replaced separately |
| JsStrings.ReplaceSpaceRunsOfRun | src/components/Preview.js:185 | a maximal whitespace run at the front becomes one separator, and the rest is replaced on its own |
| JsStrings.ReplaceSpaceRunsSplit | src/components/Preview.js:185 | a maximal whitespace run between `a` and `b` becomes exactly one separator, with `a` and `b` replaced on their own; with ReplaceSpaceRunsOfNoSpace this fixes the result on every input |
| JsStrings.ReplaceSpaceRunsKeepsNoUpper | src/components/Preview.js:185 | replacing whitespace runs with "-" adds no upper-case letter |
| JsStrings.ReplaceSpaceRunsOfNoSpace | src/components/Preview.js:185 | replacing whitespace runs in a string without any changes nothing |
| JsStrings.NatToString | src/components/Preview.js:19 | the decimal numeral of a number is non-empty and all digits |
| JsStrings.DecimalRoundTrip | src/components/Preview.js:19 | the numeral reads back as the number |
| JsStrings.NatToStringInjective | src/components/Preview.js:19 | different numbers have different numerals |
| JsValues.OrNull | src/components/Preview.js:127-137 | `x \|\| null` is `x` when `x` is present and truthy, and null when it is missing or falsy |
| JsValues.StringOrNull | src/components/Preview.js:72 | `s \|\| null` is a string exactly when `s` is a non-empty string, and then it is `s` |
| FormModel.MakeSection | src/App.js:76-82 | a section record has the given id, title and attribute name, empty subtitle and goTo, and no type, description or info |
| FormModel.MembersOf | src/components/JsonEditor.js:598-599 | the fields listed under a section are fields of the form, all in that section, and every field in that section is listed |
| App.DefaultSection | src/App.js:76-82 | the initial section is `section-0`, "Default Section", `defaultSection`, with empty subtitle and goTo |
| App.AssignField | src/App.js:99-116 | same length and order; every field whose id equals the given id gets the new `sectionId` and keeps every other attribute, metadata included; all other fields are unchanged |
| App.AssignFieldIdempotent | src/App.js:99-116 | assigning a field twice is assigning it once, to the later section |
| App.AssignFieldCommutes | src/App.js:99-116 | assignments of two different ids can be done in either order |
| App.Session.constructor | src/App.js:75-92 | the initial state: no fields, the default section, no roles or creators, empty details, reset flag off |
| App.Session.HandleFileUpload | src/App.js:94-97 | the uploaded records become the fields, no other slot changes, and the upload control is then disabled exactly when some record was uploaded |
| App.Session.HandleFieldAssignment | src/App.js:99-116 | the fields become `AssignField` of the old fields; no other slot changes |
| App.Session.HandleRolesChange | src/App.js:118-120 | replaces the selected roles only |
| App.Session.HandleCreatorsChange | src/App.js:122-124 | replaces the selected creators only |
| App.Session.HandleFormDetailsChange | src/App.js:126-128 | replaces the form details only |
| App.Session.HandleFieldsUpdate | src/App.js:130-132 | replaces the fields only |
| App.Session.SetSections | src/App.js:76 | replaces the sections only |
| App.Session.HandleDiscard | src/App.js:134-154 | every slot is back to its initial value, the reset trigger is flipped, and uploading is enabled again |
| App.Session.UploadDisabled | src/App.js:213 | `!!fields.length`; characterised by HandleFileUpload, HandleDiscard and UploadRequiresDiscard: disabled after a non-empty upload, enabled again after a discard |
| App.UploadRequiresDiscard | src/App.js:213 | after an upload the control is disabled exactly when records were uploaded; after a discard it is enabled |
| Selection.Toggle | src/components/SignerRoleSelector.js:74-77 | `includes ? filter(r => r !== x) : [...selected, x]`; characterised by ToggleAbsent, TogglePresent, ToggleMembership, ToggleKeepsOrder and ToggleTwice: an absent entry is appended, a present one is removed everywhere, and the order of the rest is kept |
| Selection.ToggleAbsent | src/components/SignerRoleSelector.js:74-77 | toggling an absent entry appends it at the end |
| Selection.TogglePresent | src/components/SignerRoleSelector.js:75-76 | toggling a present entry removes every occurrence of it and keeps the rest |
| Selection.ToggleMembership | src/components/SignerRoleSelector.js:74-79 | a toggle flips the entry's membership and leaves every other entry's membership alone |
| Selection.ToggleKeepsOrder | src/components/SignerRoleSelector.js:74-79 | the other entries keep their relative order |
| Selection.ToggleTwice | src/components/SignerRoleSelector.js:74-77 | toggling an absent entry twice gives back the original list |
| Selection.ToggleNoDuplicates | src/components/SignerRoleSelector.js:74-79 | a list without duplicates stays without duplicates |
| Selection.ToggleWithin | src/components/SignerRoleSelector.js:74-79 | toggling an offered entry keeps every entry among the offered ones |
| SignerRoleSelector.RoleKeys | src/components/SignerRoleSelector.js:25-72 | the role keys, one per table row, in table order |
| SignerRoleSelector.RoleDetailsBounds | src/components/SignerRoleSelector.js:25-72 | every role has `min <= default <= max` and its own key as deal role; client roles allow 6 signers, 2 by default, extra signature page 3; team roles allow exactly 1 |
| SignerRoleSelector.RoleKeysDistinct | src/components/SignerRoleSelector.js:25-72 | the four keys are `client.buy`, `client.sell`, `team.buy`, `team.sell`, all distinct |
| SignerRoleSelector.ToggleRole | src/components/SignerRoleSelector.js:74-79 | the role's membership flips and every other role's membership is kept |
| SignerRoleSelector.ToggleMembershipAll | src/components/SignerRoleSelector.js:74-79 | the same for every other role at once |
| SignerRoleSelector.ToggleRoleKeepsValid | src/components/SignerRoleSelector.js:74-79 | toggling a listed role keeps the selection duplicate-free and made of role keys |
| FormCreatorSelector.OnlyAgentsOffered | src/components/FormCreatorSelector.js:23-32 | only `team.buy` and `team.sell` are offered, once each |
| FormCreatorSelector.ToggleCreator | src/components/FormCreatorSelector.js:34-39 | an absent creator is appended at the end; a present one is removed entirely |
| FormCreatorSelector.ToggleCreatorOrder | src/components/FormCreatorSelector.js:34-39 | other creators keep their order, and toggling an absent creator twice is the identity |
| Preview.Signers | src/components/Preview.js:18-21 | `Array.from({length: n}, …)` has `n` signers |
| Preview.TemplateFor | src/components/Preview.js:10-57 | a role has a signature template exactly when it is one of the four role keys |
| Preview.TemplateWellFormed | src/components/Preview.js:10-57 | every template has `min <= default <= max`, `max` signers with distinct keys, email `signerKey@mevi.io`, deal role equal to the role, and the same details as the role table |
| Preview.SignerKeysDistinct | src/components/Preview.js:18-21 | the six generated signer keys are distinct |
| Preview.ClientSignerKeys | src/components/Preview.js:18-33 | client signers are `Buyer1`..`Buyer6` and `Seller1`..`Seller6` |
| Preview.TemplateKeysAreRoleKeys | src/components/Preview.js:10-57 | the template keys are exactly the role-table keys |
| Preview.GenerateSignatures | src/components/Preview.js:5-62 | no roles give `{}`; otherwise the keys are exactly the selected roles, each mapped to its template, or undefined for an unknown role |
| Preview.PropertyKey | src/components/Preview.js:69-70 | a defined attribute name is its own object key |
| Preview.FromEntries | src/components/Preview.js:68-77 | `Object.fromEntries` has exactly the keys of its entries |
| Preview.FromEntriesAppend | src/components/Preview.js:68-77 | a later entry overrides an earlier one with the same key |
| Preview.SummaryEntries | src/components/Preview.js:69-76 | one entry per summary field |
| Preview.EntriesAppend | src/components/Preview.js:69-76 | entries follow field order |
| Preview.SummaryAppend | src/components/Preview.js:64-78 | a field without the flag does not change the summary; a field with it sets its key to its entry |
| Preview.GenerateSummary | src/components/Preview.js:64-78 | `Object.fromEntries` over the fields whose flag `!== undefined`; characterised by SummaryKeys, SummaryLastWins and SummaryAppend: one key per such attribute name, holding the last such field's entry |
| Preview.SummaryKeys | src/components/Preview.js:64-78 | the summary has a key exactly for the attribute names of the fields whose flag is not undefined |
| Preview.SummaryLastWins | src/components/Preview.js:64-78 | a key's value is the entry of the last field with that name: `label` or null, `type`, and `display` equal to the flag |
| Preview.FormUploadData | src/components/Preview.js:87-90 | the upload list is no longer than the fields |
| Preview.FormUploadDataConcat | src/components/Preview.js:87-90 | the upload list follows field order |
| Preview.FormUploadDataMembers | src/components/Preview.js:87-90 | a name is in the upload list exactly when it is non-empty and the attribute name of a field with a truthy `formUpload` |
| Preview.StartSectionAttributeName | src/components/Preview.js:93 | the first section's attribute name, or null when there is no section or the name is empty |
| Preview.DocumentId | src/components/Preview.js:96 | the form id when one is set, otherwise the all-zero id |
| Preview.TextOrNull | src/components/Preview.js:99-112 | a detail is exported as null exactly when it is empty |
| Preview.ExportMetadata | src/components/Preview.js:138-141 | metadata keeps every key and value, plus `options`, which is kept when truthy and is `[]` otherwise |
| Preview.EmitField | src/components/Preview.js:124-142 | the field map of the export; characterised by EmitFieldSpec: four attributes copied, eight `\|\| null` attributes kept when truthy and null otherwise, placeholder and metadata as exported |
| Preview.EmitFieldSpec | src/components/Preview.js:124-142 | `order`, `type`, `label` and `attributeName` are copied; each of the eight nullable attributes (`constraint`, `constraintId`, `info`, `hint`, `eventTrigger`, `value`, `validation`, `validationErrorMessage`) is null when missing or falsy and kept when truthy; a non-empty placeholder is kept and an empty one is null; metadata is null exactly when absent and otherwise is the field's metadata with `options` defaulted to `[]` |
| Preview.SectionFields | src/components/Preview.js:122-124 | one exported field per field of the section |
| Preview.EmitSection | src/components/Preview.js:119-153 | the section map of the export; characterised by EmitSectionSpec: the type is kept when non-empty and is "data" when missing or empty, an empty subtitle or goTo becomes null and is kept otherwise, description and info are null when missing or empty and kept otherwise, name and title are copied, and the fields are the section's members in order |
| Preview.EmitSectionSpec | src/components/Preview.js:144-153 | the type is kept when non-empty and is "data" when missing or empty; an empty goTo or subtitle becomes null and is kept otherwise; description and info are null when missing or empty and kept otherwise; attribute name and title are copied; the fields are the section's members, in field order |
| Preview.GenerateSections | src/components/Preview.js:81-84 | one exported section per section |
| Preview.GenerateSectionsSpec | src/components/Preview.js:118-124 | the exported sections follow the sections in order, each with its own members; a field in no listed section appears in none |
| Preview.GenerateJson | src/components/Preview.js:80-175 | the exported document; characterised by GenerateJsonEchoesSelections, with its sections by GenerateSectionsSpec, its fields by EmitFieldSpec and its summaries by SummaryKeys and SummaryLastWins |
| Preview.GenerateJsonEchoesSelections | src/components/Preview.js:157-171 | both signing rules are the selected roles; the signature keys are the selected roles, and none gives `{}`; the creators are echoed; one exported section per section; no form id gives the all-zero id |
| Preview.DownloadFileName | src/components/Preview.js:185-186 | the download name; characterised by DownloadFileNameSpec and DownloadFileNameOfRun: "form-definition.json" without a type, otherwise the lower-cased type with each whitespace run replaced by one "-", then ".json" |
| Preview.DownloadFileNameSpec | src/components/Preview.js:185-186 | the name ends in ".json" and its stem has no whitespace and no upper-case letter; no type gives "form-definition.json"; a type already lower-case and without whitespace is kept |
| Preview.DownloadFileNameOfRun | src/components/Preview.js:185-186 | a maximal whitespace run in the type becomes one "-" in the name, between the lower-cased, separately replaced text on either side |
| JsonEditor.Unassigned | src/components/JsonEditor.js:79 | a field is in the unassigned list exactly when it is one of the fields and has no `sectionId`; the list is no longer than the fields |
| JsonEditor.UnassignedConcat | src/components/JsonEditor.js:79 | the unassigned list keeps the fields' order: that of `a + b` is that of `a` followed by that of `b` |
| JsonEditor.ListsPartitionFields | src/components/JsonEditor.js:79 | with distinct non-empty section ids, the unassigned list and the section lists together hold every field that is unassigned or in an existing section exactly once |
| JsonEditor.OneListPerField | src/components/JsonEditor.js:598-599 | such a field appears in exactly one list |
| JsonEditor.ListedSplit | src/components/JsonEditor.js:598-599 | the section lists of a concatenation are the lists of its parts |
| JsonEditor.NoneListed | src/components/JsonEditor.js:598-599 | with no fields, every section list is empty |
| JsonEditor.NotListed | src/components/JsonEditor.js:598-599 | an unassigned field is in no section list |
| JsonEditor.ListedOnce | src/components/JsonEditor.js:598-599 | a field in a section is listed under that section only |
| JsonEditor.NotInSections | src/components/JsonEditor.js:598-599 | a field in none of the sections is listed nowhere |
| JsonEditor.NewSection | src/components/JsonEditor.js:81-90 | a new section has empty subtitle and goTo |
| JsonEditor.NewSectionFresh | src/components/JsonEditor.js:82 | while every section has the id it was created with, the new id is fresh |
| JsonEditor.NewSectionMayRepeatAnId | src/components/JsonEditor.js:82 | after "section-0" is removed from two sections, the next section added repeats "section-1" |
| JsonEditor.HandleAddSection | src/components/JsonEditor.js:81-90 | exactly one section is appended, numbered after the old count; nothing else changes |
| JsonEditor.UnassignIds | src/components/JsonEditor.js:93-97 | unassigning keeps the number of fields |
| JsonEditor.UnassignIdsSpec | src/components/JsonEditor.js:93-97 | after the calls `onFieldAssign(id, null)`, a field is unassigned exactly when its id was one of those ids, and is otherwise unchanged |
| JsonEditor.MemberIdsHasMembers | src/components/JsonEditor.js:93-95 | the id of every member of the section is among those unassigned |
| JsonEditor.FieldsAfterRemoval | src/components/JsonEditor.js:93-97 | removal keeps the number of fields |
| JsonEditor.FieldsAfterRemovalSpec | src/components/JsonEditor.js:93-97 | no field is left in the removed section; a field whose id no member shares is unchanged; only `sectionId` ever changes |
| JsonEditor.RemovalClearsIdlessFields | src/components/JsonEditor.js:93-97 | when a member of the section has no id, every field without an id is unassigned, whatever its section |
| JsonEditor.HandleRemoveSection | src/components/JsonEditor.js:92-99 | the loop issues one unassignment per member, giving `FieldsAfterRemoval`; the sections become those with another id, in order |
| JsonEditor.RemovedSectionGone | src/components/JsonEditor.js:98 | no remaining section has the removed id, and every other section remains |
| JsonEditor.DropActionOf | src/components/JsonEditor.js:101-148 | no destination, the same place, or an unknown field changes nothing; otherwise an assignment targets the destination section when it starts with "section-" and unassigns for "unassigned" |
| JsonEditor.DropTargets | src/components/JsonEditor.js:139-147 | for a real move, a "section-" target assigns, "unassigned" unassigns, any other target does nothing |
| JsonEditor.ApplyDrop | src/components/JsonEditor.js:101-148 | a drop keeps the number of fields; characterised by ApplyDropSpec: only the `sectionId` of the fields whose id equals the dragged id changes, to the chosen section |
| JsonEditor.ApplyDropSpec | src/components/JsonEditor.js:101-148 | a drop changes only the `sectionId` of the fields whose id equals the dragged id, to the chosen section (every id-less field when the dragged field has no id); length and order are kept |
| JsonEditor.HandleDragEnd | src/components/JsonEditor.js:101-148 | the fields become the result of the drop and nothing else changes |
| JsonEditor.UpdateFields | src/components/JsonEditor.js:381-386 | every field with the target id is replaced, every other field kept; length and order kept |
| JsonEditor.UpdateFieldsIdempotent | src/components/JsonEditor.js:381-386 | replacing twice is replacing once |
| JsonEditor.HandleFieldUpdate | src/components/JsonEditor.js:381-386 | the fields become `UpdateFields` of the old fields; nothing else changes |
| JsonEditor.FieldEditor.constructor | src/components/JsonEditor.js:150-152 | the dialog starts with no field being edited |
| JsonEditor.FieldEditor.StartEdit | src/components/JsonEditor.js:150-152 | editing starts from a copy of the field |
| JsonEditor.FieldEditor.Current | src/components/JsonEditor.js:348-351 | the record being edited, or an empty record when there is none |
| JsonEditor.FieldEditor.EditLabel | src/components/JsonEditor.js:348-351 | sets the label of the record being edited |
| JsonEditor.FieldEditor.EditPlaceholder | src/components/JsonEditor.js:357-360 | sets the placeholder of the record being edited |
| JsonEditor.FieldEditor.EditAttributeName | src/components/JsonEditor.js:366-369 | sets the attribute name of the record being edited |
| JsonEditor.FieldEditor.Cancel | src/components/JsonEditor.js:374 | closes the dialog |
| JsonEditor.FieldEditor.SaveEdit | src/components/JsonEditor.js:154-162 | with a record being edited, every field with its id is replaced by it and the dialog closes; with none, the fields stay as they were |
| JsonEditor.EditSession | src/components/JsonEditor.js:150-162 | editing field `k` and saving sets its label, placeholder and attribute name, keeps its id and section, and leaves every field with another id unchanged |
| JsonEditor.NormaliseAttributeName | src/components/JsonEditor.js:545 | the normalised name has no whitespace and no upper-case letter |
| JsonEditor.NormaliseAttributeNameIdempotent | src/components/JsonEditor.js:545 | normalising twice is normalising once |
| JsonEditor.ApplySectionEdit | src/components/JsonEditor.js:531-575 | an edit keeps the section's id, type, description and info; an attribute-name edit stores the normalised name |
| JsonEditor.HandleSectionEdit | src/components/JsonEditor.js:531-575 | only the edited section is replaced; nothing else changes |
| JsonEditor.SectionEditKeepsIds | src/components/JsonEditor.js:531-575 | after a section edit the number of sections and every id are unchanged |
| JsonEditor.SelectValue | src/components/JsonEditor.js:281 | the select reads "none" exactly when the field's flag is not set |
| JsonEditor.SelectChange | src/components/JsonEditor.js:282-288 | a choice sets the flag to "not none" and the shared display flag to "displayed" |
| JsonEditor.SelectRoundTrip | src/components/JsonEditor.js:281-288 | choosing a value and reading the same select back gives that value |
| JsonEditor.SelectsShareDisplay | src/components/JsonEditor.js:305-312 | a choice in one select changes what the other select shows, through the shared display flag |
| JsonEditor.SelectExport | src/components/JsonEditor.js:282-288 | after a choice the field is in that summary with `display` true for "displayed" and "hidden" and false for "none"; this follows the code, which contradicts the program's own comments at src/components/Preview.js:65 and :74 (summary fields "either shown or hidden", display "false for Hidden") |
| FormDetailsSelector.WithDerivedFormId | src/components/FormDetailsSelector.js:78-88 | an empty locale changes nothing; otherwise only the form id changes, to the id of the locale's state number, or of "0000" for a locale not in the table |
| FormDetailsSelector.MenuLocaleFormId | src/components/FormDetailsSelector.js:39-45 | a menu locale always has a state number, its id carries that number, and the id is UUID-shaped |
| FormDetailsSelector.MenuFormIdsDistinct | src/components/FormDetailsSelector.js:78-88 | different menu locales get different form ids |
| FormDetailsSelector.ColoradoGetsZeroId | src/components/FormDetailsSelector.js:78-88 | Colorado gets the all-zero id, the same id the export uses when no form id is set |
| FormDetailsSelector.DeriveFormId | src/components/FormDetailsSelector.js:78-88 | the effect sets the details to `WithDerivedFormId` of the old details; nothing else changes |
| FormDetailsSelector.SetDetail | src/components/FormDetailsSelector.js:104-107 | setting a detail keeps the form id |
| FormDetailsSelector.SetDetailSpec | src/components/FormDetailsSelector.js:104-107 | setting a detail sets it and leaves every other detail as it was |
| FormDetailsSelector.SaveCategories | src/components/FormDetailsSelector.js:91-96 | the store receives custom categories only, each from the list, and every custom category of the list |
| FormDetailsSelector.LoadSavedCategories | src/components/FormDetailsSelector.js:59-71 | the predefined categories followed by the saved ones, or the predefined ones alone when nothing is stored or it does not parse |
| FormDetailsSelector.SaveLoad | src/components/FormDetailsSelector.js:59-96 | saving then loading gives the predefined categories followed by the list's custom ones, in order |
| FormDetailsSelector.SaveLoadRoundTrip | src/components/FormDetailsSelector.js:59-96 | a list of the predefined categories followed by custom ones survives saving and loading |
| FormDetailsSelector.IsCustom | src/components/FormDetailsSelector.js:93 | `!PREDEFINED_CATEGORIES.includes(cat)`; characterised by PredefinedNotCustom, SaveCategories and SaveLoad: no predefined category is custom, and the store holds exactly the custom ones |
| FormDetailsSelector.PredefinedNotCustom | src/components/FormDetailsSelector.js:47-56 | no predefined category counts as custom |
| FormDetailsSelector.CategoryEditor.constructor | src/components/FormDetailsSelector.js:74-76 | the list is loaded from the store, the box is empty and the dialog closed |
| FormDetailsSelector.CategoryEditor.SetNewCategory | src/components/FormDetailsSelector.js:75 | sets the text box only |
| FormDetailsSelector.CategoryEditor.HandleChange | src/components/FormDetailsSelector.js:98-108 | choosing "new" as category opens the dialog and leaves the details alone; any other choice sets that one detail |
| FormDetailsSelector.CategoryEditor.HandleAddCategory | src/components/FormDetailsSelector.js:110-125 | a blank entry changes nothing; otherwise the trimmed entry is appended, saved and selected, and the box is cleared and the dialog closed |
| FormDetailsSelector.CategoryEditor.AddCategory | src/components/FormDetailsSelector.js:112-123 | the non-blank branch, given the trimmed entry |
| FormDetailsSelector.CategoryEditor.AppendCategory | src/components/FormDetailsSelector.js:113-117 | the updater appends the entry and saves the new list |
| FormDetailsSelector.CategoryEditor.HandleDeleteCategory | src/components/FormDetailsSelector.js:127-142 | every occurrence is removed, the rest keep their order and are saved; the selected category is cleared only when it was the deleted one |
| FormDetailsSelector.DeleteKeepsOthers | src/components/FormDetailsSelector.js:130 | deleting a category keeps every other category |
| FormDetailsSelector.AddThenDeleteStore | src/components/FormDetailsSelector.js:110-133 | adding a new category and deleting it leaves the store as it was |

## Left out

- Rendering, theme, tooltips, dialog layout and the mouse tracking for the drag preview: these are user interface.
- CSV tokenising and its `skipEmptyLines` option: they belong to a third-party parser. The model starts from rows of cells.
- The browser store and `JSON.parse`: the store is the value `Stored`, which is absent, unparsable, or a list of saved strings. A stored JSON value that parses but is not a list of strings is not modelled.
- `JSON.stringify`, the text shown and the Blob/anchor download: these are output. The document is a datatype; only the file name is modelled.
- The syntax highlighting of the preview: it is display only.
- The constant `settings: { type: {} }` of the document metadata: it does not depend on any input.
- React's effect timing and update batching: each handler is one state transition, and the locale effect is `DeriveFormId`, run after the change.
- `generateUniqueId`: it is imported by the details panel, but `src/utils/formIdUtils.js` does not define it.
- JsStrings.Trim: whitespace and case are ASCII. JavaScript's `trim`, `\s` and `toLowerCase` also cover Unicode.
- Preview.GenerateSummary: the summary objects are maps, so the key order of the JavaScript objects is lost.
- Preview.GenerateSignatures: the signatures object is a map, so its key order is lost.
- Preview.GenerateSections: the sort by original index runs on a fresh copy that is already in index order, so it is the identity and is not modelled.
- Numeric attributes such as a field's `order` are integers, not floating point.
- FormDetailsSelector.WithDerivedFormId: a locale that names an inherited object property (such as "toString") is treated as absent from the table. The menu offers only state codes.
- FormDetailsSelector.SetDetail: only the five named details can be set. The program's computed key could name any attribute.
- Option rows, `offerCompareData` and validation defaults: none of these appear in the program's files.
