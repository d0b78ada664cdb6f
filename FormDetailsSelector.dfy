/** The form-details panel: the locale, type, name, short name and category
    of the form, the form id derived from the locale, and the list of
    categories, which keeps the user's own categories in a browser store. */
module FormDetailsSelector {
  import opened JsValues
  import opened Seqs
  import opened JsStrings
  import opened FormModel
  import opened FormIdUtils
  import opened Selection
  import opened App

  // ---------------------------------------------------------------------
  // The form id

  /** The effect on `formDetails.locale`: with a locale, the form id is the
      id of its state number, or of "0000" for a locale not in the table. */
  function WithDerivedFormId(d: FormDetails): (r: FormDetails)
    ensures d.locale == "" ==> r == d
    ensures d.locale != "" ==> r == d.(formId := r.formId)
    ensures d.locale != "" && StateNumber(d.locale).Some? ==> r.formId == Some(FormatFormId(StateNumber(d.locale).value))
    ensures d.locale != "" && StateNumber(d.locale).None? ==> r.formId == Some(FormatFormId("0000"))
  {
    if d.locale != "" then
      var stateNumber := if StateNumber(d.locale).Some? && StateNumber(d.locale).value != "" then StateNumber(d.locale).value else "0000";
      StateNumberSpec(d.locale);
      d.(formId := Some(FormatFormId(stateNumber)))
    else d
  }

  /** The locale menu lists `UsStates`; each of them has a state number, so
      the "0000" fallback is never taken from the menu, and the state
      number can be read back from the id. */
  lemma MenuLocaleFormId(d: FormDetails, j: nat)
    requires j < StateCount && d.locale == UsState(j)
    ensures StateNumber(d.locale).Some?
    ensures WithDerivedFormId(d).formId == Some(FormatFormId(StateNumber(d.locale).value))
    ensures StateNumberOf(WithDerivedFormId(d).formId.value) == StateNumber(d.locale).value
    ensures UuidShaped(WithDerivedFormId(d).formId.value)
  {
    UsStatesHaveNumbers(j);
    StateNumberSpec(d.locale);
    FormatFormIdRoundTrip(StateNumber(d.locale).value);
    FormatFormIdShape(StateNumber(d.locale).value);
  }

  /** Two different menu states get different form ids. */
  lemma MenuFormIdsDistinct(d: FormDetails, e: FormDetails, i: nat, j: nat)
    requires i < StateCount && j < StateCount && d.locale == UsState(i) && e.locale == UsState(j)
    requires d.locale != e.locale
    ensures WithDerivedFormId(d).formId != WithDerivedFormId(e).formId
  {
    MenuLocaleFormId(d, i);
    MenuLocaleFormId(e, j);
    StateNumbersDistinct(d.locale, e.locale);
    FormatFormIdInjective(StateNumber(d.locale).value, StateNumber(e.locale).value);
  }

  /** Colorado's code is 0000, so its form id is the all-zero id that the
      export also uses when no form id is set. */
  lemma ColoradoGetsZeroId(d: FormDetails)
    requires d.locale == "CO"
    ensures WithDerivedFormId(d).formId == Some(ZeroFormId)
  {
    ColoradoIsZero();
    ZeroStateFormId();
  }

  /** The effect as run against the session. */
  method DeriveFormId(s: Session)
    modifies s
    ensures s.formDetails == WithDerivedFormId(old(s.formDetails))
    ensures s.fields == old(s.fields) && s.sections == old(s.sections) && s.resetFileUpload == old(s.resetFileUpload)
    ensures s.selectedRoles == old(s.selectedRoles) && s.selectedCreators == old(s.selectedCreators)
  {
    if s.formDetails.locale != "" {
      s.HandleFormDetailsChange(WithDerivedFormId(s.formDetails));
    }
  }

  // ---------------------------------------------------------------------
  // Editing a detail

  datatype Detail = Locale | Type | Name | ShortName | Category

  /** `{ ...formDetails, [field]: value }`. */
  function SetDetail(d: FormDetails, field: Detail, value: string): (r: FormDetails)
    ensures r.formId == d.formId
  {
    match field
    case Locale => d.(locale := value)
    case Type => d.(kind := value)
    case Name => d.(name := value)
    case ShortName => d.(shortName := value)
    case Category => d.(category := value)
  }

  /** The value of one detail. */
  function GetDetail(d: FormDetails, field: Detail): string {
    match field
    case Locale => d.locale
    case Type => d.kind
    case Name => d.name
    case ShortName => d.shortName
    case Category => d.category
  }

  /** Setting a detail sets that detail and leaves every other one as it was. */
  lemma SetDetailSpec(d: FormDetails, field: Detail, value: string, other: Detail)
    ensures GetDetail(SetDetail(d, field, value), field) == value
    ensures other != field ==> GetDetail(SetDetail(d, field, value), other) == GetDetail(d, other)
  {
  }

  // ---------------------------------------------------------------------
  // Categories

  /** `PREDEFINED_CATEGORIES`. */
  const Predefined: seq<string> := ["salesContract", "clientRelationshipAgreements", "addendaToContract",
                                    "disclosures", "closing", "notices", "earnestMoney", "other"]

  /** `cat => !PREDEFINED_CATEGORIES.includes(cat)`. */
  predicate IsCustom(c: string) {
    c !in Predefined
  }

  /** What the store holds under `customCategories`: nothing (or an empty
      string), text that does not parse, or a parsed list. */
  datatype Stored = Absent | Unparsable | Saved(entries: seq<string>)

  /** `saveCategories(updated)`: the custom entries, in order. */
  function SaveCategories(updated: seq<string>): (r: Stored)
    ensures r.Saved? && |r.entries| <= |updated|
    ensures forall i :: 0 <= i < |r.entries| ==> IsCustom(r.entries[i]) && r.entries[i] in updated
    ensures forall i :: 0 <= i < |updated| && IsCustom(updated[i]) ==> updated[i] in r.entries
  {
    Saved(Filter(updated, IsCustom))
  }

  /** `loadSavedCategories()`. */
  function LoadSavedCategories(stored: Stored): (r: seq<string>)
    ensures stored.Saved? ==> r == Predefined + stored.entries
    ensures !stored.Saved? ==> r == Predefined
  {
    match stored
    case Saved(entries) => Predefined + entries
    case _ => Predefined
  }

  /** Whatever the list, it comes back from the store as the predefined
      categories followed by its own custom ones, in order. */
  lemma SaveLoad(categories: seq<string>)
    ensures LoadSavedCategories(SaveCategories(categories)) == Predefined + Filter(categories, IsCustom)
  {
  }

  /** A list made of the predefined categories followed by custom ones comes
      back from the store unchanged. */
  lemma SaveLoadRoundTrip(custom: seq<string>)
    requires forall i :: 0 <= i < |custom| ==> IsCustom(custom[i])
    ensures LoadSavedCategories(SaveCategories(Predefined + custom)) == Predefined + custom
  {
    PredefinedNotCustom();
    FilterDropsPrefix(Predefined, custom, IsCustom);
  }

  lemma PredefinedNotCustom()
    ensures forall i :: 0 <= i < |Predefined| ==> !IsCustom(Predefined[i])
  {
  }

  /** The panel's own state: the category list, the new-category text box,
      the new-category dialog, and the store slot. */
  class CategoryEditor {
    var categories: seq<string>
    var newCategory: string
    var openNewCategory: bool
    var stored: Stored

    /** `useState(loadSavedCategories)`. */
    constructor (store: Stored)
      ensures categories == LoadSavedCategories(store)
      ensures newCategory == "" && !openNewCategory && stored == store
    {
      categories := LoadSavedCategories(store);
      newCategory := "";
      openNewCategory := false;
      stored := store;
    }

    /** The text box of the new-category dialog. */
    method SetNewCategory(v: string)
      modifies this
      ensures newCategory == v
      ensures categories == old(categories) && openNewCategory == old(openNewCategory) && stored == old(stored)
    {
      newCategory := v;
    }

    /** `handleChange(field)`: choosing "new" as category opens the dialog
      and changes no detail; any other choice sets that detail alone. */
    method HandleChange(s: Session, field: Detail, value: string)
      modifies this, s
      ensures field == Category && value == "new" ==> s.formDetails == old(s.formDetails) && openNewCategory
      ensures !(field == Category && value == "new") ==>
        s.formDetails == SetDetail(old(s.formDetails), field, value) && openNewCategory == old(openNewCategory)
      ensures categories == old(categories) && newCategory == old(newCategory) && stored == old(stored)
      ensures s.fields == old(s.fields) && s.sections == old(s.sections) && s.resetFileUpload == old(s.resetFileUpload)
      ensures s.selectedRoles == old(s.selectedRoles) && s.selectedCreators == old(s.selectedCreators)
    {
      if field == Category && value == "new" {
        openNewCategory := true;
        return;
      }
      s.HandleFormDetailsChange(SetDetail(s.formDetails, field, value));
    }

    /** `handleAddCategory`: with a non-blank entry, its trimmed text is
      appended, saved, selected, and the dialog closes with an empty box;
      with a blank entry nothing happens. */
    method HandleAddCategory(s: Session)
      requires s != this as object
      modifies this, s
      ensures Trim(old(newCategory)) == "" ==>
        categories == old(categories) && newCategory == old(newCategory) && openNewCategory == old(openNewCategory) &&
        stored == old(stored) && s.formDetails == old(s.formDetails)
      ensures Trim(old(newCategory)) != "" ==>
        categories == old(categories) + [Trim(old(newCategory))] &&
        stored == SaveCategories(categories) &&
        s.formDetails == old(s.formDetails).(category := Trim(old(newCategory))) &&
        newCategory == "" && !openNewCategory
      ensures s.fields == old(s.fields) && s.sections == old(s.sections) && s.resetFileUpload == old(s.resetFileUpload)
      ensures s.selectedRoles == old(s.selectedRoles) && s.selectedCreators == old(s.selectedCreators)
    {
      var categoryValue := Trim(newCategory);
      if categoryValue != "" {
        AddCategory(s, categoryValue);
      }
    }

    /** The non-blank branch of `handleAddCategory`, given the trimmed entry. */
    method AddCategory(s: Session, categoryValue: string)
      requires s != this as object
      modifies this, s
      ensures categories == old(categories) + [categoryValue]
      ensures stored == SaveCategories(categories)
      ensures s.formDetails == old(s.formDetails).(category := categoryValue)
      ensures newCategory == "" && !openNewCategory
      ensures s.fields == old(s.fields) && s.sections == old(s.sections) && s.resetFileUpload == old(s.resetFileUpload)
      ensures s.selectedRoles == old(s.selectedRoles) && s.selectedCreators == old(s.selectedCreators)
    {
      AppendCategory(categoryValue);
      s.HandleFormDetailsChange(s.formDetails.(category := categoryValue));
      newCategory := "";
      openNewCategory := false;
    }

    /** The `setCategories` updater of `handleAddCategory`. */
    method AppendCategory(categoryValue: string)
      modifies this
      ensures categories == old(categories) + [categoryValue]
      ensures stored == SaveCategories(categories)
      ensures newCategory == old(newCategory) && openNewCategory == old(openNewCategory)
    {
      var updated := categories + [categoryValue];
      stored := SaveCategories(updated);
      categories := updated;
    }

    /** `handleDeleteCategory(c)`: every occurrence of `c` leaves the list,
      the rest keep their order and are saved; the selected category is
      cleared only when it was `c`. */
    method HandleDeleteCategory(s: Session, c: string)
      requires s != this as object
      modifies this, s
      ensures categories == Filter(old(categories), Other(c))
      ensures c !in categories
      ensures stored == SaveCategories(categories)
      ensures old(s.formDetails).category == c ==> s.formDetails == old(s.formDetails).(category := "")
      ensures old(s.formDetails).category != c ==> s.formDetails == old(s.formDetails)
      ensures newCategory == old(newCategory) && openNewCategory == old(openNewCategory)
      ensures s.fields == old(s.fields) && s.sections == old(s.sections) && s.resetFileUpload == old(s.resetFileUpload)
      ensures s.selectedRoles == old(s.selectedRoles) && s.selectedCreators == old(s.selectedCreators)
    {
      var updated := Filter(categories, Other(c));
      stored := SaveCategories(updated);
      categories := updated;
      if s.formDetails.category == c {
        s.HandleFormDetailsChange(s.formDetails.(category := ""));
      }
    }
  }

  /** Deleting a category keeps every other category, in order. */
  lemma DeleteKeepsOthers(categories: seq<string>, c: string, other: string)
    requires other != c
    ensures other in Filter(categories, Other(c)) <==> other in categories
  {
    if other in categories {
      var i :| 0 <= i < |categories| && categories[i] == other;
      assert Other(c)(categories[i]);
    }
  }

  /** A category added and then deleted is gone from the store again: the
      store holds the custom categories of the list without it. */
  lemma AddThenDeleteStore(categories: seq<string>, c: string)
    requires c !in categories
    ensures SaveCategories(Filter(categories + [c], Other(c))) == SaveCategories(categories)
  {
    ToggleTwice(categories, c);
  }
}
