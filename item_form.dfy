/**
 * The Android add/edit item dialog's form: its text fields and category
 * selection, the edit handlers that filter or upper-case what is typed,
 * the rule that enables the submit button, and the `Item` built on submit.
 * Prices are `Double` fields and are not part of this model.
 */
module ItemForm {
  import opened Models
  import opened Text

  /** The category the submitted item gets, before trimming. */
  function FinalCategory(isNewCategory: bool, newCategoryName: string, category: string): string {
    if isNewCategory then newCategoryName else category
  }

  /** The submit button's `enabled`, as the dialog writes it: a non-blank
      name, and either a non-blank selected category or a non-blank new
      category name while a new category is being entered. */
  function SubmitEnabledAsWritten(name: string, category: string, isNewCategory: bool, newCategoryName: string): (b: bool)
    // never without a name, and outside new-category mode it is the intended rule
    ensures b ==> !IsBlank(name)
    ensures !isNewCategory ==> (b <==> SubmitEnabled(name, category, isNewCategory, newCategoryName))
  {
    !IsBlank(name) && (!IsBlank(category) || (isNewCategory && !IsBlank(newCategoryName)))
  }

  /** The rule the dialog evidently intends: a non-blank name and a
      non-blank category of the kind that will be submitted. */
  predicate SubmitEnabled(name: string, category: string, isNewCategory: bool, newCategoryName: string) {
    !IsBlank(name) && !IsBlank(FinalCategory(isNewCategory, newCategoryName, category))
  }

  /** The text a numeric field starts with: the item's value, or the default. */
  function InitialNumber(existing: Option<Item>, value: Item -> int, default: string): string {
    if existing.Some? then IntToString(value(existing.value)) else default
  }

  /** The text an optional field starts with: the item's value, or empty. */
  function InitialText(field: Option<string>): string {
    if field.Some? then field.value else ""
  }

  /** A numeric field's value on submit: `toIntOrNull() ?: default`. */
  function ParsedOr(text: string, default: int): (n: int)
    ensures ToIntOrNull(text).Some? ==> n == ToIntOrNull(text).value
    ensures ToIntOrNull(text).None? ==> n == default
  {
    var parsed := ToIntOrNull(text);
    if parsed.Some? then parsed.value else default
  }

  /** The item the confirm button hands to `onConfirm`. `uuid` stands for the
      random UUID a new item gets. Fields the dialog does not pass take the
      data class defaults, so an edited item comes back live and without its
      category id and audit fields. */
  function BuildItem(existing: Option<Item>, uuid: string, name: string, finalCategory: string,
                     details: string, photoUrl: string, quantity: string, lowStockThreshold: string): (item: Item)
    ensures item.id == if existing.Some? then existing.value.id else uuid
    ensures item.details.None? <==> IsBlank(details)
    ensures item.details.Some? ==> item.details.value == Trim(details) && item.details.value != []
    ensures item.photoUrl.None? <==> photoUrl == []
    ensures item.photoUrl.Some? ==> item.photoUrl.value == photoUrl
    ensures IsInt32(item.quantity) || item.quantity == 0
    ensures IsLive(item) && item.categoryId.None? && item.createdBy.None? && item.createdAt.None?
  {
    TrimEmptyIffBlank(details);
    var trimmedDetails := Trim(details);
    Item(
      id := if existing.Some? then existing.value.id else uuid,
      name := Trim(name),
      category := Trim(finalCategory),
      details := if trimmedDetails == [] then None else Some(trimmedDetails),
      photoUrl := if photoUrl == [] then None else Some(photoUrl),
      quantity := ParsedOr(quantity, 0),
      lowStockThreshold := ParsedOr(lowStockThreshold, 5))
  }

  /** With the digit filters, a submitted quantity and threshold are never
      negative: an empty field gives 0 and 5, and a digit run that fits in 32
      bits gives its value. */
  lemma FilteredNumbersAreNonNegative(existing: Option<Item>, uuid: string, name: string, finalCategory: string,
                                      details: string, photoUrl: string, quantity: string, lowStockThreshold: string)
    requires AllDigits(quantity) && AllDigits(lowStockThreshold)
    ensures var item := BuildItem(existing, uuid, name, finalCategory, details, photoUrl, quantity, lowStockThreshold);
            item.quantity >= 0 && item.lowStockThreshold >= 0 &&
            (quantity == [] ==> item.quantity == 0) &&
            (lowStockThreshold == [] ==> item.lowStockThreshold == 5) &&
            (quantity != [] && DigitsValue(quantity) <= INT_MAX ==> item.quantity == DigitsValue(quantity))
  {
    ParsedDigits(quantity, 0);
    ParsedDigits(lowStockThreshold, 5);
  }

  /** A digit run parses to its value when it is non-empty and fits in 32
      bits, and to the default otherwise. */
  lemma ParsedDigits(text: string, default: nat)
    requires AllDigits(text)
    ensures ParsedOr(text, default) == if text != [] && DigitsValue(text) <= INT_MAX then DigitsValue(text) else default
  {
    var parsed := ToIntOrNull(text);
    assert parsed == if text != [] && DigitsValue(text) <= INT_MAX then Some(DigitsValue(text)) else None;
  }

  /** Opening the dialog on an item and confirming without an edit keeps the
      item's id, quantity, threshold and non-empty photo, and its name and
      category up to trimming. */
  lemma {:induction false} UntouchedEditKeepsItem(e: Item, uuid: string)
    requires IsInt32(e.quantity) && IsInt32(e.lowStockThreshold)
    ensures var item := BuildItem(Some(e), uuid, e.name, FinalCategory(false, "", e.category),
                                  InitialText(e.details), InitialText(e.photoUrl),
                                  InitialNumber(Some(e), (i: Item) => i.quantity, "0"),
                                  InitialNumber(Some(e), (i: Item) => i.lowStockThreshold, "5"));
            item.id == e.id && item.quantity == e.quantity && item.lowStockThreshold == e.lowStockThreshold &&
            item.name == Trim(e.name) && item.category == Trim(e.category) &&
            (e.photoUrl != Some("") ==> item.photoUrl == e.photoUrl)
  {
    IntToStringRoundTrip(e.quantity);
    IntToStringRoundTrip(e.lowStockThreshold);
  }

  /** The corrected rule enables the button only when the submitted item
      gets a non-empty name and a non-empty category. */
  lemma SubmitEnabledConfirmsNonBlank(existing: Option<Item>, uuid: string, name: string, category: string,
                                      isNewCategory: bool, newCategoryName: string,
                                      details: string, photoUrl: string, quantity: string, lowStockThreshold: string)
    requires SubmitEnabled(name, category, isNewCategory, newCategoryName)
    ensures var item := BuildItem(existing, uuid, name, FinalCategory(isNewCategory, newCategoryName, category),
                                  details, photoUrl, quantity, lowStockThreshold);
            item.name != [] && item.category != []
  {
    TrimEmptyIffBlank(name);
    TrimEmptyIffBlank(FinalCategory(isNewCategory, newCategoryName, category));
  }

  /** The two rules agree except in one state: a new category is being
      entered, its name is blank, and the previously selected category is
      not. The written rule then enables the button. */
  lemma SubmitRulesDiffer(name: string, category: string, isNewCategory: bool, newCategoryName: string)
    ensures SubmitEnabled(name, category, isNewCategory, newCategoryName) ==>
              SubmitEnabledAsWritten(name, category, isNewCategory, newCategoryName)
    ensures SubmitEnabledAsWritten(name, category, isNewCategory, newCategoryName) &&
            !SubmitEnabled(name, category, isNewCategory, newCategoryName)
            <==> !IsBlank(name) && isNewCategory && IsBlank(newCategoryName) && !IsBlank(category)
  {
  }

  /** As written, the button is enabled on a state whose submitted item has
      an empty category: category "TOOLS" selected, then "Add New Category"
      chosen and nothing typed. */
  lemma SubmitEnabledAsWrittenAllowsBlankCategory()
    ensures SubmitEnabledAsWritten("Hammer", "TOOLS", true, "")
    ensures BuildItem(None, "u", "Hammer", FinalCategory(true, "", "TOOLS"), "", "", "0", "5").category == ""
  {
    assert !IsWhitespace("Hammer"[0]);
    assert !IsWhitespace("TOOLS"[0]);
    TrimStartOfBlank("");
  }

  /** Kotlin's `isBlank` counts an information separator as whitespace, so a
      name made of U+001F alone keeps the button disabled under both rules. */
  lemma SeparatorNameDisables(category: string, isNewCategory: bool, newCategoryName: string)
    ensures !SubmitEnabledAsWritten("\U{001F}", category, isNewCategory, newCategoryName)
    ensures !SubmitEnabled("\U{001F}", category, isNewCategory, newCategoryName)
  {
    assert IsWhitespace("\U{001F}"[0]);
  }

  /** No lower-case ASCII letter: what every upper-cased edit leaves. */
  predicate NoLowerCase(s: string) {
    forall i :: 0 <= i < |s| ==> !('a' <= s[i] <= 'z')
  }

  /** A category free of lower-case letters stays so in the built item. */
  lemma UpperCategoryBuilt(existing: Option<Item>, uuid: string, name: string, finalCategory: string,
                           details: string, photoUrl: string, quantity: string, lowStockThreshold: string)
    requires NoLowerCase(finalCategory)
    ensures NoLowerCase(BuildItem(existing, uuid, name, finalCategory, details, photoUrl, quantity, lowStockThreshold).category)
  {
    TrimKeepsNoLowerCase(finalCategory);
  }

  /** Both sides of a cut of a string free of lower-case letters are too. */
  lemma NoLowerCaseSlices(s: string, i: nat)
    requires NoLowerCase(s) && i <= |s|
    ensures NoLowerCase(s[..i]) && NoLowerCase(s[i..])
  {
    assert forall k :: 0 <= k < |s| - i ==> s[i..][k] == s[i + k];
  }

  /** Trimming keeps a string free of lower-case letters. */
  lemma TrimKeepsNoLowerCase(s: string)
    requires NoLowerCase(s)
    ensures NoLowerCase(Trim(s))
  {
    var t := TrimStart(s);
    NoLowerCaseSlices(s, |s| - |t|);
    NoLowerCaseSlices(t, |TrimEnd(t)|);
  }

  /** The dialog's `remember` state, opened on `existing` (null to add). */
  class ItemFormState {
    const existing: Option<Item>
    var name: string
    var category: string
    var isNewCategory: bool
    var newCategoryName: string
    var details: string
    var photoUrl: string
    var quantity: string
    var lowStockThreshold: string

    /** The new category's name is only ever set upper-cased or cleared. */
    predicate Valid()
      reads this
    {
      NoLowerCase(newCategoryName)
    }

    constructor (existing: Option<Item>)
      ensures Valid() && this.existing == existing
      ensures name == (if existing.Some? then existing.value.name else "")
      ensures category == (if existing.Some? then existing.value.category else "")
      ensures !isNewCategory && newCategoryName == ""
      ensures details == (if existing.Some? then InitialText(existing.value.details) else "")
      ensures photoUrl == (if existing.Some? then InitialText(existing.value.photoUrl) else "")
      ensures quantity == InitialNumber(existing, (i: Item) => i.quantity, "0")
      ensures lowStockThreshold == InitialNumber(existing, (i: Item) => i.lowStockThreshold, "5")
    {
      this.existing := existing;
      name := if existing.Some? then existing.value.name else "";
      category := if existing.Some? then existing.value.category else "";
      isNewCategory := false;
      newCategoryName := "";
      details := if existing.Some? then InitialText(existing.value.details) else "";
      photoUrl := if existing.Some? then InitialText(existing.value.photoUrl) else "";
      quantity := InitialNumber(existing, (i: Item) => i.quantity, "0");
      lowStockThreshold := InitialNumber(existing, (i: Item) => i.lowStockThreshold, "5");
    }

    method EditName(value: string)
      requires Valid()
      modifies this`name
      ensures Valid() && name == value
    {
      name := value;
    }

    /** The category field: while entering a new category it edits the new
        name, otherwise the selected category; both upper-cased. */
    method EditCategoryField(value: string)
      requires Valid()
      modifies this`category, this`newCategoryName
      ensures Valid()
      ensures isNewCategory ==> newCategoryName == ToUpper(value) && category == old(category)
      ensures !isNewCategory ==> category == ToUpper(value) && newCategoryName == old(newCategoryName)
      ensures NoLowerCase(FinalCategory(isNewCategory, newCategoryName, category))
    {
      ToUpperProperties(value);
      if isNewCategory {
        newCategoryName := ToUpper(value);
      } else {
        category := ToUpper(value);
      }
    }

    /** The "Add New Category" menu entry. */
    method ChooseNewCategory()
      requires Valid()
      modifies this`isNewCategory, this`newCategoryName
      ensures Valid() && isNewCategory && newCategoryName == ""
    {
      isNewCategory := true;
      newCategoryName := "";
    }

    /** An existing category's menu entry: taken as listed, not upper-cased. */
    method ChooseCategory(cat: string)
      requires Valid()
      modifies this`category, this`isNewCategory
      ensures Valid() && category == cat && !isNewCategory
      ensures FinalCategory(isNewCategory, newCategoryName, category) == cat
    {
      category := cat;
      isNewCategory := false;
    }

    /** The separate new-category field shown while entering a new category. */
    method EditNewCategoryName(value: string)
      requires Valid()
      modifies this`newCategoryName
      ensures Valid() && newCategoryName == ToUpper(value)
    {
      ToUpperProperties(value);
      newCategoryName := ToUpper(value);
    }

    method EditDetails(value: string)
      requires Valid()
      modifies this`details
      ensures Valid() && details == value
    {
      details := value;
    }

    /** A picked image or a taken photo: its URI becomes the photo URL. */
    method SetPhoto(uri: string)
      requires Valid()
      modifies this`photoUrl
      ensures Valid() && photoUrl == uri
    {
      photoUrl := uri;
    }

    /** The remove-photo button. */
    method ClearPhoto()
      requires Valid()
      modifies this`photoUrl
      ensures Valid() && photoUrl == ""
    {
      photoUrl := "";
    }

    /** The quantity field keeps only the digits of what is typed. */
    method EditQuantity(value: string)
      requires Valid()
      modifies this`quantity
      ensures Valid() && quantity == FilterDigits(value) && AllDigits(quantity)
    {
      quantity := FilterDigits(value);
    }

    /** The low-stock field keeps only the digits of what is typed. */
    method EditLowStockThreshold(value: string)
      requires Valid()
      modifies this`lowStockThreshold
      ensures Valid() && lowStockThreshold == FilterDigits(value) && AllDigits(lowStockThreshold)
    {
      lowStockThreshold := FilterDigits(value);
    }

    /** The button's `enabled`, under the corrected rule (`SubmitRulesDiffer`
        says where the written rule departs from it). */
    function Enabled(): (b: bool)
      reads this
      // the written rule, less the state with a blank new category name
      ensures b <==> SubmitEnabledAsWritten(name, category, isNewCategory, newCategoryName) &&
                     !(isNewCategory && IsBlank(newCategoryName))
    {
      SubmitEnabled(name, category, isNewCategory, newCategoryName)
    }

    /** The confirm button: the item handed to `onConfirm`. Under the
        corrected rule it has a non-empty name and category, and a new
        category goes out upper-cased. */
    method Confirm(uuid: string) returns (item: Item)
      requires Valid()
      ensures item == BuildItem(existing, uuid, name, FinalCategory(isNewCategory, newCategoryName, category),
                                details, photoUrl, quantity, lowStockThreshold)
      ensures item.id == if existing.Some? then existing.value.id else uuid
      ensures Enabled() ==> item.name != [] && item.category != []
      // a new category is submitted upper-cased
      ensures isNewCategory ==> NoLowerCase(item.category)
    {
      var finalCategory := if isNewCategory then newCategoryName else category;
      item := BuildItem(existing, uuid, name, finalCategory, details, photoUrl, quantity, lowStockThreshold);
      if SubmitEnabled(name, category, isNewCategory, newCategoryName) {
        SubmitEnabledConfirmsNonBlank(existing, uuid, name, category, isNewCategory, newCategoryName,
                                      details, photoUrl, quantity, lowStockThreshold);
      }
      if isNewCategory {
        UpperCategoryBuilt(existing, uuid, name, finalCategory, details, photoUrl, quantity, lowStockThreshold);
      }
    }
  }
}
