/** The document-generation dialog: its five screens, the way from one to the
  * next, the placeholder rows of a template's keys and the mapping sent for
  * generation. */
module GenerateDocumentModal {
  import opened Seqs
  import opened Text

  const DocumentSelection := "documentSelection"
  const BankDetails := "bankDetails"
  const SelectLetterType := "selectLetterType"
  const EnterDateOfPreviousLetter := "enterDateOfPreviousLetter"
  const GeneratedDocument := "generatedDocument"

  /** The screens the dialog can show, in the order it shows them. */
  const Screens: seq<string> := [DocumentSelection, BankDetails, SelectLetterType, EnterDateOfPreviousLetter, GeneratedDocument]

  /** A row of the key table; the random `uuid` is not modelled. */
  datatype OptionRow = OptionRow(templateKey: string, placeholder: string)

  const PlaceholderPrefix := "Replace {{"
  const PlaceholderSuffix := "}}"

  /** `Replace {{key}}`. */
  function Placeholder(key: string): string {
    PlaceholderPrefix + key + PlaceholderSuffix
  }

  /** The key a placeholder names, read back from between its braces. */
  function PlaceholderKey(placeholder: string): Option<string> {
    if |placeholder| >= |PlaceholderPrefix| + |PlaceholderSuffix| &&
       StartsWith(placeholder, PlaceholderPrefix) && EndsWith(placeholder, PlaceholderSuffix)
    then Some(placeholder[|PlaceholderPrefix|..|placeholder| - |PlaceholderSuffix|])
    else None
  }

  /** Every placeholder gives back the key it was made from. */
  lemma PlaceholderRoundTrip(key: string)
    ensures PlaceholderKey(Placeholder(key)) == Some(key)
  {
    var p := Placeholder(key);
    assert p[..|PlaceholderPrefix|] == PlaceholderPrefix;
    assert p[|p| - |PlaceholderSuffix|..] == PlaceholderSuffix;
    assert p[|PlaceholderPrefix|..|p| - |PlaceholderSuffix|] == key;
  }

  /** What `handleOptions` builds: one row per key, in key order. */
  function OptionRows(keys: seq<string>): seq<OptionRow> {
    Map(keys, (k: string) => OptionRow(k, Placeholder(k)))
  }

  /** Each row names its key and asks for it to be replaced. */
  lemma OptionRowsProperties(keys: seq<string>)
    ensures |OptionRows(keys)| == |keys|
    ensures forall i :: 0 <= i < |keys| ==>
      OptionRows(keys)[i].templateKey == keys[i] &&
      PlaceholderKey(OptionRows(keys)[i].placeholder) == Some(keys[i])
  {
    forall i | 0 <= i < |keys| ensures PlaceholderKey(OptionRows(keys)[i].placeholder) == Some(keys[i]) {
      PlaceholderRoundTrip(keys[i]);
    }
  }

  class Modal {
    var currentScreen: string
    var selectedDocumentId: Option<string>
    var letterType: Option<string>
    var rows: seq<OptionRow>
    var mapping: map<string, Option<string>>

    /** The dialog is always on one of its screens. */
    ghost predicate Valid()
      reads this
    {
      currentScreen in Screens
    }

    constructor ()
      ensures Valid() && currentScreen == DocumentSelection
      ensures selectedDocumentId == None && letterType == None && rows == [] && mapping == map[]
    {
      currentScreen := DocumentSelection;
      selectedDocumentId := None;
      letterType := None;
      rows := [];
      mapping := map[];
    }

    predicate IsDocumentSelection() reads this { currentScreen == DocumentSelection }
    predicate IsBankDetails() reads this { currentScreen == BankDetails }
    predicate IsLetterTypeSelection() reads this { currentScreen == SelectLetterType }
    predicate IsEnterDateOfPreviousLetter() reads this { currentScreen == EnterDateOfPreviousLetter }
    predicate IsGeneratedDocument() reads this { currentScreen == GeneratedDocument }

    /** On any screen of the dialog exactly one of the screen getters holds. */
    lemma ExactlyOneScreen()
      requires Valid()
      ensures IsDocumentSelection() || IsBankDetails() || IsLetterTypeSelection() ||
              IsEnterDateOfPreviousLetter() || IsGeneratedDocument()
      ensures IsDocumentSelection() ==> !IsBankDetails() && !IsLetterTypeSelection() && !IsEnterDateOfPreviousLetter() && !IsGeneratedDocument()
      ensures IsBankDetails() ==> !IsLetterTypeSelection() && !IsEnterDateOfPreviousLetter() && !IsGeneratedDocument()
      ensures IsLetterTypeSelection() ==> !IsEnterDateOfPreviousLetter() && !IsGeneratedDocument()
      ensures IsEnterDateOfPreviousLetter() ==> !IsGeneratedDocument()
    {
    }

    /** `handleSelectionChange`: the chosen template is remembered. */
    method HandleSelectionChange(id: string)
      modifies this`selectedDocumentId
      ensures selectedDocumentId == Some(id)
    {
      selectedDocumentId := Some(id);
    }

    /** `handleNextDocumentSelection`: on to the bank details only when a
      * template is chosen. */
    method HandleNextDocumentSelection()
      requires Valid()
      modifies this`currentScreen
      ensures Valid()
      ensures currentScreen == if selectedDocumentId.Some? && selectedDocumentId.value != "" then BankDetails else old(currentScreen)
    {
      if selectedDocumentId.Some? && selectedDocumentId.value != "" {
        currentScreen := BankDetails;
      }
    }

    method HandleBankDetailsNext()
      modifies this`currentScreen
      ensures Valid() && currentScreen == SelectLetterType
    {
      currentScreen := SelectLetterType;
    }

    method HandleLetterTypeNext()
      modifies this`currentScreen
      ensures Valid() && currentScreen == EnterDateOfPreviousLetter
    {
      currentScreen := EnterDateOfPreviousLetter;
    }

    method HandleLetterTypeChange(value: string)
      modifies this`letterType
      ensures letterType == Some(value)
    {
      letterType := Some(value);
    }

    /** `handleGenerateDocument`: the last screen, and a mapping holding only
      * the letter type (absent when none was chosen). */
    method HandleGenerateDocument()
      modifies this`currentScreen, this`mapping
      ensures Valid() && currentScreen == GeneratedDocument
      ensures mapping.Keys == {"letter_type"} && mapping["letter_type"] == letterType
    {
      currentScreen := GeneratedDocument;
      mapping := map["letter_type" := letterType];
    }

    /** `handleOptions`: the rows rebuilt one key at a time. */
    method HandleOptions(keys: seq<string>)
      modifies this`rows
      ensures rows == OptionRows(keys)
    {
      rows := [];
      var i := 0;
      while i < |keys|
        invariant 0 <= i <= |keys|
        invariant rows == OptionRows(keys[..i])
      {
        assert keys[..i + 1] == keys[..i] + [keys[i]];
        MapAppend(keys[..i], [keys[i]], (k: string) => OptionRow(k, Placeholder(k)));
        rows := rows + [OptionRow(keys[i], Placeholder(keys[i]))];
        i := i + 1;
      }
      assert keys[..|keys|] == keys;
    }
  }
}
