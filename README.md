# A verified model of the case-management templates and components

The repository belongs to a Salesforce case-management system built around
the BV case record (`BV_Case__c`). It has two parts. The first is a
Python script that turns a firm's legacy letter templates into templates for
the document generator. The second is a set of Lightning Web Components that
show and edit a case. This project models the logic of both parts in Dafny
and proves what that logic promises.

- **Template conversion** (`convert_documents.dfy`). Six ordered rules rewrite
  every line of a template:
  - the case reference, with or without its suffix, becomes `{{caseReference}}`;
  - a diary or history line is blanked;
  - message and show tags are deleted;
  - the date code becomes `{{currentDate}}`;
  - every other `[...]` code becomes a `{{name}}` placeholder made of its word
    characters.

  The regular expressions are written out as scanners over `seq<char>`.
  `Text.IsWordChar` models `\w` and `\b` for ASCII text only (see
  "## Left out"). `.` does not match a line break.
- **Components.** There is one module per component:
  - the publish/subscribe registry;
  - the flow around the PDF viewer, which matches keys by edit distance;
  - the two statement-of-service ledgers, one with pages and one without;
  - the reverse-accrual picker;
  - the two document libraries;
  - the estate grid and the navigation tree;
  - the case-officer buttons;
  - the case-creation wizard and its progress bar;
  - the document-generation dialog and its template picker;
  - the file manager and the upload panel;
  - the related-records screen and its edit dialog;
  - the history-item edit dialog.

  Shared modules hold what several components do alike:
  - `Text` holds string helpers;
  - `Seqs` holds `map`, `filter` and the first-seen order of a `Set`;
  - `Objects` models a JavaScript object as a dictionary in insertion order;
  - `Sorting` holds the comparator and a stable sort;
  - `UkDates` renders and reads `dd/mm/yyyy` dates;
  - `Ledger` holds the ledger rows;
  - `DocumentLibrary` holds the library filters.

  The `bvCaseName` folder-name rule of `pdftronWvInstanceFlow.js` and
  `fileUpload.js` is modelled once, as `FileManager.BvCaseName`.

Components whose methods update their own fields are classes. A method's
`modifies` clause names the fields it may change, or the whole object where
it may change most of them; its `ensures` gives the new value of each field
it may change, in terms of functions of the old state, and says which of those
fields keep their values. Lemmas prove what those functions
promise. Values from the remote server arrive as parameters (`Option` for
"data or error"). Money is a whole number of pence; the paginated ledger sorts its amount
columns on whole pounds, as its `parseInt` primer does. Days are `(y, m, d)`
triples, and times are milliseconds.

## Model

| member | source | states |
|---|---|---|
| ConvertDocuments.MatchLength | convert_documents.py:9-33 | the match of each of the six patterns at a position never runs past the end of the line |
| ConvertDocuments.SubUnchanged | convert_documents.py:9-33 | `re.sub` leaves a line in which its pattern matches nowhere as it is |
| ConvertDocuments.LiteralMatches | convert_documents.py:9-13 | rules 1 and 2 match exactly where their literal (`BV [MT05]`, `[MT05]`) starts, and always put the same text in its place |
| ConvertDocuments.SubRemovesLiteral | convert_documents.py:9-13 | after rule 1 or rule 2 substitutes, no occurrence of its literal is left in the line |
| ConvertDocuments.FindCloser | convert_documents.py:13-33 | the lazy `.*?` stops at the nearest closer on the same line; it finds none exactly when a newline or the end comes first |
| ConvertDocuments.TagMatchAt | convert_documents.py:20-33 | a delimited tag whose closer follows on its line is matched up to the nearest closer |
| ConvertDocuments.BvMatch | convert_documents.py:9 | rule 1 matches exactly at `BV [MT05]` |
| ConvertDocuments.BvReferencesReplaced | convert_documents.py:9 | after rule 1 no `BV [MT05]` is left |
| ConvertDocuments.ScanMt11 | convert_documents.py:12 | the scan for `.*\[MT11` is true exactly when `[MT11` follows on the same line |
| ConvertDocuments.GuardFires | convert_documents.py:12 | `re.search` of the guard is true exactly when the guard matches at some position |
| ConvertDocuments.LineEnd | convert_documents.py:12-13 | the first line of a text ends at a newline or at the end, with no newline before |
| ConvertDocuments.LastGroupStart | convert_documents.py:13 | the greedy `.*` settles on the last position where `\[MT11\(.*?\)\]` matches, and on none when it matches nowhere |
| ConvertDocuments.GroupLength | convert_documents.py:13 | the optional `(?:.*\[MT11\(.*?\)\])?` never runs past the end of the line |
| ConvertDocuments.CaseReferenceMatch | convert_documents.py:13 | rule 2 matches exactly where `[MT05]` starts |
| ConvertDocuments.CaseReferencesReplaced | convert_documents.py:12-13 | once rule 2's substitution runs, no `[MT05]` is left anywhere on the line |
| ConvertDocuments.FindCloserFirst | convert_documents.py:13 | the lazy `.*?` followed by a closer stops at the first closer, provided no line break comes before it |
| ConvertDocuments.LastGroupEndAt | convert_documents.py:13 | the greedy `.*` backtracks to a group that ends where every later group on the line ends |
| ConvertDocuments.GroupAtStart | convert_documents.py:13 | `[MT11(inner)]` whose inner text holds no `)]` and no line break is matched up to its own `)]` |
| ConvertDocuments.GroupsInsideGroup | convert_documents.py:13 | a `[MT11(` match starting inside such a group ends at that same `)]`, or there is no match at all |
| ConvertDocuments.NoGroupsAfterGroup | convert_documents.py:13 | after the group, on the same line, no further `[MT11(` match starts when the rest of the line opens none |
| ConvertDocuments.GroupLengthAfterPrefix | convert_documents.py:13 | when a group opens a text and every later group on its line ends where it does, the optional part after a newline-free prefix ends there |
| ConvertDocuments.GroupSpan | convert_documents.py:13 | after `[MT05]`, the optional part takes all text on the line up to and including `[MT11(inner)]`. This holds for any inner text without `)]` or a line break, and any text after that opens no further `[MT11(` on the line; brackets, parentheses and earlier groups may also appear in x |
| ConvertDocuments.CaseReferenceMatchSpan | convert_documents.py:13 | rule 2's match at such an `[MT05]` covers exactly the span up to the end of the group |
| ConvertDocuments.CaseReferenceAtStart | convert_documents.py:13 | a text starting with such a span becomes `{{caseReference}}` followed by rule 2 applied to the rest |
| ConvertDocuments.SubWithoutCaseReference | convert_documents.py:13 | rule 2's substitution leaves text without `[MT05]` unchanged |
| ConvertDocuments.CaseReferenceSpan | convert_documents.py:13 | after a prefix without `[`, `[MT05]`, text on its line and that line's last `[MT11(...)]` are replaced as one span by `{{caseReference}}`. The prefix is kept and rule 2 goes on over the rest, which is unchanged when it holds no `[MT05]` |
| ConvertDocuments.TagReplaced | convert_documents.py:20-33 | each delimited tag whose closer follows on its line is replaced as a whole and the rest of the line is substituted after it |
| ConvertDocuments.MessageTagDeleted | convert_documents.py:20 | a `[&Message...]` tag is deleted up to its nearest `]`; the text on either side is kept |
| ConvertDocuments.ShowTagDeleted | convert_documents.py:21 | a `[&Show...]` tag is deleted up to its nearest `]` |
| ConvertDocuments.DateMatchAt | convert_documents.py:24 | the lazy match of a date field runs to the first `")]`, so a format text with quotes or parentheses but no `")]` and no line break is matched whole |
| ConvertDocuments.DateFieldReplaced | convert_documents.py:24 | a `[DATE:DS("...")]` field whose format holds no `")]` becomes `{{currentDate}}`; the text before it and the substituted rest of the line are kept |
| ConvertDocuments.PlaceholderText | convert_documents.py:27-31 | `convert_placeholder` gives `{{`, only word characters, then `}}`, with no bracket |
| ConvertDocuments.PlaceholderReplaced | convert_documents.py:27-33 | a bracketed name is replaced by its text in double braces; the text either side is kept |
| ConvertDocuments.PlaceholderTextOf | convert_documents.py:30-31 | the text a placeholder becomes is exactly the word characters between its brackets, in double braces |
| ConvertDocuments.PlaceholdersKeepClosersAfterNewline | convert_documents.py:33 | rule 6 adds no `]` that no newline precedes |
| ConvertDocuments.PlaceholdersLeaveNoPair | convert_documents.py:33 | after rule 6 no `[...]` is left on any one line |
| ConvertDocuments.ConvertLine | convert_documents.py:7-33 | the converted line holds no `[...]` pair on any one line |
| ConvertDocuments.KeptLineWithoutBrackets | convert_documents.py:20-33 | rules 4 to 6 leave a line without `[` unchanged |
| ConvertDocuments.GuardSilentWithoutBrackets | convert_documents.py:12 | without any `[` the rule 2 guard finds nothing |
| ConvertDocuments.NoDiaryWithoutBrackets | convert_documents.py:16 | without any `[` no diary or history marker is present |
| ConvertDocuments.ConvertLineWithoutBrackets | convert_documents.py:7-33 | a line without any `[` comes through unchanged |
| ConvertDocuments.ConvertLineDropsDiary | convert_documents.py:16-17 | a line naming a diary or history entry, with no `[MT05]`, becomes the empty line |
| ConvertDocuments.CaseReferenceKept | convert_documents.py:16-33 | `{{caseReference}}` names no diary entry and comes through rules 4 to 6 unchanged |
| ConvertDocuments.GuardBeforeGroup | convert_documents.py:12 | the guard fires on `[MT05]` followed on its line by `[MT11` |
| ConvertDocuments.CaseReferenceLine | convert_documents.py:12-13 | the guard fires and `[MT05]`, text and the line's last `[MT11(...)]` become `{{caseReference}}`, as in `[MT05]/[MT11(2)] Dear [Salutation]` giving `{{caseReference}} Dear [Salutation]`; the rest of the text follows rule 2 |
| ConvertDocuments.DiaryMarkerInsideCaseReferenceSpan | convert_documents.py:12-17 | since rule 3 looks at the line after rule 2, a `[&Diary` between `[MT05]` and a later `[MT11(...)]` is swallowed and the line is kept |
| ConvertDocuments.LoneBracket | convert_documents.py:12-33 | in `p[MT05]q` where p and q hold no `[`, the only `[` is the one of `[MT05]` |
| ConvertDocuments.LoneBvSilent | convert_documents.py:9 | rule 1 leaves such a line unchanged when p does not end in `BV ` |
| ConvertDocuments.NoMt11AheadWithoutBracket | convert_documents.py:12 | without a `[`, no `[MT11` lies ahead for the guard's `.*\[MT11` |
| ConvertDocuments.LoneGuardSilent | convert_documents.py:12 | the guard does not fire on such a line when the character after `[MT05]` is not a word character, or there is none |
| ConvertDocuments.LoneNotDiary | convert_documents.py:16 | such a line holds no diary or history marker |
| ConvertDocuments.LoneTagsSilent | convert_documents.py:20-24 | rules 4 and 5 leave such a line unchanged |
| ConvertDocuments.WordNameKept | convert_documents.py:27-31 | a name made only of word characters comes out of `convert_placeholder` unchanged, in double braces |
| ConvertDocuments.WordPlaceholder | convert_documents.py:27-33 | a placeholder made only of word characters becomes its own name in double braces, the text either side kept |
| ConvertDocuments.LoneKept | convert_documents.py:20-33 | rules 4 to 6 turn such a line's `[MT05]` into `{{MT05}}` |
| ConvertDocuments.LoneCaseReferenceFallsThrough | convert_documents.py:12-33 | `[MT05]` with no word character right after it and no `[MT11` later on its line is not turned into `{{caseReference}}`. Rule 6 takes it for an ordinary placeholder and writes `{{MT05}}` |
| ConvertDocuments.ConvertAll | convert_documents.py:40-47 | every entry of the array is replaced by its conversion, each exactly once |
| ConvertDocuments.ProcessDocument | convert_documents.py:36-47 | every paragraph and every table cell becomes `convert_line` of its old text |
| ConvertDocuments.OutputName | convert_documents.py:50 | the output file name starts with `output` and ends with the input's base name |
| ConvertDocuments.SelectionProperties | convert_documents.py:57-66 | a saved output is picked up by neither step, and no file is picked by both steps |
| PubSub.SamePageRefSymmetric | force-app/main/default/lwc/pubsub/pubsub.js:9-17 | comparing two page references does not depend on their order |
| PubSub.SamePageRefIsEquality | force-app/main/default/lwc/pubsub/pubsub.js:9-17 | two page references are the same page exactly when their attribute dictionaries are equal |
| PubSub.AddListenerProperties | force-app/main/default/lwc/pubsub/pubsub.js:35-45 | registering keeps the earlier listeners in place, holds the new pair exactly once, and adds an entry only when the pair was absent |
| PubSub.AddListenerIdempotent | force-app/main/default/lwc/pubsub/pubsub.js:40-45 | registering the same pair twice is registering it once |
| PubSub.RemoveListenerProperties | force-app/main/default/lwc/pubsub/pubsub.js:56-63 | unregistering removes that pair and only that pair; an absent pair changes nothing |
| PubSub.DropOwnerProperties | force-app/main/default/lwc/pubsub/pubsub.js:71-73 | dropping an object removes all of its entries and keeps every other one |
| PubSub.WithoutOwnerProperties | force-app/main/default/lwc/pubsub/pubsub.js:69-75 | after unregistering an object no list mentions it, every other object's entries stay, and no event disappears |
| PubSub.DeliverStopped | force-app/main/default/lwc/pubsub/pubsub.js:88-99 | once a listener without a page reference stops the loop with a TypeError, later listeners are never called |
| PubSub.DeliverAllReachable | force-app/main/default/lwc/pubsub/pubsub.js:85-100 | when every listener's object has a page reference, firing calls exactly the listeners on the same page, in registration order |
| PubSub.DeliverAbortsIff | force-app/main/default/lwc/pubsub/pubsub.js:88-90 | firing stops exactly when some listener's object has no page reference |
| PubSub.FindListener | force-app/main/default/lwc/pubsub/pubsub.js:40-42 | the search finds the pair exactly when it is in the list |
| PubSub.Registry.constructor | force-app/main/default/lwc/pubsub/pubsub.js:7 | the registry starts with no events |
| PubSub.Registry.Register | force-app/main/default/lwc/pubsub/pubsub.js:25-48 | without a page reference it fails and changes nothing; otherwise the event's list gets the pair appended unless already present |
| PubSub.Registry.Unregister | force-app/main/default/lwc/pubsub/pubsub.js:56-63 | a known event's list loses the pair; an unknown event changes nothing |
| PubSub.Registry.UnregisterAll | force-app/main/default/lwc/pubsub/pubsub.js:69-75 | every list loses the object's entries |
| PubSub.Registry.Fire | force-app/main/default/lwc/pubsub/pubsub.js:83-101 | the callbacks reached are those of the listeners of that event on the same page, in order, up to the first without a page reference |
| PubSub.FireUnknownEvent | force-app/main/default/lwc/pubsub/pubsub.js:85 | firing an event nobody registered calls nothing |
| PdftronFlow.Min3 | force-app/main/default/lwc/pdftronWvInstanceFlow/pdftronWvInstanceFlow.js:579-583 | `Math.min` of three counts is one of them and no larger than any |
| PdftronFlow.LevenshteinDistance | force-app/main/default/lwc/pdftronWvInstanceFlow/pdftronWvInstanceFlow.js:568-588 | the table filled row by row ends with the edit distance of the two strings |
| PdftronFlow.FillRow | force-app/main/default/lwc/pdftronWvInstanceFlow/pdftronWvInstanceFlow.js:577-585 | filling row i from the row above gives every cell of row i its edit distance and leaves the other rows alone |
| PdftronFlow.DistanceStep | force-app/main/default/lwc/pdftronWvInstanceFlow/pdftronWvInstanceFlow.js:578-583 | each cell is the least of deletion, insertion and substitution (cost 0 on equal characters) |
| PdftronFlow.DistanceToEmpty | force-app/main/default/lwc/pdftronWvInstanceFlow/pdftronWvInstanceFlow.js:573-574 | against the empty string the distance is the other string's length |
| PdftronFlow.DistanceSelf | force-app/main/default/lwc/pdftronWvInstanceFlow/pdftronWvInstanceFlow.js:568-588 | a string is at distance 0 from itself |
| PdftronFlow.DistanceSymmetric | force-app/main/default/lwc/pdftronWvInstanceFlow/pdftronWvInstanceFlow.js:568-588 | the distance does not depend on the order of its arguments |
| PdftronFlow.DistanceBounds | force-app/main/default/lwc/pdftronWvInstanceFlow/pdftronWvInstanceFlow.js:568-588 | the distance lies between the difference of the lengths and the longer length |
| PdftronFlow.DaySuffixOfMonthDays | force-app/main/default/lwc/pdftronWvInstanceFlow/pdftronWvInstanceFlow.js:128-136 | over days 1-31: "st" exactly for 1, 21, 31; "nd" for 2, 22; "rd" for 3, 23; "th" otherwise |
| PdftronFlow.DaySuffixTeens | force-app/main/default/lwc/pdftronWvInstanceFlow/pdftronWvInstanceFlow.js:129 | days 4 to 20 take "th", the teens included |
| PdftronFlow.ApplyItemsStep | force-app/main/default/lwc/pdftronWvInstanceFlow/pdftronWvInstanceFlow.js:94-108 | each further item assigns its entry, if it has one, to the mapping built so far |
| PdftronFlow.ParseItemOfPair | force-app/main/default/lwc/pdftronWvInstanceFlow/pdftronWvInstanceFlow.js:95-107 | an item `k:v` or `k:v:...` with non-empty k and v assigns the trimmed key its parsed value; text after a second `:` is ignored |
| PdftronFlow.ParseItemSkips | force-app/main/default/lwc/pdftronWvInstanceFlow/pdftronWvInstanceFlow.js:95-96 | an item without a value, or with nothing before the `:`, assigns nothing |
| PdftronFlow.ApplyItemsLookup | force-app/main/default/lwc/pdftronWvInstanceFlow/pdftronWvInstanceFlow.js:92-109 | after the items, a key reads the value of the last item naming it, and a key no item names keeps its earlier value |
| PdftronFlow.ProcessedMappingLookup | force-app/main/default/lwc/pdftronWvInstanceFlow/pdftronWvInstanceFlow.js:91-113 | `currentDate` always reads today's text, whatever the flow data says; every other key reads what the flow data last gave it, or its earlier value |
| PdftronFlow.ApplyItemsDistinct | force-app/main/default/lwc/pdftronWvInstanceFlow/pdftronWvInstanceFlow.js:91-109 | the mapping stays a dictionary: no key occurs twice |
| PdftronFlow.BestMatch | force-app/main/default/lwc/pdftronWvInstanceFlow/pdftronWvInstanceFlow.js:547-556 | the scan's candidate, when there is one, is one of the names |
| PdftronFlow.BestMatchIsFirstNearest | force-app/main/default/lwc/pdftronWvInstanceFlow/pdftronWvInstanceFlow.js:545-556 | the candidate is the first name at the smallest normalized distance, and there is one exactly when there are names |
| PdftronFlow.NearestExtendedByNew | force-app/main/default/lwc/pdftronWvInstanceFlow/pdftronWvInstanceFlow.js:553-555 | a strictly nearer next name becomes the candidate |
| PdftronFlow.NearestExtendedByOld | force-app/main/default/lwc/pdftronWvInstanceFlow/pdftronWvInstanceFlow.js:553-555 | a next name at an equal or larger distance leaves the candidate as it is |
| PdftronFlow.Accepted | force-app/main/default/lwc/pdftronWvInstanceFlow/pdftronWvInstanceFlow.js:558-561 | an accepted key's value comes from one of the mapping's entries |
| PdftronFlow.MatchKeysLookup | force-app/main/default/lwc/pdftronWvInstanceFlow/pdftronWvInstanceFlow.js:541-566 | the result holds exactly the template keys whose nearest key lies within distance 3, each with the value of that nearest key |
| PdftronFlow.MatchKeysSubset | force-app/main/default/lwc/pdftronWvInstanceFlow/pdftronWvInstanceFlow.js:541-566 | only template keys appear in the result |
| PdftronFlow.MatchKeysNoProps | force-app/main/default/lwc/pdftronWvInstanceFlow/pdftronWvInstanceFlow.js:541-566 | with an empty mapping no template key takes a value |
| PdftronFlow.FindBestMatch | force-app/main/default/lwc/pdftronWvInstanceFlow/pdftronWvInstanceFlow.js:545-556 | the loop over the mapping's keys finds the candidate of the reference scan |
| PdftronFlow.FlowMapping.constructor | force-app/main/default/lwc/pdftronWvInstanceFlow/pdftronWvInstanceFlow.js:91-113 | the mapping starts empty |
| PdftronFlow.FlowMapping.ProcessFlowData | force-app/main/default/lwc/pdftronWvInstanceFlow/pdftronWvInstanceFlow.js:91-116 | the mapping becomes the old one with the items assigned in order, then `currentDate` set |
| PdftronFlow.FlowMapping.MatchKeysToProperties | force-app/main/default/lwc/pdftronWvInstanceFlow/pdftronWvInstanceFlow.js:541-566 | the loop over the template keys builds the reference result |
| PdftronFlow.GroupHeadersFields | force-app/main/default/lwc/pdftronWvInstanceFlow/pdftronWvInstanceFlow.js:698-709 | each label's group lists the custom fields of exactly the keys with that label, in key order |
| PdftronFlow.HeaderPartsRoundTrip | force-app/main/default/lwc/pdftronWvInstanceFlow/pdftronWvInstanceFlow.js:699-703 | a key has a label exactly when it contains `_`; its first piece, label and custom field joined with `_` give the key back |
| PdftronFlow.ProcessHeaderKeys | force-app/main/default/lwc/pdftronWvInstanceFlow/pdftronWvInstanceFlow.js:694-709 | the header groups are those of the keys starting with `HEADER`, grouped in order of first appearance |
| Sorting.CompareKeysAntisymmetric | force-app/main/default/lwc/sosLedgerPaginated/sosLedgerPaginated.js:225-230 | the comparator's `(a > b) - (b > a)` changes sign when the operands are swapped |
| Sorting.CompareKeysZero | force-app/main/default/lwc/sosLedgerPaginated/sosLedgerPaginated.js:225-230 | the comparison is zero exactly on equal keys |
| Sorting.CompareKeysTransitive | force-app/main/default/lwc/sosLedgerPaginated/sosLedgerPaginated.js:225-230 | the comparison is transitive, so the comparator is a consistent order |
| Sorting.SortCompareProperties | force-app/main/default/lwc/sosLedgerPaginated/sosLedgerPaginated.js:220-231 | `reverse * ((a > b) - (b > a))` is antisymmetric, zero exactly on equal keys, and descending is ascending negated |
| Sorting.SortCompareTransitive | force-app/main/default/lwc/sosLedgerPaginated/sosLedgerPaginated.js:220-231 | the comparator is transitive in either direction |
| Sorting.Insert | force-app/main/default/lwc/sosLedgerPaginated/sosLedgerPaginated.js:266 | inserting into a sorted sequence keeps it sorted and adds exactly the one element |
| Sorting.SortBy | force-app/main/default/lwc/sosLedgerPaginated/sosLedgerPaginated.js:266 | the sort returns a rearrangement of its input that is ordered by the comparator |
| Sorting.InsertWithKey | force-app/main/default/lwc/sosLedgerPaginated/sosLedgerPaginated.js:266 | inserting an element keeps the elements of each key in their order and puts the new one after those with its key |
| Sorting.SortByStable | force-app/main/default/lwc/sosLedgerPaginated/sosLedgerPaginated.js:266 | the sort is stable: the elements with any one key keep their relative order |
| Sorting.SortBySameKey | force-app/main/default/lwc/sosLedgerPaginated/sosLedgerPaginated.js:266 | a sequence whose elements all have the same key is left as it is |
| Ledger.StatusActioned | force-app/main/default/lwc/sosLedgerPaginated/sosLedgerPaginated.js:56 | a row is "Actioned" exactly for the codes DR and CR, and "Posted" otherwise |
| Ledger.AccrualSplitCases | force-app/main/default/lwc/sosLedgerPaginated/sosLedgerPaginated.js:67-80 | EA2-EA5 narratives put NET on the credit side, EL1-EL5 on the debit side, a reversal swaps the DR/CR split, and otherwise DRCR decides |
| Ledger.AccrualCodesAreNotReversals | force-app/main/default/lwc/sosLedgerPaginated/sosLedgerPaginated.js:72-78 | a reversal narrative never starts with an EA or EL accrual code, so the rules never compete |
| Ledger.AccrualSplitOneSide | force-app/main/default/lwc/sosLedgerPaginated/sosLedgerPaginated.js:67-80 | NET lands on at most one side, and the two sides add up to NET or to 0 |
| Ledger.PostSlipRow | force-app/main/default/lwc/sosLedgerPaginated/sosLedgerPaginated.js:66-95 | a post slip's row has no office amounts, its status from DRCR, and the accrual split of its trimmed narrative |
| Ledger.NoFiltersMatch | force-app/main/default/lwc/sosLedgerPaginated/sosLedgerPaginated.js:211-218 | with the filters cleared every row passes the test |
| Ledger.FilterRowsMembers | force-app/main/default/lwc/sosLedgerPaginated/sosLedgerPaginated.js:144-173 | a row is shown exactly when it is one of the rows and passes every filter |
| Ledger.FilterRowsCleared | force-app/main/default/lwc/sosLedgerPaginated/sosLedgerPaginated.js:211-218 | with the filters cleared every row is shown, in the same order |
| Ledger.SortToggleTwice | force-app/main/default/lwc/sosLedgerPaginated/sosLedgerPaginated.js:244-250 | two clicks on the same column restore the direction |
| Ledger.StatusOptionsProperties | force-app/main/default/lwc/sosLedgerPaginated/sosLedgerPaginated.js:131-134 | every status of the data is offered exactly once, and nothing else is |
| SosLedgerPaginated.TransformDataOrdered | force-app/main/default/lwc/sosLedgerPaginated/sosLedgerPaginated.js:48-110 | the rows are the ledger and post-slip rows rearranged, and no row has an earlier day than a row before it |
| SosLedgerPaginated.SortedByDay | force-app/main/default/lwc/sosLedgerPaginated/sosLedgerPaginated.js:102-107 | rows sorted on the date column are in calendar order |
| SosLedgerPaginated.PageCountBounds | force-app/main/default/lwc/sosLedgerPaginated/sosLedgerPaginated.js:386-388 | `Math.ceil(n / 20)` pages hold the n rows, with no page wholly empty |
| SosLedgerPaginated.WindowsCover | force-app/main/default/lwc/sosLedgerPaginated/sosLedgerPaginated.js:345-347 | the first k pages laid end to end are the first 20k rows |
| SosLedgerPaginated.AllPagesCoverRows | force-app/main/default/lwc/sosLedgerPaginated/sosLedgerPaginated.js:345-388 | pages 1 to the page count, one after another, give back exactly the rows |
| SosLedgerPaginated.Pages | force-app/main/default/lwc/sosLedgerPaginated/sosLedgerPaginated.js:406-411 | one button per page, numbered 1 up, each with its class |
| SosLedgerPaginated.PagesHighlightCurrent | force-app/main/default/lwc/sosLedgerPaginated/sosLedgerPaginated.js:406-411 | exactly the current page's button is highlighted |
| SosLedgerPaginated.WindowCounters | force-app/main/default/lwc/sosLedgerPaginated/sosLedgerPaginated.js:345-351 | on a valid page the counters give the page's row count, between 1 and 20 |
| SosLedgerPaginated.WholePounds | force-app/main/default/lwc/sosLedgerPaginated/sosLedgerPaginated.js:259-262 | `parseInt` of an amount keeps its whole pounds, truncated toward zero for either sign |
| SosLedgerPaginated.PenceIgnoredInSort | force-app/main/default/lwc/sosLedgerPaginated/sosLedgerPaginated.js:239-273 | two rows of £12.70 and £12.30 in the office-debit column tie in the sort and keep their order |
| SosLedgerPaginated.PaginatedLedger.constructor | force-app/main/default/lwc/sosLedgerPaginated/sosLedgerPaginated.js:11-30 | the ledger starts empty, on page 1, unfiltered, sorted ascending by nothing |
| SosLedgerPaginated.PaginatedLedger.UpdatePageData | force-app/main/default/lwc/sosLedgerPaginated/sosLedgerPaginated.js:335-352 | no rows give an empty page and zero counters; otherwise the page is the window of the current page, with its first and last row numbers; every other field keeps its value |
| SosLedgerPaginated.PaginatedLedger.Load | force-app/main/default/lwc/sosLedgerPaginated/sosLedgerPaginated.js:121-142 | the transformed rows become the data and the shown rows, sorted ascending by date, with their status options, on page 1 |
| SosLedgerPaginated.PaginatedLedger.Show | force-app/main/default/lwc/sosLedgerPaginated/sosLedgerPaginated.js:125-136 | the given rows become the data and the shown rows, with their status options, on page 1 |
| SosLedgerPaginated.PaginatedLedger.FilterData | force-app/main/default/lwc/sosLedgerPaginated/sosLedgerPaginated.js:144-179 | the shown rows are the data rows that pass every filter, from page 1 |
| SosLedgerPaginated.PaginatedLedger.HandleStatusChange | force-app/main/default/lwc/sosLedgerPaginated/sosLedgerPaginated.js:181-184 | the status filter takes the new list, the rows are filtered again and page 1 is shown; the data, status options and sort state are unchanged |
| SosLedgerPaginated.PaginatedLedger.HandleFromDateChange | force-app/main/default/lwc/sosLedgerPaginated/sosLedgerPaginated.js:186-189 | the start date takes the new value, the rows are filtered again and page 1 is shown; the data, status options and sort state are unchanged |
| SosLedgerPaginated.PaginatedLedger.HandleToDateChange | force-app/main/default/lwc/sosLedgerPaginated/sosLedgerPaginated.js:191-194 | the end date takes the new value, the rows are filtered again and page 1 is shown; the data, status options and sort state are unchanged |
| SosLedgerPaginated.PaginatedLedger.HandleDescriptionChange | force-app/main/default/lwc/sosLedgerPaginated/sosLedgerPaginated.js:196-199 | the description filter takes the new text, the rows are filtered again and page 1 is shown; the data, status options and sort state are unchanged |
| SosLedgerPaginated.PaginatedLedger.ClearDateFilters | force-app/main/default/lwc/sosLedgerPaginated/sosLedgerPaginated.js:205-209 | both dates are cleared, the rows are filtered again and page 1 is shown; the data, status options and sort state are unchanged |
| SosLedgerPaginated.PaginatedLedger.ClearAllFilters | force-app/main/default/lwc/sosLedgerPaginated/sosLedgerPaginated.js:211-218 | every filter is cleared and every row is shown again, in data order, from page 1; the data, status options and sort state are unchanged |
| SosLedgerPaginated.PaginatedLedger.OnHandleSort | force-app/main/default/lwc/sosLedgerPaginated/sosLedgerPaginated.js:239-273 | the shown rows are stably sorted by the clicked column, the four amount columns on whole pounds as `parseInt` reads them, toggling on a repeat click; the current page is shown again and the data, filters and status options are unchanged |
| SosLedgerPaginated.PaginatedLedger.NextPage | force-app/main/default/lwc/sosLedgerPaginated/sosLedgerPaginated.js:321-326 | the page advances only while it is before the last page, and that page is shown; every other field keeps its value |
| SosLedgerPaginated.PaginatedLedger.PreviousPage | force-app/main/default/lwc/sosLedgerPaginated/sosLedgerPaginated.js:328-333 | the page goes back only while it is after the first, and that page is shown; every other field keeps its value |
| SosLedgerPaginated.PaginatedLedger.HandlePageButtonClick | force-app/main/default/lwc/sosLedgerPaginated/sosLedgerPaginated.js:354-360 | a page button makes its page current and shows it; every other field keeps its value |
| SosLedger.GetDrcrLast | force-app/main/default/lwc/sosLedger/sosLedger.js:38-57 | `getDRCR` answers the value of the last entry the object literal writes for the post type, or blank when there is none |
| SosLedger.GetDrcrDuplicate | force-app/main/default/lwc/sosLedger/sosLedger.js:49-56 | OO is written twice and its later value, DR, is the one answered |
| SosLedger.GetDrcrUnknown | force-app/main/default/lwc/sosLedger/sosLedger.js:281-283 | a post type the table does not list gives blank |
| SosLedger.GetDrcrCodes | force-app/main/default/lwc/sosLedger/sosLedger.js:38-57 | every answer is DR, CR or blank, and a non-blank answer is the value of one of the table's entries for that post type |
| SosLedger.GetDrcrOfDr | force-app/main/default/lwc/sosLedger/sosLedger.js:53 | the post type DR itself maps to CR |
| SosLedger.TransformDataRows | force-app/main/default/lwc/sosLedger/sosLedger.js:65-116 | one row per record: every ledger record's row in order, then every post slip's row when post slips are present |
| SosLedger.LedgerTable.constructor | force-app/main/default/lwc/sosLedger/sosLedger.js:11-26 | the table starts with no rows, no filters and no status options, sorted ascending by nothing |
| SosLedger.LedgerTable.Load | force-app/main/default/lwc/sosLedger/sosLedger.js:133-150 | the transformed rows become the data and the shown rows, with their status options; filters and sorting are kept |
| SosLedger.LedgerTable.Show | force-app/main/default/lwc/sosLedger/sosLedger.js:137-144 | the given rows become the data and the shown rows, with their status options |
| SosLedger.LedgerTable.FilterData | force-app/main/default/lwc/sosLedger/sosLedger.js:152-182 | the shown rows are exactly the data rows that pass every filter, in order; nothing else changes |
| SosLedger.LedgerTable.HandleStatusChange | force-app/main/default/lwc/sosLedger/sosLedger.js:184-187 | the status filter takes the new list and the rows are filtered again; the data, the status options and the sort state are unchanged |
| SosLedger.LedgerTable.HandleFromDateChange | force-app/main/default/lwc/sosLedger/sosLedger.js:189-192 | the start date takes the new value and the rows are filtered again; the data, the status options and the sort state are unchanged |
| SosLedger.LedgerTable.HandleToDateChange | force-app/main/default/lwc/sosLedger/sosLedger.js:194-197 | the end date takes the new value and the rows are filtered again; the data, the status options and the sort state are unchanged |
| SosLedger.LedgerTable.HandleDescriptionChange | force-app/main/default/lwc/sosLedger/sosLedger.js:199-202 | the description filter takes the new text and the rows are filtered again; the data, the status options and the sort state are unchanged |
| SosLedger.LedgerTable.ClearDateFilters | force-app/main/default/lwc/sosLedger/sosLedger.js:213-217 | both dates are cleared, since the empty strings assigned are falsy, and the rows are filtered again; the data, the status options and the sort state are unchanged |
| SosLedger.LedgerTable.ClearAllFilters | force-app/main/default/lwc/sosLedger/sosLedger.js:219-226 | every filter is cleared and the shown rows are the data rows, in the same order; the data, the status options and the sort state are unchanged |
| SosLedger.LedgerTable.OnHandleSort | force-app/main/default/lwc/sosLedger/sosLedger.js:247-275 | repeating a column toggles the direction and a new column takes the event's direction; the shown rows are sorted by the column in that direction; the data, filters and status options are unchanged |
| SosReverseAccrual.TransformDataSnoc | force-app/main/default/lwc/sosReverseAccrual/sosReverseAccrual.js:29-64 | records are taken in order: a record whose trimmed narrative contains "Reversal of" adds nothing, and any other adds exactly its own row |
| SosReverseAccrual.TransformDataNoReversals | force-app/main/default/lwc/sosReverseAccrual/sosReverseAccrual.js:30 | no row offered for reversal has "Reversal of" in its narrative |
| SosReverseAccrual.CodesCases | force-app/main/default/lwc/sosReverseAccrual/sosReverseAccrual.js:33-42 | a narrative starting EA gives ARE2 and one starting EL gives APE1, each with the first three characters as the SOS code; otherwise both codes are blank |
| SosReverseAccrual.AmountChoice | force-app/main/default/lwc/sosReverseAccrual/sosReverseAccrual.js:45-50 | the amount is the office debit when that is non-zero, else the office credit; it is zero only when both are |
| SosReverseAccrual.RowOfCarries | force-app/main/default/lwc/sosReverseAccrual/sosReverseAccrual.js:52-62 | a row keeps the record's reference and its trimmed narrative, and its date text reads back as the record's day |
| SosReverseAccrual.WrittenDateSortMisorders | force-app/main/default/lwc/sosReverseAccrual/sosReverseAccrual.js:79-98 | sorting the date column as text puts 1 February 2024 before 2 January 2024 in ascending order |
| SosReverseAccrual.ColumnKeyCalendarOrder | force-app/main/default/lwc/sosReverseAccrual/sosReverseAccrual.js:79-98 | with the date column read as a day, rows compare in calendar order of their records' days, negated when descending |
| SosReverseAccrual.DayKeyOfRow | force-app/main/default/lwc/sosReverseAccrual/sosReverseAccrual.js:53-57 | the date key of a row is its record's day |
| SosReverseAccrual.ColumnKeyOtherColumns | force-app/main/default/lwc/sosReverseAccrual/sosReverseAccrual.js:79-98 | every column other than the date sorts by its own value, as written |
| SosReverseAccrual.ReverseAccrualTable.constructor | force-app/main/default/lwc/sosReverseAccrual/sosReverseAccrual.js:6-10 | the table starts empty, sorted ascending by nothing |
| SosReverseAccrual.ReverseAccrualTable.Load | force-app/main/default/lwc/sosReverseAccrual/sosReverseAccrual.js:67-77 | the transformed rows become the data and the shown rows |
| SosReverseAccrual.ReverseAccrualTable.OnHandleSort | force-app/main/default/lwc/sosReverseAccrual/sosReverseAccrual.js:95-102 | the shown rows are sorted by the column in the direction the table reports, with no toggle, the date column in calendar order (see Findings) |
| UkDates.Pad2 | force-app/main/default/lwc/sosLedgerPaginated/sosLedgerPaginated.js:51-55 | a two-digit field is at least two characters long and holds no slash |
| UkDates.DigitRoundTrip | force-app/main/default/lwc/sosLedgerPaginated/sosLedgerPaginated.js:233-237 | reading back a written digit gives the digit |
| UkDates.ParseNatToString | force-app/main/default/lwc/sosLedgerPaginated/sosLedgerPaginated.js:233-237 | a written number is all digits and reads back as that number |
| UkDates.ParsePad2 | force-app/main/default/lwc/sosLedgerPaginated/sosLedgerPaginated.js:233-237 | a two-digit field is all digits and reads back as its number |
| UkDates.FormatUkDatePieces | force-app/main/default/lwc/sosLedgerPaginated/sosLedgerPaginated.js:233-237 | splitting a dd/mm/yyyy text on the slash gives its day, month and year fields |
| UkDates.ParseFormatUkDate | force-app/main/default/lwc/sosLedgerPaginated/sosLedgerPaginated.js:233-237 | `parseUKDate` reads every en-GB dd/mm/yyyy text back as the day it was written from |
| DocumentLibrary.FilterDocumentsMembers | force-app/main/default/lwc/fileLibrary/fileLibrary.js:150-184 | a document is listed exactly when it is one of the documents and passes every active filter |
| DocumentLibrary.FilterDocumentsNoFilters | force-app/main/default/lwc/fileLibrary/fileLibrary.js:150-184 | with no filter active every document is listed, in order |
| DocumentLibrary.SearchStep | force-app/main/default/lwc/fileLibrary/fileLibrary.js:155-159 | the search step keeps exactly the documents whose lowercased name contains the term, and skipping it on an empty term is the same |
| DocumentLibrary.TypeStep | force-app/main/default/lwc/fileLibrary/fileLibrary.js:162-164 | after the type step the list is the documents that pass the search and the type test, a blank first choice switching the test off |
| DocumentLibrary.ExtensionStep | force-app/main/default/lwc/fileLibrary/fileLibrary.js:167-169 | after the extension step the list is the documents that pass the search, type and extension tests |
| DocumentLibrary.DateStep | force-app/main/default/lwc/fileLibrary/fileLibrary.js:172-182 | after the date step, taken only when both dates are set, the list is the documents passing every filter |
| DocumentLibrary.PageCountBounds | force-app/main/default/lwc/fileLibrary/fileLibrary.js:204 | `Math.ceil(total / size)` is zero only for no documents, and otherwise the last page is the one holding the last document |
| DocumentLibrary.PageWindowContents | force-app/main/default/lwc/fileLibrary/fileLibrary.js:190-194 | a page within the page count shows between one and size documents, those from (page - 1) * size on |
| DocumentLibrary.TruthyDistinctMembers | force-app/main/default/lwc/fileLibrary/fileLibrary.js:113-126 | the set of types or extensions holds each non-blank value once and nothing else |
| DocumentLibrary.TruthyDistinctSnoc | force-app/main/default/lwc/fileLibrary/fileLibrary.js:119-126 | one more document adds its value at the end exactly when it is non-blank and not yet there |
| DocumentLibrary.TypesSnoc | force-app/main/default/lwc/fileLibrary/fileLibrary.js:119-126 | one more document adds its type and its extension to the values collected |
| DocumentLibrary.Values | force-app/main/default/lwc/fileLibrary/fileLibrary.js:145-147 | there is one value per option |
| DocumentLibrary.ValueOptionsProperties | force-app/main/default/lwc/fileLibrary/fileLibrary.js:145-146 | 'All' with the blank value comes first, then one option per value in order, labelled with the value |
| DocumentLibrary.ValuesOfLabelled | force-app/main/default/lwc/fileLibrary/fileLibrary.js:129-142 | options labelled any way carry the values they were made from |
| DocumentLibrary.CollectTypesAndExtensions | force-app/main/default/lwc/fileLibrary/fileLibrary.js:113-126 | the loop over the documents collects the non-blank types and extensions, each once, in first-seen order |
| DocumentLibrary.ApplyDocFilters | force-app/main/default/lwc/fileLibrary/fileLibrary.js:150-184 | the chain of filters, each applied when active, gives the documents that pass them all |
| FileLibrary.PreferredDistinct | force-app/main/default/lwc/fileLibrary/fileLibrary.js:117 | the preferred extensions are distinct |
| FileLibrary.OrderedOptionsValues | force-app/main/default/lwc/fileLibrary/fileLibrary.js:129-147 | the option values are the blank of 'All', the preferred extensions present in their preferred order, then the others in first-seen order |
| FileLibrary.OrderedOptionsDistinct | force-app/main/default/lwc/fileLibrary/fileLibrary.js:129-147 | distinct non-blank extensions give distinct option values |
| FileLibrary.OrderedOptionsSides | force-app/main/default/lwc/fileLibrary/fileLibrary.js:129-142 | an extension is offered among the leading ones exactly when it is preferred, and among the following ones exactly when it is not |
| FileLibrary.OrderedOptionsOffer | force-app/main/default/lwc/fileLibrary/fileLibrary.js:129-147 | after 'All' the options offer exactly the extensions present |
| FileLibrary.ExtensionOptionsOnce | force-app/main/default/lwc/fileLibrary/fileLibrary.js:112-147 | every extension of the documents is offered exactly once after 'All', and nothing else is |
| FileLibrary.PageRangeShown | force-app/main/default/lwc/fileLibrary/fileLibrary.js:248-252 | on a page within the page count the caption's start and end number exactly the documents shown |
| FileLibrary.PageRangeEmpty | force-app/main/default/lwc/fileLibrary/fileLibrary.js:248-252 | with no results the caption reads 1-0 of 0 |
| FileLibrary.PageRangeWindow | force-app/main/default/lwc/fileLibrary/fileLibrary.js:248-252 | on a page within the page count, `startIndex` and `endIndex` are the first and last position, counted from 1, of exactly the documents shown |
| FileLibrary.PageCaptionShown | force-app/main/default/lwc/fileLibrary/fileLibrary.js:248-252 | on a page within the page count, `pageInfo` (`Library.PageInfo`) reads "Page p - Showing f-l of n results", where documents f to l, counted from 1, are exactly those shown and n is the number of results |
| FileLibrary.PageCaptionEmpty | force-app/main/default/lwc/fileLibrary/fileLibrary.js:248-252 | with no results the caption reads "Page 1 - Showing 1-0 of 0 results" |
| FileLibrary.Library.constructor | force-app/main/default/lwc/fileLibrary/fileLibrary.js:38-50 | the library starts with no documents, on page 1, with no filters and the side panel closed |
| FileLibrary.Library.Load | force-app/main/default/lwc/fileLibrary/fileLibrary.js:84-105 | the documents arrive, the options are generated from them and the filters are applied from page 1 |
| FileLibrary.Library.GenerateFilterOptions | force-app/main/default/lwc/fileLibrary/fileLibrary.js:112-148 | the type options are 'All' then each type once; the extension options are 'All', then the preferred extensions present, then the others |
| FileLibrary.Library.ApplyFilters | force-app/main/default/lwc/fileLibrary/fileLibrary.js:150-188 | the filtered list is the documents passing every active filter, the count is its length, page 1 is shown, and the documents and options are kept |
| FileLibrary.Library.UpdatePaginatedDocuments | force-app/main/default/lwc/fileLibrary/fileLibrary.js:190-194 | the page shown is the ten documents of the current page |
| FileLibrary.Library.HandleSearch | force-app/main/default/lwc/fileLibrary/fileLibrary.js:107-110 | the lowercased term becomes the search filter and the filters are applied again, from page 1; the documents, the options and the side panel are unchanged |
| FileLibrary.Library.HandleDocumentTypeChange | force-app/main/default/lwc/fileLibrary/fileLibrary.js:210-213 | the chosen types become the type filter and the filters are applied again, from page 1; the documents, the options and the side panel are unchanged |
| FileLibrary.Library.HandleDocumentExtensionChange | force-app/main/default/lwc/fileLibrary/fileLibrary.js:215-218 | the chosen extensions become the extension filter and the filters are applied again, from page 1; the documents, the options and the side panel are unchanged |
| FileLibrary.Library.HandleStartDateChange | force-app/main/default/lwc/fileLibrary/fileLibrary.js:220-223 | the start date is set and the filters are applied again, from page 1; the documents, the options and the side panel are unchanged |
| FileLibrary.Library.HandleEndDateChange | force-app/main/default/lwc/fileLibrary/fileLibrary.js:225-228 | the end date is set and the filters are applied again, from page 1; the documents, the options and the side panel are unchanged |
| FileLibrary.Library.ToggleFilterSidebar | force-app/main/default/lwc/fileLibrary/fileLibrary.js:230-232 | the side panel flips between open and closed |
| FileLibrary.Library.ClearDateFilters | force-app/main/default/lwc/fileLibrary/fileLibrary.js:234-238 | both dates are cleared and the filters are applied again, from page 1; the documents, the options and the side panel are unchanged |
| FileLibrary.Library.LastPageIsFinal | force-app/main/default/lwc/fileLibrary/fileLibrary.js:240-246 | `isLastPage` holds exactly on the last page, or on page 1 when there is nothing to show; `isFirstPage` exactly on page 1 |
| FileLibrary.Library.HandlePreviousPage | force-app/main/default/lwc/fileLibrary/fileLibrary.js:196-201 | the page goes back by one unless it is the first, staying in range, and that page is shown; nothing else changes |
| FileLibrary.Library.HandleNextPage | force-app/main/default/lwc/fileLibrary/fileLibrary.js:203-208 | the page advances by one unless it is the last, staying in range, and that page is shown; nothing else changes |
| LwcFileLibrary.ExtensionOptionsRaw | lwc/fileLibrary/fileLibrary.js:69-87 | the extension options are 'All', then every extension of the documents once, labelled with itself, in first-seen order |
| LwcFileLibrary.EndDayExcluded | lwc/fileLibrary/fileLibrary.js:111-119 | the end date is compared without moving it to the end of its day, so a document created after that instant is left out |
| LwcFileLibrary.Library.constructor | lwc/fileLibrary/fileLibrary.js:10-23 | the library starts with no documents, on page 1, with no filters and the side panel closed |
| LwcFileLibrary.Library.Load | lwc/fileLibrary/fileLibrary.js:38-62 | the documents arrive, the options are generated from them and the filters are applied from page 1 |
| LwcFileLibrary.Library.GenerateFilterOptions | lwc/fileLibrary/fileLibrary.js:69-87 | both option lists are 'All' then each non-blank value once, labelled with itself |
| LwcFileLibrary.Library.ApplyFilters | lwc/fileLibrary/fileLibrary.js:89-125 | the filtered list is the documents passing every active filter, the count is its length, page 1 is shown, and nothing else changes |
| LwcFileLibrary.Library.UpdatePaginatedDocuments | lwc/fileLibrary/fileLibrary.js:127-131 | the page shown is the twenty documents of the current page |
| LwcFileLibrary.Library.HandleSearch | lwc/fileLibrary/fileLibrary.js:64-67 | the lowercased term becomes the search filter and the filters are applied again, from page 1; the documents, the options and the side panel are unchanged |
| LwcFileLibrary.Library.HandleDocumentTypeChange | lwc/fileLibrary/fileLibrary.js:147-150 | the chosen types become the type filter and the filters are applied again, from page 1; the documents, the options and the side panel are unchanged |
| LwcFileLibrary.Library.HandleDocumentExtensionChange | lwc/fileLibrary/fileLibrary.js:152-155 | the chosen extensions become the extension filter and the filters are applied again, from page 1; the documents, the options and the side panel are unchanged |
| LwcFileLibrary.Library.HandleStartDateChange | lwc/fileLibrary/fileLibrary.js:157-160 | the start date is set and the filters are applied again, from page 1; the documents, the options and the side panel are unchanged |
| LwcFileLibrary.Library.HandleEndDateChange | lwc/fileLibrary/fileLibrary.js:162-165 | the end date is set and the filters are applied again, from page 1; the documents, the options and the side panel are unchanged |
| LwcFileLibrary.Library.ClearDateFilters | lwc/fileLibrary/fileLibrary.js:171-175 | both dates are cleared and the filters are applied again, from page 1; the documents, the options and the side panel are unchanged |
| LwcFileLibrary.Library.ToggleFilterSidebar | lwc/fileLibrary/fileLibrary.js:167-169 | the side panel flips between open and closed |
| LwcFileLibrary.Library.LastPageIsFinal | lwc/fileLibrary/fileLibrary.js:181-187 | `isLastPage` holds exactly on the last page, or on page 1 when there is nothing to show; `isFirstPage` exactly on page 1 |
| LwcFileLibrary.Library.HandlePreviousPage | lwc/fileLibrary/fileLibrary.js:133-138 | the page goes back by one unless it is the first, staying in range, and that page is shown; nothing else changes |
| LwcFileLibrary.Library.HandleNextPage | lwc/fileLibrary/fileLibrary.js:140-145 | the page advances by one unless it is the last, staying in range, and that page is shown; nothing else changes |
| EstateGrid.PlaceholderPresent | force-app/main/default/lwc/estateGrid/estateGrid.js:113-127 | after a placeholder is added the table holds a row without an Id, the rows it had come first, and at most one row is added |
| EstateGrid.PlaceholderIdempotent | force-app/main/default/lwc/estateGrid/estateGrid.js:113-127 | adding the placeholder a second time changes nothing |
| EstateGrid.NewRowFields | force-app/main/default/lwc/estateGrid/estateGrid.js:138-143 | a creation has no Id, is linked to the estate record, and keeps every other field of its draft |
| EstateGrid.DraftPartition | force-app/main/default/lwc/estateGrid/estateGrid.js:137-143 | every draft goes to exactly one batch: updates are the drafts with a well-formed Id, every other draft becomes a creation |
| EstateGrid.CreateBatchFromDrafts | force-app/main/default/lwc/estateGrid/estateGrid.js:138-143 | every creation is made from a draft that is not an update |
| EstateGrid.SortRows | force-app/main/default/lwc/estateGrid/estateGrid.js:258-277 | the sorted table is a permutation of the table, ordered by the column's key in the direction |
| EstateGrid.LowerCharIdempotent | force-app/main/default/lwc/estateGrid/estateGrid.js:265 | lowering a character twice is lowering it once |
| EstateGrid.SortKeyProperties | force-app/main/default/lwc/estateGrid/estateGrid.js:263-266 | text sorts without regard to case; an empty cell sorts as empty text in a text column and as zero in a currency column |
| EstateGrid.Grid.constructor | force-app/main/default/lwc/estateGrid/estateGrid.js:29-45 | the grid starts with an empty record and empty tables, no snapshot, unchanged, sorted ascending |
| EstateGrid.Grid.AddAssetPlaceholder | force-app/main/default/lwc/estateGrid/estateGrid.js:113-119 | the asset table gets its placeholder row; nothing else changes |
| EstateGrid.Grid.AddLiabilityPlaceholder | force-app/main/default/lwc/estateGrid/estateGrid.js:121-127 | the liability table gets its placeholder row; nothing else changes |
| EstateGrid.Grid.WiredEstateAccData | force-app/main/default/lwc/estateGrid/estateGrid.js:62-96 | the first record of the answer, or an empty one, with both placeholders; on an error the record is kept; a blank record is asked for exactly when there is a case, the record has no Id and none was asked for before |
| EstateGrid.Grid.BlankEstateAccCreated | force-app/main/default/lwc/estateGrid/estateGrid.js:84-89 | the created record is shown with both placeholders |
| EstateGrid.Grid.HandleInputChange | force-app/main/default/lwc/estateGrid/estateGrid.js:217-223 | the record is marked changed, and the named field alone takes the value; with no field name nothing else changes |
| EstateGrid.Grid.FieldsSaved | force-app/main/default/lwc/estateGrid/estateGrid.js:225-231 | once saved, the snapshot is the record and the record is unchanged |
| EstateGrid.Grid.HandleCancelFields | force-app/main/default/lwc/estateGrid/estateGrid.js:237-240 | the snapshot comes back and the record is unchanged; with no snapshot the clone fails and nothing changes |
| EstateGrid.Grid.SortData | force-app/main/default/lwc/estateGrid/estateGrid.js:258-284 | the chosen table is sorted by the sort column in the sort direction; the other table and the fields are kept |
| EstateGrid.Grid.HandleSort | force-app/main/default/lwc/estateGrid/estateGrid.js:252-256 | the column and direction are remembered and the table named by the event is sorted by them |
| DynamicTree.AddIconsHead | force-app/main/default/lwc/dynamicTree/dynamicTree.js:50-61 | decorating a forest decorates its first tree, children included, and then the rest |
| DynamicTree.AddIconsShape | force-app/main/default/lwc/dynamicTree/dynamicTree.js:49-63 | `formatTreeData` keeps the shape and the labels of the tree and gives every node its icon, child flag and collapsed class |
| DynamicTree.UpdatedLabelCases | force-app/main/default/lwc/dynamicTree/dynamicTree.js:95-109 | the five record types put their prefix before the label and any other type leaves it as it is |
| DynamicTree.TreeNameCases | force-app/main/default/lwc/dynamicTree/dynamicTree.js:215-229 | only the five record types have a tree name |
| DynamicTree.InForestTail | force-app/main/default/lwc/dynamicTree/dynamicTree.js:113-126 | a node of the later trees is a node of the forest |
| DynamicTree.FirstNavigableFound | force-app/main/default/lwc/dynamicTree/dynamicTree.js:65-77 | the node navigated opens an object and is one of the tree's nodes |
| DynamicTree.FirstNavigableStopsInBranch | force-app/main/default/lwc/dynamicTree/dynamicTree.js:71-74 | once the search goes into a node's children it returns, and never comes back to the node's later siblings |
| DynamicTree.FindNodeCorrect | force-app/main/default/lwc/dynamicTree/dynamicTree.js:113-126 | a node is found exactly when the tree has a node with the label, and the node found has it |
| DynamicTree.FilterNodesNonEmpty | force-app/main/default/lwc/dynamicTree/dynamicTree.js:244-266 | the search result is non-empty exactly when some node has a match |
| DynamicTree.FilterNodeKept | force-app/main/default/lwc/dynamicTree/dynamicTree.js:245-263 | a node stays, under its own label, exactly when it or something below it matches |
| DynamicTree.MatchingParentDropped | force-app/main/default/lwc/dynamicTree/dynamicTree.js:247-262 | a matching parent whose children hold no match is dropped |
| DynamicTree.FilterNodesLabels | force-app/main/default/lwc/dynamicTree/dynamicTree.js:244-266 | the labels of the top-level result are those of the nodes with a match, in their order |
| DynamicTree.FilteredTreeNoTerm | force-app/main/default/lwc/dynamicTree/dynamicTree.js:235-241 | with no search term every top-level node is shown, collapsed, with its children |
| DynamicTree.Tree.constructor | force-app/main/default/lwc/dynamicTree/dynamicTree.js:8-14 | the tree starts with no data, no search term and the search off |
| DynamicTree.Tree.LoadTreeData | force-app/main/default/lwc/dynamicTree/dynamicTree.js:34-47 | on success the decorated tree, its name and the first navigable node; on failure no tree |
| DynamicTree.Tree.SetTreeName | force-app/main/default/lwc/dynamicTree/dynamicTree.js:215-229 | the tree name of the record type |
| DynamicTree.Tree.OpenFirstNavigableNode | force-app/main/default/lwc/dynamicTree/dynamicTree.js:65-77 | the loop navigates to the first node that opens an object, going into the first node with children |
| DynamicTree.Tree.HandleSearch | force-app/main/default/lwc/dynamicTree/dynamicTree.js:210-213 | the lowercased term is kept and the search is on exactly when it is not blank |
| DynamicTree.Tree.FilteredTreeData | force-app/main/default/lwc/dynamicTree/dynamicTree.js:231-270 | the shown tree for the term, and the search turned off when the term is blank and there is a tree |
| CaseOfficerButtons.UpdateFieldsContents | force-app/main/default/lwc/caseOfficerButtons/caseOfficerButtons.js:96-134 | the update names the record and the new officer with the time, and with a current officer each of the nine places is sent the officer and date of the place above it |
| CaseOfficerButtons.UpdateFieldsOnly | force-app/main/default/lwc/caseOfficerButtons/caseOfficerButtons.js:96-134 | nothing but the Id, the officer, the time and, with a current officer, the history is sent |
| CaseOfficerButtons.StoredGet | force-app/main/default/lwc/caseOfficerButtons/caseOfficerButtons.js:136-137 | after the update a field holds the value sent for it, or its old value when none was sent |
| CaseOfficerButtons.HistoryShifted | force-app/main/default/lwc/caseOfficerButtons/caseOfficerButtons.js:100-134 | with a current officer the stored history moves one place down: the new officer is current, each place takes the officer and date of the place above it, and the ninth officer drops out |
| CaseOfficerButtons.NoCurrentOfficerKeepsHistory | force-app/main/default/lwc/caseOfficerButtons/caseOfficerButtons.js:103-134 | without a current officer the history stays as it is and only the new officer and the time are stored |
| CaseOfficerButtons.AsWrittenLosesEveryChange | force-app/main/default/lwc/caseOfficerButtons/caseOfficerButtons.js:103-105 | as written, every update of a case with a current officer stops with a ReferenceError before anything is sent |
| CaseOfficerButtons.AsWrittenCounterexample | force-app/main/default/lwc/caseOfficerButtons/caseOfficerButtons.js:103-105 | as written, a case whose officer is 005A cannot be given to 005B |
| CaseOfficerButtons.FindRecordType | force-app/main/default/lwc/caseOfficerButtons/caseOfficerButtons.js:33-34 | the record type found is the first one named Officer History, and none is found only when no record type has that name |
| CaseOfficerButtons.Buttons.constructor | force-app/main/default/lwc/caseOfficerButtons/caseOfficerButtons.js:11-28 | the component starts with the case the shared service names and nothing else known |
| CaseOfficerButtons.Buttons.ObjectInfo | force-app/main/default/lwc/caseOfficerButtons/caseOfficerButtons.js:30-43 | the Officer History record type is remembered, and the record is asked for exactly when both the case and the record type are known |
| CaseOfficerButtons.Buttons.CaseDetailLoaded | force-app/main/default/lwc/caseOfficerButtons/caseOfficerButtons.js:44-48 | a record that arrives is kept with its Id; otherwise nothing changes |
| CaseOfficerButtons.Buttons.HandleCaseOfficerSave | force-app/main/default/lwc/caseOfficerButtons/caseOfficerButtons.js:64-74 | with no case-detail id, a create of exactly the new officer, the time, the case and the record type. With an id and the record read: the update of `UpdateFields`. With an id but no record: the TypeError |
| CaseOfficerButtons.Buttons.CreateCaseDetail | force-app/main/default/lwc/caseOfficerButtons/caseOfficerButtons.js:76-83 | the create sends exactly the new officer, the time, the case and the record type |
| CaseOfficerButtons.Buttons.CaseDetailCreated | force-app/main/default/lwc/caseOfficerButtons/caseOfficerButtons.js:85-86 | the new record's Id is remembered |
| CaseOfficerButtons.Buttons.UpdateCaseDetail | force-app/main/default/lwc/caseOfficerButtons/caseOfficerButtons.js:96-137 | the update, with the history fields named, shifts the history; with no record read it stops at reading the current officer |
| CaseCreationContainer.FreshStepsProperties | force-app/main/default/lwc/caseCreationContainer/caseCreationContainer.js:33-39 | one step per label, in order; only the first is active and none is completed |
| CaseCreationContainer.MarkedStepsProperties | force-app/main/default/lwc/caseCreationContainer/caseCreationContainer.js:71-96 | the steps before the current one are completed, the current one is active, later ones are neither, and labels and status texts are kept |
| CaseCreationContainer.MarkedStepsIdempotent | force-app/main/default/lwc/caseCreationContainer/caseCreationContainer.js:71-96 | marking depends on the current step alone, so marking again gives the same steps |
| CaseCreationContainer.Container.constructor | force-app/main/default/lwc/caseCreationContainer/caseCreationContainer.js:5-8 | the wizard starts on step 0 with no steps and the Estates case type |
| CaseCreationContainer.Container.FetchFlowMetadata | force-app/main/default/lwc/caseCreationContainer/caseCreationContainer.js:30-46 | the steps of the fetch, or the old steps when the fetch fails |
| CaseCreationContainer.Container.HandleCaseTypeEvent | force-app/main/default/lwc/caseCreationContainer/caseCreationContainer.js:17-28 | a new case type fetches its flow and puts the user on step 1, marked; a blank one is ignored |
| CaseCreationContainer.Container.HandleNext | force-app/main/default/lwc/caseCreationContainer/caseCreationContainer.js:55-61 | on one step unless on the last, keeping the step within the steps |
| CaseCreationContainer.Container.HandleBack | force-app/main/default/lwc/caseCreationContainer/caseCreationContainer.js:63-69 | back one step unless on the first, keeping the step within the steps |
| CaseCreationContainer.Container.UpdateSteps | force-app/main/default/lwc/caseCreationContainer/caseCreationContainer.js:71-96 | every step is marked from the current step |
| CaseCreationProgressBar.MarkedStepsProperties | force-app/main/default/lwc/caseCreationProgressBar/caseCreationProgressBar.js:20-30 | a step is completed exactly below the current step and active exactly at it; labels and the number of steps are kept |
| CaseCreationProgressBar.AtMostOneActive | force-app/main/default/lwc/caseCreationProgressBar/caseCreationProgressBar.js:25 | at most one step is active, and none when the current step is not one of the steps |
| CaseCreationProgressBar.StepClassCompleted | force-app/main/default/lwc/caseCreationProgressBar/caseCreationProgressBar.js:26 | the item class names the completed state exactly when the step is completed |
| CaseCreationProgressBar.MarkerClassCompleted | force-app/main/default/lwc/caseCreationProgressBar/caseCreationProgressBar.js:27 | the marker class carries the icon exactly when the step is completed |
| CaseCreationProgressBar.ProgressBar.constructor | force-app/main/default/lwc/caseCreationProgressBar/caseCreationProgressBar.js:4-5 | the bar holds the steps and the current step it is given |
| CaseCreationProgressBar.ProgressBar.UpdateStep | force-app/main/default/lwc/caseCreationProgressBar/caseCreationProgressBar.js:15-18 | the reported step becomes current and every step is marked from it |
| CaseCreationProgressBar.ProgressBar.UpdateSteps | force-app/main/default/lwc/caseCreationProgressBar/caseCreationProgressBar.js:20-30 | every step is marked from the current step |
| GenerateDocumentModal.PlaceholderRoundTrip | force-app/main/default/lwc/generateDocumentModal/generateDocumentModal.js:190 | the key can be read back from every `Replace {{key}}` placeholder |
| GenerateDocumentModal.OptionRowsProperties | force-app/main/default/lwc/generateDocumentModal/generateDocumentModal.js:187-192 | one row per key, in key order, each naming its key and with the placeholder for that key |
| GenerateDocumentModal.Modal.constructor | force-app/main/default/lwc/generateDocumentModal/generateDocumentModal.js:26-42 | the dialog starts on document selection with no template, no letter type, no rows and an empty mapping |
| GenerateDocumentModal.Modal.ExactlyOneScreen | force-app/main/default/lwc/generateDocumentModal/generateDocumentModal.js:194-212 | on any screen of the dialog exactly one of the five screen getters holds |
| GenerateDocumentModal.Modal.HandleSelectionChange | force-app/main/default/lwc/generateDocumentModal/generateDocumentModal.js:63-64 | the chosen template is remembered |
| GenerateDocumentModal.Modal.HandleNextDocumentSelection | force-app/main/default/lwc/generateDocumentModal/generateDocumentModal.js:73-92 | the dialog moves on to the bank details only when a template is chosen, and otherwise stays where it is |
| GenerateDocumentModal.Modal.HandleBankDetailsNext | force-app/main/default/lwc/generateDocumentModal/generateDocumentModal.js:94-96 | the bank details lead to the letter-type screen |
| GenerateDocumentModal.Modal.HandleLetterTypeNext | force-app/main/default/lwc/generateDocumentModal/generateDocumentModal.js:98-100 | the letter-type screen leads to the previous-letter date |
| GenerateDocumentModal.Modal.HandleLetterTypeChange | force-app/main/default/lwc/generateDocumentModal/generateDocumentModal.js:162-164 | the chosen letter type is remembered |
| GenerateDocumentModal.Modal.HandleGenerateDocument | force-app/main/default/lwc/generateDocumentModal/generateDocumentModal.js:170-178 | the last screen is shown and the mapping holds only the letter type |
| GenerateDocumentModal.Modal.HandleOptions | force-app/main/default/lwc/generateDocumentModal/generateDocumentModal.js:187-192 | the loop rebuilds the rows from the keys, one row per key in order |
| GenerateDocumentFlow.DisplayName | force-app/main/default/lwc/generateDocumentFlow/generateDocumentFlow.js:62 | the name shown is the template's document name when it has one, and its file name otherwise |
| GenerateDocumentFlow.CategoryOf | force-app/main/default/lwc/generateDocumentFlow/generateDocumentFlow.js:88 | a template without a category is filed under Uncategorized |
| GenerateDocumentFlow.FindCategory | force-app/main/default/lwc/generateDocumentFlow/generateDocumentFlow.js:89-103 | the index found is that of the first category with the name, and -1 only when no category has it |
| GenerateDocumentFlow.TotalUpdate | force-app/main/default/lwc/generateDocumentFlow/generateDocumentFlow.js:95 | pushing a template onto one category changes the total by the change in that category's size |
| GenerateDocumentFlow.TotalAppend | force-app/main/default/lwc/generateDocumentFlow/generateDocumentFlow.js:90-93 | a new category adds its size to the total |
| GenerateDocumentFlow.GroupedTotal | force-app/main/default/lwc/generateDocumentFlow/generateDocumentFlow.js:85-98 | every template lands in a category: the category sizes add up to the number of templates |
| GenerateDocumentFlow.FindCategoryNames | force-app/main/default/lwc/generateDocumentFlow/generateDocumentFlow.js:89 | a name is found exactly when it is one of the category names |
| GenerateDocumentFlow.AddDocumentNames | force-app/main/default/lwc/generateDocumentFlow/generateDocumentFlow.js:88-95 | filing a template adds its category's name at the end when it is new and leaves the names alone otherwise |
| GenerateDocumentFlow.GroupedNames | force-app/main/default/lwc/generateDocumentFlow/generateDocumentFlow.js:85-98 | the category names are the distinct categories of the templates, in the order they first occur |
| GenerateDocumentFlow.NoneInCategory | force-app/main/default/lwc/generateDocumentFlow/generateDocumentFlow.js:87-96 | a category no template has holds no template |
| GenerateDocumentFlow.NewCategoryEmpty | force-app/main/default/lwc/generateDocumentFlow/generateDocumentFlow.js:89-93 | a category that is not yet there is the category of no template so far, so it starts empty |
| GenerateDocumentFlow.GroupedMembers | force-app/main/default/lwc/generateDocumentFlow/generateDocumentFlow.js:85-98 | each category holds exactly the templates of that category, in their original order |
| GenerateDocumentFlow.ExactlyOneCategory | force-app/main/default/lwc/generateDocumentFlow/generateDocumentFlow.js:85-98 | a template is in exactly one category, its own |
| GenerateDocumentFlow.FindGroupedCategory | force-app/main/default/lwc/generateDocumentFlow/generateDocumentFlow.js:100-105 | after grouping a category is found exactly when some template has it, and it holds that category's templates |
| GenerateDocumentFlow.FindDocument | force-app/main/default/lwc/generateDocumentFlow/generateDocumentFlow.js:115 | the template found is the first with the id, and none is found only when no template has it |
| GenerateDocumentFlow.Flow.constructor | force-app/main/default/lwc/generateDocumentFlow/generateDocumentFlow.js:11-23 | the flow starts with no templates, no categories, nothing selected |
| GenerateDocumentFlow.Flow.DocumentsFetched | force-app/main/default/lwc/generateDocumentFlow/generateDocumentFlow.js:56-76 | the templates of the answer are kept, with their display names, and grouped |
| GenerateDocumentFlow.Flow.GroupDocumentsByCategory | force-app/main/default/lwc/generateDocumentFlow/generateDocumentFlow.js:85-98 | the loop files every template under its category, giving the grouping |
| GenerateDocumentFlow.Flow.HandleCategorySelection | force-app/main/default/lwc/generateDocumentFlow/generateDocumentFlow.js:100-105 | the chosen category's templates are listed; a name with no category fails once the name is set |
| GenerateDocumentFlow.Flow.HandleBackToCategories | force-app/main/default/lwc/generateDocumentFlow/generateDocumentFlow.js:107-111 | the selection and the list are cleared |
| GenerateDocumentFlow.Flow.HandleSelectionChange | force-app/main/default/lwc/generateDocumentFlow/generateDocumentFlow.js:113-119 | the template id is kept, and the type of the template with that id when there is one |
| FileManager.ClassifyCases | force-app/main/default/lwc/fileManager/fileManager.js:48-79 | pdf is a PDF; doc and docx are Word; jpg, jpeg, png and gif are images; xls, xlsx and csv are spreadsheets; every other extension is unknown |
| FileManager.CardFlags | force-app/main/default/lwc/fileManager/fileManager.js:72-137 | exactly one flag of a card is set, the one of its kind, and the card names its kind |
| FileManager.NameExtensionProperties | force-app/main/default/lwc/fileManager/fileManager.js:99 | the extension is the lowercased text after the last dot, the whole lowercased name when there is no dot, and never holds a dot |
| FileManager.LastPieceAfterDot | force-app/main/default/lwc/fileManager/fileManager.js:99 | the text after the last dot of a name ending in a dot and a dot-free tail is that tail |
| FileManager.VersionCardProperties | force-app/main/default/lwc/fileManager/fileManager.js:43-81 | a Salesforce file without an extension is unknown, its card keeps its title and id, and the preview names the file's version |
| FileManager.ToLowerIdempotent | force-app/main/default/lwc/fileManager/fileManager.js:288 | lowering a lowercased text changes nothing |
| FileManager.LowerCharSpace | force-app/main/default/lwc/fileManager/fileManager.js:288 | lowering a character keeps spaces as spaces and everything else as non-spaces |
| FileManager.NormalizeProperties | force-app/main/default/lwc/fileManager/fileManager.js:288 | a whitelist entry is in lower case with no space at either end |
| FileManager.TrimKeepsCharacters | force-app/main/default/lwc/fileManager/fileManager.js:288 | normalizing an entry adds no character other than a lowercase letter |
| FileManager.WhitelistEntries | force-app/main/default/lwc/fileManager/fileManager.js:287-289 | each entry of a whitelist is one comma-free field of the setting, in lower case and with no space at either end |
| FileManager.UploadVerdictProperties | force-app/main/default/lwc/fileManager/fileManager.js:281-300 | the limit applies only when positive and then refuses a batch that would pass it; one disallowed extension refuses the whole batch; an empty whitelist allows every extension |
| FileManager.CheckUpload | force-app/main/default/lwc/fileManager/fileManager.js:281-303 | the limit, then the files one by one until a disallowed one returns early; on success the document ids of the upload, in order |
| FileManager.VerdictAccepted | force-app/main/default/lwc/fileManager/fileManager.js:281-303 | a batch within the limit whose every file is permitted is accepted |
| FileManager.VerdictDisallowed | force-app/main/default/lwc/fileManager/fileManager.js:291-299 | a file the whitelist refuses, in a batch within the limit, refuses the batch |
| FileManager.ReachedMaxFilesRefusesUploads | force-app/main/default/lwc/fileManager/fileManager.js:281-284 | once `hasReachedMaxFiles` holds, any further upload is refused |
| FileManager.BvCaseNameProperties | force-app/main/default/lwc/fileManager/fileManager.js:406-415 | the folder name replaces every slash with an underscore, keeps every other character, and is empty for an absent name |
| FileManager.Manager.constructor | force-app/main/default/lwc/fileManager/fileManager.js:22-27 | the manager starts with no files and nothing awaiting deletion, with its settings |
| FileManager.Manager.FetchFiles | force-app/main/default/lwc/fileManager/fileManager.js:40-85 | one classified card per Salesforce file, in order |
| FileManager.Manager.FetchFilesSharepoint | force-app/main/default/lwc/fileManager/fileManager.js:87-138 | one classified card per SharePoint document, in order, classified by the extension of its name |
| FileManager.Manager.HandleUploadFinished | force-app/main/default/lwc/fileManager/fileManager.js:276-305 | the document ids are handed on exactly when the checks accept the batch |
| FileManager.Manager.HandleDeleteFile | force-app/main/default/lwc/fileManager/fileManager.js:207-208 | the file is kept as the one awaiting confirmation |
| FileManager.Manager.HandleDialogClose | force-app/main/default/lwc/fileManager/fileManager.js:220-222 | nothing awaits deletion any more |
| FileUpload.ProcessDocumentsProperties | force-app/main/default/lwc/fileUpload/fileUpload.js:57-99 | one card per drive document, in order, classified by the extension of its name, with exactly one flag set |
| FileUpload.ResponseCardProperties | force-app/main/default/lwc/fileUpload/fileUpload.js:143-150 | a pushed entry keeps the response's name, id and address, has its extension in lower case, and shows no kind of file |
| FileUpload.ReachedMaxFilesAgree | force-app/main/default/lwc/fileUpload/fileUpload.js:272-274 | the panel reaches its limit exactly when the file manager would |
| FileUpload.Panel.constructor | force-app/main/default/lwc/fileUpload/fileUpload.js:19-23 | the panel starts with no files and its settings |
| FileUpload.Panel.WiredFetchFiles | force-app/main/default/lwc/fileUpload/fileUpload.js:47-55 | the list is replaced by the drive's documents when they arrive and kept when the call fails |
| FileUpload.Panel.HandleUploadFinished | force-app/main/default/lwc/fileUpload/fileUpload.js:105-125 | the document ids are handed on exactly when the file manager's checks accept the batch |
| FileUpload.Panel.AppendResponses | force-app/main/default/lwc/fileUpload/fileUpload.js:143-153 | the loop appends one entry per response, in order, after the entries already shown |
| DatabaseScreenLayout.CollectColumns | force-app/main/default/lwc/databaseScreenStandardLayout/databaseScreenStandardLayout.js:90-107 | every collected column is a text column, not yet sortable |
| DatabaseScreenLayout.CollectStep | force-app/main/default/lwc/databaseScreenStandardLayout/databaseScreenStandardLayout.js:90-107 | one more component of the walk adds to the columns only when it is kept |
| DatabaseScreenLayout.CollectColumnsFields | force-app/main/default/lwc/databaseScreenStandardLayout/databaseScreenStandardLayout.js:90-107 | the field names of the collected columns are the distinct field names of the components, in the order they are first met |
| DatabaseScreenLayout.DataColumnsProperties | force-app/main/default/lwc/databaseScreenStandardLayout/databaseScreenStandardLayout.js:90-107 | column fields are distinct, in first-seen order across sections, rows and items, and never Name, Stage__c or BV_Case__c |
| DatabaseScreenLayout.RowFromFields | force-app/main/default/lwc/databaseScreenStandardLayout/databaseScreenStandardLayout.js:110-120 | a row holds a key exactly when a column names it and the record has a value there, and then it holds the record's value |
| DatabaseScreenLayout.TableRows | force-app/main/default/lwc/databaseScreenStandardLayout/databaseScreenStandardLayout.js:110-123 | one row per record, in order |
| DatabaseScreenLayout.TableRowProperties | force-app/main/default/lwc/databaseScreenStandardLayout/databaseScreenStandardLayout.js:110-123 | outside a case every row carries its record's id; its other keys are column fields with a value |
| DatabaseScreenLayout.FinalColumnsProperties | force-app/main/default/lwc/databaseScreenStandardLayout/databaseScreenStandardLayout.js:126-141 | the action column is last and every column is sortable; only the first column can be dropped, exactly when the first row has no value for it |
| DatabaseScreenLayout.TableRecords | force-app/main/default/lwc/databaseScreenStandardLayout/databaseScreenStandardLayout.js:79-83 | a case shows exactly one record, its first or an empty one; any other object shows its records |
| DatabaseScreenLayout.CardSubtitle | force-app/main/default/lwc/databaseScreenStandardLayout/databaseScreenStandardLayout.js:290-298 | `parent > label` when there is a label, and the parent label alone otherwise |
| DatabaseScreenLayout.CardSubtitleShape | force-app/main/default/lwc/databaseScreenStandardLayout/databaseScreenStandardLayout.js:290-298 | the subtitle starts with the parent, is three characters longer than parent and label together, and is the parent alone without a label |
| DatabaseScreenLayout.Screen.constructor | force-app/main/default/lwc/databaseScreenStandardLayout/databaseScreenStandardLayout.js:12-21 | the screen starts with no records, sections, columns or rows, no chosen record and both dialogs closed |
| DatabaseScreenLayout.Screen.GatherColumns | force-app/main/default/lwc/databaseScreenStandardLayout/databaseScreenStandardLayout.js:90-107 | the loop over the layout's components gives the text columns |
| DatabaseScreenLayout.Screen.GatherRows | force-app/main/default/lwc/databaseScreenStandardLayout/databaseScreenStandardLayout.js:110-123 | the loop over the records gives one row per record, filled column by column |
| DatabaseScreenLayout.Screen.WiredLayout | force-app/main/default/lwc/databaseScreenStandardLayout/databaseScreenStandardLayout.js:72-157 | the records and sections are taken; with a first row the columns and rows are replaced, and otherwise the index-0 filter fails and they stay |
| DatabaseScreenLayout.Screen.BvCaseNeverFails | force-app/main/default/lwc/databaseScreenStandardLayout/databaseScreenStandardLayout.js:79-141 | a case always has its one row, so loading its layout never fails |
| DatabaseScreenLayout.Screen.HandleRowAction | force-app/main/default/lwc/databaseScreenStandardLayout/databaseScreenStandardLayout.js:197-213 | the row's record is chosen, and the action opens the edit or the delete dialog |
| DatabaseScreenLayout.Screen.CloseModal | force-app/main/default/lwc/databaseScreenStandardLayout/databaseScreenStandardLayout.js:175-178 | the edit dialog closes and the chosen record is cleared |
| DatabaseScreenLayout.Screen.CloseModalDelete | force-app/main/default/lwc/databaseScreenStandardLayout/databaseScreenStandardLayout.js:184-187 | the delete dialog closes and the chosen record is cleared |
| DatabaseScreenLayout.Screen.HandleCancelUpdate | force-app/main/default/lwc/databaseScreenStandardLayout/databaseScreenStandardLayout.js:255-258 | both dialogs close |
| DatabaseRecordModal.AsArray | force-app/main/default/lwc/databaseStandardRecordModal/databaseStandardRecordModal.js:15-17 | a single record is wrapped in a list, and a list is kept |
| DatabaseRecordModal.EmptyFieldsProperties | force-app/main/default/lwc/databaseStandardRecordModal/databaseStandardRecordModal.js:46-54 | the blank record holds exactly the named text-column fields, each empty |
| DatabaseRecordModal.EntriesProperties | force-app/main/default/lwc/databaseStandardRecordModal/databaseStandardRecordModal.js:31-41 | the entries stand for the text columns only, in order, and carry the record's value, or the empty text when that value is falsy |
| DatabaseRecordModal.CombinedDataProperties | force-app/main/default/lwc/databaseStandardRecordModal/databaseStandardRecordModal.js:13-44 | with a chosen id only the records of that id are edited, all of them; with none outside a case there is one blank record, `new` unless a column is named Id |
| DatabaseRecordModal.ChangeInput | force-app/main/default/lwc/databaseStandardRecordModal/databaseStandardRecordModal.js:57-74 | the records keep their number |
| DatabaseRecordModal.ChangeInputProperties | force-app/main/default/lwc/databaseStandardRecordModal/databaseStandardRecordModal.js:57-74 | only the entries of the named field in the records with that id change, to the typed value; ids, columns and every other value stay |
| DatabaseRecordModal.SavedFieldsProperties | force-app/main/default/lwc/databaseStandardRecordModal/databaseStandardRecordModal.js:79-91 | the saved fields are the entries' field names, each holding the last entry's value for it |
| DatabaseRecordModal.SaveRequestProperties | force-app/main/default/lwc/databaseStandardRecordModal/databaseStandardRecordModal.js:79-117 | the new record is created under the case; any other record is updated under its own id with exactly the fields it shows |
| DatabaseRecordModal.Modal.constructor | force-app/main/default/lwc/databaseStandardRecordModal/databaseStandardRecordModal.js:6-11 | the dialog holds what the screen passes it and no edits yet |
| DatabaseRecordModal.Modal.ConnectedCallback | force-app/main/default/lwc/databaseStandardRecordModal/databaseStandardRecordModal.js:13-44 | the records are wrapped as a list and the edits are built from them |
| DatabaseRecordModal.Modal.GetEmptyRecordFields | force-app/main/default/lwc/databaseStandardRecordModal/databaseStandardRecordModal.js:46-54 | the loop writes the blank record one column at a time |
| DatabaseRecordModal.Modal.HandleInputChange | force-app/main/default/lwc/databaseStandardRecordModal/databaseStandardRecordModal.js:57-74 | the edits change as ChangeInput says |
| DatabaseRecordModal.Modal.HandleSave | force-app/main/default/lwc/databaseStandardRecordModal/databaseStandardRecordModal.js:77-117 | one request per edited record, in order, each built from its entries |
| HistoryEditModal.OrDefault | force-app/main/default/lwc/historyEditModal/historyEditModal.js:43-47 | a truthy value is kept and a falsy one gives the fallback |
| HistoryEditModal.Versions | force-app/main/default/lwc/historyEditModal/historyEditModal.js:62-91 | one row more than the stored versions |
| HistoryEditModal.VersionsNumbered | force-app/main/default/lwc/historyEditModal/historyEditModal.js:62-91 | row j is numbered j + 1; the first row is the initial version and row i + 1 is stored version i |
| HistoryEditModal.RestoreInitial | force-app/main/default/lwc/historyEditModal/historyEditModal.js:250-261 | row 0, which handleRestore(1) copies, holds the dialog's own date, details, flag, file data, file name and case, with the description Initial version |
| HistoryEditModal.Dialog.constructor | force-app/main/default/lwc/historyEditModal/historyEditModal.js:20-33 | the dialog holds the record, with the important flag false and no versions |
| HistoryEditModal.Dialog.ConnectedCallback | force-app/main/default/lwc/historyEditModal/historyEditModal.js:42-57 | the item's fields default to empty, or false for the flag, and the file fields are taken only when the record names a file |
| HistoryEditModal.Dialog.LoadItemFields | force-app/main/default/lwc/historyEditModal/historyEditModal.js:43-47 | the item's own fields, each with its default |
| HistoryEditModal.Dialog.WiredVersions | force-app/main/default/lwc/historyEditModal/historyEditModal.js:59-96 | the version list is rebuilt when versions arrive and kept on an error |
| HistoryEditModal.Dialog.HandleRestore | force-app/main/default/lwc/historyEditModal/historyEditModal.js:250-261 | the seven fields take those of the numbered version; a number outside the list fails before any field changes |
| HistoryEditModal.Dialog.HandleInputChange | force-app/main/default/lwc/historyEditModal/historyEditModal.js:98-109 | only the named field changes; an unknown name changes nothing |
| HistoryEditModal.Dialog.HandleFileChange | force-app/main/default/lwc/historyEditModal/historyEditModal.js:111-118 | the six file fields take the chosen file's values |
| HistoryEditModal.Dialog.HandleFileRemove | force-app/main/default/lwc/historyEditModal/historyEditModal.js:120-127 | every file field is cleared |

## Left out

- **Conversion I/O.** `convert_documents.py:36-66` loads and saves `.docx`
  files, converts `.doc` to `.docx` and lists the directory. Only these parts
  are modelled: the line rewrite mapped over the paragraph and cell texts,
  the output name, and the file-selection predicates. The rest is foreign
  libraries and the file system.
- Text.IsWordChar: ASCII letters, digits and `_` only. Under Python 3, `\w`
  and `\b` on a `str` are Unicode-aware. So `[Café]` becomes `{{Café}}` in
  the script but `{{Caf}}` in the model. And `[MT05]é` fires rule 2's `\b`
  guard in the script, giving `{{caseReference}}é`, where the model gives
  `{{MT05}}é`. Text made only of ASCII is modelled exactly.
- Text.ToLower: lowers the ASCII letters only, where `toLowerCase` maps the
  whole of Unicode. The search filters of `DocumentLibrary` and `DynamicTree`
  therefore do not match "é" against "É", as the components do.
- PdftronFlow.Normalize: uses that ASCII `Text.ToLower`. `toLowerCase` at
  `pdftronWvInstanceFlow.js:549-550` turns the Kelvin sign U+212A into `k`,
  which then survives `[^a-zA-Z0-9]`. The model drops the sign instead, so
  such a key can end up matched to a different property.
- **Fields missing from server records.** Every server record is assumed to
  carry every field it is read for. A field is always a string or a number
  in the model, never `undefined`. Without that field the components behave
  as follows, and the model does not capture it:
  - SosReverseAccrual.TransformData: a ledger record without `NARRATIVE`
    passes the filter (`!undefined?.trim()` is true) and then throws a
    TypeError at `narrative.startsWith('EA')`
    (`sosReverseAccrual.js:30-36`), so no rows appear at all.
  - Ledger.PostSlipRow: a post slip without `NARRATIVE` throws a TypeError at
    `narrative.startsWith` (`sosLedger.js:86-87`,
    `sosLedgerPaginated.js:69-70`), so the ledger loads no rows.
  - Ledger.LedgerRow: a ledger record without `NARRATIVE` gets the
    description `undefined` (`sosLedger.js:78`, `sosLedgerPaginated.js:61`).
    Any description filter then throws at `entry.description.toLowerCase()`
    (`sosLedger.js:167`, `sosLedgerPaginated.js:159`).
  - DocumentLibrary.Matches: a document without `DocumentType__c` fails any
    type filter (`fileLibrary.js:163`). In the model its type is `""` and it
    matches a `""` among the chosen types, such as `["Letter", ""]`. A
    document without `Created_Time__c` gets an Invalid Date, which every date
    range leaves out (`fileLibrary.js:179`). In the model every document has
    a creation time.
- Text.Trim: strips the six ASCII white-space characters only, where `trim`
  also strips U+00A0, U+FEFF, the line and paragraph separators and the other
  Unicode spaces. A file name ending in U+00A0 stays untrimmed in the
  extension whitelist of `FileManager`.
- Sorting.CompareStrings: compares whole code points, where JavaScript's `<`
  compares UTF-16 code units. A character beyond U+FFFF (stored as a
  surrogate pair starting at U+D800) sorts before one in U+E000-U+FFFF in
  JavaScript and after it here, for instance in the estate sort key of
  `EstateGrid`.
- **Remote calls.** Every Apex and record call (`getSOSData`,
  `createRecord`, `updateRecord`, the SharePoint upload and delete,
  `fetchTemplates`, `getHistoryVersions`, `getLayout`, ...) is left out, along
  with its promise chain, `refreshApex`, `setTimeout` and
  `requestAnimationFrame`. What a call returns is a parameter of the handler
  that receives it. `historyEditModal.js`'s `saveRecord`, `saveFile` and
  `createVersion` are only such calls.
- **Viewer, browser and event plumbing.** These are browser runtime, not
  logic:
  - the PDF viewer, the iframe `postMessage` handling and the
    `initUI`/`handleReceiveMessage` parts of `pdftronWvInstanceFlow.js`;
  - DOM access, `window.open`/`location` and `LightningConfirm`;
  - toasts, console output and the `isLoading` spinner flags;
  - CustomEvent dispatch and Flow navigation, including
    `generateDocumentFlow.js`'s `handleNextDocumentSelection` and its automatic
    navigation;
  - `dynamicTree.js`'s `handleToggle` and `handleNavigation`, which change the
    DOM and dispatch events.
- **Clock and locale dates.** `new Date` parsing, `toLocaleDateString`,
  `toISOString`, `getCurrentDateFormatted` and `formatDateToUK` are left out.
  They depend on the clock and the locale. The current time is a parameter,
  and dates are triples or abstract day numbers.
- **Floating point.** These depend on IEEE doubles:
  - the `toFixed` currency totals (`force-app/main/default/lwc/sosLedger/sosLedger.js:327-341`,
    `force-app/main/default/lwc/sosLedgerPaginated/sosLedgerPaginated.js:362-376`);
  - the `progressValue` percentages
    (`force-app/main/default/lwc/caseCreationContainer/caseCreationContainer.js:98-100`,
    `force-app/main/default/lwc/caseCreationProgressBar/caseCreationProgressBar.js:7-9`);
  - `handleAmountChange` and the `parseFloat`/`toString` prefix test on
    amounts (`force-app/main/default/lwc/sosLedger/sosLedger.js:170-174, 204-207`).
- SosLedger.TransformData: keeps the records in the order the server sends
  them. It leaves out the `new Date(dd/mm/yyyy)` sort at
  `force-app/main/default/lwc/sosLedger/sosLedger.js:119`, whose result depends
  on how the runtime parses an ambiguous date text.
- SosLedgerPaginated.PaginatedLedger.FilterData: the amount test always
  passes, because no handler of `sosLedgerPaginated.js` ever sets
  `amountFilter` (it is only cleared).
- **Locale-aware sorting.** This needs Unicode collation. The `localeCompare`
  sort of the tree's nodes (`force-app/main/default/lwc/dynamicTree/dynamicTree.js:269`)
  is left out, and the tree keeps the order it is given.
- **Randomness.** `createUUID` (`pdftronWvInstanceFlow.js:527-532`,
  `generateDocumentModal.js:180-185`) is left out. The rows
  of the generation dialog carry no id. The same `handleOptions` loop in
  `pdftronWvInstanceFlow.js:534-539` is modelled once, as
  `GenerateDocumentModal.Modal.HandleOptions`.
- **Integer-like and inherited object keys.** JavaScript lists integer-like
  keys ("2", "10") first and in numeric order, and a plain object already
  answers names such as "constructor" or "toString" from `Object.prototype`.
  `Objects` keeps every key in insertion order and knows only the keys
  written to it. Where the keys are field names this makes no difference; where
  they come from data (the flow-data items and template keys of
  `pdftronWvInstanceFlow.js`, the categories of `generateDocumentFlow.js`)
  the model covers only names that are neither integer-like nor inherited.
- GenerateDocumentFlow.GroupedNames: states first-occurrence order of the
  category names. `Object.values` at `generateDocumentFlow.js:97` instead puts
  integer-like category names first, in numeric order, so for categories
  "B", "2", "A", "1" the page shows "1", "2", "B", "A".
- GenerateDocumentFlow.Flow.GroupDocumentsByCategory: a category named after
  an `Object.prototype` member such as "constructor" finds that inherited
  function at `generateDocumentFlow.js:89`, skips creating its group, and the
  `push` at line 95 throws a TypeError. The model files such templates under
  their own group and does not model the exception; it also inherits the key
  order of `GroupedNames`.
- **Setters and toggles.** The bank-information field setters of
  `generateDocumentModal.js:106-160` and `handlePreviousLetterDateChange` are
  single assignments with no logic. For the same reason, the bank and modal
  toggles of the ledgers are left out.
- **Registry side effects.** The `fireEvent`/`registerListener` calls of the
  generation dialog are the registry's own operations. They are modelled in
  `PubSub`.
- **Estate grid.** The `wiredBVCaseData` handler of `estateGrid.js` only
  stores an id for the remote calls.
- **Case-officer buttons.** `caseOfficerButtons.js`'s `handleActionClick`
  only dispatches a navigation event.
- **Related-records screen.** In `databaseScreenStandardLayout.js`,
  `cardHeader`, `onHandleSort`, `getRowActions`, `loadLayout` and the refresh
  after a save are left out. They are display strings, remote reloads or
  DOM work. The `hasData` getter (`databaseScreenStandardLayout.js:300-303`)
  is left out too. It only decides whether the template shows the table. It
  throws a TypeError when there are columns but `tableData` is empty.
- **File components.** `handleMenuAction`, `handlePreview`,
  `handleFileDownload`, `fileClass` and `previewUrl` of the file components
  are left out, as is `encodeURIComponent`. So are the post-save actions
  `processPostSaveActions` and refresh. These open windows, build browser
  addresses or call the server.

## Findings

| source | as written | input that shows it | evidently intended | confidence | as-written member | corrected member |
|---|---|---|---|---|---|---|
| force-app/main/default/lwc/sosReverseAccrual/sosReverseAccrual.js:79-98 | the Date Posted column holds `dd/mm/yyyy` text, and the sort compares that text | `01/02/2024` sorts before `02/01/2024`, so 1 February comes before 2 January | dates sort in calendar order, as the ledgers do with `parseUKDate` | high, not executed | SosReverseAccrual.WrittenDateSortMisorders | SosReverseAccrual.ColumnKeyCalendarOrder |
| force-app/main/default/lwc/caseOfficerButtons/caseOfficerButtons.js:103-129 | `PREVIOUS_*_OFFICER_FIELD` and `DATE_n_OFFICER_FIELD` are used but never imported (only lines 4-7 import fields), so a case with a current officer throws a ReferenceError and no update is sent | a case whose current officer is `005A`, reassigned to `005B` | the officer history shifts down one place and the new officer becomes current | high, not executed | CaseOfficerButtons.AsWrittenCounterexample | CaseOfficerButtons.HistoryShifted |
