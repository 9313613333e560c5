# Charity office record store — a Dafny model

`script.js` is the whole client of a single-page application used by a
charity office ("جمعية الخير لتنمية المجتمع بمسير"). It keeps one in-memory
store, `appData`, made of three collections:

- **cases**: the registered families, with their members, aid history,
  archive flag and photo links;
- **donations**: money received, each tagged with one or more categories;
- **expenses**: aid disbursed to a beneficiary.

Form handlers change the store in place. The rest of the file reads it: the
dashboard's category list, the per-category statistics and the totals; the
cases page and the archive; the beneficiary drop-down; the duplicate warning
of the case form; the global search; the date-range reports; the
national-ID age estimate; and the spreadsheet export.

The model is split into these modules:

- `Wrappers`: `Option`, which stands for JavaScript's `undefined` and `null`.
- `Seqs`: `Array.prototype.filter`, `slice(0, n)` and `reduce` with a sum,
  plus their order and count lemmas.
- `Text`: the JavaScript string operations the file uses. These are
  `toLowerCase`, `includes`, `split`, `join`, `trim`, `parseInt`/`parseFloat`,
  `String(n)` and the `<=` comparison of strings.
- `Records`: the record types, and `findIndex` by name and by id.
- `AppStore`: the store as a class `Store` with sequence fields. Each handler
  that changes the store is a method, proved against pure functions of the
  old state.
- `Dashboard`: the category list, the per-category statistics and the
  totals, with the lemmas tying them to the store operations.
- `Search`: the cases page and archive filters, the capped drop-down and
  duplicate-warning filters, the global search and the report filters.
- `NationalId`: the age estimate read from an Egyptian national ID.
- `Export`: the CSV export loop. A lemma shows that the file it builds reads
  back into the header, one line per case, and each case's fourteen fields,
  as long as no field holds a comma or a line break. `script.js` does not
  quote fields, so a comma in a field adds a column to its row; a second
  lemma shows this for the note.

Amounts are whole numbers. `parseFloat` keeps only the integer prefix;
`parseInt` also reads a `0x` hexadecimal prefix; a failed parse stands for
`NaN`. Record ids, today's date and the answers to `prompt` come in as
parameters. Some behaviour of `script.js` is worth stating plainly:

- deleting an expense leaves the copies of it in the cases' aid histories;
- an aid record is linked to a case by exact name equality only;
- names are compared as written, with no Arabic letter normalisation;
- a donation is stored once, with all its tags joined into one type text.

## Model

| member | source | states |
|---|---|---|
| AppStore.Store.constructor | script.js:10-14 | the store holds exactly the given cases, donations and expenses |
| AppStore.Store.ApplyHiddenDefault | script.js:52 | on load, every case with no `hidden` flag gets `false`; every other case and both other collections stay as they were |
| AppStore.DefaultHidden | script.js:52 | the defaulted case has a flag, is archived exactly when the original was, and differs from it in `hidden` only |
| AppStore.Store.AddNewCase | script.js:679-729 | a case is appended exactly when a name is given, with its tags joined by " - ", status "قيد الدراسة" and the form date or today; otherwise nothing changes |
| AppStore.Store.DeleteCase | script.js:732-738 | the cases become the old cases without those having the id; donations and expenses are unchanged |
| AppStore.DeleteCaseKeepsOthers | script.js:734 | after the delete, no case has the id; the rest keep their order, and every other case occurs as often as before |
| AppStore.DonationType | script.js:746-753 | a donation's type is never empty, and every selected tag and the trimmed free-text tag occur in it |
| AppStore.Store.AddNewDonation | script.js:740-769 | a donation is appended exactly when the donor is given and the parsed amount is a non-zero number, with the form date or today and the joined type (or "عام"); otherwise nothing changes |
| AppStore.SyncAidHistory | script.js:797-802 | the list keeps its length; only the first case whose name equals the beneficiary changes, and only in its aid history; that history gains exactly the record and is created when missing; with no such case nothing changes |
| AppStore.Store.AddNewAidRecord | script.js:771-809 | with a beneficiary and an amount, exactly one record is appended to the expenses and the cases become the synchronised list; without both nothing changes; donations never change |
| AppStore.Store.DeleteExpense | script.js:921-927 | the expenses become the old ones without those having the id; cases, and so every aid history, stay unchanged |
| AppStore.DeleteExpenseKeepsOthers | script.js:923 | after the delete, no expense has the id; the rest keep their order, and every other expense occurs as often as before |
| AppStore.StaleAidHistory | script.js:921-927 | a synced aid record stays in the case's history after the record is deleted from the expenses |
| AppStore.Store.SaveMemberToCase | script.js:972-994 | with a member name and a case with the id, the member is appended to the first such case's list, which is created when missing; otherwise nothing changes |
| AppStore.SetHidden | script.js:1445-1461 | only the first case with the id changes, and only in `hidden`, which becomes the given flag; an unknown id changes nothing |
| AppStore.Store.HideCase | script.js:1445-1452 | the cases become the list with the first case with the id archived; nothing else changes |
| AppStore.Store.RestoreCase | script.js:1454-1461 | the cases become the list with the first case with the id restored; nothing else changes |
| AppStore.RestoreAfterHide | script.js:1445-1461 | archiving and then restoring gives the same list as restoring alone |
| AppStore.Store.ManualImagePath | script.js:1021-1032 | with a non-empty path and a case with the id, that case's photo link ("photo") or ID-card link (any other kind) becomes the path; otherwise nothing changes |
| AppStore.Store.RemoveImage | script.js:1034-1045 | the photo or ID-card link of the first case with the id is removed; an unknown id changes nothing |
| Records.IndexWhere | script.js:798 | `findIndex`: the result is the first index whose case satisfies the test (a name equal to the beneficiary here, an id equal to the given one at script.js:1446), or none when no case does |
| Dashboard.CategoryMentions | script.js:147-149 | the category mentions (donation type pieces, case sources, expense categories) are all non-empty |
| Dashboard.DedupSpec | script.js:152 | removing duplicates leaves no duplicates, keeps exactly the same members, and orders them by first appearance |
| Dashboard.Categories | script.js:147-155 | the category list has no duplicates; with no mentions it is the four default tags; otherwise it holds exactly the mentioned categories, ordered by first appearance across donations, case sources and expense categories |
| Dashboard.CategoryStats | script.js:161-176 | there is one entry per category; each gives the donations whose type contains the category, the expenses whose category equals it, and their difference as balance |
| Dashboard.DonatedAppend | script.js:163-165 | a new donation adds its amount to a category's donated figure exactly when its type is non-empty and contains the category |
| Dashboard.DisbursedAppend | script.js:167-169 | a new expense adds its parsed amount (0 when unparseable) to a category's disbursed figure exactly when its category equals the category |
| Dashboard.MatchingAsymmetry | script.js:163-169 | a donation typed "a - b" counts for both a and b, while an expense with category "a - b" counts for neither and only for "a - b" itself |
| Dashboard.NewDonationCountsForItsTags | script.js:163-165 | a donation built by the donation form counts towards every one of its tags |
| Dashboard.DashboardTotals | script.js:179-182 | total donations and disbursed aid are the sums of the amounts (0 for unparseable ones); scheduled aid is the sum of case amounts; the balance is donations minus disbursed aid |
| Dashboard.BalanceIgnoresCases | script.js:181-182 | the balance does not depend on the cases |
| Dashboard.BalanceAfterDonation | script.js:179-182 | appending a donation raises the balance by its amount |
| Dashboard.BalanceAfterAid | script.js:180-182 | appending an aid record lowers the balance by its parsed amount; an unparseable amount leaves all totals unchanged |
| Dashboard.BalanceAfterDeleteExpense | script.js:180-182 | deleting expenses by id raises the balance by exactly the amounts of the deleted expenses |
| Search.CappedFilter | script.js:824-827 | a filter cut at n is exactly the first min(n, number of matches) matches in input order; when fewer than n are kept, every match is kept as often as it occurs |
| Search.CaseList | script.js:251-256 | the cases page shows, in order, the non-archived cases whose lower-cased name, ID, spouse name and spouse ID text contains the lower-cased filter, each as often as it occurs in the store, and no other case |
| Search.HiddenCases | script.js:562 | the archive shows, in order, every archived case as often as it occurs, and no other case |
| Search.ListingsPartition | script.js:251-256 | with no filter, every case appears exactly once, either on the cases page or in the archive |
| Search.HideMovesToArchive | script.js:1445-1452 | an archived case leaves the cases page under any filter and appears in the archive |
| Search.RestoreMovesBack | script.js:1454-1461 | a restored case leaves the archive and is back on the unfiltered cases page |
| Search.FilterAidBeneficiaries | script.js:821-827 | the drop-down shows exactly the first min(50, number of matches) cases, in order, whose lower-cased name or national ID contains the lower-cased query; below the cap every match is shown as often as it occurs |
| Search.SearchExistingCases | script.js:849-875 | nothing for input shorter than 2 characters; otherwise exactly the first min(10, number of matches) cases, in order, matching the field's rule; below the cap every match is shown as often as it occurs |
| Search.SpouseFieldsCrossChecked | script.js:865-873 | the name and spouse-name fields give the same warning list, and so do the two ID fields |
| Search.GlobalSearch | script.js:1133-1158 | the age estimate of the query, and the cases, donations and aid records matching the lower-cased query, each list in store order, holding every match as often as it occurs and nothing else, with archived cases included |
| Search.GenerateReport | script.js:1243-1349 | with no start or no end date there is no report; otherwise the report holds, in store order, every record of the chosen kind dated within the inclusive period (archived cases excluded) as often as it occurs and nothing else, with the total of their amounts |
| Search.EmptyPeriod | script.js:1261 | no date falls in a period whose start comes after its end |
| Search.ReversedPeriodReport | script.js:1250-1262 | a report whose start date comes after its end date has no rows and a zero total |
| NationalId.FullYears | script.js:1101-1105 | the age is the number of birthdays reached by the fixed reference day 2026-01-20; it is never negative unless the birth date comes after that day |
| NationalId.CalculateAgeFromId | script.js:1081-1110 | an ID shorter than 7 characters, an unreadable date (including a part `parseInt` reads as `NaN`, such as a bare "0x") or a birth date after 2026-01-20 gives no age; otherwise the age is the full years completed by 2026-01-20 and is not negative |
| NationalId.BirthDateOfDigits | script.js:1085-1096 | for an ID whose first seven characters are digits, the birth date is 2000 plus YY after the century digit 3 and 1900 plus YY after any other digit, with month MM and day DD |
| NationalId.AgeExample | script.js:1081-1110 | every ID starting with 2900101, such as 29001011234567 (born 1990-01-01), gives the age 36 |
| NationalId.HexPrefixMonthGivesNoAge | script.js:1087-1106 | the ID "2900x01", whose month part "0x" `parseInt` reads as `NaN`, gives no age |
| Export.CsvFields | script.js:92-107 | a case gives as many fields as the header has columns; the first field reads back as the row number (index plus 1); both ID fields are prefixed with an apostrophe |
| Export.RowReadsBack | script.js:92-107 | a row built from a case with no commas or line breaks in its fields has no line break and splits on commas back into exactly its fields |
| Export.HeaderIsOneLine | script.js:90 | the header is a single line |
| Export.ExportLines | script.js:90-108 | the loop writes the header line, then one line per case in collection order, numbered from 1, each line ending with a line break |
| Export.ExportCsv | script.js:88-109 | the export is the data-URI prefix with its byte-order mark, followed by those lines |
| Export.ExportReadsBack | script.js:88-109 | when no case has a comma or a line break in a field, the export after the prefix, split on line breaks, gives the header, one row per case and a final empty piece, and each row splits into its case's fields |
| Export.CommaInNoteAddsColumn | script.js:92-107 | a note holding one comma makes its row split into one piece more than the header has columns |
| Text.Lower | script.js:254 | lower-casing keeps the length, maps each character on its own, leaves no capital A-Z, and leaves text with no capital unchanged |
| Text.LowerIdempotent | script.js:254 | lower-casing twice is the same as lower-casing once |
| Text.ContainsIff | script.js:255 | `includes` holds exactly when the substring occurs at some position |
| Text.Trim | script.js:750 | the trimmed text is the original minus its leading and trailing white space, and neither of its ends is white space |
| Text.JoinSplit | script.js:147 | joining the pieces of a split gives back the original text |
| Text.ParseNumber | script.js:742 | `parseFloat` gives a number exactly when, after leading white space and one sign, the text starts with a digit |
| Text.ParseInt | script.js:1085-1094 | `parseInt` behaves as `parseFloat` on decimal text; after a "0x" or "0X" prefix it gives a number exactly when a hexadecimal digit follows |
| Text.ParseDigits | script.js:1085-1094 | a non-empty run of decimal digits parses, with either function, to its decimal value |
| Text.ParseHexDigits | script.js:1087-1088 | "0x" followed by hexadecimal digits parses with `parseInt` to their base-16 value |
| Text.ParseBareHexPrefix | script.js:1087-1088 | a bare "0x" is `NaN` for `parseInt` but 0 for `parseFloat` |
| Seqs.FilterSelects | script.js:252 | a filter keeps input order and keeps each matching element as often as it occurs, and no other element |
| Seqs.SelectsUnique | script.js:252 | any list that keeps input order and holds each matching element as often as the input does, and nothing else, is the filter |
| Text.IntToStringRoundTrip | script.js:93 | a number written as text parses back to the same number |
| Text.LexLeTransitive | script.js:1261 | the string comparison used for date ranges is transitive |

## Left out

- Rendering is not modelled: HTML templates, `innerHTML`, modals, printing, the sidebar, zoom and click-outside handlers, `alert`, and `toLocaleString` formatting.
- Persistence is not modelled: `localStorage` (script.js:17-18, 82-86) and the file-system data file (script.js:27-74) are browser I/O. The `saveData` call after each change is not modelled.
- The image upload through `FileReader` (script.js:1060-1078) is browser I/O and is not modelled. The CSV download link and `encodeURI` are not modelled either.
- The login and password prompts (script.js:128-136, 938-957) only gate the UI with fixed strings, so they are left out.
- `confirm` dialogs: only the confirmed path is modelled. Cancelling changes nothing.
- The legacy `addNewExpense` (script.js:902-919) is not modelled, because no form calls it.
- `selectAidBeneficiary` and the other form-filling helpers only copy values between inputs, so they are left out.
- Ids from `Date.now()`, today's date and the text returned by `prompt` come in as method parameters.
- A missing `expenses` array is modelled as the empty sequence.
- Aid records are values. The source pushes one object into both `expenses` and a case's `aidHistory`. The model stores two equal values. Nothing in `script.js` changes such a record after it is stored, so the sharing cannot be observed.
- Every text field of a record is a string. Records loaded with a field missing would be read by the source as `undefined`. The model leaves out both consequences: the text "undefined" in the cases-page search text, and the exception from calling `toLowerCase` on a missing name.
- AppStore.Store.AddNewDonation: amounts are whole numbers, because `parseFloat` is modelled by its integer prefix. A fractional amount such as 0.5 is therefore refused here, although the source accepts it. Dashboard sums drop fractions in the same way.
- Dashboard.DashboardTotals: sums are exact integers rather than IEEE doubles, so rounding is not modelled.
- Text.Lower: only the ASCII letters A-Z are lowered. The Arabic script has no case, and other scripts are not handled.
- Strings are sequences of code points, while JavaScript measures and cuts them in UTF-16 code units. `length` and `substring` (script.js:858, 1082, 1085-1088) therefore differ for text outside the Basic Multilingual Plane: a single emoji passes the 2-character gate of the duplicate warning in `script.js`, while Search.SearchExistingCases returns nothing for it. Such text does not occur in names, IDs or dates.
- Text.ParseNumber: `parseFloat` is read up to the first non-digit, so fractions, exponents and the word "Infinity" are not modelled.
- Text.LexLeTransitive: strings are compared by code point rather than by UTF-16 code unit. The two orders agree on the ISO dates the reports compare.
- NationalId.CalculateAgeFromId: month and day are compared as parsed. The source lets `Date` roll out-of-range values over, for example month 13 into January of the next year; that is not modelled.
- AppStore.Store.SaveMemberToCase: the case id is an integer parameter. An id that `parseInt` cannot read would match no case in the source, which is the unknown-id path here.
