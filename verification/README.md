# Companies dashboard: the company-list store

This project models the one piece of real logic in the companies dashboard, a
single-page app. The `Home` page component keeps an ordered list of company
records. Each record has an identifier, a name, and an optional ticker and sector.
The page also keeps the three text fields of an add form and whether that form is open.

- `Wrappers` (`wrappers.dfy`): `Option`, standing in for TypeScript's optional properties.
- `Text` (`text.dfy`): `Trim`, a model of JavaScript's `String.prototype.trim`.
  Its whitespace set is the ECMAScript WhiteSpace and LineTerminator code points.
  It is proved equal to an independent reference definition: the unique slice
  that cuts only whitespace from both ends.
- `Companies` (`companies.dfy`): the `Company` record and `Remove`, the filter
  behind a card's "Remove" button. It is proved equal to a reference description:
  the order-preserving subsequence that drops exactly the records carrying the id.
- `Page` (`page.dfy`): the page state and its transitions. These are the load
  decision on mount, typing into a field, toggling the form, submitting it (`Add`),
  removing a card, and the dash a card shows for a missing ticker or sector.

Randomness and storage enter as parameters. Each identifier that `uid()` would draw
is an argument. The outcome of reading the storage key is an argument too: no
entry, a string, or an exception. The JSON parser is a function argument that
returns a list or an exception.

A failed storage read or parse installs the empty list, not the seed records
(app/page.tsx:34-35).

## Model

| member | source | states |
|---|---|---|
| Text.Trim | app/page.tsx:49-50 | the trimmed text has no whitespace at either end, is no longer than the input, and is empty exactly when the input is all whitespace |
| Text.TrimCharacterized | app/page.tsx:49-50 | for every string, `Trim` returns exactly the slice that cuts only whitespace from both ends and starts and ends with non-whitespace (both directions) |
| Text.TrimmedIsFixpoint | app/page.tsx:50 | a string with no whitespace at either end is stored unchanged by trimming |
| Text.TrimIdempotent | app/page.tsx:50 | trimming an already trimmed field changes nothing |
| Companies.Remove | app/page.tsx:58-60 | no remaining record carries the id; a record remains exactly when it was in the list and carries another id; the result is an order-preserving subsequence; the length drops by the number of records carrying the id |
| Companies.RemoveCharacterized | app/page.tsx:59 | a list is the result of removal exactly when it is an order-preserving subsequence without the id that keeps all other records |
| Companies.RemoveAbsent | app/page.tsx:59 | removing an id no record carries returns the list unchanged |
| Companies.RemoveIdempotent | app/page.tsx:59 | removing the same id twice gives the same list as removing it once |
| Companies.RemoveAppend | app/page.tsx:59 | removal acts on each part of a concatenated list independently |
| Companies.RemoveCommutes | app/page.tsx:59 | removing two ids in either order gives the same list |
| Companies.RemoveKeepsDistinct | app/page.tsx:58-60 | removal never makes two records share an id |
| Companies.RemoveDistinctLength | app/page.tsx:58-60 | with distinct ids, removing a present id shortens the list by exactly one and removing an absent id changes nothing |
| Page.Load | app/page.tsx:25-37 | no stored value or an empty string gives the seeds; a non-empty string gives the parsed list; an exception from the read or the parse gives the empty list |
| Page.Mount | app/page.tsx:19-37 | after mounting, the list is the loaded one and the form is closed with all three fields empty |
| Page.FirstVisitSeeds | app/page.tsx:27-33 | a first visit yields exactly Acme Corp/ACM/Technology then Globex/GLX/Finance, both well-formed records, with distinct ids when the drawn ids differ |
| Page.SeedsFormMade | app/page.tsx:30-33 | both seed records have a non-empty name and a ticker and sector, none with whitespace at either end, as a record made by the form would |
| Page.FailedLoadIsEmpty | app/page.tsx:26-36 | a failed storage read or parse yields the empty list, which is not the seed list |
| Page.Edit | app/page.tsx:82-99 | typing into one input sets that field to the typed text and leaves the other fields, the list and the form flag as they were |
| Page.ToggleForm | app/page.tsx:71-76 | the header button negates whether the form is shown and changes nothing else |
| Page.ToggleInvolution | app/page.tsx:72 | pressing the header button twice restores the page |
| Page.Add | app/page.tsx:47-56 | a blank name leaves the whole page unchanged; otherwise the list grows by one, the new record is first with the drawn id and the trimmed inputs, the old records follow in order, and the form is cleared and closed |
| Page.AddChangesIffNameNotBlank | app/page.tsx:49 | a submit changes the page, and its list, exactly when the name is not all whitespace |
| Page.AddedRecordIsClean | app/page.tsx:49-50 | the new record's name is non-empty and it, the ticker and the sector have no whitespace at either end |
| Page.AddCleanInputs | app/page.tsx:49-51 | inputs without surrounding whitespace are stored verbatim in a record placed ahead of the old ones |
| Page.RemoveUndoesAdd | app/page.tsx:50-59 | removing the id just drawn undoes a submit, when no record already carried that id |
| Page.AddKeepsFormMade | app/page.tsx:47-56 | if every record is one the form could make, that stays true after a submit |
| Page.RemoveKeepsFormMade | app/page.tsx:58-60 | if every record is one the form could make, that stays true after a removal |
| Page.AddKeepsDistinct | app/page.tsx:47-56 | a submit with an id no record carries keeps all ids distinct |
| Page.RemoveCompany | app/page.tsx:58-60 | the "Remove" button changes only the list, which becomes the list with that id removed |
| Page.Shown | app/page.tsx:119-122 | a card never shows an empty ticker or sector: a missing or empty value shows as a dash and any other value shows as itself |
| Page.AddedCardShows | app/page.tsx:50-122 | on a new card, a ticker or sector that was blank shows as a dash and any other shows as its trimmed text |
| Page.InitechScenario | app/page.tsx:30-56 | on a first visit, opening the form, typing Initech/IT/Tech and submitting gives three records, Initech first and then the two seeds, and closes the form |
| Page.GlobexScenario | app/page.tsx:30-60 | removing Globex from the seeds leaves only Acme Corp, when the two seed ids differ |

## Left out

- `uid()` (app/page.tsx:14-16) draws from `Math.random` and formats the number in base 36. Every drawn id is a parameter instead. Ids are not assumed unique: lemmas that need distinct ids take that as a hypothesis.
- Reading and writing `localStorage`, and the save effect (app/page.tsx:39-45), are browser I/O, and write failures are silently ignored. The result of the read is an input to `Page.Load`, and the save is not modelled. As a result the serialize-then-load round trip is not stated: the code never validates what it parses, so it does not establish that round trip.
- Page.Load: the parser parameter returns a list of well-formed records. The source installs whatever `JSON.parse` returns, even a non-array or objects without an `id`.
- `JSON.parse` and `JSON.stringify` are library calls. They are represented only by the parser parameter.
- Page.Edit and Page.Add are callable in any state. The page renders the inputs and the submit button only while the form is open (app/page.tsx:80-81), and the model does not enforce that guard. Page.InitechScenario opens the form before it types and submits.
- React hooks, effect ordering, re-rendering, CSS and `preventDefault` on the submit event are left out. The model treats each handler as one atomic state transition.
- The "No companies yet" message (app/page.tsx:110-111) is rendering only and is not modelled.
- app/components/CompanyForm.tsx and app/components/CompanyCard.tsx are not part of this model. The page does not use them. The Cancel button exists only in CompanyForm.tsx, so the page has no such action.
- Text.Trim works on Unicode scalar values, while JavaScript strings are UTF-16 code units. All trimmed code points are in the Basic Multilingual Plane, so the two agree except on lone surrogates, which a Dafny `char` cannot hold.
