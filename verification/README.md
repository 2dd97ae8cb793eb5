# Zero-waste grocery tracker: expiry, form and receipt-scan logic in Dafny

This project models the logic behind three React components of a grocery tracker. It states their behaviour as pure Dafny functions with proved contracts:

- **The grocery list** (`src/components/GroceryList.tsx`). Each item has an expiry instant. The list computes the signed number of whole days until that instant (`calculateDaysLeft`). It puts the count into one of five urgency tiers. It colours the card's strip by tier and shows a coloured label sentence such as "Expired 2 days ago". It also computes a status colour per card (`getExpiryStatusColor`), which is never rendered. It sorts a copy of the items, most urgent first, and heads the list with an item count.
- **The add/edit form** (`src/components/AddGroceryForm.tsx`). The form fills its fields from the item being edited, if there is one. `handleSubmit` refuses a blank name, then a missing expiry date. Otherwise it hands a new grocery to its caller. After an add it clears the fields; after an edit it keeps them.
- **The receipt scanner** (`src/components/ReceiptScanner.tsx`). This is a simulated scan. Choosing a file starts it, and each timer tick adds ten points of progress, held at 100. A follow-up then marks the scan complete, and "Scan Another Receipt" dismisses the result.

The files are:

- `types.dfy`: `Option`, instants as integer milliseconds, and the `GroceryItem` record of `src/types/index.ts:22-30`.
- `text.dfy`: decimal rendering of naturals with its reader, ECMAScript `String.prototype.trim`, and the plural suffix.
- `expiry.dfy`: days left, tiers, colours, labels, and the label reader.
- `stable_sort.dfy`: a generic stable sort by an integer key. It proves permutation, sortedness and stability. It also proves that any other stable ascending sort gives the same list.
- `grocery_list.dfy`: the urgency ordering, cards and the rendered list.
- `grocery_form.dfy`: the form's state machine.
- `receipt_scanner.dfy`: the scan state machine.

The current time is a parameter `now`; the source reads the wall clock inside `calculateDaysLeft`. The source sorts with `Array.prototype.sort`, which section 23.1.3.30 of ECMA-262 (2023 edition) requires to be stable. That requirement fixes the result completely: `StableSort.SortIsTheStableSort` shows that every stable ascending arrangement equals the one computed here by insertion.

Two behaviours of the code are easy to miss:

- At the same instant, the code returns `-0` days (`-diffDays` with `diffDays == 0`). Every later comparison treats that as 0, so the model returns 0. "Expires today" therefore appears only when the expiry is exactly the current millisecond. Any later instant is already "Expires in 1 day", because any part of a day counts as a whole day.
- The label for 3 to 5 days is the green "N days left" with a check icon, the same as for counts above 5. On screen only the strip of such an item is yellow. The computed status colour is yellow too, but it is never rendered (`Expiry.WarningLabelLooksFresh`).

## Model

| member | source | states |
|---|---|---|
| `Expiry.CeilDiv` | src/components/GroceryList.tsx:30 | The result is the least whole number of days covering the millisecond difference: at least the difference, and less than a day short of it. |
| `Expiry.DaysLeft` | src/components/GroceryList.tsx:26-31 | Days left is positive exactly when the expiry is strictly after now, zero exactly at the same instant, and negative exactly when it is before. Its magnitude is the millisecond difference rounded up to whole days. |
| `Expiry.DaysLeftUnique` | src/components/GroceryList.tsx:29-31 | The sign rule and the round-up bounds together determine the day count: any integer meeting them equals `DaysLeft`. |
| `Expiry.DaysLeftMonotone` | src/components/GroceryList.tsx:26-31 | For a fixed now, a later expiry never has fewer days left. |
| `Expiry.DaysLeftAntitone` | src/components/GroceryList.tsx:26-31 | As time moves on, an item's days left never grows. |
| `Expiry.Classify` | src/components/GroceryList.tsx:34-39 | The tiers partition the integers. Expired is below 0, ExpiresToday is exactly 0, Critical is 1 to 2, Warning is 3 to 5, and Fresh is above 5. |
| `Expiry.StatusColor` | src/components/GroceryList.tsx:34-39 | The status colour the code computes for each card (and never renders) is red exactly for Expired, orange exactly for ExpiresToday and Critical, yellow exactly for Warning, and green exactly for Fresh. |
| `Expiry.StripColor` | src/components/GroceryList.tsx:127-132 | The strip colour follows the same tiers with the same boundaries, using background classes. |
| `Expiry.StripAgreesWithStatus` | src/components/GroceryList.tsx:126-132 | For every day count, the strip is the computed status colour with `bg-` in place of `text-`. The strip is the one place that cascade's result shows on screen. |
| `Expiry.Label` | src/components/GroceryList.tsx:41-75 | The sentence is "Expires today" exactly when the count is 0, and so is the clock icon. The check icon appears exactly from 3 days on. The label's own colour equals the computed status colour in every tier except Warning, where it is the Fresh green. |
| `Expiry.LabelTextExpired` | src/components/GroceryList.tsx:42-48 | A negative count's sentence is "Expired ", then the magnitude in decimal, then " day", the plural suffix and " ago". |
| `Expiry.LabelTextSoon` | src/components/GroceryList.tsx:60-66 | A count of 1 or 2 reads "Expires in ", then the count, then " day" and the plural suffix. |
| `Expiry.LabelTextLeft` | src/components/GroceryList.tsx:69-74 | A count above 2 reads as the count, then " day", the plural suffix and " left". |
| `Expiry.LabelRoundTrip` | src/components/GroceryList.tsx:41-75 | Every label sentence reads back as exactly the signed day count it was made from. |
| `Expiry.LabelInjective` | src/components/GroceryList.tsx:41-75 | No two day counts produce the same sentence. |
| `Expiry.WarningLabelLooksFresh` | src/components/GroceryList.tsx:34-75 | Counts of 3 to 5 get the same label colour and icon as counts above 5, although their computed status colour (yellow, never rendered) differs. |
| `Expiry.BoundaryScenarios` | src/components/GroceryList.tsx:26-39 | Seen from midnight on 10 January 2024, the same instant is 0 days (ExpiresToday), two days before is -2 (Expired), and two days ahead is 2 (Critical). Five days ahead is 5 (Warning), ten days ahead is 10 (Fresh), and one millisecond either side is plus or minus 1 day. |
| `Text.NatToString` | src/components/GroceryList.tsx:46 | A count is written as one or more decimal digits with no leading zero, and those digits denote the count. |
| `Text.ReadNatOfRendered` | src/components/GroceryList.tsx:99 | A count written in decimal and followed by text that does not start with a digit reads back as the same count. |
| `Text.NatToStringInjective` | src/components/GroceryList.tsx:46 | Different counts are written differently. |
| `Text.PluralSuffix` | src/components/GroceryList.tsx:99 | The suffix is "s" exactly when the count is not 1, and empty exactly when it is 1. |
| `Text.Trim` | src/components/AddGroceryForm.tsx:73 | The trimmed string neither starts nor ends with ECMAScript whitespace or a line terminator. |
| `Text.TrimIsSlice` | src/components/AddGroceryForm.tsx:73 | Trimming only cuts: the result is a contiguous slice of the input, and everything cut away on either side is whitespace. |
| `Text.TrimEmptyIffBlank` | src/components/AddGroceryForm.tsx:50 | A string trims to nothing exactly when every character is whitespace or a line terminator, the empty string included. |
| `Text.TrimIdempotent` | src/components/AddGroceryForm.tsx:73 | Trimming a trimmed string changes nothing. |
| `StableSort.Insert` | src/components/GroceryList.tsx:85-89 | Insertion adds exactly one element and keeps all the others. |
| `StableSort.InsertSorted` | src/components/GroceryList.tsx:85-89 | Inserting into a sorted sequence keeps it sorted. |
| `StableSort.Sort` | src/components/GroceryList.tsx:85-89 | The result is a permutation of the input, ascending in the key. |
| `StableSort.WithKeyOfInsert` | src/components/GroceryList.tsx:85-89 | Insertion puts the element at the head of its own tie group and leaves every other tie group as it was. |
| `StableSort.SortStable` | src/components/GroceryList.tsx:85-89 | Elements with equal keys keep their input order. |
| `StableSort.SortedStableUnique` | src/components/GroceryList.tsx:85-89 | Two ascending sequences with the same tie groups are equal. |
| `StableSort.SortIsTheStableSort` | src/components/GroceryList.tsx:85-89 | Every stable ascending arrangement of the input is the result of `Sort`. |
| `StableSort.SortIdempotent` | src/components/GroceryList.tsx:85-89 | Sorting an ascending sequence returns it unchanged. |
| `GroceryList.SortByUrgency` | src/components/GroceryList.tsx:85-89 | The displayed order is a rearrangement of the groceries in which days left never decrease. Sequences are values, so the caller's list is left as it was. |
| `GroceryList.SortByUrgencyStable` | src/components/GroceryList.tsx:85-89 | Items with the same days left keep their input order. |
| `GroceryList.SortByUrgencyIdempotent` | src/components/GroceryList.tsx:85-89 | A list already in urgency order is shown in its own order. |
| `GroceryList.ExpiryOrderIsUrgencyOrder` | src/components/GroceryList.tsx:85-89 | A list already in expiry order is already in urgency order and is shown as it is. The converse does not hold, because items due within the same day keep their input order. |
| `GroceryList.SortByUrgencyUnique` | src/components/GroceryList.tsx:85-89 | Any stable ascending arrangement by days left is the displayed order, whatever sorting algorithm produces it. |
| `GroceryList.UrgencyOrderExample` | src/components/GroceryList.tsx:85-89 | Seen from midnight on 10 January 2024, items five days out, two days expired and due now are listed as expired, then due, then five days out. |
| `GroceryList.CountLabel` | src/components/GroceryList.tsx:98-100 | The heading starts with the item count in decimal, which reads back, and ends in "s" exactly when the count is not 1. |
| `GroceryList.CardFor` | src/components/GroceryList.tsx:116-145 | A card carries its item's days left at now. Its visible red, the strip and the label text colour, appears exactly when the item has expired, and so does the red of the unrendered status colour. The strip is yellow exactly in the Warning tier. The sentence is "Expires today" exactly when the expiry is now. |
| `GroceryList.Render` | src/components/GroceryList.tsx:98-145 | The heading reads back as the number of groceries. The empty-state placeholder appears exactly when there are none. Otherwise the cards hold the groceries in urgency order, a permutation of the input with days left never decreasing, and every card is the card of its own item. |
| `GroceryList.RenderedCardsReadBack` | src/components/GroceryList.tsx:116-145 | Every card on screen tells the truth about its own item: its label sentence reads back as that item's days left, and its strip is red exactly when the item has expired. |
| `GroceryForm.CategoryName` | src/components/AddGroceryForm.tsx:23-34 | Every category is shown as one of the select's option values. |
| `GroceryForm.ParseCategory` | src/components/AddGroceryForm.tsx:23-34 | A string names a category exactly when it is one of the option values, and that category is shown as the same string. |
| `GroceryForm.CategoryRoundTrip` | src/components/AddGroceryForm.tsx:23-34 | Every category reads back from its option value. |
| `GroceryForm.CategoriesShape` | src/components/AddGroceryForm.tsx:23-34 | There are ten option values, all distinct, and the last is "Other". |
| `GroceryForm.InitialForm` | src/components/AddGroceryForm.tsx:38-44 | A new form is blank with quantity 1. An edit form copies the item's name, expiry, category and notes (absent notes become empty). It copies the quantity unless that is 0, which falls back to 1, so the starting quantity is never 0. |
| `GroceryForm.NotesPayload` | src/components/AddGroceryForm.tsx:73 | Notes are dropped exactly when they are all whitespace. Otherwise they are sent trimmed, non-empty and without whitespace at either end. |
| `GroceryForm.NameMissing` | src/components/AddGroceryForm.tsx:50 | A name counts as missing exactly when it is empty or all whitespace. |
| `GroceryForm.Submit` | src/components/AddGroceryForm.tsx:47-84 | The rules of a submission are: (1) a blank name is refused, and that check comes first. (2) A missing date is refused exactly when the name is present. (3) A refusal leaves the fields untouched. (4) An accepted submission sends the name as typed, the expiry, quantity and category unchanged, and the trimmed notes. (5) The reminder flag is set exactly when the edited item's flag is true. (6) Afterwards, an add form is blank again and an edit form keeps its fields. |
| `GroceryForm.Payload` | src/components/AddGroceryForm.tsx:68-75 | The grocery sent on acceptance carries the form's fields, with the notes trimmed or absent. Its reminder flag is true only when the edited item's flag is true. |
| `GroceryForm.Resubmitted` | src/components/AddGroceryForm.tsx:38-75 | For an item the form could have produced (non-blank name, non-zero quantity, trimmed notes), this is exactly the grocery sent by opening the item for editing and accepting the unchanged form. An absent or false reminder flag becomes false. |
| `GroceryForm.AddResetsToInitial` | src/components/AddGroceryForm.tsx:77-84 | After an accepted add, the fields equal those of a freshly opened add form. |
| `GroceryForm.EditRoundTrip` | src/components/AddGroceryForm.tsx:38-75 | Opening an item for editing and submitting without changes sends that same item back and keeps the fields. This holds for any item the form could have produced: non-blank name, non-zero quantity, and trimmed notes. |
| `GroceryForm.NotesPayloadIdempotent` | src/components/AddGroceryForm.tsx:73 | Notes that have passed through the form once pass through a second time unchanged. |
| `GroceryForm.EmittedRoundTrip` | src/components/AddGroceryForm.tsx:38-75 | Suppose a grocery the form emitted with a non-zero quantity is stored under any id and opened for editing. Submitting it unchanged emits the same grocery again. |
| `GroceryForm.ZeroQuantityReopensAsOne` | src/components/AddGroceryForm.tsx:42 | An item stored with quantity 0 reopens with quantity 1, so submitting it unchanged sends quantity 1. |
| `GroceryForm.EditResubmitStable` | src/components/AddGroceryForm.tsx:77-84 | In edit mode, submitting a second time gives the same outcome and fields as the first time. |
| `ReceiptScanner.ChooseFile` | src/components/ReceiptScanner.tsx:15-22 | Without a file nothing changes. With a file a scan starts: scanning, progress 0, not complete. |
| `ReceiptScanner.NextProgress` | src/components/ReceiptScanner.tsx:26-40 | A tick adds exactly 10 while the sum stays below 100. Any sum that reaches or passes 100 gives exactly 100, and the result never exceeds 100. |
| `ReceiptScanner.Tick` | src/components/ReceiptScanner.tsx:25-42 | A tick moves only the progress. It stops the timer exactly when progress reaches 100. It keeps progress within 0 to 100, and it always increases progress unless progress was already at 100 or more. |
| `ReceiptScanner.CompleteScan` | src/components/ReceiptScanner.tsx:30-32 | The follow-up ends the scan and marks it complete, leaving the progress as it was. |
| `ReceiptScanner.ScanAnother` | src/components/ReceiptScanner.tsx:69 | "Scan Another Receipt" clears the completion flag and changes nothing else. |
| `ReceiptScanner.TicksClamped` | src/components/ReceiptScanner.tsx:25-42 | After n ticks (n at least 1), progress is the starting value plus 10 per tick, held at 100 once that is reached. |
| `ReceiptScanner.TicksFromZero` | src/components/ReceiptScanner.tsx:21-40 | From 0, progress stays within 0 to 100. It is 10 per tick before the tenth tick and exactly 100 from the tenth tick on. |
| `ReceiptScanner.Scan` | src/components/ReceiptScanner.tsx:15-42 | From any state, choosing a file and running the timer until it stops takes exactly ten ticks. The scan ends not scanning, complete, at 100. |
| `ReceiptScanner.View` | src/components/ReceiptScanner.tsx:57-127 | The completion panel shows exactly when the scan is complete. The progress bar, showing the progress, appears exactly while a scan runs and is not complete. The upload controls appear otherwise. |
| `ReceiptScanner.ScanCycle` | src/components/ReceiptScanner.tsx:57-73 | From the mounted state, the upload controls show, a scan ends on the completion panel, and dismissing it brings the upload controls back with progress left at 100. |

## Left out

- Reading the wall clock (`new Date()` inside `calculateDaysLeft`). The current instant is a parameter, and one `now` serves a whole sort. The source reads the clock again on every comparator call.
- Expiry.DaysLeft: computes the ceiling exactly on integers. The source divides doubles, which round only for differences beyond about 2^26 days (about 180,000 years). It also returns `-0` at the same instant, which the model writes as 0 because every use compares it like 0.
- Time zones, local calendar days and the `toLocaleDateString` date line on each card. The model works on absolute milliseconds.
- Timers: the 300 ms interval, the 500 ms follow-up and their interleaving with user actions. Only the order of the state transitions is modelled.
- `parseInt` of the quantity field, which can yield NaN or any integer. The quantity is an unconstrained integer, and no claim of `quantity >= 1` is made.
- The field setters (`onChange` handlers) and the date picker's open state. Each is a plain assignment to one field.
- The browser's own `min="1"` check on the quantity input. It is outside the component's code.
- The browser's own `required` check on the name input (`src/components/AddGroceryForm.tsx:114`). It blocks an empty name before `handleSubmit` runs, so in the browser only a whitespace-only name reaches the `MissingName` refusal. The model leaves this check out and refuses both kinds of blank name in `Submit`, as the code does.
- Toast notifications, `onCancelEdit`, `onDelete`, `onEdit`, `handleSetReminder` and the "Take Photo" button. Each only calls out to code that is not part of this model or shows a message.
- GroceryList.CardFor: states the card's days left and its expired, due-today and Warning-strip facts. The full per-tier colours and sentences follow from `Expiry.StripColor`, `Expiry.Label` and the `Expiry.LabelText*` lemmas.
- JSX markup, styling and icons beyond the colour class and icon choice of the expiry label.
- The other files of the repository: authentication, routing, reminders, recipes, animations and static page sections.
