# PII visibility policy and screen helpers of the lab R&D web application

This project models the parts of the laboratory management application that are logic rather
than layout:

- **PII masking.** Four total string transforms, each taking the raw value and the effective
  visibility flag: e-mail, patient id, organization, and the avatar initials helper.
- **PII visibility policy.** One `hidePII` flag read from a one-key browser store at mount. A
  role gate decides who may flip the flag. The derived `piiVisible` is what every mask call
  receives. The flag is written back to the store on a best-effort basis.
- **Screen helpers.** The pure and in-memory pieces of the experiments, samples, lab notebook
  and protocols screens:
  - the client-side id generators (`EXP-`, `SMP-`, `NB-<year>-<nnn>`);
  - the search and drop-down filters;
  - the role gates;
  - the tag parser;
  - the stat and summary counts;
  - the list and dictionary updates that follow a successful remote call: prepend,
    remove by id, replace content by id, flip a star.

The JavaScript semantics these rely on are written out in `JsText`:

- `split` and `join` on one character;
- `includes`;
- `trim`, over the ECMAScript white-space and line-terminator set;
- ASCII `toLowerCase`/`toUpperCase`;
- `parseInt`, with leading white space, a sign, a `0x` prefix and the longest digit prefix, and NaN as `None`;
- `String(n)`;
- `padStart`;
- `replace` of the first occurrence.

The form is mixed, as in the source. The masks, gates, filters, id generators and counts are
functions, and lemmas relate them. State the source updates in place is a class whose methods
reassign that state and state the whole new state in their `ensures`:

- `PIIProvider`: the flag, the store and the profile;
- `ExperimentsScreen`, `SamplesScreen`: the loaded list;
- `Notebook`: the notes, the selection, the editor text and the editing flag;
- `ProtocolsScreen`: the `starred` dictionary.

The remote service is a parameter:

- A create method takes the row the server returns as `reply`: `None` for an error or no row.
- A save takes whether the update succeeded.
- The store is a `map<string, string>`. Each read or write takes a success flag, which stands
  for the `try`/`catch` around `localStorage`.

Modules: `Wrappers`, `JsText`, `Lists`, `Domain` (roles, profiles, shared gates and matchers),
`ClientIds`, `Pii`, `PiiPolicy`, `Experiments`, `Samples`, `LabNotebook`, `Protocols`.

Behaviours worth knowing:

- A stored value that is present but is not `"true"` starts the flag at `false` (PII shown to a
  manager), not at the hidden default (src/contexts/PIIContext.tsx:23).
- The hidden e-mail has one star per character of the first domain label, so
  `j.doe@research.org` hides to `j***@********.org`, with eight stars.
- `getInitials` takes the first character of every space-separated piece, then cuts the result
  to two characters. Empty pieces contribute nothing.
- An empty local part renders as the text `undefined`, as `${local[0]}` does.
- Without a profile, `canCreate` is true (`undefined !== 'reviewer'`), while `canEdit` is false
  for every note.

## Model

| member | source | states |
|---|---|---|
| Pii.MaskEmail | src/lib/pii.ts:6-13 | Absent or empty gives the dash in both modes. Visible returns the address unchanged. Hidden gives the positional mask, which is never the dash and never empty. |
| Pii.HiddenEmailBySplit | src/lib/pii.ts:9-12 | The split/join reading of the source and the character-position reading of the mask agree for every string. |
| Pii.HiddenEmailShape | src/lib/pii.ts:11-12 | For local@host.rest[@tail]: first local character, `***@`, one star per host character, `.`, the rest. Text after a second `@` is dropped. |
| Pii.HiddenEmailGeneric | src/lib/pii.ts:9-10 | No `@`, or an empty domain between the first `@` and the next or the end, hides to `***@***.***`. |
| Pii.MaskPatientId | src/lib/pii.ts:15-19 | Absent gives the dash; visible gives the id. Hidden is the first min(4, length) characters plus `****`, with length min(4, length) + 4. |
| Pii.HiddenPatientIdRevealsOnlyPrefix | src/lib/pii.ts:18 | Two present ids with the same first-four-character prefix mask to the same string. |
| Pii.MaskIdExamples | src/lib/pii.ts:15-25 | `PAT-12345` hides to `PAT-****`. A visible organization is returned unchanged. |
| Pii.MaskOrganization | src/lib/pii.ts:21-25 | Absent gives the dash; visible gives the name. Hidden is the constant `Org-****`. |
| Pii.HiddenOrganizationRevealsNothing | src/lib/pii.ts:24 | Every two present organization names mask to the same string. |
| Pii.GetInitials | src/lib/pii.ts:28-36 | Absent gives `??`. Otherwise the result is the upper-cased word starts of the name, cut to at most two characters. |
| Pii.LeadingCharsOfSplit | src/lib/pii.ts:30-33 | The first characters of the `split(' ')` pieces are exactly the word starts; empty pieces add nothing. |
| Pii.InitialsOfTwoWords | src/lib/pii.ts:30-35 | Two words followed by a space or the end give their two first letters, upper-cased (`Dr. Jane Smith` gives `DJ`). |
| PiiPolicy.BoolString | src/contexts/PIIContext.tsx:35 | `String(b)` is `"true"` exactly when b holds. |
| PiiPolicy.InitialHidePII | src/contexts/PIIContext.tsx:20-27 | A failed read or a missing key starts hidden. A stored value starts hidden exactly when it is `"true"`. |
| PiiPolicy.PiiVisible | src/contexts/PIIContext.tsx:31 | Visible exactly when the role is lab manager and the flag is off. |
| PiiPolicy.Toggled | src/contexts/PIIContext.tsx:41-44 | The flag changes exactly when the role is lab manager. |
| PiiPolicy.OnlyManagersSeePii | src/contexts/PIIContext.tsx:29-31 | A non-manager, or no profile, never sees PII, before or after a toggle. |
| PiiPolicy.ToggledTimesParity | src/contexts/PIIContext.tsx:41-44 | After n toggles a manager's flag is flipped exactly when n is odd, so two restore it. Anyone else's flag never moves. |
| PiiPolicy.PersistRoundTrip | src/contexts/PIIContext.tsx:20-39 | Writing `String(b)` under the key and mounting again reads back b, whatever else the store holds. |
| PiiPolicy.PIIProvider.constructor | src/contexts/PIIContext.tsx:18-39 | The flag comes from the initialiser. The mount-time persist effect stores it when the write succeeds and leaves the store untouched when it fails. |
| PiiPolicy.PIIProvider.SetProfile | src/contexts/PIIContext.tsx:19 | A new profile from the session provider replaces the old one; the flag is kept. |
| PiiPolicy.PIIProvider.Toggle | src/contexts/PIIContext.tsx:41-44 | The new flag is `Toggled(profile, old flag)`: flipped for a manager, unchanged otherwise. |
| PiiPolicy.PIIProvider.Persist | src/contexts/PIIContext.tsx:33-39 | A successful write stores `String(hidePII)` under the key. A failed one changes nothing. No other key ever changes. |
| PiiPolicy.PIIProvider.CanTogglePII | src/contexts/PIIContext.tsx:29 | The context's `canTogglePII` holds exactly when the current profile's role is lab manager. |
| PiiPolicy.PIIProvider.Visible | src/contexts/PIIContext.tsx:31 | The context's `piiVisible` holds exactly when toggling is allowed and the flag is off, so only a manager ever sees PII. |
| PiiPolicy.PIIProvider.ToggleAndPersist | src/contexts/PIIContext.tsx:33-44 | The flag becomes `Toggled` of the old flag, even when the write fails. When the flag did not change the effect does not run and the store is untouched. After a real change, a successful write stores `String(hidePII)` under the key and changes no other key, so the store is in sync; a failed one leaves the store as it was. |
| PiiPolicy.PIIProvider.Remount | src/contexts/PIIContext.tsx:20-39 | A fresh mount sets the flag from the store as it was, through the initialiser; the mount-time persist effect then stores that flag under the key when the write succeeds, and leaves the store as it was when it fails. |
| PiiPolicy.ToggleSurvivesReload | src/contexts/PIIContext.tsx:20-44 | For a manager, or with the store already in sync, a toggle whose write succeeds followed by a reload leaves the flag toggled and the store in sync, with only the key changed to the new flag; the profile is unchanged. |
| PiiPolicy.StaleReloadForNonManager | src/contexts/PIIContext.tsx:20-44 | For a non-manager a toggle writes nothing, so a reload reads back whatever the store already held, not the in-memory flag; the reload's own persist effect then writes that value back under the key when its write succeeds, and otherwise leaves the store as it was. |
| Domain.CanCreate | src/app/components/Experiments.tsx:61 | `canCreate` (also Samples.tsx:66 and LabNotebook.tsx:72) holds exactly when the role is not reviewer, so it is true without a profile. |
| Domain.CanSubmit | src/app/components/Experiments.tsx:91 | The create guard `!name.trim() \|\| !profile` lets a create through exactly when there is a profile and the name holds a character that is not JavaScript white space (also Samples.tsx:96 and LabNotebook.tsx:109). |
| Domain.IsLabManager | src/contexts/PIIContext.tsx:29 | `canTogglePII`, which is also `canDelete` at Experiments.tsx:62, holds exactly when the role is lab manager; a manager may also create. |
| Domain.OrNull | src/app/components/Samples.tsx:107-117 | A create stores a form string or null: the empty string becomes null, any other string itself. |
| ClientIds.Present | src/app/components/Experiments.tsx:36 | The numbers kept by `filter(!isNaN)` are exactly the parsed ones. |
| ClientIds.NextAfter | src/app/components/Experiments.tsx:36-38 | `max + 1` is above every parsed number. With none parsed it is the default + 1. Otherwise it is one past a parsed number. |
| ClientIds.NextSequentialId | src/app/components/Experiments.tsx:35-39 | The generated id is prefix + (max + 1) and is never in the list. |
| ClientIds.NextAfterDefault | src/app/components/Experiments.tsx:37 | When no suffix parses, the number is the default plus one. |
| ClientIds.NextAfterSingle | src/app/components/Experiments.tsx:37 | With one parsed number k the next is k + 1 even below the default, so the default is no lower bound. |
| ClientIds.NextAfterAsWritten | src/app/components/Experiments.tsx:36-38 | `Math.max(...nums) + 1` in double arithmetic, for numbers within 2^53 in magnitude. The result is at least every parsed number, but not necessarily above, and never beyond 2^53. |
| ClientIds.NextSequentialIdAsWritten | src/app/components/Experiments.tsx:35-39 | The generator as written, over doubles: the prefix followed by the rounded `max + 1`. |
| ClientIds.AsWrittenCollides | src/app/components/Experiments.tsx:35-39 | The list holding only prefix + `String(2^53)` makes the generator as written return that same id. |
| ClientIds.AsWrittenAgreesBelow2To53 | src/app/components/Experiments.tsx:35-39 | With every parsed suffix and the default from -2^53 up to but excluding 2^53, the double generator and the exact one agree. |
| Experiments.NextExpId | src/app/components/Experiments.tsx:35-39 | `EXP-` + (max parsed suffix + 1, default 2000); never equal to a listed id. |
| Experiments.NextExpIdDefault | src/app/components/Experiments.tsx:36-38 | No parsable suffix gives `EXP-2001`. |
| Experiments.Filtered | src/app/components/Experiments.tsx:78-87 | An order-preserving sublist holding exactly the experiments that match: search in name, id or researcher name (a null name never matches), and status and category each `All` or equal. |
| Experiments.FilteredShowsAll | src/app/components/Experiments.tsx:78-87 | An empty search with both filters on `All` returns the whole list. |
| Experiments.NewExperiment | src/app/components/Experiments.tsx:96-111 | The inserted row: the new id, the form's name, category, phase and priority, status `In Progress`, no tags, progress 0 and the creator as researcher. An empty due date or description is null, any other is the form's text. |
| Experiments.RemoveById | src/app/components/Experiments.tsx:127 | An order-preserving sublist holding every row with another id and none with this id. It is the list itself when no row has the id, and removed plus kept rows make up the list. |
| Experiments.ExperimentsScreen.constructor | src/app/components/Experiments.tsx:66-71 | The screen starts with the loaded rows. |
| Experiments.ExperimentsScreen.Create | src/app/components/Experiments.tsx:90-121 | Without a trimmed name or a profile nothing is sent and nothing changes. Otherwise the row built under `NextExpId` is sent. A returned row is prepended; no row leaves the list as it was. |
| Experiments.ExperimentsScreen.Delete | src/app/components/Experiments.tsx:124-129 | Once confirmed the list becomes `RemoveById`, whatever the remote delete returned. Unconfirmed, it is unchanged. |
| Samples.NextSampleId | src/app/components/Samples.tsx:38-42 | `SMP-` + (max parsed suffix + 1, default 1100); never equal to a listed id. |
| Samples.NextSampleIdDefault | src/app/components/Samples.tsx:38-42 | No parsable suffix gives `SMP-1101`. |
| Samples.Filtered | src/app/components/Samples.tsx:83-92 | An order-preserving sublist holding exactly the samples that match: search in name, id or experiment id (null never matches), and status and type each `All` or equal. |
| Samples.FilteredShowsAll | src/app/components/Samples.tsx:83-92 | An empty search with both filters on `All` returns every sample. |
| Samples.Stats | src/app/components/Samples.tsx:129-134 | The total and the Active, Low Stock and Quarantine counts. Each count, and their sum, is at most the total. |
| Samples.NewSample | src/app/components/Samples.tsx:100-118 | The inserted row has the new id, the form's name, type, storage and quantities, status `Active` and the creator recorded. An empty patient id, organization, experiment id, batch, volume, concentration or location is stored as null; a non-empty one as given. |
| Samples.PiiLine | src/app/components/Samples.tsx:257-265 | The PII line is absent exactly when neither a patient id nor an organization is present. With one present it is that field's mask; with both, the two masks joined by ` · `. |
| Samples.PiiLineVisible | src/app/components/Samples.tsx:257-265 | With PII visible, the card line shows the stored patient id, ` · ` and the organization. |
| Samples.HiddenPiiLineRevealsOnlyPrefix | src/app/components/Samples.tsx:257-265 | Hidden, two samples whose patient ids share the four-character prefix, and whose fields are present alike, show the same line. |
| Samples.NonManagerSeesHiddenLine | src/app/components/Samples.tsx:257-265 | For a non-manager the line under the policy's `piiVisible` is the hidden line, whatever the flag. |
| Samples.SamplesScreen.constructor | src/app/components/Samples.tsx:70-75 | The screen starts with the loaded rows. |
| Samples.SamplesScreen.Create | src/app/components/Samples.tsx:95-126 | Without a trimmed name or a profile nothing is sent and nothing changes. Otherwise the row built under `NextSampleId` is sent, and a returned row is prepended. |
| LabNotebook.ContentOrDefault | src/app/components/LabNotebook.tsx:86 | An empty body opens as the template, any other as itself. |
| LabNotebook.ThirdSegment | src/app/components/LabNotebook.tsx:49 | `parseInt(id.split('-')[2])`: NaN when the dash split has fewer than three pieces, otherwise exactly the parse of the third piece, and never negative. |
| LabNotebook.Contribution | src/app/components/LabNotebook.tsx:48-49 | Only ids that start with `NB-<year>` contribute; a contributing id gives its third piece. |
| LabNotebook.NoteNumber | src/app/components/LabNotebook.tsx:47-51 | The number is above every contribution. It is 1 when none parse, and one past a contribution otherwise. |
| LabNotebook.Padded | src/app/components/LabNotebook.tsx:52 | `padStart(3, '0')`: exactly three characters for a rendering shorter than three, the rendering's own length otherwise; zeros in front of the full decimal rendering (never cut), parsing back to the number. |
| LabNotebook.ContributionOfNoteId | src/app/components/LabNotebook.tsx:48-52 | The id `NB-<year>-<digits>` contributes the value of its digits. |
| LabNotebook.NextNoteId | src/app/components/LabNotebook.tsx:44-53 | `NB-<year>-` + padded (max + 1), never equal to a listed id. |
| LabNotebook.NextNoteIdDefault | src/app/components/LabNotebook.tsx:47-52 | With no considered id parsing, the id is `NB-<year>-001`. |
| LabNotebook.ParseTags | src/app/components/LabNotebook.tsx:112 | An order-preserving sublist of the trimmed comma pieces. Every non-empty piece occurs as often as it does among the pieces, and the empty piece never. No tag is empty, holds a comma, or starts or ends with white space. |
| Lists.FilterCounts | src/app/components/LabNotebook.tsx:112 | `filter` keeps every occurrence of a value the predicate accepts and none of one it rejects. |
| LabNotebook.TrimmedPieces | src/app/components/LabNotebook.tsx:112 | A trimmed comma piece holds no comma and has no surrounding white space. |
| LabNotebook.CanEdit | src/app/components/LabNotebook.tsx:70-71 | Holds exactly when the role is lab manager or the note's researcher is the profile; never without a profile. |
| LabNotebook.ReviewerMayEditOwnNote | src/app/components/LabNotebook.tsx:70-72 | A reviewer may edit a note recorded under their own id but may not create one. |
| LabNotebook.Filtered | src/app/components/LabNotebook.tsx:139-143 | An order-preserving sublist holding exactly the notes whose title or experiment id (null never) holds the search. |
| LabNotebook.FilteredShowsAll | src/app/components/LabNotebook.tsx:139-143 | The empty search shows every note. |
| LabNotebook.ResearcherLabel | src/app/components/LabNotebook.tsx:225-227 | One's own note shows the full name, or the e-mail when the name is null. Every other note shows `Researcher`. |
| LabNotebook.LabelRevealsNoOtherResearcher | src/app/components/LabNotebook.tsx:225-227 | Any two notes not owned by the viewer get the same label. |
| LabNotebook.ReplaceContent | src/app/components/LabNotebook.tsx:103 | Same length and order. Notes with the id change only their body; every other note is unchanged. |
| LabNotebook.ReplaceContentLastWins | src/app/components/LabNotebook.tsx:103 | Saving twice equals saving the second body once. |
| LabNotebook.ReplaceContentKeepsIds | src/app/components/LabNotebook.tsx:103 | A save leaves the list of ids unchanged. |
| LabNotebook.NewNote | src/app/components/LabNotebook.tsx:115-124 | The inserted note: template body, parsed tags, creator as researcher, the form's experiment id through `OrNull` (an empty one as null), and no attachments or images. |
| LabNotebook.Notebook.constructor | src/app/components/LabNotebook.tsx:58-91 | Loading selects the first note and opens its body or the template. With no notes nothing is selected and the editor holds the template. The editor is closed. |
| LabNotebook.Notebook.Select | src/app/components/LabNotebook.tsx:172 | Selecting opens the note's body, or the template for an empty body, read-only. |
| LabNotebook.Notebook.Type | src/app/components/LabNotebook.tsx:295 | The editor text becomes the typed text. |
| LabNotebook.Notebook.InsertSnippet | src/app/components/LabNotebook.tsx:276-280 | A toolbar snippet is appended to the editor text. |
| LabNotebook.Notebook.SaveContent | src/app/components/LabNotebook.tsx:94-105 | With a note selected and the update accepted, the notes become `ReplaceContent` with the editor text and the editor closes. Otherwise nothing changes. |
| LabNotebook.Notebook.CreateNote | src/app/components/LabNotebook.tsx:108-137 | Without a trimmed title or a profile nothing is sent. Otherwise the note built under `NextNoteId` is sent. A returned note is prepended, selected and opened for editing with the template; with none, nothing changes. |
| LabNotebook.Notebook.OpenCreated | src/app/components/LabNotebook.tsx:129-134 | The returned row goes in front, is selected, and opens in edit mode with the template. |
| Protocols.InitialStarred | src/app/components/Protocols.tsx:153-155 | Every catalogue id is a key, and the last protocol's own `starred` flag is its entry. |
| Protocols.InitialStarredKeys | src/app/components/Protocols.tsx:153-155 | The initial dictionary has exactly the catalogue's ids as keys. |
| Protocols.InitialStarredLastWins | src/app/components/Protocols.tsx:153-155 | A protocol whose id does not recur later starts with its own `starred` flag; for repeats, the last entry wins. |
| Protocols.Toggled | src/app/components/Protocols.tsx:294 | The clicked id shows the opposite of before (a missing id becomes starred, since `!undefined`). Every other entry is unchanged. |
| Protocols.ToggleTwiceShowsSame | src/app/components/Protocols.tsx:294 | Two clicks restore the displayed star of every id. |
| Protocols.ToggleTwiceRestores | src/app/components/Protocols.tsx:294 | For a known id, two clicks restore the dictionary. A missing id is left behind as false. |
| Protocols.Filtered | src/app/components/Protocols.tsx:159-166 | An order-preserving sublist holding exactly the protocols whose title or id holds the search, with category and status each `All` or equal. |
| Protocols.FilteredShowsAll | src/app/components/Protocols.tsx:159-166 | An empty search with both filters on `All` returns the catalogue. |
| Protocols.Summarize | src/app/components/Protocols.tsx:172-175 | The total, `Approved` and not-`Approved` counts; approved plus needs-attention equals the total. |
| Protocols.ProtocolsScreen.constructor | src/app/components/Protocols.tsx:153-155 | The star dictionary starts as `InitialStarred` of the catalogue. |
| Protocols.ProtocolsScreen.ToggleStar | src/app/components/Protocols.tsx:294 | A click replaces the dictionary by `Toggled` of it at that id. |

## Left out

- Remote calls to the hosted backend are outside the model; only their outcome is a parameter (the returned row, or whether a save succeeded). This covers loads, inserts, updates, deletes, `alert`, `confirm`, and the loading and saving spinners.
- React render scheduling and effect timing are not modelled. The persist effect runs at mount and right after each change of the flag; a toggle that does not change the flag triggers no write.
- `localStorage` is a `map<string, string>` whose reads and writes either succeed or fail, as a flag says. Quota and serialisation causes are not told apart.
- The `usePII` throw outside a provider (src/contexts/PIIContext.tsx:53-57) is not modelled: the model always has a provider.
- The current date is a parameter in `nextNoteId`: `year` is a natural number rather than `new Date().getFullYear()`.
- Dates are not modelled: `received_at`, `started_at`, `updated_at`, the expiry-month formatting, and the expiry date picker of the sample form.
- `stockPct` (src/app/components/Samples.tsx:203) uses floating point and is left out.
- The protocol catalogue's literal data (src/app/components/Protocols.tsx:23 onwards) is not reproduced. The screen is modelled over any catalogue.
- The form reset and modal flags after a create (`setShowNew`, `setNewForm`, `setOpenMenu`) are UI state and are left out.
- The gating of the sample form's PII inputs behind `piiVisible` (src/app/components/Samples.tsx:357) is rendering. It uses the same `PiiPolicy.PiiVisible` the model proves role-gated.
- The `'You'` fallback of the researcher label is unreachable, because a profile's e-mail is not nullable in the database types. `ResearcherLabel` has no branch for it.
- Case mapping is ASCII-only. Non-ASCII letters are left as they are by `Lower`/`Upper`, while JavaScript's `toLowerCase`/`toUpperCase` map them too.
- `parseInt` is modelled with leading white space, a sign, a `0x`/`0X` prefix and the longest digit prefix, giving an exact integer; radix arguments have no role here. JavaScript numbers are doubles: above 2^53 a parsed suffix is rounded, from 10^21 `String(n)` switches to exponent form (`1e+21`), and a suffix of about 310 digits parses to `Infinity`, giving `EXP-Infinity`. Only the rounding of `max + 1` at 2^53 is modelled, in `ClientIds.NextSequentialIdAsWritten`; the rounding of parsed suffixes beyond 2^53 in magnitude is not.
- ClientIds.NextAfter: computes in exact integers. In doubles, `max + 1` equals max at 2^53, so the result is not always above every parsed number; see `ClientIds.AsWrittenCollides`.
- ClientIds.NextSequentialId: the freshness promise holds for exact integers only. In the source, the list `["EXP-9007199254740992"]` gets back that same id (see Findings).
- ClientIds.NextAfterSingle: `k + 1` is exact here. In doubles, at k = 2^53 the sum rounds back to k.
- Experiments.NextExpId: never equal to a listed id only in exact integers. With `EXP-9007199254740992` listed, the source returns that same id.
- Samples.NextSampleId: never equal to a listed id only in exact integers. With `SMP-9007199254740992` listed, the source returns that same id.
- LabNotebook.NoteNumber: computes in exact integers. For `NB-<year>-9007199254740992` the source's `max + 1` rounds back to the same number.
- LabNotebook.Padded: the digits-only rendering holds for exact integers only. From 10^21 the source's `String(n)` gives exponent form such as `1e+21`.
- LabNotebook.ContributionOfNoteId: the digits' exact value. In the source a suffix above 2^53 is rounded to the nearest double.
- LabNotebook.NextNoteId: fresh only in exact integers. With `NB-<year>-9007199254740992` listed, the source returns that same id.
- Pii.MaskEmail: a string is a sequence of Unicode scalar values, while JavaScript indexes UTF-16 code units. For a local part starting outside the Basic Multilingual Plane, `local[0]` is one half of a surrogate pair, and the model keeps the whole character.
- Pii.MaskPatientId: `slice(0, 4)` counts UTF-16 code units. `maskPatientId("😀😀😀", false)` keeps two emoji in the source, but three characters here.
- Pii.GetInitials: `n[0]` and `slice(0, 2)` count UTF-16 code units, so a name starting outside the Basic Multilingual Plane gets a half surrogate pair in the source, but a whole character here.
- PiiPolicy.ToggleSurvivesReload: requires a manager or a store already in sync. In the source a non-manager's toggle writes nothing, so after an earlier failed write a reload reads the stale stored value; `PiiPolicy.StaleReloadForNonManager` states that case.
- The `defaultContent` literal is held in the notebook's constant field `template`, set at construction, so every member refers to the field rather than to the literal.
- The edit-button gate of the experiments list (src/app/components/Experiments.tsx:301) repeats `Domain.CanCreate` and the ownership test and are not separately modelled.

## Findings

| source | as written | input that shows it | evidently intended | confidence | as-written member | corrected member |
|---|---|---|---|---|---|---|
| src/app/components/Experiments.tsx:36-38 | `max + 1` on a parsed suffix in double arithmetic (also Samples.tsx:39-41 and LabNotebook.tsx:51-52) | the list `[{id: "EXP-9007199254740992"}]`: 2^53 + 1 rounds to 2^53, so the new id is `EXP-9007199254740992` again | an id that is not already listed | not executed | ClientIds.AsWrittenCollides | ClientIds.NextSequentialId |
