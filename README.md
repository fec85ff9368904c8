# avaliafront measurement core, in Dafny

This project models the logic of the avaliafront irrigation-evaluation front end. Its centre is the measurement grid. A field technician collects water at each emitter of a sector, laid out as rows (`linha`) by emitters (`emissor`). Each point gets several volume/time repetitions, from which the flow rate in L/h and the point's mean rate follow.

Around the grid the model covers:
- the label rules for rows and emitters;
- the older stand-alone grid component;
- the two-step delete confirmation dialog;
- the organisation slug generator and its schema;
- the area-creation and sign-up validation schemas;
- the helpers that unwrap the backend's response envelope.

Pure code is modelled as datatypes, functions and lemmas. Code that holds React state is modelled as classes: `GridStateHook`, `RepetitionEditor`, `MeasurementGrid` and `DeleteConfirmationDialog`. Their methods change fields under `modifies`. Callbacks such as `onGridChange` and `onOpenChange` are recorded as a sequence of the values passed to them. Loops that push into a new array (`initializeGrid`, `addColumn`, the legacy grid's effect) are `for` loops. Each one is proved against the function that specifies its result.

| file | models |
|---|---|
| `wrappers.dfy`, `seqs.dfy` | `Option`, `filter` and `filter(...).length` with their algebra |
| `calculations.dfy` | `calculateVazao`, `calculateMediaVazao`, `toFixed(2)` |
| `decimal.dfy` | `${n}` for integers, with a parser that reads it back |
| `labels.dfy` | `getLinhaLabel`, `getEmissorLabel` |
| `grid_model.dfy` | `Repeticao` and `GridPoint`, the row-major layout, point edits, queries |
| `grid_state.dfy` | `useGridState` |
| `grid_actions.dfy` | `useGridActions` |
| `measurement_modal.dfy` | the repetition editor of `MeasurementModal` |
| `legacy_grid.dfy` | the older `MeasurementGrid` component |
| `delete_dialog.dfy` | `DeleteConfirmationDialog` |
| `validation.dfy`, `slug.dfy` | validation issues; the organisation slug and `createOrganizationSchema` |
| `form_schemas.dfy` | `setorHidraulicoSchema`, `pivoCentralSchema`, `createAreaSchema` |
| `sign_up.dfy` | `signUpSchema` and the account name |
| `api_helpers.dfy` | `extractApiData`, `extractApiArray`, `isApiSuccess` |

## Model

| member | source | states |
|---|---|---|
| Calculations.Round2 | src/components/measurement-grid/utils/calculations.ts:11 | `toFixed(2)` of a non-negative rate is a non-negative value with two decimals, less than half a hundredth below it or at most half a hundredth above it |
| Calculations.Round2Unique | src/components/measurement-grid/utils/calculations.ts:11 | that rounding is the only two-decimal value in the half-open window around the exact rate |
| Calculations.CalculateVazao | src/components/measurement-grid/utils/calculations.ts:5-14 | 0.00 whenever the volume or the time fails to parse or is not positive; otherwise `(vol/temp)*3.6` to two decimals; never negative |
| Calculations.CalculateVazaoExamples | src/components/measurement-grid/utils/calculations.ts:9-14 | 100 mL over 10 s is 36.00 L/h, 360 mL over 360 s is 3.60; NaN volume or zero time gives 0.00 |
| Calculations.CalculateMediaVazao | src/components/measurement-grid/utils/calculations.ts:20-25 | 0 for an empty list; otherwise the value whose product with the length is the sum |
| Calculations.SumBounds | src/components/measurement-grid/utils/calculations.ts:23 | a sum of n values between lo and hi lies between n·lo and n·hi |
| Calculations.MeanBounds | src/components/measurement-grid/utils/calculations.ts:23-24 | the mean lies within any bounds of the entries |
| Calculations.MeanBetweenMinAndMax | src/components/measurement-grid/utils/calculations.ts:23-24 | the mean is at least some entry and at most some entry |
| Calculations.MeanOfConstant | src/components/measurement-grid/utils/calculations.ts:23-24 | the mean of a list of equal entries v is v |
| Decimal.ParseNatToString | src/components/measurement-grid/utils/labels.ts:9 | the decimal numeral of a natural reads back as that natural |
| Decimal.IntToStringInjective | src/components/measurement-grid/utils/labels.ts:9 | different integers are written as different numerals |
| Labels.LinhaLabelRules | src/components/measurement-grid/utils/labels.ts:3-9 | 1 → "1ª", 2 → "1/3", 3 → "2/3" whatever the total; then the last row → "Últ."; else the ordinal; earlier rules win |
| Labels.LinhaLabelsDistinct | src/components/measurement-grid/utils/labels.ts:3-9 | two different rows of one grid never share a label |
| Labels.EmissorLabelsDistinct | src/components/measurement-grid/utils/labels.ts:14-20 | two different emitters of one grid never share a label |
| GridModel.BuildRowMajor | src/components/measurement-grid/hooks/use-grid-state.ts:25-35 | the nested `for` loops produce exactly the row-major layout |
| GridModel.RowMajorShape | src/components/measurement-grid/hooks/use-grid-state.ts:26-35 | the layout has rows·emitters points, every in-range coordinate, nothing else, in strictly increasing row-major order |
| GridModel.InitialGridShape | src/components/measurement-grid/hooks/use-grid-state.ts:24-36 | the initial grid has each coordinate of the rectangle exactly once, in row-major order, all unmeasured with no repetitions |
| GridModel.AppendThenDropColumn | src/components/measurement-grid/hooks/use-grid-actions.ts:19-42 | appending a column beyond every emitter and filtering that emitter out gives back the grid |
| GridModel.ClearUndoesSave | src/components/measurement-grid/hooks/use-grid-actions.ts:44-82 | clearing a point erases whatever a save wrote there |
| GridModel.EditIsSingleUpdate | src/components/measurement-grid/hooks/use-grid-actions.ts:53-79 | with unique coordinates, a save or a clear changes exactly one index and leaves every other point as it was |
| GridModel.EditCounts | src/components/measurement-grid/hooks/use-grid-actions.ts:53-79 | saving an unmeasured point adds one to the measured count; clearing a measured point removes one |
| GridModel.VazoesOf | src/components/measurement-grid/hooks/use-grid-actions.ts:50-51 | the rates of the repetitions, one per repetition, in order |
| GridModel.Find | src/components/measurement-grid/components/measurement-modal.tsx:46-48 | `grid.find`: none exactly when no point has the coordinate, else the first one that has it |
| GridModel.MedidosCount | src/components/measurement-grid/hooks/use-grid-state.ts:45-47 | the measured count never exceeds the number of points |
| GridModel.GetVazoes | src/components/measurement-grid/hooks/use-grid-state.ts:53-57 | one value per measured point with a defined non-zero mean, no more than the measured count; a value is returned exactly when some such point has it as its mean |
| GridModel.GetVazoesConcat | src/components/measurement-grid/hooks/use-grid-state.ts:53-57 | the rates of two grids laid end to end are the rates of the first followed by those of the second: the order of the grid is kept |
| GridModel.GetVazoesSingle | src/components/measurement-grid/hooks/use-grid-state.ts:53-57 | a single point gives `[its mean]` when it is measured with a defined non-zero mean, and nothing otherwise |
| GridState.MaxEmissor | src/components/measurement-grid/hooks/use-grid-state.ts:17 | the largest emitter of a non-empty grid: at least every emitter and equal to one of them |
| GridState.GridStateHook.constructor | src/components/measurement-grid/hooks/use-grid-state.ts:10-12 | 4 rows, 4 emitters, empty grid |
| GridState.GridStateHook.Mount | src/components/measurement-grid/hooks/use-grid-state.ts:14-22 | a non-empty initial grid is taken unreported and sets the emitters to max(4, largest emitter); otherwise the 4×4 grid is laid out and reported |
| GridState.GridStateHook.InitializeGrid | src/components/measurement-grid/hooks/use-grid-state.ts:24-38 | the grid becomes the initial rectangle, and that grid is reported |
| GridState.GridStateHook.UpdateGrid | src/components/measurement-grid/hooks/use-grid-state.ts:40-43 | the grid is replaced wholesale and exactly the new grid is reported |
| GridState.GridStateHook.GetMedidosCount | src/components/measurement-grid/hooks/use-grid-state.ts:45-51 | the measured count is at most the total |
| GridState.GridStateHook.GetVazoes | src/components/measurement-grid/hooks/use-grid-state.ts:53-57 | the rates of the hook's grid as `GridModel.GetVazoes` gives them, no more than measured points |
| GridActions.AddColumn | src/components/measurement-grid/hooks/use-grid-actions.ts:19-34 | the old grid is an unchanged prefix, followed by rows 1..numLinhas of the new emitter, unmeasured; emitters grow by one; the new grid is reported; the class invariant holds |
| GridActions.RemoveLastColumn | src/components/measurement-grid/hooks/use-grid-actions.ts:36-42 | nothing changes at 4 emitters or fewer; otherwise exactly the last emitter's points go, the rest keep their order, emitters shrink by one |
| GridActions.SaveMeasurement | src/components/measurement-grid/hooks/use-grid-actions.ts:44-66 | an empty list changes nothing; otherwise the matching point becomes measured with these repetitions and their mean rate, every other point is kept |
| GridActions.RemoveMeasurement | src/components/measurement-grid/hooks/use-grid-actions.ts:68-82 | the matching point becomes unmeasured with no repetitions and no mean, every other point is kept |
| GridActions.AddColumnThenRemoveLastColumn | src/components/measurement-grid/hooks/use-grid-actions.ts:19-42 | adding a column and then removing the last restores the grid and the emitter count |
| MeasurementModal.WithVolume | src/components/measurement-grid/components/measurement-modal.tsx:63-74 | the volume becomes the parsed value or 0, the time and id are kept, and the rate is recomputed from the new volume and the kept time |
| MeasurementModal.WithTempo | src/components/measurement-grid/components/measurement-modal.tsx:76-87 | the time becomes the parsed value or 0, the volume and id are kept, and the rate is recomputed from the kept volume and the new time |
| MeasurementModal.RemoveOne | src/components/measurement-grid/components/measurement-modal.tsx:98-102 | filtering out one id of a list with distinct ids removes at most one entry |
| MeasurementModal.HandleSave | src/components/measurement-grid/components/measurement-modal.tsx:104-115 | keep open exactly when no repetition has positive volume and time; otherwise pass on exactly those repetitions, in order |
| MeasurementModal.FilterKeepsDistinctIds | src/components/measurement-grid/components/measurement-modal.tsx:100-106 | filtering never creates a duplicate id |
| MeasurementModal.PositiveVazoes | src/components/measurement-grid/components/measurement-modal.tsx:123 | one value per repetition with a positive rate, all positive; a value is returned exactly when some repetition has it as a positive rate; none exactly when no rate is positive |
| MeasurementModal.PositiveVazoesConcat | src/components/measurement-grid/components/measurement-modal.tsx:123 | the positive rates of two lists laid end to end are those of the first followed by those of the second |
| MeasurementModal.PositiveVazoesSingle | src/components/measurement-grid/components/measurement-modal.tsx:123 | a single repetition gives `[its rate]` when that rate is positive, and nothing otherwise |
| MeasurementModal.CalculateMedia | src/components/measurement-grid/components/measurement-modal.tsx:122-128 | 0 when no rate is positive; otherwise the mean of the positive rates to two decimals |
| MeasurementModal.MediaIgnoresNonPositive | src/components/measurement-grid/components/measurement-modal.tsx:122-128 | a repetition without a positive rate, anywhere in the list, does not change the mean |
| MeasurementModal.RepetitionEditor.constructor | src/components/measurement-grid/components/measurement-modal.tsx:39-41 | one empty repetition |
| MeasurementModal.RepetitionEditor.LoadOnOpen | src/components/measurement-grid/components/measurement-modal.tsx:44-61 | on open, the point's stored repetitions if it has any, else exactly three empty ones; unchanged otherwise; the list stays non-empty with distinct ids |
| MeasurementModal.RepetitionEditor.HandleVolumeChange | src/components/measurement-grid/components/measurement-modal.tsx:63-74 | only the entry with the id changes, by `WithVolume`; the length is kept |
| MeasurementModal.RepetitionEditor.HandleTempoChange | src/components/measurement-grid/components/measurement-modal.tsx:76-87 | only the entry with the id changes, by `WithTempo`; the length is kept |
| MeasurementModal.RepetitionEditor.AddRepeticao | src/components/measurement-grid/components/measurement-modal.tsx:89-96 | appends exactly one empty repetition when fewer than 8 exist, else nothing; the list never exceeds 8 |
| MeasurementModal.RepetitionEditor.RemoveRepeticao | src/components/measurement-grid/components/measurement-modal.tsx:98-102 | drops the id's entry only while more than one remains; the list is never empty |
| LegacyGrid.FreshCellsShape | src/components/ui/measurement-grid.tsx:29-45 | numLinhas×numEmissores unmeasured cells, each coordinate once, in row-major order |
| LegacyGrid.ToggleAt | src/components/ui/measurement-grid.tsx:47-53 | only the matching cell's `medido` flips; the length and the coordinates are kept |
| LegacyGrid.ToggleTwice | src/components/ui/measurement-grid.tsx:47-53 | toggling the same cell twice restores the grid |
| LegacyGrid.ToggleAbsent | src/components/ui/measurement-grid.tsx:47-53 | toggling a coordinate no cell has changes nothing |
| LegacyGrid.MedidosCount | src/components/ui/measurement-grid.tsx:74-76 | the count is at most the number of cells |
| LegacyGrid.ToggleCount | src/components/ui/measurement-grid.tsx:47-56 | toggling an existing cell moves the measured count by exactly one, up or down |
| LegacyGrid.LinhaLabelAgainstShared | src/components/ui/measurement-grid.tsx:58-64 | the local row label equals the shared one except on a last row beyond the third, where it reads "Última" |
| LegacyGrid.EmissorLabelIsOrdinal | src/components/ui/measurement-grid.tsx:66-72 | the local emitter label is the ordinal `${emissor}º` for every input |
| LegacyGrid.CompletenessNotice | src/components/ui/measurement-grid.tsx:167-181 | "Faltam k" with k = total − measured exactly when measured < total; "Completo" exactly when they are equal |
| LegacyGrid.NoticeAlwaysShown | src/components/ui/measurement-grid.tsx:167-181 | some notice is always shown, and it is "Completo" exactly when every cell is measured |
| LegacyGrid.MeasurementGrid.constructor | src/components/ui/measurement-grid.tsx:20-26 | fixed size props, empty grid, nothing reported |
| LegacyGrid.MeasurementGrid.Initialize | src/components/ui/measurement-grid.tsx:29-45 | a non-empty initial grid is used as it is, otherwise the fresh rectangle; nothing reported |
| LegacyGrid.MeasurementGrid.TogglePoint | src/components/ui/measurement-grid.tsx:47-56 | the grid becomes the toggled grid, and exactly that grid is reported |
| LegacyGrid.MeasurementGrid.GetMedidosCount | src/components/ui/measurement-grid.tsx:74-80 | the measured count is at most the total |
| LegacyGrid.MeasurementGrid.Notice | src/components/ui/measurement-grid.tsx:167-181 | a notice is always shown, and a "Faltam" notice carries total − measured |
| DeleteDialog.SecondStepFeedback | src/components/ui/delete-confirmation-dialog.tsx:112-135 | with nothing pending, the final button is enabled exactly when something is typed and the mismatch hint is not shown |
| DeleteDialog.DeleteConfirmationDialog.constructor | src/components/ui/delete-confirmation-dialog.tsx:34-39 | step 1, empty input, not loading; the word defaults to "EXCLUIR" |
| DeleteDialog.DeleteConfirmationDialog.HandleClose | src/components/ui/delete-confirmation-dialog.tsx:41-46 | back to step 1, empty input, not loading; `onOpenChange(false)` |
| DeleteDialog.DeleteConfirmationDialog.HandleFirstConfirm | src/components/ui/delete-confirmation-dialog.tsx:48-50 | step becomes 2, nothing else changes |
| DeleteDialog.DeleteConfirmationDialog.SetConfirmInput | src/components/ui/delete-confirmation-dialog.tsx:106 | typing sets the input and nothing else |
| DeleteDialog.DeleteConfirmationDialog.HandleFinalConfirm | src/components/ui/delete-confirmation-dialog.tsx:52-59 | nothing happens unless the input equals the word exactly; then loading starts and `onConfirm` is called once |
| DeleteDialog.DeleteConfirmationDialog.ConfirmSettled | src/components/ui/delete-confirmation-dialog.tsx:57-64 | success resets to step 1, empty input, not loading and closes; failure clears only the loading flag |
| DeleteDialog.DeleteConfirmationDialog.HandleCancel | src/components/ui/delete-confirmation-dialog.tsx:67-74 | step 2 goes back to step 1 and clears the input without closing; step 1 closes and resets |
| DeleteDialog.EnabledButtonStarts | src/components/ui/delete-confirmation-dialog.tsx:133-135 | a click on the enabled final button starts the deletion, after which the button is disabled |
| Slug.LowerChar | src/app/criar-organizacao/page.tsx:65 | ASCII capitals become their lower-case letter, and slug characters are left alone |
| Slug.Decompose | src/app/criar-organizacao/page.tsx:66 | a character stays as it is or becomes a base letter followed by one combining mark; ASCII is untouched |
| Slug.CollapseRuns | src/app/criar-organizacao/page.tsx:69-70 | a run at the start becomes a leading hyphen; the result is never longer |
| Slug.TrimHyphens | src/app/criar-organizacao/page.tsx:71 | the result is the input without its first character exactly when that is a hyphen, and without its last remaining character exactly when that is a hyphen; nothing else is removed |
| Slug.TrimHyphensPeels | src/app/criar-organizacao/page.tsx:71 | the input is the result with at most one hyphen added at each end; a first or last character that is not a hyphen is kept |
| Slug.CollapseRunsChars | src/app/criar-organizacao/page.tsx:69-70 | the output holds only hyphens and unmatched input characters |
| Slug.CollapseRunsNoDoubleHyphen | src/app/criar-organizacao/page.tsx:70 | after `-+ → -` no two hyphens are adjacent |
| Slug.RunBecomesHyphen | src/app/criar-organizacao/page.tsx:69 | each maximal run of whitespace becomes exactly one hyphen, with each side collapsed on its own |
| Slug.TrimHyphensShape | src/app/criar-organizacao/page.tsx:71 | trimming a string without double hyphens leaves no hyphen at either end and creates none inside |
| Slug.SlugifyShape | src/app/criar-organizacao/page.tsx:64-71 | a generated slug has only `[a-z0-9-]`, no double hyphen, and no hyphen at either end |
| Slug.SlugifyFixesSlugs | src/app/criar-organizacao/page.tsx:64-71 | a slug is left unchanged by the generator |
| Slug.SlugifyIdempotent | src/app/criar-organizacao/page.tsx:64-71 | generating a slug from a generated slug gives it back |
| Slug.AccentsDropped | src/app/criar-organizacao/page.tsx:66-67 | decomposing and dropping the marks replaces each precomposed letter by its base letter |
| Slug.PortugueseBaseLetters | src/app/criar-organizacao/page.tsx:65-67 | á à â ã é ê í ó ô õ ú ü ç reduce to a e i o u c, and their capitals are lowered first |
| Slug.ExampleAccentedName | src/app/criar-organizacao/page.tsx:64-71 | "Zé!" gives "ze" |
| Slug.CreateOrganizationIssues | src/app/criar-organizacao/page.tsx:24-33 | accepted exactly when the name has ≥ 3 characters and the slug has ≥ 3 characters all in `[a-z0-9-]`; a name issue exactly when the name is short |
| Slug.GeneratedSlugMatchesRegex | src/app/criar-organizacao/page.tsx:24-33 | every non-empty generated slug matches the regex, so only the length checks can fail |
| Slug.ExampleShortSlug | src/app/criar-organizacao/page.tsx:24-33 | the valid name "Zé!" gives the slug "ze", which fails only the slug length check |
| FormSchemas.FieldIssues | src/components/createSectors/form-schemas.ts:4-26 | one field's check: no issue exactly when its rule holds, at most one issue, under the field's name |
| FormSchemas.ObjectIssues | src/components/createSectors/form-schemas.ts:4-26 | an object is accepted exactly when every field's rule holds |
| FormSchemas.ObjectIssuesMention | src/components/createSectors/form-schemas.ts:29-60 | a failing field appears, under its own name, among the object's issues |
| FormSchemas.SetorHidraulicoSound | src/components/createSectors/form-schemas.ts:4-26 | an accepted hydraulic sector meets each stated rule |
| FormSchemas.SetorHidraulicoComplete | src/components/createSectors/form-schemas.ts:4-26 | a form meeting the stated rules is accepted by the hydraulic-sector schema |
| FormSchemas.SetorHidraulicoMeaning | src/components/createSectors/form-schemas.ts:4-26 | accepted exactly when: identificacao ≥ 3; the literal "SETOR_HIDRAULICO"; emissor_type is "MICROMICROASPERSOR" or "GOTEJAMENTO"; area_ha and the ten technical fields are non-empty. fabricante, modelo and condicoes_gerais are free |
| FormSchemas.PivoCentralSound | src/components/createSectors/form-schemas.ts:29-60 | an accepted pivot meets each stated rule |
| FormSchemas.PivoCentralComplete | src/components/createSectors/form-schemas.ts:29-60 | a form meeting the stated rules is accepted by the pivot schema |
| FormSchemas.PivoCentralMeaning | src/components/createSectors/form-schemas.ts:29-60 | accepted exactly when: identificacao ≥ 3; the literal "PIVO_CENTRAL"; a known emitter type; fertirrigacao is "true" or "false"; every other required field, data_ultima_avaliacoes included, is non-empty. problemas_observados is free |
| FormSchemas.CreateAreaIssues | src/components/createSectors/form-schemas.ts:62-65 | an accepted form names one of the two sector types |
| FormSchemas.CreateAreaMeaning | src/components/createSectors/form-schemas.ts:62-65 | accepted exactly when the schema its `tipo_setor` names accepts it; any other `tipo_setor` is a single discriminator issue |
| FormSchemas.AnyTextInNonEmptyField | src/components/createSectors/form-schemas.ts:8-59 | numeric-looking fields are only checked for non-emptiness: any non-empty text, "abc" included, keeps an accepted form accepted |
| FormSchemas.OptionalFieldsMayBeAbsent | src/components/createSectors/form-schemas.ts:10-56 | removing fabricante, modelo, condicoes_gerais and problemas_observados keeps an accepted form accepted |
| FormSchemas.OfferedSprinklerOptionRejected | src/components/createSectors/pivo-central-form.tsx:131 | choosing the pivot form's "MICROASPERSOR" gives every pivot form an issue on emissor_type |
| FormSchemas.OfferedOptionsAccepted | src/components/createSectors/form-schemas.ts:39 | with the schema's own values offered, every choice keeps an accepted pivot form accepted |
| SignUp.MinIssues | src/components/sign-up.tsx:22-27 | a minimum-length string field has no issue exactly when it is present and long enough |
| SignUp.EmailIssues | src/components/sign-up.tsx:26 | the email field has no issue exactly when it is present and passes the email check |
| SignUp.SignUpIssues | src/components/sign-up.tsx:20-34 | the refinement's issue comes after all the field issues |
| SignUp.SignUpMeaning | src/components/sign-up.tsx:20-34 | accepted exactly when: both names have ≥ 2 characters; the email check passes; the password has ≥ 8 characters; the confirmation equals the password |
| SignUp.MismatchReported | src/components/sign-up.tsx:31-34 | with every field present, the last issue is the mismatch on passwordConfirmation exactly when the passwords differ |
| SignUp.MissingFieldSkipsRefinement | src/components/sign-up.tsx:31-34 | a missing field rejects the form without a mismatch issue |
| SignUp.ImageIgnored | src/components/sign-up.tsx:29 | the image never affects the outcome |
| SignUp.AccountName | src/components/sign-up.tsx:77 | the account name is one character longer than the two names together |
| SignUp.SplitAtFirstSpace | src/components/sign-up.tsx:77 | splitting at the first space recovers the two sides, with no space in the first |
| SignUp.AccountNameSplits | src/components/sign-up.tsx:77 | for a first name without spaces, both names can be read back from the account name |
| ApiHelpers.Get | src/lib/api-helpers.ts:17 | property access fails exactly on null and undefined; a missing field is undefined |
| ApiHelpers.OptionalGet | src/lib/api-helpers.ts:17 | optional chaining is undefined on null or undefined, else the plain access |
| ApiHelpers.Or | src/lib/api-helpers.ts:17 | `a || b` is `a` when truthy, else `b` |
| ApiHelpers.ExtractApiData | src/lib/api-helpers.ts:16-18 | fails exactly when the response itself is null or undefined |
| ApiHelpers.ExtractApiArray | src/lib/api-helpers.ts:23-26 | fails exactly when the response is null or undefined, and otherwise returns an array |
| ApiHelpers.IsApiSuccess | src/lib/api-helpers.ts:31-33 | fails exactly when the response is null or undefined |
| ApiHelpers.ExtractEnvelope | src/lib/api-helpers.ts:16-18 | a truthy payload in an envelope is extracted; a falsy one (0, "", false, null, undefined) falls back to the envelope |
| ApiHelpers.ExtractUnwrapped | src/lib/api-helpers.ts:16-18 | data without a `data` field of its own is returned as it is |
| ApiHelpers.ExtractArrayAgreesWithData | src/lib/api-helpers.ts:23-26 | the array version is the data version when that is an array, and `[]` otherwise |
| ApiHelpers.ArrayPayloadUnchanged | src/lib/api-helpers.ts:23-26 | an array payload, in an envelope or not, is returned unchanged |
| ApiHelpers.SuccessUnlessExplicitlyFalse | src/lib/api-helpers.ts:31-33 | false exactly when `data` is an object whose `success` is `false`; a missing data or success gives true |

## Left out

- Numbers are exact reals. IEEE binary floating point, NaN arithmetic and `Infinity` are not modelled. `parseFloat` is an `Option<real>` whose `None` is NaN. `toFixed(2)` is exact half-up rounding to hundredths; binary representation errors at ties are not modelled.
- `calculateVazao` returns the string `toFixed(2)` and `calculateMedia` returns either `0` or a string. The model returns the number that string denotes, since every caller reads it back with `parseFloat` or displays it.
- `crypto.randomUUID` is not modelled. Identifiers are naturals passed in as parameters, with `requires` that they are fresh: the uniqueness UUIDs are relied on for. Stored repetitions loaded on open are required to have distinct ids.
- React scheduling is not modelled: `useState` batching, effect timing, effect dependency lists and re-rendering. Each handler runs to completion on the current state. `onGridChange`, `onOpenChange` and `onConfirm` are recorded as the values passed to them, and the result of the asynchronous `onConfirm` is an input of `ConfirmSettled`.
- The legacy grid's effect re-runs when its size props change; the model runs it once per call of `Initialize`. Negative sizes make its loops run zero times. Fractional sizes are not modelled, since sizes are integers.
- LegacyGrid.EmissorLabel, Labels.LinhaLabel and Labels.EmissorLabel cover integer positions only; `${n}` for fractional or non-finite numbers is not modelled, and integers of magnitude ≥ 1e21, which JavaScript writes in exponent notation, are rendered as plain digits by Decimal.IntToString.
- Slug.Decompose and Slug.LowerChar: `normalize('NFD')` and `toLowerCase` are modelled for ASCII and the precomposed Latin-1 letters only. Every other character is left unchanged, including letters outside Latin-1 and the Turkish and German special cases.
- String lengths are counted in Unicode characters, not UTF-16 code units. The two differ only for characters outside the Basic Multilingual Plane.
- Zod's own error texts ("Required", invalid enum, invalid literal, invalid discriminator) are shortened to fixed messages. The messages the schemas declare are kept verbatim.
- SignUp.SignUpIssues: the refinement runs when no field was missing, since a too-short value does not stop it. That is zod 3's behaviour; a library version that skips refinements after any issue would report the mismatch less often.
- SignUp.EmailIssues: zod's email pattern is not modelled; it is a parameter `isEmail`.
- The sign-up image file's conversion to base64 is not modelled, and neither are the calls to the authentication client, the Google sign-in and the router. The sign-in schema is not part of this model.
- Form inputs are modelled as strings or absent. Values of other types, and the keys the schemas strip, are not modelled.
- ApiHelpers.Get models property access on arrays, strings, numbers and booleans as undefined, which holds for the `data` and `success` properties the helpers read. Prototype properties are not modelled.
- The 3D flow visualisation, the axios instance and its interceptors, toasts, alerts, the dashboard and the other pages are not modelled. Their rendering and I/O have no logic of this core.
- The presentational forms and grid components (grid display, grid controls, grid stats) are not modelled. They only render state, or reuse the functions above.

## Findings

| source | as written | input that shows it | evidently intended | confidence | as-written member | corrected member |
|---|---|---|---|---|---|---|
| src/components/createSectors/pivo-central-form.tsx:131 | the pivot form offers the emitter value "MICROASPERSOR", but the pivot schema (src/components/createSectors/form-schemas.ts:39) only accepts "MICROMICROASPERSOR" or "GOTEJAMENTO" | a pivot form with emissor_type "MICROASPERSOR" (the "Sprays/Sprinklers" choice) always fails validation on emissor_type | offer "MICROMICROASPERSOR", as the hydraulic-sector form and both schemas do | high (not executed) | FormSchemas.OfferedSprinklerOptionRejected | FormSchemas.OfferedOptionsAccepted |
