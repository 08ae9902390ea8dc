# Registration form for nursing professionals, in Dafny

The system is a single web form component (`app/components/a.tsx`). Nursing
technicians use it to register for a call. They fill in the following:

- personal data, the council number (COREN), bank data and a pix key;
- an address, a marital status and contact numbers;
- six documents to attach, and a consent box.

The component masks what is typed and validates the whole form. On submit it
writes a record to a database. It then uploads the attached files one at a
time and writes their storage paths back into the record. If any step fails,
it undoes what was done.

The model has seven modules:

- `Text`: the string primitives the component relies on. These are digit and
  hexadecimal filtering (`replace(/\D/g, '')`), clamped `substring`, insertion
  of a separator, `includes` and `toLowerCase`.
- `Masks`: input masks as groups of kept characters, each introduced by a
  separator (`Render`). It also holds the component's way of building masked
  text by inserting separators at absolute indices (`Spliced`), and the
  theorem that the two agree (`SplicedRenders`).
- `Formatters`: the six formatters, written index by index as the component
  writes them. Each one is proved to render its mask, and the user-visible
  promises follow from that: length bound, layout, digits kept, emptiness and
  idempotence.
- `Form`: the form data, the input events and the updater of the change
  handler.
- `Validation`: `validateForm`, modelled as the sequence of checks the
  component runs, each overwriting the message of one key. It is proved equal
  to an independent per-key reference (`FieldError`). It is also proved to
  accept exactly the forms described by `Acceptable`.
- `Saga`: the store work of a submission. The database and the storage are
  an oracle that answers each call (`StoreScript`), and the generated file
  names are an input. The work itself is the following:
  - the insert;
  - the upload loop with its ledger of confirmed paths;
  - the path update;
  - the rollback that removes the confirmed files and deletes the record.

  A pure specification (`Saga`) sits next to the step-by-step methods that
  are proved equal to it (`RunSaga`, `TransferFiles`, `UploadQueue`,
  `CleanUp`).
- `Component`: the component's state hooks as the fields of a class. The
  change, blur, close-modal and submit handlers update these fields. The
  submit handler is proved equal to a pure `Submit` on the whole screen
  state, and the promises of a submission are lemmas about `Submit`.

The random-key formatter keeps up to 36 hexadecimal digits and lets its last
group grow to 16 characters, because it cuts at `36 + 4` characters. The
UUID pattern of the validator wants exactly 32 digits. `RandomPixIsUuid`
states what this means: a formatted key passes exactly when 32 hexadecimal
digits were typed.

An empty mobile number gets the "invalid" message, not the "required" one,
because the length check runs after the required check and overwrites it
(`EmptyCelularReportedInvalid`).

## Model

The functions that model the source's own functions carry no row of their
own. The rows of the members proved about them specify them:

- `FormatCoren`, `FormatCep`, `FormatCpf`, `FormatCnpj`, `FormatRandomPix`
  and `FormatCelular`: the `*RendersMask`, `*Promises` and `*Example` rows.
- `Form.Updated`: `UpdatedTarget` and `UpdatedFrame`.
- `Validation.Verdict`: `VerdictByField`, `VerdictText` and `VerdictAttachment`.
- `Saga.Saga`, `Saga.Transfer` and `Saga.Rollback`: `RunSaga`, `TransferFiles`,
  `CleanUp`, `TransferShape`, `RollbackShape` and the `Saga` lemmas after them.
- `Component.Submit`: `CadastroForm.HandleSubmit` and the `Component` lemmas.

| member | source | states |
|---|---|---|
| Text.Filter | app/components/a.tsx:165 | the filtered text keeps only characters of the class and is no longer than the input |
| Text.FilterAppend | app/components/a.tsx:165 | filtering distributes over concatenation |
| Text.FilterKept | app/components/a.tsx:165 | filtering text made only of kept characters changes nothing |
| Text.FilterSkip | app/components/a.tsx:230-231 | removing one character that is not kept leaves the filtered text unchanged |
| Text.PrefixDropSplit | app/components/a.tsx:166-175 | `substring(0, n)` starts the text and is all of it once n reaches its length; `substring(0, n)` followed by `substring(n)` gives back the whole text |
| Text.InsertAt | app/components/a.tsx:166-168 | the separator lands at index p when the text is longer than p; otherwise the text is unchanged |
| Text.InsertAtSplit | app/components/a.tsx:166-168 | inserting right after a prefix puts the separator between the prefix and the rest |
| Text.InsertAtBehind | app/components/a.tsx:166-168 | an insertion beyond a prefix happens inside the suffix |
| Text.PrefixBehind | app/components/a.tsx:175 | cutting beyond a prefix cuts inside the suffix |
| Text.PrefixDrop | app/components/a.tsx:238-247 | the first a characters followed by the next b characters are the first a+b characters |
| Text.Lower | app/components/a.tsx:533-535 | lower-casing keeps the length |
| Text.LowerIdempotent | app/components/a.tsx:533-535 | lower-casing twice is lower-casing once |
| Text.NatText | app/components/a.tsx:565 | the decimal text of an id is non-empty and made of digits |
| Masks.RenderWithinWidth | app/components/a.tsx:162-271 | a rendered mask is never wider than its template |
| Masks.RenderKeeps | app/components/a.tsx:162-271 | the kept characters of a rendering are the first Capacity characters of the input |
| Masks.RenderIgnoresOverflow | app/components/a.tsx:162-271 | characters beyond the mask's capacity do not change the rendering |
| Masks.RenderFits | app/components/a.tsx:162-271 | a rendering matches its template place by place: a kept character on each '#', the separator elsewhere |
| Masks.SplicedRenders | app/components/a.tsx:162-271 | inserting the separators at their absolute indices and cutting at the width gives the group rendering |
| Formatters.CorenRendersMask | app/components/a.tsx:163-176 | `formatCoren` renders the digits in groups 2.3.3-1 |
| Formatters.CepRendersMask | app/components/a.tsx:179-186 | `formatCep` renders the digits in groups 5-3 |
| Formatters.CpfRendersMask | app/components/a.tsx:189-202 | `formatCpf` renders the digits in groups 3.3.3-2 |
| Formatters.CnpjRendersMask | app/components/a.tsx:205-221 | `formatCnpj` renders the digits in groups 2.3.3/4-2 |
| Formatters.RandomPixRendersMask | app/components/a.tsx:254-271 | `formatRandomPix` renders the hexadecimal digits in groups 8-4-4-4-16 |
| Formatters.CelularRendersMask | app/components/a.tsx:224-250 | `formatCelular` renders the heuristic's digits as (2) 1 4-4 |
| Formatters.RenderPromises | app/components/a.tsx:162-271 | any such mask is bounded by its width, fits its template, keeps the first Capacity characters, is empty only for empty input, and re-formats to itself |
| Formatters.CorenMaskShape | app/components/a.tsx:163-176 | the council mask's template is ##.###.###-# with 9 digit places |
| Formatters.CepMaskShape | app/components/a.tsx:179-186 | the postal-code template is #####-### with 8 digit places |
| Formatters.CpfMaskShape | app/components/a.tsx:189-202 | the CPF template is ###.###.###-## with 11 digit places |
| Formatters.CnpjMaskShape | app/components/a.tsx:205-221 | the CNPJ template is ##.###.###/####-## with 14 digit places |
| Formatters.RandomPixLayout | app/components/a.tsx:257-270 | the random-key template has 40 places, with '-' exactly at 8, 13, 18 and 23 |
| Formatters.RandomPixMaskShape | app/components/a.tsx:257-270 | the random-key mask is 40 wide with 36 hexadecimal places |
| Formatters.CelularMaskShape | app/components/a.tsx:237-249 | the mobile template is (##) # ####-#### with 11 digit places |
| Formatters.CorenPromises | app/components/a.tsx:163-176 | at most 12 characters, laid out as ##.###.###-#, keeps the first 9 digits, empty iff no digit, idempotent |
| Formatters.CepPromises | app/components/a.tsx:179-186 | at most 9 characters, laid out as #####-###, keeps the first 8 digits, empty iff no digit, idempotent |
| Formatters.CpfPromises | app/components/a.tsx:189-202 | at most 14 characters, laid out as ###.###.###-##, keeps the first 11 digits, empty iff no digit, idempotent |
| Formatters.CnpjPromises | app/components/a.tsx:205-221 | at most 18 characters, laid out as ##.###.###/####-##, keeps the first 14 digits, empty iff no digit, idempotent |
| Formatters.RandomPixPromises | app/components/a.tsx:254-271 | at most 40 characters, '-' at 8, 13, 18 and 23 and hexadecimal elsewhere, keeps the first 36 hexadecimal digits with their case, empty iff none, idempotent |
| Formatters.CelularPromises | app/components/a.tsx:224-250 | at most 16 characters in the (##) # ####-#### layout; when the text got shorter with as many digits as before, the last digit is dropped, otherwise the first 11 digits are kept; no digit gives ""; re-formatting the result, with or without it as the previous text, gives it back |
| Formatters.CorenExample | app/components/a.tsx:163-176 | "12345678901234" is shown as "12.345.678-9" |
| Formatters.CepExample | app/components/a.tsx:179-186 | "12345678" is shown as "12345-678" |
| Formatters.CelularExample | app/components/a.tsx:224-250 | "21987654321" is shown as "(21) 9 8765-4321" |
| Formatters.CelularTyping | app/components/a.tsx:224-250 | typing one more digit at the end shows the longer number, so the backspace heuristic does not interfere |
| Formatters.CelularDeleteSeparator | app/components/a.tsx:227-234 | deleting a mask character of a shown number removes the last digit instead |
| Form.WithText | app/components/a.tsx:433 | writing a text field changes that field and nothing else |
| Form.WithFile | app/components/a.tsx:392-394 | writing a file field changes that field and nothing else |
| Form.UpdatedFrame | app/components/a.tsx:399-447 | an event changes no key outside its own, the pix key on a type change, and the marital attachment on "solteiro" |
| Form.UpdatedTarget | app/components/a.tsx:386-437 | the key an event names gets the checked state, the first file, the masked mobile number, the pix key masked by the current type, the digits only, or the raw text |
| Form.PixTypeClearsPix | app/components/a.tsx:426-431 | changing the key type empties the pix key and stores the new type |
| Form.SingleClearsAttachment | app/components/a.tsx:436-441 | choosing "solteiro" drops the marital-status attachment; any other choice keeps it |
| Form.DigitsOnlyFieldsHoldDigits | app/components/a.tsx:423-425 | the number, agency, account and check-digit fields hold exactly the digits of the typed text, in order and nothing else; text made only of digits is kept as typed |
| Form.CelularFieldsMasked | app/components/a.tsx:403-405 | both mobile fields always hold at most 16 characters in the mobile layout |
| Form.PixFieldMasked | app/components/a.tsx:405-422 | the pix key keeps the first 11 or 14 digits for cpf and cnpj and the first 36 hexadecimal digits for a random key; for a mobile key it is the mobile mask with the previous key as the previous text; an e-mail key is the raw text |
| Form.TypedConselhoMasked | app/components/a.tsx:718 | the council field keeps the first 9 digits of what was typed |
| Form.TypedCepMasked | app/components/a.tsx:914 | the postal-code field keeps the first 8 digits of what was typed |
| Validation.EmailShape | app/components/a.tsx:291 | the e-mail pattern holds iff there is no white space, exactly one '@' (not first), and a '.' inside the text after it |
| Validation.RequiredFieldsAre | app/components/a.tsx:279-283 | every text field is required except the pix key, the address complement and the second mobile number |
| Validation.ValidateForm | app/components/a.tsx:275-383 | a key has an error iff the per-field reference `FieldError` gives it one, and the message is the reference's |
| Validation.VerdictText | app/components/a.tsx:284-351 | for a text key, the sequential checks leave exactly the per-field reference message |
| Validation.VerdictAttachment | app/components/a.tsx:354-376 | for a file key, the sequential checks leave exactly the per-field reference message |
| Validation.VerdictByField | app/components/a.tsx:275-383 | for every key, the sequential checks leave exactly the per-field reference message, or none when it has none |
| Validation.TextVerdict | app/components/a.tsx:275-383 | a text key is free of errors iff its reference message is absent |
| Validation.NoErrorsIffAcceptable | app/components/a.tsx:275-383 | no error at all iff every required text is filled, every format check passes, the required files are attached and the declaration is checked |
| Validation.NoFieldErrorFilled | app/components/a.tsx:284-288 | a form with no text error has every required field filled |
| Validation.EmptyRequiredFails | app/components/a.tsx:284-288 | an empty required field always has an error |
| Validation.AcceptableNoFieldError | app/components/a.tsx:275-383 | an acceptable form has no error on any key |
| Validation.EmptyCelularReportedInvalid | app/components/a.tsx:305-309 | an empty mobile number is reported with the length message, not the required one |
| Validation.PixWithoutType | app/components/a.tsx:316-351 | with no key type, the type field asks for a type when a key was typed and is required otherwise, and the key itself has no error |
| Validation.AnexoRequiredWhen | app/components/a.tsx:368-371 | the marital attachment is missing iff a status other than "solteiro" is chosen and no file is attached |
| Validation.ReservistaRequiredWhen | app/components/a.tsx:373-376 | the military certificate is missing iff the sex is "homem" and no file is attached |
| Validation.MarriedWithoutAttachment | app/components/a.tsx:368-371 | an otherwise acceptable married applicant without the attachment gets exactly one error, on the attachment |
| Validation.MaskedConselhoPasses | app/components/a.tsx:295-298 | a masked council number passes iff at least 9 digits were typed |
| Validation.MaskedCepPasses | app/components/a.tsx:300-303 | a masked postal code passes iff at least 8 digits were typed |
| Validation.MaskedCelularPasses | app/components/a.tsx:305-309 | a mobile number left by the change handler passes iff the backspace heuristic kept at least 11 typed digits |
| Validation.RandomPixIsUuid | app/components/a.tsx:340-345 | a formatted random key matches the UUID pattern iff exactly 32 hexadecimal digits were typed |
| Validation.RandomPixUuidShape | app/components/a.tsx:340-345 | a formatted random key of 36 characters matches the UUID pattern |
| Validation.MaskedRandomPixPasses | app/components/a.tsx:340-345 | a masked random key passes validation iff exactly 32 hexadecimal digits were typed |
| Saga.RowIgnoresFiles | app/components/a.tsx:498-520 | the inserted record does not depend on the attached files |
| Saga.UploadPlanFaithful | app/components/a.tsx:552-558 | the upload queue holds exactly the attached files, each with its own file, in the fixed order of the inputs |
| Saga.PathText | app/components/a.tsx:563-565 | the storage path `folder/id/name.ext` keeps the extension of the chosen file |
| Saga.ExtensionAfterDot | app/components/a.tsx:563-564 | the text after the last '.' of `head.ext` is `ext` |
| Saga.DuplicateHintIgnoresCase | app/components/a.tsx:529-539 | which value a unique violation is blamed on does not depend on the case of the database's message |
| Saga.QueuePaths | app/components/a.tsx:562-565 | the j-th upload goes to the j-th queued file's folder, under the record's id, with the j-th generated name and the chosen file's name for its extension |
| Saga.FirstFailureIs | app/components/a.tsx:562-577 | the number of uploads confirmed before the first failure is the k at which they stop succeeding |
| Saga.UploadQueue | app/components/a.tsx:562-577 | the loop uploads in queue order up to and including the first failure, and ledgers exactly the confirmed paths |
| Saga.TransferFiles | app/components/a.tsx:562-589 | the uploads and then the path update, made only when a path was collected |
| Saga.CleanUp | app/components/a.tsx:609-650 | the rollback removes the ledger when it is non-empty, deletes the record only for a non-zero id, and reports the critical message iff the delete fails |
| Saga.RunSaga | app/components/a.tsx:490-654 | the step-by-step submission makes the calls and reaches the outcome of the pure specification |
| Saga.TransferShape | app/components/a.tsx:562-589 | the transfer uploads to the queued paths up to the first failure, its ledger is what the storage confirmed, and it fails iff an upload or the path update fails |
| Saga.RollbackShape | app/components/a.tsx:609-650 | the rollback uploads nothing, removes exactly the ledger when it is non-empty, and deletes exactly a non-zero id |
| Saga.RollbackRemovesConfirmed | app/components/a.tsx:573-615 | the files removed are exactly those the storage confirmed, and a removal happens iff the submission failed after confirming some |
| Saga.DeleteIffIdObtained | app/components/a.tsx:629-634 | the record is deleted iff the submission failed after an insert that returned a non-zero id |
| Saga.CriticalIffDeleteFails | app/components/a.tsx:636-650 | the clean-up failure is reported iff a delete was made and it failed; after a record was inserted, any other failure reports the first rejected upload's column, or else the path update's own message |
| Saga.InsertFailureStops | app/components/a.tsx:522-547 | a failed insert, or one returning no row, ends the submission with no other call and with its own message |
| Saga.RemoveReplyIgnored | app/components/a.tsx:615-626 | the answer to the file removal never changes the submission |
| Saga.SuccessIff | app/components/a.tsx:490-606 | a submission succeeds iff the insert returns a record, every queued upload is stored and the path update, when made, succeeds |
| Saga.UploadsFollowQueue | app/components/a.tsx:562-577 | the uploads made are the queued paths up to and including the first failure, and none without a record |
| Saga.PatchNamesEveryUpload | app/components/a.tsx:576-589 | a path update is made only for the record's id after all uploads succeeded, and it maps exactly the queued columns to the paths the storage reported |
| Saga.FirstUploadFails | app/components/a.tsx:562-650 | when the first upload fails, nothing is removed and the record is deleted |
| Saga.ThirdUploadFails | app/components/a.tsx:562-650 | when the third of three uploads fails, the first two are removed and the record is deleted |
| Component.CadastroForm.constructor | app/components/a.tsx:103-140 | the component mounts with the empty form, no errors, nothing touched, no submission and no messages |
| Component.CadastroForm.HandleChange | app/components/a.tsx:386-450 | the form becomes the updater's result, the key is marked touched, the errors are recomputed from the updated form once a submission was attempted, and displayed errors stay those of the displayed form |
| Component.CadastroForm.HandleBlur | app/components/a.tsx:453-459 | the key is marked touched and the errors are recomputed once a submission was attempted |
| Component.CadastroForm.CloseModal | app/components/a.tsx:668-670 | dismissing the modal clears its message and nothing else |
| Component.CadastroForm.SendToStore | app/components/a.tsx:490-654 | after the guards, the store work runs as the saga specifies; success clears the form, errors, touched keys and the submitted flag and shows the success messages, a failure shows its description in the status line and the modal, and the button is enabled again |
| Component.CadastroForm.HandleSubmit | app/components/a.tsx:462-654 | the handler leaves the state and makes the calls of `Submit`, and always ends with the button enabled and the errors matching the form |
| Component.ErrorsStopFirst | app/components/a.tsx:464-481 | a form with errors is stopped whatever the time: the errors are shown, every key is touched, and the store is not called |
| Component.LateFormStopped | app/components/a.tsx:483-488 | an acceptable form sent after the deadline is stopped without calling the store |
| Component.StoreCalledIff | app/components/a.tsx:477-527 | the store is called, starting with the insert, iff the form is acceptable and the instant is not after the deadline, so the deadline itself is still in time |
| Component.SubmitSucceedsIff | app/components/a.tsx:462-606 | success is shown iff the form is acceptable, in time, and the insert, every upload and the path update succeed |
| Component.SuccessClears | app/components/a.tsx:591-606 | a success clears the form, the errors and the touched keys, and shows the success message in the status line and the modal |
| Component.FailureKeepsForm | app/components/a.tsx:464-488 | a failure keeps the typed form, marks every key touched, shows an error, and shows it in the modal too once the store was reached |
| Component.StoreFailureMessage | app/components/a.tsx:609-650 | a failure in the store work shows the description of the saga's problem |
| Component.SubmitConsistent | app/components/a.tsx:462-654 | after a submission the errors shown belong to the form shown and the button is enabled |

## Left out

- The database and file storage clients are not modelled. Each call is answered by a `StoreScript` oracle, and the calls made are returned as a trace.
- The generated file names (`uuidv4`) are not modelled. They are an input sequence, and the paths are kept structured (`StoragePath`) and rendered by `PathText`.
- The path written back for each column is the one the storage reports in its answer (`uploadData.path`). It is taken from the oracle, not from the requested path.
- The answer to the file removal is only logged by the component, so it is an oracle input that nothing depends on.
- The bucket name, `cacheControl` and `upsert` options, file contents and content types are not modelled.
- React hooks, refs and the DOM are not modelled. The handlers run one at a time on the class's fields; resetting the file and pix inputs through refs is not modelled.
- The effect that rewrites the status line when the errors change (lines 657-665) is not modelled. In the component it runs after a submission that passed validation and was not sent because the deadline had passed. It then replaces "O prazo para envio foi encerrado." with "É possível enviar o formulário!" in the success tone. So the status that `LateFormStopped` states is what the handler sets, not what stays on screen.
- The countdown timer (lines 144-160) is not modelled.
- The modal component and the JSX, including the disabled state of the submit button, are not modelled. The `onInput` masks of the council and postal-code inputs are modelled only as `TypedText`.
- Console output is not modelled.
- `now` is an integer number of milliseconds. The deadline `"2025-07-11T12:00:00"` is read in the browser's local time zone; the model fixes it at UTC-3.
- Asynchrony is not modelled, so there are no interleavings of handlers during a pending submission.
- Text.Lower: lower-cases ASCII letters only, while `toLowerCase` also folds other letters. The hint words "email" and "conselho" are ASCII, so only characters outside ASCII could differ.
- Formatters.CelularPromises: lengths count code points, while JavaScript counts UTF-16 units. This only matters for the backspace heuristic on text containing characters outside the Basic Multilingual Plane.
