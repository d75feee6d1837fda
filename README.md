# Wallet seed acquisition form, modelled in Dafny

This project models the seed-acquisition state machine of the wallet creation /
recovery form (`CreateWalletFormComponent`). A wallet's seed comes from one of three places:

- a generated seed that the user types back word by word (create, assisted);
- a recovery phrase entered one word per dialog and checked by the backend (recover, assisted);
- free text typed into the seed field, checked for format in the background (custom).

The component's session flags (`customSeedIsNormal`, `customSeedAccepted`, `encrypt`,
`enterSeedWithAssistance`, `assistedSeedConfirmed`, `lastAssistedSeed`,
`numberOfAutogeneratedWords`) and its form values (label, seed, confirm_seed, password,
confirm_password, number_of_words) are the fields of the class
`WalletForm.CreateWalletForm`.

Everything the component waits for is an input supplied by the caller:

- a confirmation dialog is a `bool`;
- a word dialog is an `Option<string>`, and `None` or `Some("")` counts as a cancel (JavaScript falsiness);
- the answer of `wallet/seed/verify` is a `VerifyResult`: success, or an error with its HTTP status.
  For a submitted recovery phrase it is the event `OnRecoveryVerified`, which may arrive at any
  later point, even after the mode was switched or a new run was started;
- a generated seed is the string the generation call returns.

The form's `statusChanges` fires on every `setValue` and every `updateValueAndValidity`.
Each such emission is a call of `FormStatusChanged`, made once the status subscription
exists (`listening`). It clears `customSeedAccepted` and puts the seed text into the
seed-check stream. When no backend call is needed, the stream answers at once and the seed
counts as normal. A backend answer arrives later, as `OnSeedCheckResult`.

Files:

- `wrappers.dfy`: `Option`, standing for a nullable value.
- `seed_text.dfy`: JavaScript `split(' ')`, joining words with single spaces, and the
  `forEach` accumulation that builds the recovery phrase, with round-trip lemmas: splitting
  the join of a non-empty list of space-free words gives back the words, and joining the pieces of a split gives back the text.
- `wallet_form.dfy`: the component class, its validators, the snapshot, the mode switch,
  seed generation, form initialisation, the seed-format check and the word stepper,
  plus four client scenarios.

Behaviour of the code a reader might not expect (the model follows it):

- In create mode a wrong word ends the dialog run after the "incorrect word" message (line 151).
  No further dialog opens; the user has to start the run again.
- The recovery phrase is the words joined by single spaces with the last character dropped.
  Nothing is trimmed (lines 164-166).
- The backend format check is requested when the seed-match validator returns `null`, which
  means the two seed fields MATCH, or when recovering, and only in custom mode (line 263).
- The seed-match validator is installed only when creating (lines 185-187). No validator
  requires a word count in recovery mode.
- Any entropy other than 128 gives 24 words (lines 231-235).
- `initForm` leaves the password controls `null` when restoring a snapshot (lines 197-198).
  A restored form gives back the same snapshot except for the password, and except that a
  recovery snapshot whose word count is 0 comes back with 12 words (line 199).
- `initForm` decides the validators and the generation by its `create` parameter
  (lines 179, 185, 203). It decides the restored word counts by the component's own `create`
  (lines 199, 214). The model keeps both.
- `seedMatchValidator` sets `customSeedIsNormal` to true when the seed controls are missing (line 312).

## Model

| member | source | states |
|---|---|---|
| SeedText.SplitSpaces | src/gui/static/src/app/components/pages/wallets/create-wallet/create-wallet-form/create-wallet-form.component.ts:147 | `split(' ')` always yields at least one piece, and no piece contains a space |
| SeedText.JoinSplit | src/gui/static/src/app/components/pages/wallets/create-wallet/create-wallet-form/create-wallet-form.component.ts:147 | joining the pieces of any seed with single spaces gives back exactly that seed |
| SeedText.SplitJoin | src/gui/static/src/app/components/pages/wallets/create-wallet/create-wallet-form/create-wallet-form.component.ts:164-166 | a non-empty list of space-free words, joined and split again, is the same list |
| SeedText.AccumulatedIsJoin | src/gui/static/src/app/components/pages/wallets/create-wallet/create-wallet-form/create-wallet-form.component.ts:164-166 | each word followed by a space, minus the last character, is the words joined by single spaces |
| SeedText.JoinWords | src/gui/static/src/app/components/pages/wallets/create-wallet/create-wallet-form/create-wallet-form.component.ts:164-166 | the assembling loop yields the space-joined phrase, which splits back into the words when they hold no spaces |
| WalletForm.CreateWalletForm.constructor | src/gui/static/src/app/components/pages/wallets/create-wallet/create-wallet-form/create-wallet-form.component.ts:33-40 | initial flags: seed normal, not accepted, encrypting, assisted, not confirmed, empty assisted seed, 0 words; no form yet |
| WalletForm.CreateWalletForm.ValidatePasswords | src/gui/static/src/app/components/pages/wallets/create-wallet/create-wallet-form/create-wallet-form.component.ts:280-292 | Required iff encrypting with the controls present and an empty password; NotEqual iff encrypting with a non-empty password that differs from the confirmation; otherwise null |
| WalletForm.CreateWalletForm.MustHaveSeed | src/gui/static/src/app/components/pages/wallets/create-wallet/create-wallet-form/create-wallet-form.component.ts:294-302 | Required iff in custom mode with an empty seed field; never NotEqual |
| WalletForm.CreateWalletForm.SeedMatchResult | src/gui/static/src/app/components/pages/wallets/create-wallet/create-wallet-form/create-wallet-form.component.ts:304-316 | null in assisted mode; in custom mode with the controls present, NotEqual iff seed differs from confirm_seed; NotEqual when the controls are missing |
| WalletForm.CreateWalletForm.SeedMatchValidator | src/gui/static/src/app/components/pages/wallets/create-wallet/create-wallet-form/create-wallet-form.component.ts:304-316 | returns the validator's value and, only in custom mode with the controls missing, sets `customSeedIsNormal` to true |
| WalletForm.CreateWalletForm.FormValid | src/gui/static/src/app/components/pages/wallets/create-wallet/create-wallet-form/create-wallet-form.component.ts:184-194 | form validity in terms of the values: label non-empty; in custom mode a non-empty seed that matches its confirmation when that validator is installed; when the password validator is installed and encrypting, a non-empty password equal to its confirmation (both directions) |
| WalletForm.CreateWalletForm.IsValid | src/gui/static/src/app/components/pages/wallets/create-wallet/create-wallet-form/create-wallet-form.component.ts:68-75 | per mode: custom accepts a valid form whose seed is normal or acknowledged; create/assisted needs `assistedSeedConfirmed`; recovery/assisted needs `lastAssistedSeed` longer than 2 and ignores `assistedSeedConfirmed` |
| WalletForm.CreateWalletForm.GetData | src/gui/static/src/app/components/pages/wallets/create-wallet/create-wallet-form/create-wallet-form.component.ts:86-97 | the snapshot's seed is its assisted seed in assisted mode, else its custom seed; the custom seed is always the seed field; the password is null unless not onboarding and encrypting; the word count is number_of_words when recovering, else the generated count |
| WalletForm.CreateWalletForm.SeedCheckNeeded | src/gui/static/src/app/components/pages/wallets/create-wallet/create-wallet-form/create-wallet-form.component.ts:262-267 | a backend check is needed iff in custom mode and either recovering or the two seed fields match |
| WalletForm.CreateWalletForm.RequestSeedCheck | src/gui/static/src/app/components/pages/wallets/create-wallet/create-wallet-form/create-wallet-form.component.ts:262-269 | reports whether the backend is asked; when it is not, the seed counts as normal at once |
| WalletForm.CreateWalletForm.OnSeedCheckResult | src/gui/static/src/app/components/pages/wallets/create-wallet/create-wallet-form/create-wallet-form.component.ts:268-275 | the seed is normal after the answer iff the answer is not an error with status 422 |
| WalletForm.CreateWalletForm.FormStatusChanged | src/gui/static/src/app/components/pages/wallets/create-wallet/create-wallet-form/create-wallet-form.component.ts:222-225 | every status change clears `customSeedAccepted` and runs the seed-check policy on the current state |
| WalletForm.CreateWalletForm.EditSeed | src/gui/static/src/app/components/pages/wallets/create-wallet/create-wallet-form/create-wallet-form.component.ts:222-225 | a user edit of the seed field stores the text, clears the acknowledgement and re-runs the seed-check policy |
| WalletForm.CreateWalletForm.EditConfirmSeed | src/gui/static/src/app/components/pages/wallets/create-wallet/create-wallet-form/create-wallet-form.component.ts:222-225 | a user edit of the confirm_seed field stores the text, clears the acknowledgement and re-runs the seed-check policy; in custom mode while creating, the backend check is requested iff the two fields then match |
| WalletForm.CreateWalletForm.OnCustomSeedAcceptance | src/gui/static/src/app/components/pages/wallets/create-wallet/create-wallet-form/create-wallet-form.component.ts:77-79 | the acknowledgement flag takes the checkbox value |
| WalletForm.CreateWalletForm.SetEncrypt | src/gui/static/src/app/components/pages/wallets/create-wallet/create-wallet-form/create-wallet-form.component.ts:81-84 | sets `encrypt`, and the revalidation clears the acknowledgement and re-runs the seed-check policy |
| WalletForm.CreateWalletForm.RemoveConfirmations | src/gui/static/src/app/components/pages/wallets/create-wallet/create-wallet-form/create-wallet-form.component.ts:248-255 | clears both confirmation flags, empties confirm_seed when asked, and re-runs the seed-check policy only while the status subscription exists |
| WalletForm.CreateWalletForm.ChangeSeedType | src/gui/static/src/app/components/pages/wallets/create-wallet/create-wallet-form/create-wallet-form.component.ts:99-121 | custom to assisted at once, with both confirmations and confirm_seed cleared and the seed normal; assisted to custom only on a confirmed dialog, and then a check is requested iff recovering or the seed field is empty; a declined dialog changes no field |
| WalletForm.CreateWalletForm.GenerateSeed | src/gui/static/src/app/components/pages/wallets/create-wallet/create-wallet-form/create-wallet-form.component.ts:230-236 | entropy 128 gives 12 words, every other entropy 24 |
| WalletForm.CreateWalletForm.OnSeedGenerated | src/gui/static/src/app/components/pages/wallets/create-wallet/create-wallet-form/create-wallet-form.component.ts:237-241 | the returned seed becomes both `lastAssistedSeed` and the seed field; acknowledgement, confirmation and confirm_seed are cleared |
| WalletForm.CreateWalletForm.BuildForm | src/gui/static/src/app/components/pages/wallets/create-wallet/create-wallet-form/create-wallet-form.component.ts:181-199 | the new form: assisted mode with an empty assisted seed; validators chosen by the `create` parameter and `onboarding`; values from the snapshot's label and custom seed; null passwords; number_of_words from a non-zero snapshot count only when the component is not creating, else 12 |
| WalletForm.CreateWalletForm.RestoreSnapshot | src/gui/static/src/app/components/pages/wallets/create-wallet/create-wallet-form/create-wallet-form.component.ts:207-217 | restoring sets both confirmation flags and copies mode and assisted seed from the snapshot; the generated count is copied only when the component is creating |
| WalletForm.CreateWalletForm.InitForm | src/gui/static/src/app/components/pages/wallets/create-wallet/create-wallet-form/create-wallet-form.component.ts:176-228 | the whole new state; generation of 12 words requested iff creating without a snapshot; a restored form is acceptable without re-running the stepper; restoring a snapshot of the form reproduces that snapshot except the password, provided it is a create snapshot or its word count is not 0 (a recovery count of 0 comes back as 12) |
| WalletForm.CreateWalletForm.WordsToEnter | src/gui/static/src/app/components/pages/wallets/create-wallet/create-wallet-form/create-wallet-form.component.ts:158 | a run asks for the mode's word limit, or for one word when that limit is below 1 |
| WalletForm.TakenAllIffCompletes | src/gui/static/src/app/components/pages/wallets/create-wallet/create-wallet-form/create-wallet-form.component.ts:155-162 | a run collects every word it asks for iff every dialog result up to that count is accepted |
| WalletForm.ConfirmedWordsSpellSeed | src/gui/static/src/app/components/pages/wallets/create-wallet/create-wallet-form/create-wallet-form.component.ts:146-162 | the words of a completed confirmation run, given as many as the seed has pieces, join back to exactly the generated seed |
| WalletForm.CreateWalletForm.CollectWords | src/gui/static/src/app/components/pages/wallets/create-wallet/create-wallet-form/create-wallet-form.component.ts:139-160 | the words collected are the accepted dialog results in order, cut at the word limit, at the last dialog, or before the first cancel or wrong word; the run ends early iff fewer words than the limit were taken |
| WalletForm.CreateWalletForm.AskForWords | src/gui/static/src/app/components/pages/wallets/create-wallet/create-wallet-form/create-wallet-form.component.ts:139-174 | the words taken are the accepted prefix of the dialog results; a cancel or a wrong word ends the run without recording it; creating, the seed is confirmed iff each of the `WordsToEnter()` words asked for matches the seed's piece at its index; when the run asks for as many words as the seed has pieces, those words join back to the seed; recovering, a completed run submits the words joined by single spaces, which split back into the words; the run itself never changes `lastAssistedSeed` |
| WalletForm.CreateWalletForm.OnRecoveryVerified | src/gui/static/src/app/components/pages/wallets/create-wallet/create-wallet-form/create-wallet-form.component.ts:168-169 | success makes the submitted phrase `lastAssistedSeed`; an error shows "invalid seed" and leaves it unchanged |
| WalletForm.CreateWalletForm.EnterSeed | src/gui/static/src/app/components/pages/wallets/create-wallet/create-wallet-form/create-wallet-form.component.ts:123-129 | runs the stepper when recovering; changes nothing when creating |
| WalletForm.CreateWalletForm.ConfirmNormalSeed | src/gui/static/src/app/components/pages/wallets/create-wallet/create-wallet-form/create-wallet-form.component.ts:131-137 | changes nothing once confirmed; when creating, the seed ends confirmed iff it was or each of the first `WordsToEnter()` dialog results matches the seed's piece at its index |

## Left out

- Angular plumbing: decorators, inputs and outputs, `ngOnInit`, `ngOnDestroy` and `requestCreation`.
  The form group itself is left out too; its validity is computed from the current values instead of read from a cached status.
  This matters in one place. `initForm` computes the status with assisted mode on (line 201) and may then restore custom mode (line 210) without revalidating. Until the next status change the source's `form.valid` therefore ignores `mustHaveSeed`, so a restored custom snapshot with an empty seed counts as valid there. `InitForm`'s contract says it does not.
- The rxjs stream lifecycle: `switchMap` dropping a superseded request, resubscribing after an error (line 276), and the `setTimeout` re-emission of the restored seed (line 208).
  Each backend answer is an event: a seed-format answer is applied by `OnSeedCheckResult`, a
  recovery-phrase answer by `OnRecoveryVerified`.
- The HTTP calls and the real seed generation and checksum, which run outside this code.
  Their answers are parameters. A failed generation call has no handler, so `OnSeedGenerated` is simply never called.
- Dialog presentation, message keys and the message bar. The message for a wrong word is the `WrongWord` outcome; the "invalid seed" message is the result of `OnRecoveryVerified`.
- The group validators also run while `initForm` adds controls one by one. In the source that has no effect, because assisted mode is on at that moment.
- AskForWords: reads `create` and the word limits once per run. The source re-reads them in each dialog callback; they cannot change while a modal dialog is open.
- AskForWords: splits `lastAssistedSeed` once, at the start of the run. The source splits it again in each dialog callback (line 147), so a generation answer arriving during a run (line 238) would change the pieces later words are compared with; the model does not capture that interleaving.
- AskForWords: appends each word to `partialSeed`. The source assigns by index, which is the same because indices are filled in order from 0.
- IsValid: lengths count characters, not UTF-16 code units. The source's `length > 2` (line 73) counts a character outside the Basic Multilingual Plane as two units, so two such characters pass there and fail here.
- MustHaveSeed: a missing seed control makes the source throw. The model turns this into a precondition.
- IsValid, FormValid and GetData: require the form to exist (`hasControls`). Before `initForm` the source reads an undefined `this.form` and throws.
- Control values are modelled as strings. The password controls are `Option<string>` because they start out `null`.
