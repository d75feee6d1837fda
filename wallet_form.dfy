/** The seed acquisition state machine of the wallet creation / recovery form.

    The component's session flags and form values are the fields of one class.
    Dialogs, HTTP responses and user edits are events supplied by the caller:
    a confirmation dialog is a `bool`, a word dialog an `Option<string>`, a
    backend seed check a `VerifyResult`, and a generated seed the string the
    generation call returns. Every emission of the form's `statusChanges`
    (each `setValue` on a control and each `updateValueAndValidity`) is a call
    of `FormStatusChanged` once the status subscription exists. */
module WalletForm {
  import opened Wrappers
  import opened SeedText

  /** The error objects of the group validators: `{Required: true}`, `{NotEqual: true}`. */
  datatype ValidationError = Required | NotEqual

  /** The answer of `wallet/seed/verify`: success, or an error with its HTTP status. */
  datatype VerifyResult = Verified | Rejected(status: int)

  /** The HTTP status by which the backend says that a seed is malformed. */
  const MalformedSeedStatus := 422

  /** The snapshot handed to the parent and given back to restore the form. */
  datatype WalletFormData = WalletFormData(
    creatingNewWallet: bool,
    walletLabel: string,
    seed: string,
    password: Option<string>,
    enterSeedWithAssistance: bool,
    lastAssistedSeed: string,
    lastCustomSeed: string,
    numberOfWords: int)

  /** How one run of the word-by-word dialog chain ended. */
  datatype RunOutcome =
    | Unanswered(at: nat)        // the dialog for word `at` is still open
    | Cancelled(at: nat)         // the dialog for word `at` was closed without a word
    | WrongWord(at: nat)         // "incorrect word" shown; the run ends
    | Confirmed                  // each word asked for matched the generated seed's piece at its index
    | Submitted(seed: string)    // the recovery phrase was sent to `wallet/seed/verify`

  /** JavaScript truthiness of a dialog result: a non-empty string. */
  predicate Truthy(word: Option<string>)
  {
    word.Some? && word.value != ""
  }

  /** Whether the run takes the dialog result for word `k`: it must be a word and,
      when a generated seed is being confirmed, the `k`-th piece of that seed. */
  predicate Accepts(create: bool, seedWords: seq<string>, k: nat, word: Option<string>)
  {
    Truthy(word) && (create ==> k < |seedWords| && word.value == seedWords[k])
  }

  /** A run over `dialogs` takes all `n` words it asks for. */
  predicate RunCompletes(create: bool, seedWords: seq<string>, n: nat, dialogs: seq<Option<string>>)
  {
    n <= |dialogs| && forall k :: 0 <= k < n ==> Accepts(create, seedWords, k, dialogs[k])
  }

  /** `taken` is what a run over `dialogs` that asks for `n` words collects: the
      accepted results in order, cut at `n`, at the last dialog, or before the first
      refused result. */
  predicate TakenPrefix(create: bool, seedWords: seq<string>, n: nat, dialogs: seq<Option<string>>, taken: seq<string>)
  {
    && |taken| <= n && |taken| <= |dialogs|
    && (forall k :: 0 <= k < |taken| ==> Accepts(create, seedWords, k, dialogs[k]) && taken[k] == dialogs[k].value)
    && (|taken| < n ==> |taken| == |dialogs| || !Accepts(create, seedWords, |taken|, dialogs[|taken|]))
  }

  /** A run collects all the words it asks for exactly when every dialog result up to there is accepted. */
  lemma TakenAllIffCompletes(create: bool, seedWords: seq<string>, n: nat, dialogs: seq<Option<string>>, taken: seq<string>)
    requires TakenPrefix(create, seedWords, n, dialogs, taken)
    ensures |taken| == n <==> RunCompletes(create, seedWords, n, dialogs)
  {
  }

  /** The words of a completed confirmation run, when there are as many as the seed
      has pieces, spell out that seed. */
  lemma ConfirmedWordsSpellSeed(seed: string, n: nat, dialogs: seq<Option<string>>, taken: seq<string>)
    requires TakenPrefix(true, SplitSpaces(seed), n, dialogs, taken)
    requires |taken| == n == |SplitSpaces(seed)|
    ensures JoinSpaces(taken) == seed
  {
    assert taken == SplitSpaces(seed);
    JoinSplit(seed);
  }

  class CreateWalletForm {
    // Inputs of the component.
    var create: bool
    var onboarding: bool

    // Session flags.
    var customSeedIsNormal: bool
    var customSeedAccepted: bool
    var encrypt: bool
    var enterSeedWithAssistance: bool
    var assistedSeedConfirmed: bool
    var lastAssistedSeed: string
    var numberOfAutogeneratedWords: int

    // The form: whether its controls exist, which group validators it carries, and its values.
    var hasControls: bool
    var hasSeedMatchValidator: bool
    var hasPasswordValidator: bool
    var walletLabel: string
    var seed: string
    var confirmSeed: string
    var password: Option<string>
    var confirmPassword: Option<string>
    var numberOfWords: int

    // Whether the status-change subscription watches the current form.
    var listening: bool

    // The words collected by the current dialog run.
    var partialSeed: seq<string>

    constructor (create: bool, onboarding: bool)
      ensures this.create == create && this.onboarding == onboarding
      ensures customSeedIsNormal && !customSeedAccepted && encrypt
      ensures enterSeedWithAssistance && !assistedSeedConfirmed
      ensures lastAssistedSeed == "" && numberOfAutogeneratedWords == 0
      ensures !hasControls && !listening
    {
      this.create := create;
      this.onboarding := onboarding;
      customSeedIsNormal := true;
      customSeedAccepted := false;
      encrypt := true;
      enterSeedWithAssistance := true;
      assistedSeedConfirmed := false;
      lastAssistedSeed := "";
      numberOfAutogeneratedWords := 0;
      hasControls := false;
      hasSeedMatchValidator := false;
      hasPasswordValidator := false;
      walletLabel, seed, confirmSeed := "", "", "";
      password, confirmPassword := None, None;
      numberOfWords := 12;
      listening := false;
      partialSeed := [];
    }

    /** The form has been built and its status changes are observed. */
    predicate Initialized()
      reads this
    {
      hasControls && listening
    }

    // ---------------------------------------------------------------- validators

    /** The password validator. */
    function ValidatePasswords(): (r: Option<ValidationError>)
      reads this
      ensures r.Some? ==> encrypt && hasControls
      ensures r == Some(Required) <==> encrypt && hasControls && !Truthy(password)
      ensures r == Some(NotEqual) <==> encrypt && hasControls && Truthy(password) && password != confirmPassword
    {
      if encrypt && hasControls then
        if Truthy(password) then
          if password != confirmPassword then Some(NotEqual) else None
        else Some(Required)
      else None
    }

    /** The seed-presence validator; in assisted mode it returns `undefined`, which passes. */
    function MustHaveSeed(): (r: Option<ValidationError>)
      requires hasControls || enterSeedWithAssistance
      reads this
      ensures r == Some(Required) <==> !enterSeedWithAssistance && seed == ""
      ensures r != Some(NotEqual)
    {
      if !enterSeedWithAssistance then
        if seed == "" then Some(Required) else None
      else None
    }

    /** The value `seedMatchValidator` returns. */
    function SeedMatchResult(): (r: Option<ValidationError>)
      reads this
      ensures enterSeedWithAssistance ==> r == None
      ensures !enterSeedWithAssistance && hasControls ==> (r == None <==> seed == confirmSeed)
      ensures !enterSeedWithAssistance && !hasControls ==> r == Some(NotEqual)
      ensures r != Some(Required)
    {
      if enterSeedWithAssistance then None
      else if hasControls then
        if seed == confirmSeed then None else Some(NotEqual)
      else Some(NotEqual)
    }

    /** `seedMatchValidator` as called by the seed-check stream: when the seed
        controls are missing it also resets `customSeedIsNormal`. */
    method SeedMatchValidator() returns (r: Option<ValidationError>)
      modifies this`customSeedIsNormal
      ensures r == SeedMatchResult()
      ensures customSeedIsNormal == (if !enterSeedWithAssistance && !hasControls then true else old(customSeedIsNormal))
    {
      r := SeedMatchResult();
      if !enterSeedWithAssistance && !hasControls {
        customSeedIsNormal := true;
      }
    }

    /** `form.valid`: the label is present and every installed group validator passes. */
    function FormValid(): (r: bool)
      requires hasControls
      reads this
      ensures r ==> walletLabel != ""
      ensures r && !enterSeedWithAssistance ==> seed != ""
      ensures r && hasSeedMatchValidator && !enterSeedWithAssistance ==> seed == confirmSeed
      ensures r && hasPasswordValidator && encrypt ==> Truthy(password) && password == confirmPassword
      ensures walletLabel != ""
           && (enterSeedWithAssistance || (seed != "" && (hasSeedMatchValidator ==> seed == confirmSeed)))
           && (hasPasswordValidator && encrypt ==> Truthy(password) && password == confirmPassword)
           ==> r
    {
      walletLabel != ""
      && (hasSeedMatchValidator ==> SeedMatchResult() == None)
      && (hasPasswordValidator ==> ValidatePasswords() == None)
      && MustHaveSeed() == None
    }

    /** The acceptance predicate `isValid`: the form is valid and the seed of the current mode is trusted. */
    function IsValid(): (r: bool)
      requires hasControls
      reads this
      ensures r ==> FormValid()
      ensures !enterSeedWithAssistance ==> (r <==> FormValid() && (customSeedIsNormal || customSeedAccepted))
      ensures enterSeedWithAssistance && create ==> (r <==> FormValid() && assistedSeedConfirmed)
      ensures enterSeedWithAssistance && !create ==> (r <==> FormValid() && |lastAssistedSeed| > 2)
    {
      FormValid() &&
        ((!enterSeedWithAssistance && (customSeedIsNormal || customSeedAccepted)) ||
         (create && enterSeedWithAssistance && assistedSeedConfirmed) ||
         (!create && enterSeedWithAssistance && |lastAssistedSeed| > 2))
    }

    // ---------------------------------------------------------------- snapshot

    /** The snapshot `getData`. */
    function GetData(): (r: WalletFormData)
      requires hasControls
      reads this
      ensures r.creatingNewWallet == create && r.walletLabel == walletLabel
      ensures r.enterSeedWithAssistance == enterSeedWithAssistance
      ensures r.lastAssistedSeed == lastAssistedSeed && r.lastCustomSeed == seed
      ensures r.seed == (if r.enterSeedWithAssistance then r.lastAssistedSeed else r.lastCustomSeed)
      ensures r.password.Some? ==> !onboarding && encrypt && r.password == password
      ensures !onboarding && encrypt ==> r.password == password
      ensures r.numberOfWords == (if create then numberOfAutogeneratedWords else numberOfWords)
    {
      WalletFormData(
        creatingNewWallet := create,
        walletLabel := walletLabel,
        seed := if enterSeedWithAssistance then lastAssistedSeed else seed,
        password := if !onboarding && encrypt then password else None,
        enterSeedWithAssistance := enterSeedWithAssistance,
        lastAssistedSeed := lastAssistedSeed,
        lastCustomSeed := seed,
        numberOfWords := if !create then numberOfWords else numberOfAutogeneratedWords)
    }

    // ---------------------------------------------------------------- seed-format check

    /** The policy of the seed-check stream: ask the backend when in custom mode and
        either the two seed fields match or a wallet is being recovered. */
    function SeedCheckNeeded(): (r: bool)
      reads this
      ensures r <==> !enterSeedWithAssistance && (!create || (hasControls && seed == confirmSeed))
    {
      (SeedMatchResult() == None || !create) && !enterSeedWithAssistance
    }

    /** One value entering the seed-check stream. Without a backend call the stream
        yields at once and the seed counts as normal; otherwise the answer arrives
        later through `OnSeedCheckResult`. */
    method RequestSeedCheck() returns (checkRequested: bool)
      modifies this`customSeedIsNormal
      ensures checkRequested == SeedCheckNeeded()
      ensures customSeedIsNormal == (if checkRequested && hasControls then old(customSeedIsNormal) else true)
    {
      var _ := SeedMatchValidator();
      checkRequested := SeedCheckNeeded();
      if !checkRequested {
        customSeedIsNormal := true;
      }
    }

    /** The answer of a backend seed check: only a 422 marks the seed as not normal. */
    method OnSeedCheckResult(result: VerifyResult)
      modifies this`customSeedIsNormal
      ensures customSeedIsNormal <==> !(result.Rejected? && result.status == MalformedSeedStatus)
    {
      match result {
        case Verified =>
          customSeedIsNormal := true;
        case Rejected(status) =>
          customSeedIsNormal := status != MalformedSeedStatus;
      }
    }

    /** The answer of `wallet/seed/verify` for a submitted recovery phrase
        `entered`. It is applied whenever it arrives, whatever the mode or run in
        progress: success adopts the phrase, an error shows "invalid seed". */
    method OnRecoveryVerified(entered: string, result: VerifyResult) returns (invalidShown: bool)
      modifies this`lastAssistedSeed
      ensures lastAssistedSeed == (if result.Verified? then entered else old(lastAssistedSeed))
      ensures invalidShown <==> result.Rejected?
    {
      invalidShown := result.Rejected?;
      if result.Verified? {
        lastAssistedSeed := entered;
      }
    }

    /** The user types `text` into the seed field; the control emits a status change. */
    method EditSeed(text: string) returns (checkRequested: bool)
      requires Initialized()
      modifies this`seed, this`customSeedAccepted, this`customSeedIsNormal
      ensures seed == text && !customSeedAccepted
      ensures checkRequested == SeedCheckNeeded()
      ensures customSeedIsNormal == (if checkRequested then old(customSeedIsNormal) else true)
    {
      seed := text;
      checkRequested := FormStatusChanged();
    }

    /** The user types `text` into the confirm_seed field; the control emits a status change. */
    method EditConfirmSeed(text: string) returns (checkRequested: bool)
      requires Initialized()
      modifies this`confirmSeed, this`customSeedAccepted, this`customSeedIsNormal
      ensures confirmSeed == text && !customSeedAccepted
      ensures checkRequested == SeedCheckNeeded()
      ensures customSeedIsNormal == (if checkRequested then old(customSeedIsNormal) else true)
    {
      confirmSeed := text;
      checkRequested := FormStatusChanged();
    }

    /** The status-change handler: an acknowledged custom seed must be acknowledged
        again, and the current seed text enters the seed-check stream. */
    method FormStatusChanged() returns (checkRequested: bool)
      requires Initialized()
      modifies this`customSeedAccepted, this`customSeedIsNormal
      ensures !customSeedAccepted
      ensures checkRequested == SeedCheckNeeded()
      ensures customSeedIsNormal == (if checkRequested then old(customSeedIsNormal) else true)
    {
      customSeedAccepted := false;
      checkRequested := RequestSeedCheck();
    }

    /** The custom-seed acknowledgement checkbox. */
    method OnCustomSeedAcceptance(checked: bool)
      modifies this`customSeedAccepted
      ensures customSeedAccepted == checked
    {
      customSeedAccepted := checked;
    }

    /** The encryption checkbox; the form is revalidated. */
    method SetEncrypt(checked: bool) returns (checkRequested: bool)
      requires Initialized()
      modifies this`encrypt, this`customSeedAccepted, this`customSeedIsNormal
      ensures encrypt == checked && !customSeedAccepted
      ensures checkRequested == SeedCheckNeeded()
      ensures customSeedIsNormal == (if checkRequested then old(customSeedIsNormal) else true)
    {
      encrypt := checked;
      checkRequested := FormStatusChanged();
    }

    // ---------------------------------------------------------------- mode switch

    /** `removeConfirmations`: both confirmations are withdrawn, the second seed
        field is emptied when asked, and the form is revalidated. */
    method RemoveConfirmations(cleanSecondSeedField: bool) returns (checkRequested: bool)
      requires hasControls
      modifies this`customSeedAccepted, this`assistedSeedConfirmed, this`confirmSeed, this`customSeedIsNormal
      ensures !customSeedAccepted && !assistedSeedConfirmed
      ensures confirmSeed == (if cleanSecondSeedField then "" else old(confirmSeed))
      ensures checkRequested == (listening && SeedCheckNeeded())
      ensures customSeedIsNormal == (if listening && !checkRequested then true else old(customSeedIsNormal))
    {
      customSeedAccepted := false;
      assistedSeedConfirmed := false;
      if cleanSecondSeedField {
        confirmSeed := "";
        if listening {
          var _ := FormStatusChanged();
        }
      }
      checkRequested := false;
      if listening {
        checkRequested := FormStatusChanged();
      }
    }

    /** `changeSeedType`: into assisted mode at once; out of it only when the
        warning dialog is confirmed; a declined dialog changes nothing. */
    method ChangeSeedType(confirmed: bool) returns (checkRequested: bool)
      requires Initialized()
      modifies this`enterSeedWithAssistance, this`customSeedAccepted, this`assistedSeedConfirmed,
        this`confirmSeed, this`customSeedIsNormal
      ensures !old(enterSeedWithAssistance) ==>
        enterSeedWithAssistance && !customSeedAccepted && !assistedSeedConfirmed && confirmSeed == ""
        && customSeedIsNormal && !checkRequested
      ensures old(enterSeedWithAssistance) && confirmed ==>
        !enterSeedWithAssistance && !customSeedAccepted && !assistedSeedConfirmed && confirmSeed == ""
        && checkRequested == (!create || seed == "")
        && customSeedIsNormal == (if checkRequested then old(customSeedIsNormal) else true)
      ensures old(enterSeedWithAssistance) && !confirmed ==> unchanged(this) && !checkRequested
    {
      checkRequested := false;
      if !enterSeedWithAssistance {
        enterSeedWithAssistance := true;
        checkRequested := RemoveConfirmations(true);
      } else if confirmed {
        enterSeedWithAssistance := false;
        checkRequested := RemoveConfirmations(true);
      }
    }

    // ---------------------------------------------------------------- seed generation

    /** The synchronous part of `generateSeed`: the number of words follows from the entropy. */
    method GenerateSeed(entropy: int)
      modifies this`numberOfAutogeneratedWords
      ensures numberOfAutogeneratedWords == (if entropy == 128 then 12 else 24)
    {
      if entropy == 128 {
        numberOfAutogeneratedWords := 12;
      } else {
        numberOfAutogeneratedWords := 24;
      }
    }

    /** The answer of the generation call: the seed becomes the assisted seed and the
        seed field's value, and the confirmations are withdrawn. */
    method OnSeedGenerated(generated: string) returns (checkRequested: bool)
      requires Initialized()
      modifies this`lastAssistedSeed, this`seed, this`customSeedAccepted, this`assistedSeedConfirmed,
        this`confirmSeed, this`customSeedIsNormal
      ensures lastAssistedSeed == generated && seed == generated
      ensures !customSeedAccepted && !assistedSeedConfirmed && confirmSeed == ""
      ensures checkRequested == SeedCheckNeeded()
      ensures customSeedIsNormal ==
        (if checkRequested && (generated == old(confirmSeed) || !create) then old(customSeedIsNormal) else true)
    {
      lastAssistedSeed := generated;
      seed := generated;
      var _ := FormStatusChanged();
      checkRequested := RemoveConfirmations(true);
    }

    // ---------------------------------------------------------------- form initialisation

    /** The new form group of `initForm`: its validators follow from `create` and
        `onboarding`, its values from the snapshot; `number_of_words` uses the
        component's own `create`. */
    method BuildForm(create': bool, data: Option<WalletFormData>)
      modifies this`lastAssistedSeed, this`enterSeedWithAssistance, this`listening, this`hasControls,
        this`hasSeedMatchValidator, this`hasPasswordValidator, this`walletLabel, this`seed, this`confirmSeed,
        this`password, this`confirmPassword, this`numberOfWords
      ensures lastAssistedSeed == "" && enterSeedWithAssistance && !listening && hasControls
      ensures hasSeedMatchValidator == create' && hasPasswordValidator == !onboarding
      ensures walletLabel == (if data.Some? then data.value.walletLabel else "")
      ensures seed == confirmSeed == (if data.Some? then data.value.lastCustomSeed else "")
      ensures password == None && confirmPassword == None
      ensures numberOfWords ==
        (if !create && data.Some? && data.value.numberOfWords != 0 then data.value.numberOfWords else 12)
    {
      lastAssistedSeed := "";
      enterSeedWithAssistance := true;
      // The old status subscription watches the form that is being replaced.
      listening := false;
      hasSeedMatchValidator := create';
      hasPasswordValidator := !onboarding;
      walletLabel := if data.Some? then data.value.walletLabel else "";
      seed := if data.Some? then data.value.lastCustomSeed else "";
      confirmSeed := if data.Some? then data.value.lastCustomSeed else "";
      password, confirmPassword := None, None;
      numberOfWords := if !create && data.Some? && data.value.numberOfWords != 0 then data.value.numberOfWords else 12;
      hasControls := true;
    }

    /** The restoring part of `initForm`: mode, assisted seed and both confirmations
        come from the snapshot, and so does the generated word count when creating. */
    method RestoreSnapshot(data: WalletFormData)
      modifies this`customSeedAccepted, this`enterSeedWithAssistance, this`lastAssistedSeed,
        this`assistedSeedConfirmed, this`numberOfAutogeneratedWords
      ensures customSeedAccepted && assistedSeedConfirmed
      ensures enterSeedWithAssistance == data.enterSeedWithAssistance
      ensures lastAssistedSeed == data.lastAssistedSeed
      ensures numberOfAutogeneratedWords == (if create then data.numberOfWords else old(numberOfAutogeneratedWords))
    {
      customSeedAccepted := true;
      enterSeedWithAssistance := data.enterSeedWithAssistance;
      lastAssistedSeed := data.lastAssistedSeed;
      assistedSeedConfirmed := true;
      if create {
        numberOfAutogeneratedWords := data.numberOfWords;
      }
    }

    /** `initForm`. `createArg` is the optional `create` parameter, which decides the
        validators and the generation; the component's own `create` decides the word
        counts restored from `data`. Returns whether a seed generation was requested. */
    method InitForm(createArg: Option<bool>, data: Option<WalletFormData>) returns (generationRequested: bool)
      modifies this`lastAssistedSeed, this`enterSeedWithAssistance, this`listening, this`hasControls,
        this`hasSeedMatchValidator, this`hasPasswordValidator, this`walletLabel, this`seed, this`confirmSeed,
        this`password, this`confirmPassword, this`numberOfWords, this`customSeedAccepted,
        this`assistedSeedConfirmed, this`numberOfAutogeneratedWords, this`customSeedIsNormal
      ensures Initialized()
      ensures hasSeedMatchValidator == (if createArg.Some? then createArg.value else create)
      ensures hasPasswordValidator == !onboarding
      ensures walletLabel == (if data.Some? then data.value.walletLabel else "")
      ensures seed == confirmSeed == (if data.Some? then data.value.lastCustomSeed else "")
      ensures password == None && confirmPassword == None
      ensures numberOfWords ==
        (if !create && data.Some? && data.value.numberOfWords != 0 then data.value.numberOfWords else 12)
      ensures generationRequested == (hasSeedMatchValidator && data.None?)
      ensures numberOfAutogeneratedWords ==
        (if generationRequested then 12
         else if data.Some? && create then data.value.numberOfWords
         else old(numberOfAutogeneratedWords))
      ensures customSeedIsNormal == old(customSeedIsNormal)
      ensures data.None? ==>
        enterSeedWithAssistance && lastAssistedSeed == "" && !customSeedAccepted && !assistedSeedConfirmed
      ensures data.Some? ==>
        enterSeedWithAssistance == data.value.enterSeedWithAssistance
        && lastAssistedSeed == data.value.lastAssistedSeed
        && customSeedAccepted && assistedSeedConfirmed
      // A restored form is acceptable without running the dialogs again.
      ensures data.Some? ==>
        (IsValid() <==> FormValid() && (enterSeedWithAssistance && !create ==> |lastAssistedSeed| > 2))
      // Restoring a snapshot of the form gives back the same snapshot, except the password
      // and a recovery word count of 0, which comes back as 12.
      ensures old(hasControls) && data == Some(old(GetData())) && (create || old(numberOfWords) != 0) ==>
        GetData() == old(GetData()).(password := None)
    {
      var c := if createArg.Some? then createArg.value else create;
      BuildForm(c, data);
      var _ := RemoveConfirmations(false);

      generationRequested := false;
      if c && data.None? {
        GenerateSeed(128);
        generationRequested := true;
      }
      if data.Some? {
        RestoreSnapshot(data.value);
      }

      listening := true;
    }

    // ---------------------------------------------------------------- word stepper

    /** How many words a run asks for: the dialog for word 0 always opens, and the
        run goes on while fewer words than the limit of the current mode are in. */
    function WordsToEnter(): (n: nat)
      reads this
      ensures n >= 1
      ensures create ==> n >= numberOfAutogeneratedWords && (numberOfAutogeneratedWords >= 1 ==> n == numberOfAutogeneratedWords)
      ensures !create ==> n >= numberOfWords && (numberOfWords >= 1 ==> n == numberOfWords)
      ensures (if create then numberOfAutogeneratedWords else numberOfWords) < 1 ==> n == 1
    {
      var limit := if create then numberOfAutogeneratedWords else numberOfWords;
      if limit < 1 then 1 else limit
    }

    /** The effect of one run of the dialog chain over `dialogs`, started in the
        state `old`, that ended with `outcome`. */
    twostate predicate RunEffect(dialogs: seq<Option<string>>, outcome: RunOutcome)
      reads this
    {
      var n := WordsToEnter();
      var seedWords := SplitSpaces(old(lastAssistedSeed));
      var m := |partialSeed|;
      && TakenPrefix(create, seedWords, n, dialogs, partialSeed)
      && (m == n <==> RunCompletes(create, seedWords, n, dialogs))
      && lastAssistedSeed == old(lastAssistedSeed)
      // confirming a generated seed
      && assistedSeedConfirmed == (old(assistedSeedConfirmed) || (create && m == n))
      && (create && m == n && n == |seedWords| ==> JoinSpaces(partialSeed) == old(lastAssistedSeed))
      // recovering: the joined phrase is submitted, and it splits back into the words
      && (!create && m == n && (forall k :: 0 <= k < m ==> ' ' !in partialSeed[k]) ==>
            SplitSpaces(JoinSpaces(partialSeed)) == partialSeed)
      && (m < n ==> outcome == StopOutcome(dialogs, m))
      && (m == n ==> outcome == (if create then Confirmed else Submitted(JoinSpaces(partialSeed))))
    }

    /** How a run that stopped before word `m` of `dialogs` ended. */
    function StopOutcome(dialogs: seq<Option<string>>, m: nat): RunOutcome
      requires m <= |dialogs|
    {
      if m == |dialogs| then Unanswered(m)
      else if !Truthy(dialogs[m]) then Cancelled(m)
      else WrongWord(m)
    }

    /** The loop of `askForWord` dialogs from word 0: each accepted word is stored at
        its index in `partialSeed` and the next dialog opens while the mode's limit is
        not reached. `stopped` is how the run ended when it ended early. */
    method CollectWords(dialogs: seq<Option<string>>, seedWords: seq<string>) returns (stopped: Option<RunOutcome>)
      modifies this`partialSeed
      ensures TakenPrefix(create, seedWords, WordsToEnter(), dialogs, partialSeed)
      ensures stopped == None <==> |partialSeed| == WordsToEnter()
      ensures stopped.Some? ==> stopped.value == StopOutcome(dialogs, |partialSeed|)
    {
      partialSeed := [];
      var wordIndex := 0;
      while true
        invariant wordIndex == |partialSeed| < WordsToEnter() && wordIndex <= |dialogs|
        invariant forall k :: 0 <= k < wordIndex ==>
          Accepts(create, seedWords, k, dialogs[k]) && partialSeed[k] == dialogs[k].value
        decreases |dialogs| - wordIndex
      {
        if wordIndex == |dialogs| {
          return Some(Unanswered(wordIndex));
        }
        var word := dialogs[wordIndex];
        if !Truthy(word) {
          return Some(Cancelled(wordIndex));
        }
        if create && !(wordIndex < |seedWords| && word.value == seedWords[wordIndex]) {
          return Some(WrongWord(wordIndex));
        }
        partialSeed := partialSeed + [word.value];
        wordIndex := wordIndex + 1;
        if !((create && wordIndex < numberOfAutogeneratedWords) || (!create && wordIndex < numberOfWords)) {
          break;
        }
      }
      stopped := None;
    }

    /** The chain of `askForWord` dialogs started at word 0, one dialog result per
        step. A completed recovery run submits the assembled phrase; the backend's
        answer arrives later, as `OnRecoveryVerified`. */
    method AskForWords(dialogs: seq<Option<string>>) returns (outcome: RunOutcome)
      requires hasControls
      modifies this`partialSeed, this`assistedSeedConfirmed
      ensures RunEffect(dialogs, outcome)
    {
      var seedWords := SplitSpaces(lastAssistedSeed);
      var stopped := CollectWords(dialogs, seedWords);
      TakenAllIffCompletes(create, seedWords, WordsToEnter(), dialogs, partialSeed);
      if stopped.Some? {
        return stopped.value;
      }
      if create {
        assistedSeedConfirmed := true;
        outcome := Confirmed;
        if |partialSeed| == |seedWords| {
          ConfirmedWordsSpellSeed(lastAssistedSeed, WordsToEnter(), dialogs, partialSeed);
        }
      } else {
        var entered := JoinWords(partialSeed);
        outcome := Submitted(entered);
      }
    }

    /** `enterSeed`: a recovery run; nothing happens while creating. */
    method EnterSeed(dialogs: seq<Option<string>>) returns (outcome: Option<RunOutcome>)
      requires Initialized()
      modifies this`partialSeed, this`assistedSeedConfirmed
      ensures create ==> unchanged(this) && outcome == None
      ensures !create ==> outcome.Some? && RunEffect(dialogs, outcome.value)
    {
      outcome := None;
      if !create {
        var o := AskForWords(dialogs);
        outcome := Some(o);
      }
    }

    /** `confirmNormalSeed`: a run that confirms the generated seed; nothing happens
        once it is confirmed. */
    method ConfirmNormalSeed(dialogs: seq<Option<string>>) returns (outcome: Option<RunOutcome>)
      requires Initialized()
      modifies this`partialSeed, this`assistedSeedConfirmed
      ensures old(assistedSeedConfirmed) ==> unchanged(this) && outcome == None
      ensures !old(assistedSeedConfirmed) ==> outcome.Some? && RunEffect(dialogs, outcome.value)
      ensures create ==> (assistedSeedConfirmed <==>
        old(assistedSeedConfirmed) || RunCompletes(true, SplitSpaces(lastAssistedSeed), WordsToEnter(), dialogs))
    {
      outcome := None;
      if !assistedSeedConfirmed {
        var o := AskForWords(dialogs);
        outcome := Some(o);
      }
    }
  }
  /** A client: a wallet is created and a 12-word seed is generated, which leaves
      the form unacceptable until the seed is confirmed. */
  method GenerateSeedScenario(generated: string)
  {
    var form := new CreateWalletForm(true, false);
    var requested := form.InitForm(None, None);
    assert requested && form.numberOfAutogeneratedWords == 12;
    var _ := form.OnSeedGenerated(generated);
    assert form.lastAssistedSeed == generated && !form.assistedSeedConfirmed;
    assert !form.IsValid();
  }

  /** A client: the generated seed is typed back word by word; with a label and
      matching passwords the form is then acceptable. */
  method ConfirmGeneratedSeedScenario(form: CreateWalletForm, typed: seq<Option<string>>)
    requires form.Initialized() && form.create && form.enterSeedWithAssistance && !form.assistedSeedConfirmed
    requires form.numberOfAutogeneratedWords == 12 == |SplitSpaces(form.lastAssistedSeed)|
    requires forall k :: 0 <= k < 12 ==> SplitSpaces(form.lastAssistedSeed)[k] != ""
    requires |typed| == 12 && forall k :: 0 <= k < 12 ==> typed[k] == Some(SplitSpaces(form.lastAssistedSeed)[k])
    requires form.walletLabel != "" && form.hasPasswordValidator
    requires form.password == form.confirmPassword == Some("pw")
    modifies form
  {
    var outcome := form.ConfirmNormalSeed(typed);
    assert RunCompletes(true, SplitSpaces(form.lastAssistedSeed), 12, typed);
    assert outcome == Some(Confirmed) && form.assistedSeedConfirmed;
    assert JoinSpaces(form.partialSeed) == form.lastAssistedSeed;
    assert form.IsValid();
  }

  /** A client: a wrong sixth word ends the run at index 5 without confirming the seed. */
  method WrongWordScenario(generated: string, typed: seq<Option<string>>)
    requires |SplitSpaces(generated)| == 12
    requires |typed| == 12 && forall k :: 0 <= k < 5 ==> typed[k] == Some(SplitSpaces(generated)[k])
    requires forall k :: 0 <= k < 5 ==> SplitSpaces(generated)[k] != ""
    requires typed[5] != Some(SplitSpaces(generated)[5]) && Truthy(typed[5])
  {
    var form := new CreateWalletForm(true, false);
    var _ := form.InitForm(None, None);
    var _ := form.OnSeedGenerated(generated);
    var outcome := form.ConfirmNormalSeed(typed);
    assert forall k :: 0 <= k < 5 ==> Accepts(true, SplitSpaces(generated), k, typed[k]);
    assert !Accepts(true, SplitSpaces(generated), 5, typed[5]);
    assert |form.partialSeed| == 5;
    assert outcome == Some(WrongWord(5)) && !form.assistedSeedConfirmed;
  }

  /** A client: twelve recovery words are entered and submitted; the backend's
      acceptance, whenever it arrives, makes the phrase the assisted seed. */
  method RecoverSeedScenario(form: CreateWalletForm, typed: seq<Option<string>>)
    requires form.Initialized() && !form.create && form.enterSeedWithAssistance
    requires form.numberOfWords == 12
    requires |typed| == 12 && forall k :: 0 <= k < 12 ==> Truthy(typed[k]) && ' ' !in typed[k].value
    modifies form
  {
    var outcome := form.EnterSeed(typed);
    assert forall k :: 0 <= k < 12 ==> Accepts(false, SplitSpaces(old(form.lastAssistedSeed)), k, typed[k]);
    assert |form.partialSeed| == 12;
    assert outcome == Some(Submitted(JoinSpaces(form.partialSeed)));
    var invalidShown := form.OnRecoveryVerified(outcome.value.seed, Verified);
    assert !invalidShown && SplitSpaces(form.lastAssistedSeed) == form.partialSeed;
  }
}
