/**
 * The two-step delete confirmation: a first "continue", then typing the confirmation
 * word exactly before the final delete is allowed. A pending deletion shows a loading
 * state; success closes the dialog, failure lets the user try again.
 */
module DeleteDialog {
  import opened Wrappers

  /** The confirmation word used when the caller gives none. */
  const DefaultConfirmText: string := "EXCLUIR"

  /** The dialog shows either the warning (1) or the typed confirmation (2). */
  type Step = s: int | s == 1 || s == 2 witness 1

  /** Whether the final button accepts a click: the exact word typed, nothing pending. */
  predicate FinalEnabled(confirmInput: string, confirmText: string, isLoading: bool) {
    confirmInput == confirmText && !isLoading
  }

  /** Whether the "text does not match" hint is shown: something typed, and not the word. */
  predicate MismatchShown(confirmInput: string, confirmText: string) {
    confirmInput != "" && confirmInput != confirmText
  }

  /**
   * For a non-empty confirmation word and nothing pending, the second step shows exactly
   * one of: an empty field, the mismatch hint, an enabled final button.
   */
  lemma SecondStepFeedback(confirmInput: string, confirmText: string)
    requires confirmText != ""
    ensures FinalEnabled(confirmInput, confirmText, false) <==>
              confirmInput != "" && !MismatchShown(confirmInput, confirmText)
    ensures MismatchShown(confirmInput, confirmText) ==> !FinalEnabled(confirmInput, confirmText, false)
  {
  }

  class DeleteConfirmationDialog {
    /** The word the user must type. */
    const confirmText: string
    var step: Step
    var confirmInput: string
    var isLoading: bool
    /** Every value passed to `onOpenChange`, oldest first. */
    var openChanges: seq<bool>
    /** How many times `onConfirm` was started. */
    var confirmCalls: nat

    /** The field is only editable on the second step, so the first step never holds text. */
    ghost predicate Valid()
      reads this
    {
      step == 1 ==> confirmInput == ""
    }

    /** Mounting: step 1, empty field, nothing pending; the word defaults to "EXCLUIR". */
    constructor(confirmText: Option<string>)
      ensures Valid()
      ensures this.confirmText == confirmText.GetOr(DefaultConfirmText)
      ensures step == 1 && confirmInput == "" && !isLoading
      ensures openChanges == [] && confirmCalls == 0
    {
      this.confirmText := confirmText.GetOr(DefaultConfirmText);
      step := 1;
      confirmInput := "";
      isLoading := false;
      openChanges := [];
      confirmCalls := 0;
    }

    /** `handleClose`: back to the initial state, and ask the owner to close. */
    method HandleClose()
      modifies this
      ensures Valid()
      ensures step == 1 && confirmInput == "" && !isLoading
      ensures openChanges == old(openChanges) + [false]
      ensures confirmCalls == old(confirmCalls)
    {
      step := 1;
      confirmInput := "";
      isLoading := false;
      openChanges := openChanges + [false];
    }

    /** `handleFirstConfirm`: go to the second step; nothing else changes. */
    method HandleFirstConfirm()
      requires Valid()
      modifies this
      ensures Valid()
      ensures step == 2
      ensures confirmInput == old(confirmInput) && isLoading == old(isLoading)
      ensures openChanges == old(openChanges) && confirmCalls == old(confirmCalls)
    {
      step := 2;
    }

    /** Typing in the confirmation field, which only the second step shows. */
    method SetConfirmInput(value: string)
      requires Valid() && step == 2
      modifies this
      ensures Valid()
      ensures confirmInput == value
      ensures step == old(step) && isLoading == old(isLoading)
      ensures openChanges == old(openChanges) && confirmCalls == old(confirmCalls)
    {
      confirmInput := value;
    }

    /**
     * The synchronous part of `handleFinalConfirm`: unless the field holds exactly the
     * confirmation word nothing happens; otherwise the dialog starts loading and
     * `onConfirm` is started.
     */
    method HandleFinalConfirm() returns (started: bool)
      requires Valid()
      modifies this
      ensures Valid()
      ensures started <==> old(confirmInput) == confirmText
      ensures !started ==>
                step == old(step) && confirmInput == old(confirmInput) && isLoading == old(isLoading) &&
                confirmCalls == old(confirmCalls)
      ensures started ==>
                step == old(step) && confirmInput == old(confirmInput) && isLoading &&
                confirmCalls == old(confirmCalls) + 1
      ensures openChanges == old(openChanges)
    {
      if confirmInput != confirmText {
        return false;
      }
      isLoading := true;
      confirmCalls := confirmCalls + 1;
      started := true;
    }

    /**
     * The rest of `handleFinalConfirm`, once `onConfirm` settles: on success the dialog
     * closes and resets; on failure only the loading flag is cleared.
     */
    method ConfirmSettled(succeeded: bool)
      requires Valid()
      modifies this
      ensures Valid()
      ensures succeeded ==>
                step == 1 && confirmInput == "" && !isLoading && openChanges == old(openChanges) + [false]
      ensures !succeeded ==>
                step == old(step) && confirmInput == old(confirmInput) && !isLoading &&
                openChanges == old(openChanges)
      ensures confirmCalls == old(confirmCalls)
    {
      if succeeded {
        HandleClose();
      } else {
        isLoading := false;
      }
    }

    /** `handleCancel`: on the second step go back to the first; on the first, close. */
    method HandleCancel()
      requires Valid()
      modifies this
      ensures Valid()
      ensures step == 1 && confirmInput == ""
      ensures old(step) == 2 ==> isLoading == old(isLoading) && openChanges == old(openChanges)
      ensures old(step) == 1 ==> !isLoading && openChanges == old(openChanges) + [false]
      ensures confirmCalls == old(confirmCalls)
    {
      if step == 2 {
        step := 1;
        confirmInput := "";
      } else {
        HandleClose();
      }
    }

    /** Whether the final button is enabled right now. */
    function FinalButtonEnabled(): bool
      reads this
    {
      FinalEnabled(confirmInput, confirmText, isLoading)
    }
  }

  /**
   * A click on an enabled final button always starts the deletion, and the button stays
   * disabled while it is pending, so a second click cannot start another.
   */
  method EnabledButtonStarts(d: DeleteConfirmationDialog) returns (started: bool)
    requires d.Valid() && d.FinalButtonEnabled()
    modifies d
    ensures started && d.isLoading && !d.FinalButtonEnabled()
  {
    started := d.HandleFinalConfirm();
  }
}
