/** The password prompt shown in front of a locked board. */
module PasswordPrompt {
  import opened Wrappers

  /** The typed password and whether the last attempt failed. */
  datatype Prompt = Prompt(password: string, error: bool)

  const InitialPrompt: Prompt := Prompt("", false)

  /**
   * `handleSubmit`: unlocks iff the typed text is exactly the stored
   * password; otherwise flags the error and clears the input.
   */
  function Submit(p: Prompt, correct: Option<string>): (r: (Prompt, bool))
    ensures r.1 <==> correct == Some(p.password)
    ensures r.1 ==> r.0 == p
    ensures !r.1 ==> r.0 == Prompt("", true)
  {
    if correct.Some? && p.password == correct.value then (p, true) else (Prompt("", true), false)
  }

  /** Typing replaces the input and clears the error flag. */
  function Edit(p: Prompt, text: string): (r: Prompt)
    ensures r.password == text && !r.error
  {
    Prompt(text, false)
  }

  /** A board without a stored password cannot be unlocked from the prompt, whatever is typed. */
  lemma NoPasswordNeverUnlocks(p: Prompt)
    ensures !Submit(p, None).1
  {
  }

  /** Typing the stored password and submitting unlocks; any other text fails and can be retyped. */
  lemma TypeAndSubmit(p: Prompt, correct: string, typed: string)
    ensures Submit(Edit(p, typed), Some(correct)).1 <==> typed == correct
    ensures typed != correct ==> Submit(Edit(p, typed), Some(correct)).0 == Prompt("", true)
    ensures Edit(Submit(Edit(p, typed), Some(correct)).0, correct).error == false
    ensures Submit(Edit(Submit(Edit(p, typed), Some(correct)).0, correct), Some(correct)).1
  {
  }
}
