/** The dark-mode flag (its persistence to browser storage is not modelled). */
module ThemeStore {

  /** The store's state. */
  datatype Theme = Theme(dark: bool)

  /** Light mode at start. */
  const Initial := Theme(false)

  /** `setDark(v)`. */
  function SetDark(t: Theme, v: bool): (r: Theme)
    ensures r.dark == v
  {
    Theme(v)
  }

  /** `toggle()`. */
  function Toggle(t: Theme): (r: Theme)
    ensures r.dark != t.dark
  {
    Theme(!t.dark)
  }

  /** Two toggles restore the original flag; setting the same value again
      changes nothing. */
  lemma ToggleInvolutionSetIdempotent(t: Theme, v: bool)
    ensures Toggle(Toggle(t)) == t
    ensures SetDark(SetDark(t, v), v) == SetDark(t, v)
    ensures !Initial.dark
  {
  }
}
