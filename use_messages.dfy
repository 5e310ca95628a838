/**
 * useMessages: the error and success banners. A message is a JavaScript
 * value that may be undefined (None); the three-second clearing timer of
 * showSuccess is not modelled.
 */
module UseMessages {
  import opened Wrappers

  /** A banner is displayed when its message is a non-empty string. */
  predicate Shown(m: Option<string>) {
    m.Some? && m.value != ""
  }

  class Messages {
    var error: Option<string>
    var success: Option<string>

    /** At most one banner is displayed. */
    predicate Exclusive()
      reads this
    {
      !(Shown(error) && Shown(success))
    }

    constructor ()
      ensures error == Some("") && success == Some("")
      ensures Exclusive()
    {
      error := Some("");
      success := Some("");
    }

    method ShowSuccess(message: Option<string>)
      modifies this
      ensures success == message && error == Some("")
      ensures Exclusive()
    {
      success := message;
      error := Some("");
    }

    method ShowError(message: Option<string>)
      modifies this
      ensures error == message && success == Some("")
      ensures Exclusive()
    {
      error := message;
      success := Some("");
    }

    method ClearError()
      modifies this
      ensures error == Some("") && success == old(success)
      ensures old(Exclusive()) ==> Exclusive()
    {
      error := Some("");
    }

    method ClearSuccess()
      modifies this
      ensures success == Some("") && error == old(error)
      ensures old(Exclusive()) ==> Exclusive()
    {
      success := Some("");
    }

    method ClearAll()
      modifies this
      ensures error == Some("") && success == Some("")
      ensures !Shown(error) && !Shown(success)
    {
      error := Some("");
      success := Some("");
    }
  }
}
