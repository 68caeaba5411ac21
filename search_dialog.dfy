/**
 * The search dialog hook: an open/closed cell driven by buttons and the
 * keyboard, and a scroll lock on the page body while the dialog is open.
 */
module SearchDialog {
  datatype KeyEvent = KeyEvent(key: string, metaKey: bool, ctrlKey: bool)

  /** Cmd+K or Ctrl+K. */
  predicate IsShortcut(e: KeyEvent) {
    (e.metaKey || e.ctrlKey) && e.key == "k"
  }

  /**
   * The open state after the keydown handler: Escape closes an open dialog,
   * the shortcut opens it from either state, and any other key changes nothing.
   */
  function AfterKey(isOpen: bool, e: KeyEvent): (r: bool)
    ensures e.key == "Escape" ==> r == false
    ensures IsShortcut(e) ==> r == true
    ensures e.key != "Escape" && !IsShortcut(e) ==> r == isOpen
    ensures !isOpen && e.key == "Escape" ==> r == isOpen
  {
    var afterEscape := if e.key == "Escape" && isOpen then false else isOpen;
    if IsShortcut(e) then true else afterEscape
  }

  /** The overflow style the scroll-lock effect writes for an open state. */
  function OverflowFor(isOpen: bool): string {
    if isOpen then "hidden" else "unset"
  }

  class Dialog {
    var isOpen: bool
    /** `document.body.style.overflow`. */
    var bodyOverflow: string

    /** The scroll lock matches the open state once the effect has run. */
    ghost predicate Valid()
      reads this
    {
      bodyOverflow == OverflowFor(isOpen)
    }

    /** Mounting: closed, and the effect's first run unlocks scrolling. */
    constructor ()
      ensures Valid() && !isOpen && bodyOverflow == "unset"
    {
      isOpen := false;
      bodyOverflow := "unset";
    }

    /** The scroll-lock effect, re-run when `isOpen` changes: cleanup, then the new value. */
    method ScrollLockEffect(previous: bool)
      modifies this
      ensures isOpen == old(isOpen)
      ensures previous != isOpen ==> bodyOverflow == OverflowFor(isOpen)
      ensures previous == isOpen ==> bodyOverflow == old(bodyOverflow)
    {
      if previous != isOpen {
        bodyOverflow := "unset";
        bodyOverflow := OverflowFor(isOpen);
      }
    }

    method Open()
      requires Valid()
      modifies this
      ensures Valid() && isOpen && bodyOverflow == "hidden"
    {
      var previous := isOpen;
      isOpen := true;
      ScrollLockEffect(previous);
    }

    method Close()
      requires Valid()
      modifies this
      ensures Valid() && !isOpen && bodyOverflow == "unset"
    {
      var previous := isOpen;
      isOpen := false;
      ScrollLockEffect(previous);
    }

    method Toggle()
      requires Valid()
      modifies this
      ensures Valid() && isOpen == !old(isOpen)
    {
      var previous := isOpen;
      isOpen := !isOpen;
      ScrollLockEffect(previous);
    }

    /** The window keydown listener; returns whether it called `preventDefault`. */
    method HandleKeyDown(e: KeyEvent) returns (preventDefault: bool)
      requires Valid()
      modifies this
      ensures Valid() && isOpen == AfterKey(old(isOpen), e)
      ensures preventDefault <==> IsShortcut(e)
    {
      if e.key == "Escape" && isOpen {
        Close();
      }
      preventDefault := false;
      if IsShortcut(e) {
        preventDefault := true;
        Open();
      }
    }

    /** Unmounting runs the effect's cleanup, which unlocks scrolling. */
    method Unmount()
      modifies this
      ensures bodyOverflow == "unset" && isOpen == old(isOpen)
    {
      bodyOverflow := "unset";
    }
  }
}
