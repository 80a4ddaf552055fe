/** The capture side of a sync client: a `Client` watches key presses and
    releases, buffers the held keys while Ctrl is down, and on Ctrl+C / Ctrl+V
    records a copy or performs a paste against the system clipboard. Key
    events arrive as calls, in the order the keyboard hook delivers them. */
module Clients {
  import opened Wrappers
  import opened Capture

  /** The system clipboard: one text, shared with every other program on the
      machine, so it may change between two key events. */
  class Clipboard {
    var text: string

    constructor (initial: string)
      ensures text == initial
    {
      text := initial;
    }

    /** Reads the clipboard text. */
    method Paste() returns (s: string)
      ensures s == text
    {
      s := text;
    }

    /** Puts `s` on the clipboard. */
    method Copy(s: string)
      modifies this
      ensures text == s
    {
      text := s;
    }
  }

  class Client {
    var pressed: seq<Key>
    var copied: seq<string>
    var pasted: seq<string>
    const clipboard: Clipboard

    /** The client's buffers together with the clipboard text. */
    ghost function State(): CaptureState
      reads this, clipboard
    {
      CaptureState(pressed, copied, pasted, clipboard.text)
    }

    ghost predicate Valid()
      reads this, clipboard
    {
      Inv(State())
    }

    /** `Client()`: all three buffers start empty. */
    constructor (clipboard: Clipboard)
      ensures this.clipboard == clipboard
      ensures State() == Initial(clipboard.text)
      ensures Valid()
    {
      pressed, copied, pasted := [], [], [];
      this.clipboard := clipboard;
    }

    /** `get_read_buffer()`: the held keys; empty, or starting with Ctrl. */
    function GetReadBuffer(): (keys: seq<Key>)
      reads this, clipboard
      requires Valid()
      ensures keys == pressed
      ensures keys == [] || keys[0] == Ctrl
    {
      pressed
    }

    /** `get_copied_buffer()`: every text copied so far, oldest first. */
    function GetCopiedBuffer(): (texts: seq<string>)
      reads this
      ensures texts == copied
    {
      copied
    }

    /** `get_pasted_buffer()`: every text pasted so far, oldest first; each is
        empty or was copied before. */
    function GetPastedBuffer(): (texts: seq<string>)
      reads this, clipboard
      requires Valid()
      ensures texts == pasted
      ensures forall p :: p in texts ==> p == "" || p in copied
    {
      pasted
    }

    /** `__on_press(key)`. */
    method OnPress(key: Key)
      requires Valid()
      modifies this, clipboard
      ensures Valid()
      ensures State() == Press(old(State()), key)
    {
      StepPreservesInv(State(), KeyDown(key));
      if key == Ctrl || Ctrl in GetReadBuffer() {
        pressed := pressed + [key];
        if CopyKey in pressed {
          var text := clipboard.Paste();
          copied := copied + [text];
        } else if PasteKey in pressed {
          if |copied| != 0 {
            clipboard.Copy(copied[|copied| - 1]);
            pasted := pasted + [copied[|copied| - 1]];
          } else {
            clipboard.Copy("");
            pasted := pasted + [""];
          }
        }
      }
    }

    /** `__on_release(key)`: `Some(false)` asks the listener to stop; `None`
        is Python's `None`. */
    method OnRelease(key: Key) returns (result: Option<bool>)
      requires Valid()
      modifies this
      ensures Valid()
      ensures (State(), result) == Release(old(State()), key)
    {
      if key != CopyKey || key != PasteKey {
        pressed := [];
      }
      if key == Esc {
        return Some(false);
      }
      return None;
    }
  }
}
