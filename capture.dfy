/** What one key event does to the capture side of a client: the held-key
    buffer, the copy and paste histories and the system clipboard. `Client`
    in client.dfy is proved to follow these functions; the lemmas here state
    what they promise, event by event and over whole runs of events. */
module Capture {
  import opened Wrappers

  /** The keys the client tells apart: Ctrl, Esc, character keys, and the rest. */
  datatype Key = Ctrl | Esc | Char(c: char) | Other(code: nat)

  const CopyKey: Key := Char('c')
  const PasteKey: Key := Char('v')

  /** The held-key buffer, the copy and paste histories, and the text on the
      system clipboard. */
  datatype CaptureState = CaptureState(
    pressed: seq<Key>,
    copied: seq<string>,
    pasted: seq<string>,
    clipboard: string)

  /** A new client on a clipboard holding `clipboard`. */
  function Initial(clipboard: string): CaptureState {
    CaptureState([], [], [], clipboard)
  }

  /** A press is recorded when it is Ctrl or Ctrl is already buffered. */
  predicate Records(st: CaptureState, key: Key) {
    key == Ctrl || Ctrl in st.pressed
  }

  /** What a paste puts on the clipboard and in the paste history: the last
      copied text, or the empty string when nothing was copied. */
  function PasteText(copied: seq<string>): string {
    if |copied| != 0 then copied[|copied| - 1] else ""
  }

  /** A key press. A recorded press is appended to the buffer; then a buffered
      `c` copies the clipboard into the copy history, and otherwise a buffered
      `v` pastes. */
  function Press(st: CaptureState, key: Key): CaptureState {
    if Records(st, key) then
      var held := st.pressed + [key];
      if CopyKey in held then
        st.(pressed := held, copied := st.copied + [st.clipboard])
      else if PasteKey in held then
        var text := PasteText(st.copied);
        st.(pressed := held, pasted := st.pasted + [text], clipboard := text)
      else
        st.(pressed := held)
    else
      st
  }

  /** The guard of a release as written: `key != 'c' or key != 'v'`. */
  predicate ReleaseGuard(key: Key) {
    key != CopyKey || key != PasteKey
  }

  /** A key release: the buffer is emptied when the guard holds; the result is
      `Some(false)` (stop listening) for Esc and `None` for any other key. */
  function Release(st: CaptureState, key: Key): (CaptureState, Option<bool>) {
    var st' := if ReleaseGuard(key) then st.(pressed := []) else st;
    (st', if key == Esc then Some(false) else None)
  }

  datatype Event = KeyDown(key: Key) | KeyUp(key: Key)

  function Step(st: CaptureState, e: Event): CaptureState {
    match e
    case KeyDown(k) => Press(st, k)
    case KeyUp(k) => Release(st, k).0
  }

  /** The state after a run of events delivered in order. Every sequence of
      events is allowed, including events after a release of Esc, which in
      the client stops the listener; lemmas over all runs cover the runs the
      listener actually delivers. */
  function Run(st: CaptureState, events: seq<Event>): CaptureState
    decreases |events|
  {
    if events == [] then st else Run(Step(st, events[0]), events[1..])
  }

  /** The buffer is empty or starts with Ctrl, and every pasted text is empty
      or was copied before. */
  ghost predicate Inv(st: CaptureState) {
    (st.pressed == [] || st.pressed[0] == Ctrl)
    && forall p :: p in st.pasted ==> p == "" || p in st.copied
  }

  // ---------------------------------------------------------------------------
  // One press

  /** A press that is not Ctrl while Ctrl is not buffered changes nothing. */
  lemma PressIgnored(st: CaptureState, key: Key)
    requires key != Ctrl && Ctrl !in st.pressed
    ensures Press(st, key) == st
  {
  }

  /** A recorded press appends exactly that key to the buffer. */
  lemma PressRecords(st: CaptureState, key: Key)
    requires Records(st, key)
    ensures Press(st, key).pressed == st.pressed + [key]
  {
  }

  /** With `c` buffered after a recorded press, the clipboard text is appended
      to the copy history; the paste history and the clipboard stay as they
      were. This holds whether or not `v` is buffered too. */
  lemma PressCopies(st: CaptureState, key: Key)
    requires Records(st, key) && CopyKey in st.pressed + [key]
    ensures Press(st, key).copied == st.copied + [st.clipboard]
    ensures Press(st, key).pasted == st.pasted
    ensures Press(st, key).clipboard == st.clipboard
  {
  }

  /** With `v` and not `c` buffered after a recorded press, the last copied
      text (or `""` when there is none) goes on the clipboard and at the end of
      the paste history; the copy history stays as it was. */
  lemma PressPastes(st: CaptureState, key: Key)
    requires Records(st, key)
    requires CopyKey !in st.pressed + [key] && PasteKey in st.pressed + [key]
    ensures |st.copied| != 0 ==> Press(st, key).clipboard == st.copied[|st.copied| - 1]
    ensures |st.copied| == 0 ==> Press(st, key).clipboard == ""
    ensures Press(st, key).pasted == st.pasted + [Press(st, key).clipboard]
    ensures Press(st, key).copied == st.copied
  {
  }

  /** A recorded press with neither `c` nor `v` buffered only grows the buffer. */
  lemma PressOnlyBuffers(st: CaptureState, key: Key)
    requires Records(st, key)
    requires CopyKey !in st.pressed + [key] && PasteKey !in st.pressed + [key]
    ensures Press(st, key) == st.(pressed := st.pressed + [key])
  {
  }

  // ---------------------------------------------------------------------------
  // One release

  /** The release guard cannot fail: no key equals both `c` and `v`. */
  lemma ReleaseGuardAlwaysHolds(key: Key)
    ensures ReleaseGuard(key)
  {
  }

  /** Every release empties the buffer and leaves the histories and the
      clipboard alone; it asks to stop listening exactly for Esc. */
  lemma ReleaseClears(st: CaptureState, key: Key)
    ensures Release(st, key).0 == st.(pressed := [])
    ensures Release(st, key).1 == Some(false) <==> key == Esc
    ensures Release(st, key).1 != Some(false) ==> Release(st, key).1 == None
  {
    ReleaseGuardAlwaysHolds(key);
  }

  // ---------------------------------------------------------------------------
  // Runs of events

  lemma StepPreservesInv(st: CaptureState, e: Event)
    requires Inv(st)
    ensures Inv(Step(st, e))
  {
    match e
    case KeyDown(k) =>
      var st' := Press(st, k);
      if Records(st, k) {
        assert st'.pressed[0] == (st.pressed + [k])[0];
      }
      forall p | p in st'.pasted ensures p == "" || p in st'.copied {
        if p !in st.pasted {
          assert p == PasteText(st.copied);
        }
      }
    case KeyUp(k) =>
  }

  /** From a fresh client, every reachable state keeps `Inv`: the buffer is
      empty or starts with Ctrl, and nothing is pasted that was not copied
      (apart from the empty string). */
  lemma {:induction false} RunPreservesInv(st: CaptureState, events: seq<Event>)
    requires Inv(st)
    ensures Inv(Run(st, events))
    decreases |events|
  {
    if events != [] {
      StepPreservesInv(st, events[0]);
      RunPreservesInv(Step(st, events[0]), events[1..]);
    }
  }

  /** Under `Inv`, Ctrl is buffered exactly when the buffer is not empty: the
      buffer is the two-state machine Idle (empty) / Ctrl held. */
  lemma CtrlHeldIffBuffered(st: CaptureState)
    requires Inv(st)
    ensures Ctrl in st.pressed <==> st.pressed != []
  {
    if st.pressed != [] {
      assert st.pressed[0] == Ctrl;
    }
  }

  /** The copy and paste histories are append-only, and each event adds at
      most one entry to them in all. */
  lemma {:induction false} RunAppendsHistories(st: CaptureState, events: seq<Event>)
    ensures st.copied <= Run(st, events).copied
    ensures st.pasted <= Run(st, events).pasted
    ensures |Run(st, events).copied| + |Run(st, events).pasted|
            <= |st.copied| + |st.pasted| + |events|
    decreases |events|
  {
    if events != [] {
      var st' := Step(st, events[0]);
      assert st.copied <= st'.copied && st.pasted <= st'.pasted;
      RunAppendsHistories(st', events[1..]);
    }
  }

  /** Typing keys: each key pressed and then released, in order. */
  function Typed(keys: seq<Key>): seq<Event> {
    if keys == [] then [] else [KeyDown(keys[0]), KeyUp(keys[0])] + Typed(keys[1..])
  }

  /** Typing any keys other than Ctrl (characters, Enter, ...) on an empty
      buffer changes nothing at all. */
  lemma {:induction false} TypingWithoutCtrl(st: CaptureState, keys: seq<Key>)
    requires st.pressed == [] && Ctrl !in keys
    ensures Run(st, Typed(keys)) == st
    decreases |keys|
  {
    if keys != [] {
      var e := Typed(keys);
      assert e[1..] == [KeyUp(keys[0])] + Typed(keys[1..]);
      assert e[1..][1..] == Typed(keys[1..]);
      assert Ctrl !in keys[1..] by {
        forall i | 0 <= i < |keys[1..]| ensures keys[1..][i] != Ctrl {
          assert keys[1..][i] == keys[i + 1];
        }
      }
      TypingWithoutCtrl(st, keys[1..]);
    }
  }

  /** Two events in a row are two steps. */
  lemma RunTwo(st: CaptureState, e1: Event, e2: Event)
    ensures Run(st, [e1, e2]) == Step(Step(st, e1), e2)
  {
    var events := [e1, e2];
    assert events[1..] == [e2] && events[1..][1..] == [];
    assert Run(st, events) == Run(Step(st, e1), [e2]);
    assert Run(Step(st, e1), [e2]) == Run(Step(Step(st, e1), e2), []);
  }

  /** Ctrl then `c` on a fresh client buffers both keys and copies the
      clipboard text once. */
  lemma CtrlCCopies(clipboard: string)
    ensures var st := Run(Initial(clipboard), [KeyDown(Ctrl), KeyDown(CopyKey)]);
            st.pressed == [Ctrl, CopyKey] && st.copied == [clipboard] && st.pasted == []
  {
    RunTwo(Initial(clipboard), KeyDown(Ctrl), KeyDown(CopyKey));
    var s1 := Press(Initial(clipboard), Ctrl);
    assert s1 == Initial(clipboard).(pressed := [Ctrl]);
    PressCopies(s1, CopyKey);
  }

  /** Ctrl then `v` on a fresh client pastes the empty string once. */
  lemma CtrlVPastesEmpty(clipboard: string)
    ensures var st := Run(Initial(clipboard), [KeyDown(Ctrl), KeyDown(PasteKey)]);
            st.pasted == [""] && st.clipboard == "" && st.copied == []
  {
    RunTwo(Initial(clipboard), KeyDown(Ctrl), KeyDown(PasteKey));
    var s1 := Press(Initial(clipboard), Ctrl);
    assert s1 == Initial(clipboard).(pressed := [Ctrl]);
    assert CopyKey !in s1.pressed + [PasteKey];
    PressPastes(s1, PasteKey);
  }
}
