# SyncClipboard capture side, in Dafny

This project models the local capture side of the SyncClipboard client and
the small value types it passes around:

- **the key-combination capture buffer** (`Client`): a held-key buffer that
  records presses while Ctrl is down, an append-only history of copied texts,
  an append-only history of pasted texts, and the system clipboard it reads on
  Ctrl+C and overwrites on Ctrl+V;
- **the observer registry** (`ClipboardSubject`): a list of observers with set
  semantics, and a `notify` that calls every observer's `update` in order;
- **the value types** `ClipUser` (a user record whose id is a hash of its
  fields) and `ClipObject` (one clipboard text with a one-key dict view).

Files, one module each:

| file | module | models |
|---|---|---|
| `capture.dfy` | `Capture` | what one key press or release does to the buffers and the clipboard, as functions; lemmas over single events and over runs of events |
| `client.dfy` | `Clients` | `Client` as a class whose methods are proved to follow `Capture`; the system clipboard as a `Clipboard` object |
| `clipboard_observer.dfy` | `ClipboardObservers` | `ClipboardSubject` as a class with a no-duplicates invariant; `attach`/`detach` specified by functions on sequences |
| `clip_object.dfy` | `ClipObjects` | `ClipObject` and its dict view |
| `clip_user.dfy` | `ClipUsers` | `ClipUser`, its derived id, its dict view and its `str` |
| `py_repr.dfy` | `PyRepr` | Python dicts of `int`/`str` values, Python's `str` of such a dict, and a parser that reads it back |
| `decimal.dfy` | `Decimal` | Python's `str` of an `int`, and reading it back |
| `wrappers.dfy` | `Wrappers` | `Option`, also used for Python's `None` |

Modelling choices:

- Keys are `Ctrl | Esc | Char(c) | Other(code)`. The source's `Key.ctrl`, `Key.esc`
  and `KeyCode.from_char(c)` are `Ctrl`, `Esc` and `Char(c)`.
- The system clipboard is a `Clipboard` object with one `text` field. The
  `Client` holds it, but other programs share it. `Clipboard.Paste` and
  `Clipboard.Copy` stand for `pyperclip.paste()` and `pyperclip.copy(s)`.
- `__on_release` returns `Option<bool>`. `Some(false)` is Python's `False`,
  which stops the listener. `None` is Python's `None`.
- Python's `hash` on `str` is salted per process. It is a parameter
  `hash: string -> int` of `NewUser`, and its values are never assumed.
- Python dicts are sequences of `(key, value)` entries in insertion order,
  because `str` of a dict follows that order. `Lookup` gives `d[k]`.
- `ClipboardObserver.update` is an abstract callback. `Notify` returns the
  calls `Update(observer, userId, item)` it makes, in the order it makes them.
- The release guard `key != 'c' or key != 'v'` (src/client.py:54) is modelled
  as written. `Capture.ReleaseGuardAlwaysHolds` proves it is always true, so
  every release empties the buffer.
- The `ClipUser` id hashes `username + str(hash(password)) + email` with no
  separator between the fields. `ClipUsers.IdIgnoresFieldBoundaries` shows
  what follows: for any password `p` with `D = str(hash(p))`, the users
  `(a, p, D + b)` and `(a + D, p, b)` have different usernames and the same id.
  The source does not say that ids are unique, so this is recorded as a
  property of the design, not as a defect.

## Model

| member | source | states |
|---|---|---|
| `Clients.Client.constructor` | src/client.py:9-14 | a new client has empty read, copied and pasted buffers and leaves the clipboard alone |
| `Clients.Client.OnPress` | src/client.py:18-41 | a press changes the buffers and the clipboard exactly as `Capture.Press` says, and keeps the client invariant |
| `Clients.Client.OnRelease` | src/client.py:44-58 | a release changes the buffer and returns exactly as `Capture.Release` says, keeps the invariant, and leaves the clipboard and histories alone |
| `Clients.Client.GetReadBuffer` | src/client.py:89-95 | returns the held keys; the buffer is empty or starts with Ctrl |
| `Clients.Client.GetCopiedBuffer` | src/client.py:98-104 | returns the copy history |
| `Clients.Client.GetPastedBuffer` | src/client.py:107-113 | returns the paste history; each pasted text is empty or was copied before |
| `Clients.Clipboard.Paste` | src/client.py:29 | reading the clipboard returns its current text |
| `Clients.Clipboard.Copy` | src/client.py:33 | writing the clipboard replaces its text with the given string |
| `Capture.PressIgnored` | src/client.py:25 | a press of a non-Ctrl key while Ctrl is not buffered leaves buffers and clipboard unchanged |
| `Capture.PressRecords` | src/client.py:25-26 | a recorded press appends exactly that key to the end of the read buffer |
| `Capture.PressCopies` | src/client.py:28-29 | with `c` buffered after a recorded press, the clipboard text is appended to the copy history; paste history and clipboard are unchanged; this holds even when `v` is buffered too (copy wins) |
| `Capture.PressPastes` | src/client.py:31-41 | with `v` and not `c` buffered, the clipboard becomes the last copied text (or `""` if none) and that text is appended to the paste history, which grows by exactly one; the copy history is unchanged |
| `Capture.PressOnlyBuffers` | src/client.py:25-31 | a recorded press with neither `c` nor `v` buffered changes only the read buffer |
| `Capture.ReleaseGuardAlwaysHolds` | src/client.py:54 | the release guard is true for every key |
| `Capture.ReleaseClears` | src/client.py:54-58 | every release empties the read buffer and leaves histories and clipboard alone; it returns `False` if and only if the key is Esc, and `None` otherwise |
| `Capture.StepPreservesInv` | src/client.py:25-41 | one press or release keeps the invariant: buffer empty or starting with Ctrl, every pasted text empty or copied before |
| `Capture.RunPreservesInv` | src/client.py:12-14 | every run of events from a state that satisfies the invariant, a new client's included, ends in a state that satisfies it |
| `Capture.CtrlHeldIffBuffered` | src/client.py:25 | under the invariant, Ctrl is buffered exactly when the buffer is non-empty, so the buffer is the two states Idle and Ctrl-held |
| `Capture.RunAppendsHistories` | src/client.py:29-40 | over any run of events the copy and paste histories only grow at the end, and by at most one entry per event in all |
| `Capture.TypingWithoutCtrl` | src/tests/client_test.py:13-19 | pressing and releasing, one after another, any keys other than Ctrl (characters, Enter and the rest) on an empty buffer changes nothing at all |
| `Capture.CtrlCCopies` | src/tests/client_test.py:22-39 | Ctrl then `c` on a new client buffers both keys and copies the clipboard text once |
| `Capture.CtrlVPastesEmpty` | src/tests/client_test.py:45-52 | Ctrl then `v` on a new client pastes `""` once and puts `""` on the clipboard |
| `ClipboardObservers.ClipboardSubject.constructor` | src/clipboard_observer.py:25-26 | a new subject has no observers and satisfies the no-duplicates invariant |
| `ClipboardObservers.ClipboardSubject.Attach` | src/clipboard_observer.py:28-35 | the list becomes `Attached(old list, observer)` and stays free of duplicates |
| `ClipboardObservers.ClipboardSubject.Detach` | src/clipboard_observer.py:37-44 | the list becomes `Detached(old list, observer)` and stays free of duplicates |
| `ClipboardObservers.ClipboardSubject.Notify` | src/clipboard_observer.py:46-54 | exactly one `update(userId, item)` per attached observer, in attachment order, with the same arguments; the observer list is not modified |
| `ClipboardObservers.AttachedSpec` | src/clipboard_observer.py:34-35 | attaching a present observer changes nothing; a new observer is appended at the end with earlier ones kept in order; no duplicates; members are the old ones plus the observer |
| `ClipboardObservers.AttachIdempotent` | src/clipboard_observer.py:34 | attaching the same observer twice equals attaching it once |
| `ClipboardObservers.DetachedSpec` | src/clipboard_observer.py:43-44 | detaching an absent observer changes nothing; a present one is cut out at its position with the others kept in order; no duplicates; members are the old ones minus the observer |
| `ClipboardObservers.RemoveFirstSplits` | src/clipboard_observer.py:44 | `list.remove(x)` removes the first occurrence of `x` and keeps both sides in order |
| `ClipboardObservers.DetachUndoesAttach` | src/clipboard_observer.py:34-44 | detaching an observer just attached restores the previous list |
| `ClipObjects.ClipObject.GetContent` | src/clip_object.py:2-11 | `get_content` returns exactly the string the object was built from |
| `ClipObjects.ClipObject.ToJson` | src/clip_object.py:6-7 | the dict view has exactly one key, `"content"`, and its value equals `get_content()` |
| `ClipObjects.FromJson` | src/clip_object.py:2-7 | an object can be rebuilt from a dict exactly when its `"content"` entry is a string |
| `ClipObjects.JsonRoundTrip` | src/clip_object.py:2-7 | rebuilding an object from its dict view gives the same object |
| `ClipObjects.ToJsonInjective` | src/clip_object.py:6-7 | objects with the same dict view are equal |
| `ClipUsers.NewUser` | src/clip_user.py:5-44 | the getters return the username and email as given, the stored password is `hash(password)`, and the id is `hash(username + str(hash(password)) + email)` |
| `ClipUsers.IdSource` | src/clip_user.py:16-18 | the hashed string starts with the username, ends with the email, and has `str(hash(password))` between them |
| `ClipUsers.SameFieldsSameId` | src/clip_user.py:13-19 | two users built from the same triple under one hash have the same id and the same dict view |
| `ClipUsers.IdIgnoresFieldBoundaries` | src/clip_user.py:16-18 | moving `str(hash(p))` from the front of the email to the end of the username gives a different user with the same id |
| `ClipUsers.ClipUser.ToJson` | src/clip_user.py:47-58 | the dict view has exactly the keys `id`, `username`, `password`, `email`, in that order, each mapped to the matching getter |
| `ClipUsers.ClipUser.ToString` | src/clip_user.py:61-67 | `str(user)` is Python's rendering of `to_json()`; reading it back gives exactly `to_json()` |
| `ClipUsers.ToStringInjective` | src/clip_user.py:61-67 | users with the same `str` are the same user |
| `Decimal.DecimalRoundTrip` | src/clip_user.py:17 | reading back `str(n)` of an `int`, followed by any non-digit text, gives `n` and that text |
| `Decimal.DecimalStringInjective` | src/clip_user.py:17 | distinct integers have distinct `str` |
| `PyRepr.ParseReprDict` | src/clip_user.py:67 | Python's `str` of a dict of `int` and `str` values parses back to the same dict |
| `PyRepr.ReprDictInjective` | src/clip_user.py:67 | dicts with the same `str` are equal |

## Left out

- The pynput `Listener` thread, SIGINT interception, `start_listening` and `start_listening_debug` (src/client.py:15-16, 61-86): threads, signals and the native keyboard hook. Key events are sequential method calls here.
- Clients.Clipboard.Paste: assumed to succeed. In the source `pyperclip.paste()` (src/client.py:29) raises when the machine has no clipboard backend (src/clipboard_platform.py:93-98 catches exactly that elsewhere). The key is then already buffered (src/client.py:26), no copy is recorded, and the exception leaves `__on_press` and stops the listener. `Capture.PressCopies` and `Capture.RunAppendsHistories` hold only for runs where the clipboard works.
- Clients.Clipboard.Copy: assumed to succeed. In the source `pyperclip.copy` (src/client.py:33, 38) raises the same way (src/clipboard_platform.py:235-240). The key is then buffered, nothing is appended to the paste history, and the listener stops. So `Capture.PressPastes`, which says the paste history grows by exactly one, holds only while the clipboard works.
- Capture.Run: applies every event of a run, also those after a release of Esc. In the source the `False` returned for Esc (src/client.py:57-58) stops the listener, so later events never arrive. Lemmas over all runs therefore also cover runs the listener does not deliver.
- The `pyperclip.paste()` calls after each paste (src/client.py:34, 39): their results are discarded, so they change nothing.
- Aliasing of the list returned by `get_read_buffer`: the source hands out the list itself, and a caller can clear it through the getter (src/tests/client_test.py:21). Here the getters return values, and only `OnRelease` clears the buffer.
- Platform key translation: on some platforms a character pressed with Ctrl held arrives as a control character, not as `c` or `v`. The model takes keys as already decoded into `Key`.
- `print` logging in every method: output only.
- Python's `hash` values and their per-process salt: `hash` is a parameter, and nothing about its values is assumed.
- Python's `repr` of a `str` escapes non-printable non-ASCII characters (as `\xhh`, `\uXXXX` or `\UXXXXXXXX`). `PyRepr.ReprStr` writes such characters unchanged. It escapes only the backslash, the quote, tab, newline, carriage return and ASCII control characters.
- Exceptions raised by an observer's `update` propagate out of `notify` in the source, and an `update` could attach or detach observers while `notify` iterates. Observer behaviour is outside this model: `Notify` only records the calls.
- `ServerClipboardObserver.update` (src/clipboard_observer.py:57-96): an HTTP POST.
- `src/clipboard_platform.py`: OS clipboard backends reached through subprocesses and native libraries. It is not part of this model.
- `src/webapp.py`, `src/websocket_client.py`, `src/db_management.py` and `src/main_client.py`: Flask and Socket.IO routing, network callbacks, storage stubs and process startup. They are not part of this model. Room fan-out is handed to flask_socketio's `join_room`/`emit` (src/webapp.py:86-92, 136); echo suppression is not implemented, and the history store is a stub (src/db_management.py).
- Tests of `content_type`, `image_data`, `is_image`, `from_image_bytes` and `get_image_bytes` (src/tests/clip_object_test.py:13-49) target methods that `ClipObject` does not define, so they are not modelled.
