# Interactive-table hint button: a Dafny model

This project models the bookkeeping behind the "convert to interactive
table" button that a Colab notebook shows next to a pandas DataFrame
(`google/colab/_interactive_table_hint_button.py`).

When the hint formatter displays a frame it mints a key `df-<uuid>`. It
stores the frame in a weak-value dictionary under that key. It resets a
one-entry dictionary to hold only a shallow copy of this frame. It registers
the `convertToInteractive` output callback the first time. It puts the hint
button in front of the other buttons. A later click calls the callback with
the key. The callback pops the frame, looking in the last-value dictionary
first and in the weak dictionary second, and wraps it in an interactive data
table. A separate pair of functions installs and removes the formatter. They
save the replaced printer in `_original_formatters` once and hand it back
once.

Files:

- `wrappers.dfy`: `Option`, standing for Python's `None` or a value.
- `hint_cache.dfy`: module `HintCache`. The two caches and the callback
  registry as a value (`Session`), with its transitions (`Remember`,
  `RegisterConvert`, `Format`, `Take`, `Collect`, `LastKey`). Also the
  invariant `Inv` (at most one last-value entry, keys start with `df-`, the
  callback is registered at most once) and lemmas about sequences of
  operations.
- `hint_buttons.dfy`: module `HintButtons`. The button list (`WithHint`),
  Python's `'\n'.join` (`JoinLines`, characterised part by part), and the
  filled template slots (`TableHtml`).
- `formatter_toggle.dfy`: module `FormatterToggle`. Enabling and disabling
  as functions on the saved-formatter dictionary, with idempotence and
  round-trip lemmas.
- `hint_module.dfy`: module `InteractiveTableHint`. Class `HintModule`
  holds the module-level dictionaries as fields and updates them in place.
  Each method's `ensures` ties the new state to the transition function of
  the old state, and `Valid()` carries the invariant. Class `ButtonList`
  stands for the caller's Python list, which the formatter mutates.

## Model

| member | source | states |
|---|---|---|
| HintCache.MintKey | google/colab/_interactive_table_hint_button.py:107 | the key starts with `df-` and the rest of it is the uuid text |
| HintCache.MintKeyInjective | google/colab/_interactive_table_hint_button.py:107 | two uuids give the same key exactly when they are equal |
| HintCache.Remember | google/colab/_interactive_table_hint_button.py:108-112 | the last-value cache becomes exactly `{key: copy}`; the weak cache gains key → frame, every other weak entry is unchanged, and it grows by one for a fresh key |
| HintCache.Format | google/colab/_interactive_table_hint_button.py:107-118 | the last-value cache becomes exactly `{key: copy}`; the weak cache gains key → frame and keeps every other entry; the callback is registered afterwards, with a registration call added only if it was not registered before |
| HintCache.RegisterConvert | google/colab/_interactive_table_hint_button.py:114-118 | afterwards the callback is registered; if it already was, nothing changes; otherwise exactly one registration call is added |
| HintCache.Take | google/colab/_interactive_table_hint_button.py:85-93 | the last-value cache is looked up before the weak cache; the entry found is popped from that cache only; a key in neither cache gives `None` and leaves the state unchanged; a retrieval never adds keys |
| HintCache.Collect | google/colab/_interactive_table_hint_button.py:70-72 | collection removes exactly the collected keys from the weak cache; surviving entries and the last-value cache are unchanged |
| HintCache.LastKey | google/colab/_interactive_table_hint_button.py:96-99 | `None` exactly when the last-value cache is empty, otherwise the cache's only key |
| HintCache.InitialInv | google/colab/_interactive_table_hint_button.py:72-75 | the empty initial caches satisfy the invariant |
| HintCache.FormatInv | google/colab/_interactive_table_hint_button.py:105-118 | formatting with a `df-` key keeps at most one last-value entry and at most one callback registration |
| HintCache.TakeInv | google/colab/_interactive_table_hint_button.py:85-89 | retrieval preserves the invariant |
| HintCache.CollectInv | google/colab/_interactive_table_hint_button.py:70-72 | collection preserves the invariant |
| HintCache.FormatKeepsOnlyLatest | google/colab/_interactive_table_hint_button.py:110-112 | after a display the last-value cache has exactly one entry, the new key with the copy, and no earlier key survives in it |
| HintCache.TakeAfterFormat | google/colab/_interactive_table_hint_button.py:86-89 | right after a display, the 1st retrieval yields the copy; the 2nd yields the original unless it was collected; the 3rd yields `None` |
| HintCache.TakeShrinks | google/colab/_interactive_table_hint_button.py:86-89 | a retrieval finds a frame exactly when it removes one entry in total |
| HintCache.TakeOnce | google/colab/_interactive_table_hint_button.py:85-93 | each successful retrieval uses up one of the key's remaining entries; a failed one finds the key nowhere and changes nothing |
| HintCache.TakeLeavesOthers | google/colab/_interactive_table_hint_button.py:86-89 | retrieving one key leaves every other key's entries in both caches as they were |
| HintCache.RegisteredOnce | google/colab/_interactive_table_hint_button.py:114-118 | after any non-empty sequence of displays the callback has been registered exactly once |
| HintButtons.JoinLines | google/colab/_interactive_table_hint_button.py:168 | joining no parts gives the empty text; otherwise the length is the sum of the parts plus one newline between each neighbour |
| HintButtons.JoinLinesAt | google/colab/_interactive_table_hint_button.py:168 | part `i` appears in the joined text at its offset (the earlier parts plus their newlines), preceded by a newline unless it is first |
| HintButtons.JoinLinesAppend | google/colab/_interactive_table_hint_button.py:168 | joining two non-empty lists equals joining each and putting one newline between them |
| HintButtons.WithHint | google/colab/_interactive_table_hint_button.py:119-121 | the hint button is at index 0 and the supplied buttons follow in order; a missing or empty list gives a one-element list, and only then |
| HintButtons.ButtonRow | google/colab/_interactive_table_hint_button.py:119-121 | the rendered button row is the hint alone, or the hint, a newline, then the joined supplied buttons |
| HintButtons.RenderHtml | google/colab/_interactive_table_hint_button.py:167-180 | the fragment carries the key as container id, the frame's HTML, and as button row exactly the newline join of the buttons, whose length is the parts' total plus one per separator |
| FormatterToggle.Enable | google/colab/_interactive_table_hint_button.py:186-196 | without a shell, or with an original already saved, nothing changes; otherwise the replaced printer is saved under `text/html` |
| FormatterToggle.Disable | google/colab/_interactive_table_hint_button.py:199-210 | with a shell and a saved original, that original is handed back and removed; otherwise nothing is handed back and nothing changes |
| FormatterToggle.EnableIdempotent | google/colab/_interactive_table_hint_button.py:192-196 | a second enable changes nothing |
| FormatterToggle.DisableIdempotent | google/colab/_interactive_table_hint_button.py:205-210 | a second disable hands back nothing and changes nothing |
| FormatterToggle.EnableThenDisable | google/colab/_interactive_table_hint_button.py:186-210 | enable then disable hands back the printer enable replaced and restores the saved dictionary |
| FormatterToggle.EnableTwiceThenDisable | google/colab/_interactive_table_hint_button.py:186-210 | after two enables, a disable hands back the printer the first enable replaced |
| InteractiveTableHint.ButtonList.InsertFront | google/colab/_interactive_table_hint_button.py:121 | the list becomes the new item followed by the old items |
| InteractiveTableHint.HintModule.constructor | google/colab/_interactive_table_hint_button.py:70-75 | both caches, the callback registry and the saved formatters start empty |
| InteractiveTableHint.HintModule.DfFormatterWithInteractiveHint | google/colab/_interactive_table_hint_button.py:105-122 | the new state is `Format` of the old one under key `df-<uuid>`; the last key is then that key; the result is the fragment whose button row is the hint followed by the supplied buttons; a non-empty caller list gets the hint inserted at its front, while an empty one is left untouched |
| InteractiveTableHint.HintModule.RememberFrame | google/colab/_interactive_table_hint_button.py:107-112 | the caches become `Remember` of the old ones, and the key joins the minted keys |
| InteractiveTableHint.HintModule.RegisterConvertCallback | google/colab/_interactive_table_hint_button.py:114-118 | the registry becomes `RegisterConvert` of the old one |
| InteractiveTableHint.HintModule.GetDataframe | google/colab/_interactive_table_hint_button.py:85-93 | returns and removes what `Take` finds, keeping the invariant |
| InteractiveTableHint.HintModule.ConvertToInteractive | google/colab/_interactive_table_hint_button.py:78-82 | a data table over the retrieved frame, or `None` when retrieval finds nothing |
| InteractiveTableHint.HintModule.LastDataframeKey | google/colab/_interactive_table_hint_button.py:96-99 | `None` exactly when the last-value cache is empty, otherwise its only key, which was minted by a display |
| InteractiveTableHint.HintModule.Collect | google/colab/_interactive_table_hint_button.py:70-72 | only the collected keys leave the weak cache |
| InteractiveTableHint.HintModule.EnableDfInteractiveHintFormatter | google/colab/_interactive_table_hint_button.py:186-196 | the saved formatters become `Enable` of the old ones, and the caches are untouched |
| InteractiveTableHint.HintModule.DisableDfInteractiveHintFormatter | google/colab/_interactive_table_hint_button.py:199-210 | the returned printer and the saved formatters are `Disable` of the old ones, and the caches are untouched |
| InteractiveTableHint.ClickThreeTimes | google/colab/_interactive_table_hint_button.py:78-93 | on a fresh module, after one display three clicks convert the copy, then the original, then nothing |

## Left out

- The HTML, CSS, SVG and JavaScript text (`_ICON_SVG`, `_HINT_BUTTON_CSS`, the templates in `_get_button_html` and `_get_html`) is presentation markup. The hint button's markup is the function `buttonHtml` that the module is given. The page fragment is kept as its three substituted slots (`TableHtml`).
- `uuid.uuid4()` randomness: the caller supplies the uuid text. A precondition says its key was never minted before.
- pandas `copy(deep=False)` and `_repr_html_` are opaque functions given to the module. `data_table.DataTable` is the wrapper datatype `DataTable`.
- `output.register_callback` is foreign. Only the registered names and the sequence of registration calls are modelled. The value it returns, which the source stores in `_output_callbacks`, is not modelled.
- `IPython.get_ipython()` becomes a boolean "shell present" argument. The shell's `display_formatter` registry is not modelled: `for_type_by_name` and `pop` are not modelled. The printer that installing the hint formatter replaces is an argument (`current`). The printer that disabling hands back is a result.
- Garbage collection in the `WeakValueDictionary` is nondeterministic. `Collect(dead)` removes whichever keys the runtime chooses. Dataframe object identity and aliasing between a frame and its shallow copy are not modelled.
- The error message `_get_dataframe` prints for an unknown key is I/O and is left out. The `None` result is modelled.
- The foreign calls (`copy`, `_repr_html_`, `register_callback`, `for_type_by_name`) are treated as never raising, and a retrieval is atomic. So the model does not capture the partial states an exception would leave: a failing copy after `clear()` empties the last-value cache, and a failing registration leaves the callback unregistered for the next display to retry. Nor does it capture a collection between the membership test and `pop` on the weak dictionary, which raises `KeyError` in the source.
- `if not buttons`: of Python's falsy values, only `None` and the empty list are modelled.
- `_get_last_dataframe_key` returns the first key in insertion order. The model relies on the invariant that the last-value cache has at most one entry, so that key is its only key.
