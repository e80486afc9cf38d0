# Segmentation tool: undo history, colour lightening and class entry

This project models the deterministic logic of the image-annotation tool's
canvas and classes panel, and proves properties of it in Dafny.

- **Undo history** (`CanvasArea`, `canvas_area.dfy`). This is the canvas component's
  stack of serialized canvas states. A save pushes the current serialization
  unless it equals the top, and a push empties the auxiliary stack. An undo
  pops the top only while more than one entry remains, moves the popped entry
  to the auxiliary stack and loads the new top back into the surface.
  Otherwise the undo shows the warning "Nada para desfazer.". There is also a
  drawing-mode toggle. The serialization is an opaque string, passed in as a
  parameter. A `Session` record holds both stacks, the optional surface and the
  brush flag, and every operation is a pure function on it.
- **Colour lightening** (`ClassesInput`, `classes_input.dfy`). The first `#` is
  removed, three two-digit hex pairs are read, an amount is added to each, and
  the sum is capped at 255. The result is written as `rgb(r, g, b)` text.
  Helper modules hold hex digits (`HexDigits`), decimal text with its reader
  (`DecimalText`) and `Option` (`Wrappers`).
- **Class entry** (`ClassesPanel`, `classes_panel.dfy`). This covers the add
  button's blank-name rule, the six-letter random colour, row highlighting by
  id, and the rule that opens the panel on windows at least 800 wide.

Some behaviours of the source code are kept in the model:

- `undo` tests the popped entry for JavaScript truthiness before moving it to
  the auxiliary stack. So an empty-string snapshot is popped but not moved.
  `CanvasArea.Undo` keeps this test.
- No snapshot of the blank surface is ever pushed. The first save therefore
  becomes the bottom entry, and the first stroke cannot be undone.
  `CanvasArea.FirstSaveCannotBeUndone` states this.
- `hex.replace("#", "")` removes the first `#` wherever it is, not only a
  leading one. `ClassesInput.RemoveFirst` models that.
- There is no lower cap: a negative amount can give negative channels. The
  model computes the channels as exact integers; the source computes them in
  floating point (see "## Left out").
- The auxiliary stack is written but never read.
  `CanvasArea.RedoStackIsWriteOnly` proves that it never influences anything
  else.

## Model

| member | source | states |
|---|---|---|
| CanvasArea.Initial | segmentation-tool/src/components/Canvas/CanvasArea.tsx:8-15 | The component starts with both stacks empty, no surface and the brush flag on. |
| CanvasArea.Mount | segmentation-tool/src/components/Canvas/CanvasArea.tsx:30-53 | Creating the surface turns drawing mode on. It loads the top snapshot when one exists and leaves both stacks and the brush flag alone. |
| CanvasArea.SaveState | segmentation-tool/src/components/Canvas/CanvasArea.tsx:55-61 | The save pushes and empties the auxiliary stack exactly when the stack is empty or its top differs. Otherwise the session is unchanged. Afterwards the top equals the current serialization and the length grew by at most one. |
| CanvasArea.Undo | segmentation-tool/src/components/Canvas/CanvasArea.tsx:115-131 | With a surface and more than one entry: exactly the top is removed, and the lower entries keep their order. The top goes to the auxiliary stack when it is non-empty text. The entry second from the top is loaded, and no warning is shown. In every other case nothing changes and the "Nada para desfazer." warning is shown. |
| CanvasArea.ToggleBrushing | segmentation-tool/src/components/Canvas/CanvasArea.tsx:107-113 | With a surface, drawing mode is negated and the brush flag takes the new mode. Without one nothing changes. The stacks are never touched. |
| CanvasArea.SaveKeepsNoAdjacentDuplicates | segmentation-tool/src/components/Canvas/CanvasArea.tsx:57-58 | A save never puts two equal snapshots next to each other. |
| CanvasArea.UndoKeepsNoAdjacentDuplicates | segmentation-tool/src/components/Canvas/CanvasArea.tsx:116-117 | An undo keeps the stack free of equal neighbours. |
| CanvasArea.SaveTwiceIsSaveOnce | segmentation-tool/src/components/Canvas/CanvasArea.tsx:57 | Saving the same serialization twice in a row has the effect of saving it once. |
| CanvasArea.UndoKeepsBaseline | segmentation-tool/src/components/Canvas/CanvasArea.tsx:116-117 | Undo never empties a non-empty stack and never changes its bottom entry. |
| CanvasArea.ToggleTwiceRestores | segmentation-tool/src/components/Canvas/CanvasArea.tsx:107-113 | Toggling twice gives back the original session whenever the brush flag mirrors the mode. |
| CanvasArea.SaveThenUndoRestoresPrevious | segmentation-tool/src/components/Canvas/CanvasArea.tsx:55-124 | An undo right after a save that pushed gives back the earlier stack and loads its top into the surface. |
| CanvasArea.MountedIsConsistent | segmentation-tool/src/components/Canvas/CanvasArea.tsx:15-32 | The freshly created surface satisfies the invariant: no equal neighbours, and the brush flag equals the drawing mode. |
| CanvasArea.StepKeepsConsistent | segmentation-tool/src/components/Canvas/CanvasArea.tsx:55-131 | Each save, undo or toggle keeps the invariant. |
| CanvasArea.ReplayKeepsConsistent | segmentation-tool/src/components/Canvas/CanvasArea.tsx:55-131 | Every sequence of saves, undos and toggles keeps the invariant. |
| CanvasArea.ReplayKeepsBaseline | segmentation-tool/src/components/Canvas/CanvasArea.tsx:116-117 | Once a snapshot exists, no sequence of events empties the stack or changes its bottom entry. |
| CanvasArea.RedoStackIsWriteOnly | segmentation-tool/src/components/Canvas/CanvasArea.tsx:10 | The auxiliary stack is never read back. Sessions that differ only in it stay equal in everything else under any events. |
| CanvasArea.FirstSaveCannotBeUndone | segmentation-tool/src/components/Canvas/CanvasArea.tsx:47-61 | After the surface is created and one stroke is saved, the stack holds only that snapshot. An undo then only warns. |
| ClassesInput.RemoveFirst | segmentation-tool/src/components/ClassesPanel/ClassesInput.tsx:22 | Removing `#` leaves text without `#` unchanged and drops one character otherwise. A leading `#` is simply cut off. |
| ClassesInput.RemoveFirstAt | segmentation-tool/src/components/ClassesPanel/ClassesInput.tsx:22 | Exactly the first `#` is removed. Everything before and after it stays in order. |
| ClassesInput.Channels | segmentation-tool/src/components/ClassesPanel/ClassesInput.tsx:24-35 | The pairs at offsets 0-2, 2-4 and 4-6 are read as the three channel values, each between 0 and 255. |
| ClassesInput.ChannelsOfDigits | segmentation-tool/src/components/ClassesPanel/ClassesInput.tsx:24-35 | Each channel is sixteen times the first digit of its pair plus the second digit. |
| ClassesInput.Lighten | segmentation-tool/src/components/ClassesPanel/ClassesInput.tsx:24-35 | No lightened channel exceeds 255. |
| ClassesInput.LightenColor | segmentation-tool/src/components/ClassesPanel/ClassesInput.tsx:20-38 | The returned text is `rgb(...)` and never hex: it holds no `#`, and reading it back gives exactly the lightened channels. |
| ClassesInput.FormatRgb | segmentation-tool/src/components/ClassesPanel/ClassesInput.tsx:37 | The text starts with `rgb(` and ends with `)`. |
| ClassesInput.FormatRgbRoundTrip | segmentation-tool/src/components/ClassesPanel/ClassesInput.tsx:37 | The `rgb(r, g, b)` text is unambiguous: its three decimal integers read back as the channels. |
| ClassesInput.LightenBounds | segmentation-tool/src/components/ClassesPanel/ClassesInput.tsx:24-35 | With a non-negative amount, each channel lies between its original value and 255. |
| ClassesInput.LightenByZero | segmentation-tool/src/components/ClassesPanel/ClassesInput.tsx:24-35 | An amount of 0 gives back the original channels. |
| ClassesInput.LightenMonotone | segmentation-tool/src/components/ClassesPanel/ClassesInput.tsx:24-35 | A larger amount never gives a smaller channel. |
| ClassesInput.HashIsOptional | segmentation-tool/src/components/ClassesPanel/ClassesInput.tsx:21-22 | "#RRGGBB" and "RRGGBB" are both accepted and give the same text. |
| ClassesInput.IconLighteningSaturates | segmentation-tool/src/components/ClassesPanel/ClassesInput.tsx:66 | With the icon's amount 99, a channel becomes 255 exactly when its original value is at least 156. Below that it grows by 99. |
| DecimalText.IntRoundTrip | segmentation-tool/src/components/ClassesPanel/ClassesInput.tsx:37 | The decimal text of a channel, with its sign, reads back as the same integer. |
| HexDigits.LettersDecode | segmentation-tool/src/components/ClassesPanel/ClassesPanel.tsx:51 | Every letter of "0123456789ABCDEF" is a hex digit whose value is its position. |
| ClassesPanel.Trim | segmentation-tool/src/components/ClassesPanel/ClassesPanel.tsx:43 | The trimmed name is no longer than the name, and neither of its ends is white space. |
| ClassesPanel.IsBlank | segmentation-tool/src/components/ClassesPanel/ClassesPanel.tsx:43 | A name the add button ignores consists only of white space. |
| ClassesPanel.BlankIffAllWhitespace | segmentation-tool/src/components/ClassesPanel/ClassesPanel.tsx:43 | Trimming leaves nothing exactly when every character of the name is white space. |
| ClassesPanel.TrimStart | segmentation-tool/src/components/ClassesPanel/ClassesPanel.tsx:43 | The result is a suffix of the input. Everything dropped is white space, and the result does not start with white space. |
| ClassesPanel.TrimEnd | segmentation-tool/src/components/ClassesPanel/ClassesPanel.tsx:43 | The result is a prefix of the input. Everything dropped is white space, and the result does not end with white space. |
| ClassesPanel.HandleAddClassClick | segmentation-tool/src/components/ClassesPanel/ClassesPanel.tsx:42-47 | A blank name changes nothing and makes no callback. Otherwise the callback gets the name as typed, untrimmed, with the current colour. The input is then cleared and a fresh colour replaces the current one. |
| ClassesPanel.WhitespaceNameIsIgnored | segmentation-tool/src/components/ClassesPanel/ClassesPanel.tsx:43 | A name made only of white space, including the empty name, leaves the panel as it was and makes no callback. |
| ClassesPanel.VisibleNameIsSentAsTyped | segmentation-tool/src/components/ClassesPanel/ClassesPanel.tsx:44-45 | A name with any non-white-space character is sent unchanged, and the input is reset to "". |
| ClassesPanel.AddKeepsColorLightenable | segmentation-tool/src/components/ClassesPanel/ClassesPanel.tsx:45-46 | After an add, the panel's colour is still one the icon lightening accepts. |
| ClassesPanel.DrawLetters | segmentation-tool/src/components/ClassesPanel/ClassesPanel.tsx:53-55 | One letter per draw: the letter at each position is the alphabet letter the draw indexes. |
| ClassesPanel.RandomColor | segmentation-tool/src/components/ClassesPanel/ClassesPanel.tsx:49-57 | A generated colour is 7 characters: "#" and then the six drawn letters in order. |
| ClassesPanel.GetRandomColor | segmentation-tool/src/components/ClassesPanel/ClassesPanel.tsx:49-57 | The letter-appending loop yields the generated colour: "#" and then six hex digits. |
| ClassesPanel.GeneratedColorIsLightenable | segmentation-tool/src/components/ClassesPanel/ClassesPanel.tsx:169-174 | Every generated colour passed to the input component is one the lightening accepts. Its channels are the draws taken in pairs. |
| ClassesPanel.InitialPanel | segmentation-tool/src/components/ClassesPanel/ClassesPanel.tsx:27-58 | The panel starts with an empty input, open, and holding a generated colour. |
| ClassesPanel.ReloadColor | segmentation-tool/src/components/ClassesPanel/ClassesPanel.tsx:59-61 | The reload icon replaces only the colour, with a freshly generated one. |
| ClassesPanel.IsSelected | segmentation-tool/src/components/ClassesPanel/ClassesPanel.tsx:131 | A row can be selected only when the selection is not null. |
| ClassesPanel.Highlighted | segmentation-tool/src/components/ClassesPanel/ClassesPanel.tsx:129-131 | Only rows that exist can be highlighted. |
| ClassesPanel.NoSelectionHighlightsNothing | segmentation-tool/src/components/ClassesPanel/ClassesPanel.tsx:131 | A null selection highlights no row. |
| ClassesPanel.HighlightedIffSameId | segmentation-tool/src/components/ClassesPanel/ClassesPanel.tsx:131 | A row is highlighted exactly when its id equals the selected id. |
| ClassesPanel.UniqueIdsHighlightAtMostOne | segmentation-tool/src/components/ClassesPanel/ClassesPanel.tsx:129-131 | When class ids are unique, at most one row is highlighted. |
| ClassesPanel.Resize | segmentation-tool/src/components/ClassesPanel/ClassesPanel.tsx:31-37 | A resize changes only whether the panel is open. |
| ClassesPanel.ResizeOpensIffWide | segmentation-tool/src/components/ClassesPanel/ClassesPanel.tsx:32-36 | After a resize the panel is open exactly when the window width is at least 800. |
| ClassesPanel.TogglePanel | segmentation-tool/src/components/ClassesPanel/ClassesPanel.tsx:81 | The open and close buttons negate whether the panel is open and change nothing else. |
| ClassesPanel.TogglePanelTwiceRestores | segmentation-tool/src/components/ClassesPanel/ClassesPanel.tsx:81 | Two clicks give back the panel as it was. |
| ClassesPanel.OpenButtonShown | segmentation-tool/src/components/ClassesPanel/ClassesPanel.tsx:71 | The "Classes" button is never shown together with the close button. |
| ClassesPanel.CloseButtonShown | segmentation-tool/src/components/ClassesPanel/ClassesPanel.tsx:86-105 | The close button is shown only while the panel is open. |
| ClassesPanel.ToggleSwapsButtons | segmentation-tool/src/components/ClassesPanel/ClassesPanel.tsx:71-113 | On a window narrower than 800, a click swaps which button is shown: "Classes" opens the panel and brings up the close button, and the close button brings back "Classes". |
| ClassesPanel.NarrowWindowShowsOneButton | segmentation-tool/src/components/ClassesPanel/ClassesPanel.tsx:71-113 | On a window narrower than 800, exactly one of the two buttons is shown: "Classes" while the panel is closed, or the close button while it is open. |
| ClassesPanel.ResizeLeavesPanelReachable | segmentation-tool/src/components/ClassesPanel/ClassesPanel.tsx:31-71 | After a resize that changes whether the panel is open, the user sees either the panel or the button that opens it, never both and never neither. When such a resize makes the window wide, neither button is shown. |

## Left out

- Creating, rendering and disposing the drawing surface, and its `toJSON` and `loadFromJSON`. The serialization is an opaque string passed to `SaveState`, and a restore is recorded as the string loaded. Restoring happens at once, although the source restores asynchronously.
- The registration of `saveState` on the surface's "path created" and "object modified" events. It appears in the model only as the `Saved` event.
- Image upload through `FileReader` and the background image. This is browser I/O.
- The brush colour and width inputs. The 1 to 50 width range is enforced by the HTML input, not by code.
- The toolbar, the page layout, and the export request to the validation service. They are presentation and network I/O.
- Polygon construction, eraser hit-testing and COCO export. None of this logic is in the modelled files.
- `Math.random`. Its draws are a caller-supplied sequence of six indices in [0, 16).
- ClassesInput.Channels: only colours whose first six characters, after the first `#` is removed, are hex digits are modelled. `parseInt` on other text returns NaN or parses a partial prefix, and that is not modelled.
- ClassesInput.Lighten: the amount is an integer. Fractional amounts are not modelled.
- ClassesInput.LightenColor: the source adds the amount in IEEE double arithmetic, so a sum whose magnitude passes 2^53 is rounded, and `${}` writes magnitudes of 10^21 or more in exponent notation. The model keeps exact integers and always writes plain decimal digits, so its text differs for amounts below about -2^53. For example, "#010101" with amount -1e20 gives "-100000000000000000000" in JavaScript but "-99999999999999999999" here. The only caller passes 99.
- ClassesPanel.Resize: the resize listener's registration and removal are left out. The panel's state on the first render, before any resize, is modelled only by `InitialPanel`.
- ClassesPanel.ResizeLeavesPanelReachable: the model says nothing about a resize that leaves the open flag as it was. React skips such an update and does not redraw, so the buttons keep the visibility of the last render. For example, after narrow, then open, then widen, the close button stays on screen.
- ClassesPanel.OpenButtonShown, ClassesPanel.CloseButtonShown: button visibility is computed from the panel and the window width at render time. When renders happen is not modelled.
- Styling: colours, borders, heights and the `display` values of the buttons. Only which buttons are visible is modelled.
