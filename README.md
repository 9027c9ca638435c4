# Export options panel: a Dafny model of its three stateful components

The repository is a React settings panel for document export. Three
components hold all of its state:

- **Dropdown** is a listbox selector. It has an `isOpen` flag and a
  keyboard `focusedIndex` over an ordered list of options. The selected
  `value` is a prop owned by the panel, and a confirmed choice is reported
  through `onChange`.
- **PdfPreview** is the modal viewer. It tracks the page count reported by
  the renderer, the current page, the zoom, and whether a close was
  requested.
- **ExportOptions** is the panel. It holds three settings (format,
  resolution, compression) and a `showPreview` flag. The preview can be
  opened only while the format is `"pdf"`.

Each component is a Dafny module. The dropdown and the viewer each have two
parts. The first is a pure state machine: a datatype for the state, one
function per event handler whose `ensures` state what the handler does, and
`Step`/`Run` over sequences of events. The second is a class with the
source's state variables as fields. It has one method per handler, and each
method's `ensures` ties its new fields to the pure transition of the old
ones. The panel is modelled by its class `ExportOptions` alone: its
handlers only set one field each, and their `ensures` state the new fields
directly. React state setters become
field assignments. `onChange` calls are recorded in the `changes` field.
The `value` prop is a field that the owner updates through `ReceiveValue`.

Files:
- `common.dfy`: `Math.min`/`Math.max` on integers, and one event repeated k times.
- `dropdown.dfy`: the options, lookup by value, the selector's transitions, and the class `Dropdown`.
- `pdf_preview.dfy`: the viewer, its clamps, the disabled predicates, and the class `PdfPreview`.
- `export_options.dfy`: the three option lists, the preview gate, and the class `ExportOptions`. The class holds the mounted `PdfPreview`, or null when none is mounted.
- `scenarios.dfy`: client methods that drive the classes through user event sequences using only their contracts.

Representation choices:
- **Zoom.** `scale` is an integer number of quarters (2..8, starting at 4). The source only moves it in steps of 0.25, so this is exact. The indicator `Math.round(scale * 100)` becomes `25 * quarters`.
- **Page count.** `numPages` is `Unknown` until the load callback runs. The code tests it for truthiness (`numPages || 1`, `!numPages`, `numPages && …`), so a reported count of 0 behaves like an unknown one (`HasPages`).
- **Close timers.** `handleClose` schedules a 200 ms timer that calls `onClose`. The model keeps only the number of timers scheduled (`pendingCloses`). When a timer fires, the panel's `onClose` runs, which is `ExportOptions.ClosePreview`.
- **Option clicks.** A click is identified by the index of the clicked option. The options are rendered only while the menu is open, so `OnOptionClick` and `Dropdown.HandleOptionClick` require an open menu and an index within the list. In `Step`, a click that lands on no rendered option changes nothing (`ClickLands`).
- **Disabled buttons.** A click on a disabled Prev, Next, Zoom in or Zoom out button does not reach its handler, so `Step` leaves the viewer unchanged. The handler functions and the class methods model the handlers themselves.

In a few places the code does not behave as an idealised menu or viewer
would. The model follows the code:
- The dropdown has no separate closing phase. Only `isOpen` toggles.
  Closing does not reset `focusedIndex`; it is seeded again on the next
  opening.
- With the page count unknown, next-page computes `min(1, p + 1)`. This
  pulls the page back to 1 instead of leaving it unbounded.
- ArrowRight does nothing while the count is unknown. Pressing it three
  times leaves the viewer on page 1, not page 4 (see
  `ArrowRightRepeated` and `Scenarios.PreviewLifecycle`).
- Load success does not reconcile `pageNumber`. While the count is
  unknown the page is always 1, so the first load cannot leave it out of
  range (`RunKeepsPageInRange`). A second, smaller count could
  (`SecondLoadCanLeavePageOutOfRange`).
- Each close request schedules another timer, so `handleClose` is not
  idempotent.

## Model

| member | source | states |
|---|---|---|
| `DropdownComponent.FindIndex` | src/components/ExportOptions/Dropdown.jsx:11 | the result is -1 exactly when no option holds the value; otherwise it is the first index whose option holds it |
| `DropdownComponent.Find` | src/components/ExportOptions/Dropdown.jsx:10 | an option is found exactly when the value is listed, and it is the option at FindIndex (find and findIndex agree) |
| `DropdownComponent.LookupUnambiguous` | src/components/ExportOptions/Dropdown.jsx:10-11 | when the values are distinct, looking up the value of option i finds exactly option i |
| `DropdownComponent.SeedFocus` | src/components/ExportOptions/Dropdown.jsx:13-17 | the focus set on opening is a valid index; it is the first option holding the value, or 0 when the value is not listed |
| `DropdownComponent.OnTriggerMouseDown` | src/components/ExportOptions/Dropdown.jsx:37-40 | mousedown on the trigger toggles isOpen; opening focuses the selected option, closing keeps the focus index; the result is coherent |
| `DropdownComponent.OnKeyDown` | src/components/ExportOptions/Dropdown.jsx:42-78 | closed: the four opening keys open without reporting, other keys change nothing; open: ArrowDown gives min(i+1, n-1) and ArrowUp gives max(i-1, 0), neither closing nor reporting; Enter/Space report exactly the focused option's value and close, or do nothing when the index is negative; Escape/Tab close silently; at most one report |
| `DropdownComponent.OnOptionClick` | src/components/ExportOptions/Dropdown.jsx:80-84 | clicking an option of the open menu reports exactly that option's value once and closes; focus index and value unchanged |
| `DropdownComponent.OnDocumentMouseDown` | src/components/ExportOptions/Dropdown.jsx:19-35 | the menu stays open exactly when it was open and the mousedown landed on the trigger or in the menu; nothing else changes |
| `DropdownComponent.OnValueProp` | src/components/ExportOptions/Dropdown.jsx:13-17 | a new value keeps isOpen; while open, if the selected index changed, focus moves to the seed of the new value (its first option, or 0 when it is not listed); otherwise the focus stays |
| `DropdownComponent.Step` | src/components/ExportOptions/Dropdown.jsx:37-131 | every event keeps the focus bounds and coherence; a click that lands on no rendered option changes nothing; it reports exactly one value when it confirms (a click on a rendered option, or Enter/Space on a focused open menu) and none otherwise; every reported value is listed |
| `DropdownComponent.RunStaysCoherent` | src/components/ExportOptions/Dropdown.jsx:42-78 | after any sequence of events an open menu still focuses a valid option (0 <= focusedIndex < options count) |
| `DropdownComponent.RunEmitsListedValues` | src/components/ExportOptions/Dropdown.jsx:60-84 | every value ever passed to onChange is the value of one of the options |
| `DropdownComponent.RunSilentWithoutConfirmation` | src/components/ExportOptions/Dropdown.jsx:69-76 | event sequences without option clicks, Enter or Space (Escape, Tab, arrows, outside mousedowns, new props) never call onChange |
| `DropdownComponent.ArrowDownRepeated` | src/components/ExportOptions/Dropdown.jsx:52-55 | k ArrowDowns on an open menu set the focus to min(i+k, n-1) and report nothing |
| `DropdownComponent.ArrowUpRepeated` | src/components/ExportOptions/Dropdown.jsx:56-59 | k ArrowUps on an open menu set the focus to max(i-k, 0) and report nothing |
| `DropdownComponent.ShadesOfOpenMenu` | src/components/ExportOptions/Dropdown.jsx:116-125 | `OptionShade` (the option's class) and `IsSelected` (its aria-selected): while open, exactly the focused option gets the focused shade; another option gets the selected shade iff its value equals `value`; with distinct values at most one option is aria-selected |
| `DropdownComponent.Dropdown.constructor` | src/components/ExportOptions/Dropdown.jsx:4-8 | a new dropdown is closed, has focusedIndex -1 and has made no onChange calls |
| `DropdownComponent.Dropdown.SeedOnOpen` | src/components/ExportOptions/Dropdown.jsx:13-17 | the open effect sets focusedIndex to the seed and changes nothing else |
| `DropdownComponent.Dropdown.HandleMouseDown` | src/components/ExportOptions/Dropdown.jsx:37-40 | the fields become OnTriggerMouseDown of the old ones; no onChange call; coherence kept |
| `DropdownComponent.Dropdown.HandleKeyDown` | src/components/ExportOptions/Dropdown.jsx:42-78 | the fields become OnKeyDown's state; the onChange calls grow by exactly OnKeyDown's reports; coherence kept |
| `DropdownComponent.Dropdown.HandleOptionClick` | src/components/ExportOptions/Dropdown.jsx:80-84 | on an open menu, the fields become OnOptionClick's state and the clicked value is appended to the onChange calls |
| `DropdownComponent.Dropdown.HandleClickOutside` | src/components/ExportOptions/Dropdown.jsx:22-31 | the fields become OnDocumentMouseDown's state; no onChange call |
| `DropdownComponent.Dropdown.ReceiveValue` | src/components/ExportOptions/Dropdown.jsx:13-17 | the fields become OnValueProp's state; no onChange call |
| `PdfPreviewComponent.PageLimit` | src/components/PdfPreview/PdfPreview.jsx:31 | numPages-or-1 is at least 1 |
| `PdfPreviewComponent.PrevPageOf` | src/components/PdfPreview/PdfPreview.jsx:26-28 | previous page is at least 1; it goes back one page above page 1 and stays on page 1 |
| `PdfPreviewComponent.NextPageOf` | src/components/PdfPreview/PdfPreview.jsx:30-32 | next page never exceeds numPages-or-1; it advances one page below that limit and is the limit otherwise; with the count unknown it is 1 |
| `PdfPreviewComponent.ZoomedIn` | src/components/PdfPreview/PdfPreview.jsx:34-36 | zoom in adds 0.25 below 2.0 and is 2.0 otherwise, so it is a no-op at 2.0 and keeps [0.5, 2.0] |
| `PdfPreviewComponent.ZoomedOut` | src/components/PdfPreview/PdfPreview.jsx:38-40 | zoom out removes 0.25 above 0.5 and is 0.5 otherwise, so it is a no-op at 0.5 and keeps [0.5, 2.0] |
| `PdfPreviewComponent.ZoomPercent` | src/components/PdfPreview/PdfPreview.jsx:158 | the zoom indicator equals scale × 100 exactly, between 50 and 200 within the bounds |
| `PdfPreviewComponent.TotalShown` | src/components/PdfPreview/PdfPreview.jsx:139 | the indicator shows the count exactly when numPages is truthy, and a dash otherwise |
| `PdfPreviewComponent.RequestClose` | src/components/PdfPreview/PdfPreview.jsx:42-47 | a close request sets isClosing and schedules one more timer; page, zoom and count unchanged |
| `PdfPreviewComponent.LoadSucceeded` | src/components/PdfPreview/PdfPreview.jsx:22-24 | load success records the count and leaves page, zoom, closing and timers unchanged |
| `PdfPreviewComponent.OnBackdropClick` | src/components/PdfPreview/PdfPreview.jsx:49-53 | a click closes only when its target is the backdrop itself; otherwise nothing changes |
| `PdfPreviewComponent.OnKey` | src/components/PdfPreview/PdfPreview.jsx:74-89 | Escape requests close; ArrowLeft goes back one page exactly when Prev is enabled; ArrowRight advances one page exactly when Next is enabled; otherwise, and for any other key, nothing changes |
| `PdfPreviewComponent.Step` | src/components/PdfPreview/PdfPreview.jsx:22-161 | every input keeps page >= 1 and zoom in [0.5, 2.0]; a click on a disabled button changes nothing; only load success changes the count; the others keep the page within the count; load keeps it in range iff the page fits the new count; closing and timers grow exactly on the three close triggers |
| `PdfPreviewComponent.DisabledIffNoOp` | src/components/PdfPreview/PdfPreview.jsx:133-161 | the `disabled` predicates `PrevDisabled`, `NextDisabled`, `ZoomInDisabled` and `ZoomOutDisabled`: on in-range states, each button is disabled exactly when its handler would change nothing |
| `PdfPreviewComponent.RunStaysBounded` | src/components/PdfPreview/PdfPreview.jsx:26-40 | after any inputs the page is at least 1 and the zoom stays within [0.5, 2.0] |
| `PdfPreviewComponent.RunKeepsPageInRange` | src/components/PdfPreview/PdfPreview.jsx:22-32 | the page never exceeds the known count, provided the count is reported at most once and while still unknown |
| `PdfPreviewComponent.FromMountInRange` | src/components/PdfPreview/PdfPreview.jsx:16-19 | from the initial state, with at most one load, page and zoom bounds hold after any inputs |
| `PdfPreviewComponent.SecondLoadCanLeavePageOutOfRange` | src/components/PdfPreview/PdfPreview.jsx:22-24 | count 3, two next-page clicks, then count 1 leaves page 3 out of range, because load does not reconcile the page |
| `PdfPreviewComponent.ArrowRightRepeated` | src/components/PdfPreview/PdfPreview.jsx:84-88 | k ArrowRights move the page to min(p+k, limit), which leaves page 1 unchanged while the count is unknown |
| `PdfPreviewComponent.ArrowLeftRepeated` | src/components/PdfPreview/PdfPreview.jsx:79-83 | k ArrowLefts set the page to max(p-k, 1) |
| `PdfPreviewComponent.ZoomInRepeated` | src/components/PdfPreview/PdfPreview.jsx:34-36 | k zoom-in clicks give min(z+k, 2.0) |
| `PdfPreviewComponent.ZoomOutRepeated` | src/components/PdfPreview/PdfPreview.jsx:38-40 | k zoom-out clicks give max(z-k, 0.5) |
| `PdfPreviewComponent.PdfPreview.constructor` | src/components/PdfPreview/PdfPreview.jsx:16-19 | a mounted viewer has the count unknown, is on page 1 at zoom 1.0, and is not closing |
| `PdfPreviewComponent.PdfPreview.OnDocumentLoadSuccess` | src/components/PdfPreview/PdfPreview.jsx:22-24 | the fields become LoadSucceeded of the old ones |
| `PdfPreviewComponent.PdfPreview.HandlePrevPage` | src/components/PdfPreview/PdfPreview.jsx:26-28 | the page becomes PrevPageOf the old page; other fields unchanged; bounds kept |
| `PdfPreviewComponent.PdfPreview.HandleNextPage` | src/components/PdfPreview/PdfPreview.jsx:30-32 | the page becomes NextPageOf the count and old page; bounds and page range kept |
| `PdfPreviewComponent.PdfPreview.HandleZoomIn` | src/components/PdfPreview/PdfPreview.jsx:34-36 | the zoom becomes ZoomedIn of the old zoom; other fields unchanged |
| `PdfPreviewComponent.PdfPreview.HandleZoomOut` | src/components/PdfPreview/PdfPreview.jsx:38-40 | the zoom becomes ZoomedOut of the old zoom; other fields unchanged |
| `PdfPreviewComponent.PdfPreview.HandleClose` | src/components/PdfPreview/PdfPreview.jsx:42-47 | the fields become RequestClose of the old ones |
| `PdfPreviewComponent.PdfPreview.HandleBackdropClick` | src/components/PdfPreview/PdfPreview.jsx:49-53 | the fields become OnBackdropClick of the old ones |
| `PdfPreviewComponent.PdfPreview.HandleKeyDown` | src/components/PdfPreview/PdfPreview.jsx:74-89 | the fields become OnKey of the old ones; bounds and page range kept |
| `ExportOptionsComponent.OptionListsDistinct` | src/components/ExportOptions/ExportOptions.jsx:9-27 | the format, resolution and compression lists each have pairwise-distinct values |
| `ExportOptionsComponent.InitialSettingsListed` | src/components/ExportOptions/ExportOptions.jsx:30-32 | the initial pdf, high and lossless are values of their lists, and pdf enables the preview |
| `ExportOptionsComponent.OnlyPdfEnablesPreview` | src/components/ExportOptions/ExportOptions.jsx:111 | `PreviewDisabled`, the preview button's `disabled` rule: of the five formats, exactly pdf enables the button |
| `ExportOptionsComponent.ExportOptions.constructor` | src/components/ExportOptions/ExportOptions.jsx:29-33 | the panel starts at pdf / high / lossless with no preview shown or mounted |
| `ExportOptionsComponent.ExportOptions.HandlePreviewClick` | src/components/ExportOptions/ExportOptions.jsx:35-39 | showPreview becomes true iff the format enables the button (is pdf), and otherwise stays as it was; the settings are unchanged; a newly shown preview is a fresh viewer in its initial state |
| `ExportOptionsComponent.ExportOptions.SetFileFormat` | src/components/ExportOptions/ExportOptions.jsx:61 | the format's onChange sets only the format; the other two settings and the preview are unchanged |
| `ExportOptionsComponent.ExportOptions.SetResolution` | src/components/ExportOptions/ExportOptions.jsx:77 | the resolution's onChange sets only the resolution; the rest is unchanged |
| `ExportOptionsComponent.ExportOptions.SetCompression` | src/components/ExportOptions/ExportOptions.jsx:93 | the compression's onChange sets only the compression; the rest is unchanged |
| `ExportOptionsComponent.ExportOptions.ClosePreview` | src/components/ExportOptions/ExportOptions.jsx:131-133 | the viewer's onClose hides and unmounts the preview and leaves the three settings unchanged |

## Left out

- JSX markup, CSS classes, icons, labels and aria attributes are presentation. Only the selected, focused and shade predicates and the disabled and indicator predicates are kept.
- The react-pdf `Document`/`Page` rendering and its worker configuration (PdfPreview.jsx:9, 13, 114-126) are a foreign library. Its load-success callback is an input carrying the page count. Its loading and error placeholders are not modelled.
- The transform-origin computation (PdfPreview.jsx:56-71) is not modelled. It reads DOM geometry and writes a style.
- The 200 ms `setTimeout` is only counted (`pendingCloses`). There is no clock, and no timer is cancelled on unmount.
- `document.addEventListener`/`removeEventListener` are host event plumbing and are not modelled. The handlers' effects are, and the outside-mousedown handler acts only while the menu is open (`OnDocumentMouseDown`).
- `triggerRef.current?.focus()` and `e.preventDefault()` are DOM side effects and are not modelled.
- Floating-point `scale` is replaced by an exact count of quarters (see above).
- AnimatedEye.jsx is a hover flag that only drives CSS. App.jsx is mounting glue. The `InlineCode` component is not part of this model.
- `DropdownComponent.Dropdown.constructor` requires a non-empty options list. With no options, the source would read `options[0].value` of an undefined entry on Enter.
- React's batching and render timing are not modelled. Each handler, together with the effects its render triggers, is one atomic transition, and events are handled one after another.
