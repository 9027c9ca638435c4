/**
 * The modal document viewer: page navigation, zoom, keyboard shortcuts and
 * the close request.
 *
 * `scale` moves in steps of 0.25 between 0.5 and 2.0, so it is kept as an
 * integer number of quarters (2..8, initially 4). `numPages` is null until
 * the renderer reports the page count; the code tests it for truthiness, so
 * a count of 0 behaves like an unknown one (HasPages). The viewer is a pure
 * state machine (Viewer, one function per handler, Step and Run) and the
 * class PdfPreview holds the same state in fields.
 */
module PdfPreviewComponent {
  import opened Common

  datatype PageCount = Unknown | Known(n: nat)

  /** Zoom in quarters: 0.5, 2.0 and the initial 1.0. */
  const MinZoom: int := 2
  const MaxZoom: int := 8
  const InitialZoom: int := 4

  /** `numPages` is truthy: known and non-zero. */
  predicate HasPages(c: PageCount) {
    c.Known? && c.n > 0
  }

  /** `numPages || 1`. */
  function PageLimit(c: PageCount): (r: nat)
    ensures r >= 1
  {
    if HasPages(c) then c.n else 1
  }

  /** handlePrevPage's update: Math.max(1, prev - 1). */
  function PrevPageOf(p: int): (r: int)
    ensures 1 <= r
    ensures p > 1 ==> r == p - 1
    ensures p == 1 ==> r == p
  {
    Max(1, p - 1)
  }

  /** handleNextPage's update: Math.min(numPages || 1, prev + 1). */
  function NextPageOf(c: PageCount, p: int): (r: int)
    ensures r <= PageLimit(c)
    ensures p >= 0 ==> 1 <= r
    ensures p < PageLimit(c) ==> r == p + 1
    ensures p >= PageLimit(c) ==> r == PageLimit(c)
    // while the count is unknown the page is pulled back to 1
    ensures !HasPages(c) && p >= 1 ==> r == 1
  {
    Min(PageLimit(c), p + 1)
  }

  /** handleZoomIn's update: Math.min(2.0, prev + 0.25). */
  function ZoomedIn(z: int): (r: int)
    ensures r <= MaxZoom
    ensures z < MaxZoom ==> r == z + 1
    ensures z >= MaxZoom ==> r == MaxZoom
    ensures MinZoom <= z <= MaxZoom ==> MinZoom <= r <= MaxZoom
  {
    Min(MaxZoom, z + 1)
  }

  /** handleZoomOut's update: Math.max(0.5, prev - 0.25). */
  function ZoomedOut(z: int): (r: int)
    ensures r >= MinZoom
    ensures z > MinZoom ==> r == z - 1
    ensures z <= MinZoom ==> r == MinZoom
    ensures MinZoom <= z <= MaxZoom ==> MinZoom <= r <= MaxZoom
  {
    Max(MinZoom, z - 1)
  }

  /** The zoom indicator, Math.round(scale * 100): exact, since scale is a multiple of 0.25. */
  function ZoomPercent(z: int): (r: int)
    ensures 4 * r == 100 * z
    ensures MinZoom <= z <= MaxZoom ==> 50 <= r <= 200
  {
    25 * z
  }

  /** What the page indicator shows after "of": the count, or a dash. */
  datatype PageTotal = Dash | Total(n: nat)

  function TotalShown(c: PageCount): (r: PageTotal)
    ensures r.Total? <==> HasPages(c)
    ensures r.Total? ==> r.n == c.n
  {
    if HasPages(c) then Total(c.n) else Dash
  }

  /** The `disabled` attributes of the four buttons. */
  predicate PrevDisabled(p: int) {
    p <= 1
  }

  predicate NextDisabled(c: PageCount, p: int) {
    !HasPages(c) || p >= c.n
  }

  predicate ZoomOutDisabled(z: int) {
    z <= MinZoom
  }

  predicate ZoomInDisabled(z: int) {
    z >= MaxZoom
  }

  datatype Key = Escape | ArrowLeft | ArrowRight | OtherKey

  /** Everything the viewer reacts to. */
  datatype Input =
    | PrevClick
    | NextClick
    | ZoomInClick
    | ZoomOutClick
    | CloseClick
    | BackdropClick(onBackdrop: bool)
    | KeyDown(key: Key)
    | LoadSuccess(numPages: nat)

  /**
   * The state variables, plus the number of 200 ms close timers scheduled
   * so far (each one will call onClose when it fires).
   */
  datatype Viewer = Viewer(numPages: PageCount, pageNumber: int, zoom: int, isClosing: bool, pendingCloses: nat)

  /** A freshly mounted viewer: count unknown, page 1, zoom 1.0, not closing. */
  const Initial: Viewer := Viewer(Unknown, 1, InitialZoom, false, 0)

  /** The bounds every handler keeps: page at least 1, zoom within [0.5, 2.0]. */
  predicate Bounded(v: Viewer) {
    1 <= v.pageNumber && MinZoom <= v.zoom <= MaxZoom
  }

  /** The page does not exceed the known count (or 1 while there is none). */
  predicate PageInRange(v: Viewer) {
    v.pageNumber <= PageLimit(v.numPages)
  }

  function PrevPage(v: Viewer): Viewer {
    v.(pageNumber := PrevPageOf(v.pageNumber))
  }

  function NextPage(v: Viewer): Viewer {
    v.(pageNumber := NextPageOf(v.numPages, v.pageNumber))
  }

  function ZoomIn(v: Viewer): Viewer {
    v.(zoom := ZoomedIn(v.zoom))
  }

  function ZoomOut(v: Viewer): Viewer {
    v.(zoom := ZoomedOut(v.zoom))
  }

  /** handleClose: mark closing and schedule one more onClose timer. */
  function RequestClose(v: Viewer): (r: Viewer)
    ensures r.isClosing && r.pendingCloses == v.pendingCloses + 1
    ensures r.numPages == v.numPages && r.pageNumber == v.pageNumber && r.zoom == v.zoom
  {
    v.(isClosing := true, pendingCloses := v.pendingCloses + 1)
  }

  /** onDocumentLoadSuccess: record the count; the page is not reconciled. */
  function LoadSucceeded(v: Viewer, n: nat): (r: Viewer)
    ensures r.numPages == Known(n)
    ensures r.pageNumber == v.pageNumber && r.zoom == v.zoom && r.isClosing == v.isClosing
    ensures r.pendingCloses == v.pendingCloses
  {
    v.(numPages := Known(n))
  }

  /** handleBackdropClick: only a click on the backdrop itself closes. */
  function OnBackdropClick(v: Viewer, onBackdrop: bool): (r: Viewer)
    ensures onBackdrop ==> r == RequestClose(v)
    ensures !onBackdrop ==> r == v
  {
    if onBackdrop then RequestClose(v) else v
  }

  /** The document keydown listener. */
  function OnKey(v: Viewer, key: Key): (r: Viewer)
    ensures key == Escape ==> r == RequestClose(v)
    // the arrows act exactly when the matching button is enabled, one page at a time
    ensures key == ArrowLeft && !PrevDisabled(v.pageNumber) ==> r == v.(pageNumber := v.pageNumber - 1)
    ensures key == ArrowRight && !NextDisabled(v.numPages, v.pageNumber) ==> r == v.(pageNumber := v.pageNumber + 1)
    ensures key == ArrowLeft && PrevDisabled(v.pageNumber) ==> r == v
    ensures key == ArrowRight && NextDisabled(v.numPages, v.pageNumber) ==> r == v
    ensures key == OtherKey ==> r == v
  {
    match key
    case Escape => RequestClose(v)
    case ArrowLeft => if v.pageNumber > 1 then PrevPage(v) else v
    case ArrowRight => if HasPages(v.numPages) && v.pageNumber < v.numPages.n then NextPage(v) else v
    case OtherKey => v
  }

  predicate ClosesOn(input: Input) {
    input == CloseClick || input == BackdropClick(true) || input == KeyDown(Escape)
  }

  /**
   * One input. A click on a disabled button does not reach its handler, so
   * it changes nothing.
   */
  function Step(v: Viewer, input: Input): (r: Viewer)
    ensures Bounded(v) ==> Bounded(r)
    ensures input == PrevClick && PrevDisabled(v.pageNumber) ==> r == v
    ensures input == NextClick && NextDisabled(v.numPages, v.pageNumber) ==> r == v
    ensures input == ZoomInClick && ZoomInDisabled(v.zoom) ==> r == v
    ensures input == ZoomOutClick && ZoomOutDisabled(v.zoom) ==> r == v
    ensures !input.LoadSuccess? ==> r.numPages == v.numPages
    ensures !input.LoadSuccess? && PageInRange(v) ==> PageInRange(r)
    ensures input.LoadSuccess? ==> (PageInRange(r) <==> v.pageNumber <= PageLimit(Known(input.numPages)))
    ensures r.isClosing == (v.isClosing || ClosesOn(input))
    ensures r.pendingCloses == v.pendingCloses + (if ClosesOn(input) then 1 else 0)
  {
    match input
    case PrevClick => if PrevDisabled(v.pageNumber) then v else PrevPage(v)
    case NextClick => if NextDisabled(v.numPages, v.pageNumber) then v else NextPage(v)
    case ZoomInClick => if ZoomInDisabled(v.zoom) then v else ZoomIn(v)
    case ZoomOutClick => if ZoomOutDisabled(v.zoom) then v else ZoomOut(v)
    case CloseClick => RequestClose(v)
    case BackdropClick(onBackdrop) => OnBackdropClick(v, onBackdrop)
    case KeyDown(key) => OnKey(v, key)
    case LoadSuccess(n) => LoadSucceeded(v, n)
  }

  function Run(v: Viewer, inputs: seq<Input>): Viewer
    decreases |inputs|
  {
    if inputs == [] then v else Run(Step(v, inputs[0]), inputs[1..])
  }

  /** A disabled button is exactly one whose handler would change nothing. */
  lemma DisabledIffNoOp(v: Viewer)
    requires Bounded(v) && PageInRange(v)
    ensures PrevDisabled(v.pageNumber) <==> PrevPage(v) == v
    ensures NextDisabled(v.numPages, v.pageNumber) <==> NextPage(v) == v
    ensures ZoomInDisabled(v.zoom) <==> ZoomIn(v) == v
    ensures ZoomOutDisabled(v.zoom) <==> ZoomOut(v) == v
  {
  }

  /** Page at least 1 and zoom within [0.5, 2.0] hold after any sequence of inputs. */
  lemma {:induction false} RunStaysBounded(v: Viewer, inputs: seq<Input>)
    requires Bounded(v)
    ensures Bounded(Run(v, inputs))
    decreases |inputs|
  {
    if inputs != [] {
      RunStaysBounded(Step(v, inputs[0]), inputs[1..]);
    }
  }

  function LoadCount(inputs: seq<Input>): nat
    decreases |inputs|
  {
    if inputs == [] then 0 else (if inputs[0].LoadSuccess? then 1 else 0) + LoadCount(inputs[1..])
  }

  /**
   * The page stays within the count across any inputs, provided the count
   * is reported at most once and, if it is, while still unknown (the fixed
   * document is loaded once per mount). A second, smaller count would leave
   * the page out of range, since load success does not reconcile it.
   */
  lemma {:induction false} RunKeepsPageInRange(v: Viewer, inputs: seq<Input>)
    requires Bounded(v) && PageInRange(v)
    requires LoadCount(inputs) == 0 || (LoadCount(inputs) == 1 && !HasPages(v.numPages))
    ensures PageInRange(Run(v, inputs))
    decreases |inputs|
  {
    if inputs != [] {
      RunKeepsPageInRange(Step(v, inputs[0]), inputs[1..]);
    }
  }

  /** From mount, with one load, page and zoom stay in range whatever the user does. */
  lemma FromMountInRange(inputs: seq<Input>)
    requires LoadCount(inputs) <= 1
    ensures Bounded(Run(Initial, inputs)) && PageInRange(Run(Initial, inputs))
  {
    RunStaysBounded(Initial, inputs);
    RunKeepsPageInRange(Initial, inputs);
  }

  /** A page count reported a second time, smaller than the current page, leaves the page out of range. */
  lemma SecondLoadCanLeavePageOutOfRange()
    ensures var v := Run(Initial, [LoadSuccess(3), NextClick, NextClick, LoadSuccess(1)]);
      v.pageNumber == 3 && !PageInRange(v)
  {
  }

  /** k presses of ArrowRight advance k pages, stopping at the last; nothing moves while the count is unknown. */
  lemma {:induction false} ArrowRightRepeated(v: Viewer, k: nat)
    requires Bounded(v) && PageInRange(v)
    ensures Run(v, Repeated(KeyDown(ArrowRight), k)) == v.(pageNumber := Min(v.pageNumber + k, PageLimit(v.numPages)))
    decreases k
  {
    if k > 0 {
      var inputs := Repeated(KeyDown(ArrowRight), k);
      assert inputs[1..] == Repeated(KeyDown(ArrowRight), k - 1);
      ArrowRightRepeated(Step(v, inputs[0]), k - 1);
    }
  }

  /** k presses of ArrowLeft go back k pages, stopping at page 1. */
  lemma {:induction false} ArrowLeftRepeated(v: Viewer, k: nat)
    requires Bounded(v) && PageInRange(v)
    ensures Run(v, Repeated(KeyDown(ArrowLeft), k)) == v.(pageNumber := Max(v.pageNumber - k, 1))
    decreases k
  {
    if k > 0 {
      var inputs := Repeated(KeyDown(ArrowLeft), k);
      assert inputs[1..] == Repeated(KeyDown(ArrowLeft), k - 1);
      ArrowLeftRepeated(Step(v, inputs[0]), k - 1);
    }
  }

  /** k zoom-in clicks add k quarters, stopping at 2.0. */
  lemma {:induction false} ZoomInRepeated(v: Viewer, k: nat)
    requires Bounded(v)
    ensures Run(v, Repeated(ZoomInClick, k)) == v.(zoom := Min(v.zoom + k, MaxZoom))
    decreases k
  {
    if k > 0 {
      var inputs := Repeated(ZoomInClick, k);
      assert inputs[1..] == Repeated(ZoomInClick, k - 1);
      ZoomInRepeated(Step(v, inputs[0]), k - 1);
    }
  }

  /** k zoom-out clicks remove k quarters, stopping at 0.5. */
  lemma {:induction false} ZoomOutRepeated(v: Viewer, k: nat)
    requires Bounded(v)
    ensures Run(v, Repeated(ZoomOutClick, k)) == v.(zoom := Max(v.zoom - k, MinZoom))
    decreases k
  {
    if k > 0 {
      var inputs := Repeated(ZoomOutClick, k);
      assert inputs[1..] == Repeated(ZoomOutClick, k - 1);
      ZoomOutRepeated(Step(v, inputs[0]), k - 1);
    }
  }

  /** One mounted viewer, its state variables as fields. */
  class PdfPreview {
    var numPages: PageCount
    var pageNumber: int
    var zoom: int
    var isClosing: bool
    var pendingCloses: nat

    function Current(): Viewer
      reads this
    {
      Viewer(numPages, pageNumber, zoom, isClosing, pendingCloses)
    }

    ghost predicate Valid()
      reads this
    {
      Bounded(Current())
    }

    constructor ()
      ensures Current() == Initial && Valid() && PageInRange(Current())
    {
      numPages := Unknown;
      pageNumber := 1;
      zoom := InitialZoom;
      isClosing := false;
      pendingCloses := 0;
    }

    method OnDocumentLoadSuccess(n: nat)
      modifies this
      ensures Current() == LoadSucceeded(old(Current()), n)
      ensures old(Valid()) ==> Valid()
    {
      numPages := Known(n);
    }

    method HandlePrevPage()
      modifies this
      ensures Current() == PrevPage(old(Current()))
      ensures old(Valid()) ==> Valid()
    {
      pageNumber := Max(1, pageNumber - 1);
    }

    method HandleNextPage()
      modifies this
      ensures Current() == NextPage(old(Current()))
      ensures old(Valid()) ==> Valid()
      ensures old(PageInRange(Current())) ==> PageInRange(Current())
    {
      pageNumber := Min(if HasPages(numPages) then numPages.n else 1, pageNumber + 1);
    }

    method HandleZoomIn()
      modifies this
      ensures Current() == ZoomIn(old(Current()))
      ensures old(Valid()) ==> Valid()
    {
      zoom := Min(MaxZoom, zoom + 1);
    }

    method HandleZoomOut()
      modifies this
      ensures Current() == ZoomOut(old(Current()))
      ensures old(Valid()) ==> Valid()
    {
      zoom := Max(MinZoom, zoom - 1);
    }

    method HandleClose()
      modifies this
      ensures Current() == RequestClose(old(Current()))
      ensures old(Valid()) ==> Valid()
    {
      isClosing := true;
      pendingCloses := pendingCloses + 1;
    }

    method HandleBackdropClick(onBackdrop: bool)
      modifies this
      ensures Current() == OnBackdropClick(old(Current()), onBackdrop)
      ensures old(Valid()) ==> Valid()
    {
      if onBackdrop {
        HandleClose();
      }
    }

    method HandleKeyDown(key: Key)
      modifies this
      ensures Current() == OnKey(old(Current()), key)
      ensures old(Valid()) ==> Valid()
      ensures old(PageInRange(Current())) ==> PageInRange(Current())
    {
      match key
      case Escape =>
        HandleClose();
      case ArrowLeft =>
        if pageNumber > 1 {
          HandlePrevPage();
        }
      case ArrowRight =>
        if HasPages(numPages) && pageNumber < numPages.n {
          HandleNextPage();
        }
      case OtherKey =>
    }
  }
}
