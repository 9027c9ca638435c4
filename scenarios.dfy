/**
 * Client code that drives the classes through the sequences of events a
 * user produces, using nothing but their contracts. The assertions record
 * what the code does in each sequence.
 */
module Scenarios {
  import opened DropdownComponent
  import Preview = PdfPreviewComponent
  import opened ExportOptionsComponent

  /** Options pdf and png, value pdf: open, ArrowDown, Enter reports "png" once and closes. */
  method ConfirmSecondOption() {
    var d := new Dropdown([MenuOption("pdf", "Pdf"), MenuOption("png", "Png")], "pdf");
    d.HandleMouseDown();
    assert d.isOpen && d.focusedIndex == 0;
    d.HandleKeyDown(ArrowDown);
    assert d.isOpen && d.focusedIndex == 1 && d.changes == [];
    d.HandleKeyDown(ArrowDown);
    assert d.focusedIndex == 1;
    d.HandleKeyDown(Enter);
    assert d.changes == ["png"] && !d.isOpen;
    // the owner passes the new value back; the menu is closed, so the focus stays
    d.ReceiveValue("png");
    assert d.focusedIndex == 1;
    // reopening focuses the newly selected option
    d.HandleKeyDown(ArrowUp);
    assert d.isOpen && d.focusedIndex == 1 && d.changes == ["png"];
    d.HandleKeyDown(Escape);
    assert !d.isOpen && d.changes == ["png"];
    // clicking the first option of the reopened menu reports it
    d.HandleMouseDown();
    d.HandleOptionClick(0);
    assert !d.isOpen && d.changes == ["png", "pdf"];
  }

  /** Escape, Tab and an outside mousedown close the menu without reporting. */
  method DismissWithoutChange() {
    var d := new Dropdown(CompressionOptions, "lossy");
    d.HandleKeyDown(Space);
    assert d.isOpen && d.focusedIndex == 1;
    d.HandleClickOutside(InMenu);
    assert d.isOpen;
    d.HandleClickOutside(Elsewhere);
    assert !d.isOpen;
    d.HandleKeyDown(Enter);
    d.HandleKeyDown(Tab);
    assert !d.isOpen;
    d.HandleKeyDown(Escape);
    assert !d.isOpen && d.changes == [];
  }

  /** The preview opens only for pdf; the page count gates ArrowRight; closing unmounts. */
  method PreviewLifecycle() {
    var panel := new ExportOptions();
    panel.SetFileFormat("png");
    assert PreviewDisabled(panel.fileFormat);
    panel.HandlePreviewClick();
    assert !panel.showPreview;
    panel.SetFileFormat("pdf");
    panel.HandlePreviewClick();
    assert panel.showPreview && panel.preview != null;
    var viewer := panel.preview;
    // while the count is unknown, ArrowRight does nothing
    viewer.HandleKeyDown(Preview.ArrowRight);
    viewer.HandleKeyDown(Preview.ArrowRight);
    viewer.HandleKeyDown(Preview.ArrowRight);
    assert viewer.pageNumber == 1;
    viewer.OnDocumentLoadSuccess(2);
    assert viewer.pageNumber == 1;
    viewer.HandleKeyDown(Preview.ArrowRight);
    viewer.HandleKeyDown(Preview.ArrowRight);
    assert viewer.pageNumber == 2;
    viewer.HandleZoomIn();
    assert Preview.ZoomPercent(viewer.zoom) == 125;
    viewer.HandleBackdropClick(false);
    assert !viewer.isClosing;
    viewer.HandleKeyDown(Preview.Escape);
    assert viewer.isClosing && viewer.pendingCloses == 1;
    panel.ClosePreview();
    assert !panel.showPreview && panel.fileFormat == "pdf";
  }
}
