/**
 * The export panel: three settings, each driven by its own dropdown, and
 * the preview overlay, which can be opened only while the format is "pdf".
 * The overlay is mounted as a fresh PdfPreview each time it is shown and
 * dropped when it reports onClose.
 */
module ExportOptionsComponent {
  import opened DropdownComponent
  import Preview = PdfPreviewComponent

  const FormatOptions: seq<MenuOption> := [
    MenuOption("pdf", "Pdf"),
    MenuOption("png", "Png"),
    MenuOption("jpg", "Jpg"),
    MenuOption("svg", "Svg"),
    MenuOption("webp", "WebP")
  ]

  const ResolutionOptions: seq<MenuOption> := [
    MenuOption("high", "High (300 DPI)"),
    MenuOption("medium", "Medium (150 DPI)"),
    MenuOption("low", "Low (72 DPI)")
  ]

  const CompressionOptions: seq<MenuOption> := [
    MenuOption("lossless", "Lossless"),
    MenuOption("lossy", "Lossy"),
    MenuOption("none", "None")
  ]

  /** The one format for which the preview exists. */
  const PreviewFormat: string := "pdf"

  /** The preview button's `disabled` attribute. */
  predicate PreviewDisabled(fileFormat: string) {
    fileFormat != PreviewFormat
  }

  /** Each option list has distinct values, so every lookup by value is unambiguous. */
  lemma OptionListsDistinct()
    ensures DistinctValues(FormatOptions)
    ensures DistinctValues(ResolutionOptions)
    ensures DistinctValues(CompressionOptions)
  {
  }

  /** The initial settings are values of their lists, and the initial format enables the preview. */
  lemma InitialSettingsListed()
    ensures Listed(FormatOptions, "pdf") && Listed(ResolutionOptions, "high")
    ensures Listed(CompressionOptions, "lossless")
    ensures !PreviewDisabled("pdf")
  {
    assert FormatOptions[0].value == "pdf";
    assert ResolutionOptions[0].value == "high";
    assert CompressionOptions[0].value == "lossless";
  }

  /** Of the five formats, exactly the first (pdf) enables the preview button. */
  lemma OnlyPdfEnablesPreview()
    ensures forall i :: 0 <= i < |FormatOptions| ==> (!PreviewDisabled(FormatOptions[i].value) <==> i == 0)
  {
  }

  class ExportOptions {
    var fileFormat: string
    var resolution: string
    var compression: string
    var showPreview: bool
    /** The mounted overlay, present exactly while showPreview holds. */
    var preview: Preview.PdfPreview?

    ghost predicate Valid()
      reads this
    {
      showPreview <==> preview != null
    }

    /** Every setting holds a value of its own option list. */
    ghost predicate SettingsListed()
      reads this
    {
      Listed(FormatOptions, fileFormat) && Listed(ResolutionOptions, resolution) &&
      Listed(CompressionOptions, compression)
    }

    constructor ()
      ensures fileFormat == "pdf" && resolution == "high" && compression == "lossless"
      ensures !showPreview && preview == null
      ensures Valid() && SettingsListed()
    {
      fileFormat := "pdf";
      resolution := "high";
      compression := "lossless";
      showPreview := false;
      preview := null;
      InitialSettingsListed();
    }

    /**
     * handlePreviewClick: shows the overlay when, and only when, the format
     * enables the button. An overlay that is already shown stays mounted;
     * otherwise a fresh one starts at page 1, zoom 1.0.
     */
    method HandlePreviewClick()
      requires Valid()
      modifies this
      ensures Valid()
      ensures showPreview == (old(showPreview) || !PreviewDisabled(old(fileFormat)))
      ensures fileFormat == old(fileFormat) && resolution == old(resolution)
      ensures compression == old(compression)
      ensures old(showPreview) || PreviewDisabled(old(fileFormat)) ==> preview == old(preview)
      ensures !old(showPreview) && !PreviewDisabled(old(fileFormat)) ==>
        preview != null && fresh(preview) && preview.Current() == Preview.Initial
    {
      if fileFormat == PreviewFormat {
        if !showPreview {
          preview := new Preview.PdfPreview();
        }
        showPreview := true;
      }
    }

    /** The format dropdown's onChange. */
    method SetFileFormat(v: string)
      requires Valid()
      modifies this
      ensures Valid()
      ensures fileFormat == v && resolution == old(resolution) && compression == old(compression)
      ensures showPreview == old(showPreview) && preview == old(preview)
      ensures old(SettingsListed()) && Listed(FormatOptions, v) ==> SettingsListed()
    {
      fileFormat := v;
    }

    /** The resolution dropdown's onChange. */
    method SetResolution(v: string)
      requires Valid()
      modifies this
      ensures Valid()
      ensures resolution == v && fileFormat == old(fileFormat) && compression == old(compression)
      ensures showPreview == old(showPreview) && preview == old(preview)
      ensures old(SettingsListed()) && Listed(ResolutionOptions, v) ==> SettingsListed()
    {
      resolution := v;
    }

    /** The compression dropdown's onChange. */
    method SetCompression(v: string)
      requires Valid()
      modifies this
      ensures Valid()
      ensures compression == v && fileFormat == old(fileFormat) && resolution == old(resolution)
      ensures showPreview == old(showPreview) && preview == old(preview)
      ensures old(SettingsListed()) && Listed(CompressionOptions, v) ==> SettingsListed()
    {
      compression := v;
    }

    /** The overlay's onClose: hide and unmount it; the settings are untouched. */
    method ClosePreview()
      requires Valid()
      modifies this
      ensures Valid() && !showPreview && preview == null
      ensures fileFormat == old(fileFormat) && resolution == old(resolution)
      ensures compression == old(compression)
    {
      showPreview := false;
      preview := null;
    }
  }
}
