/**
 * The test sources' copy of the settings bean
 * (app/src/test/java/org/shirakawatyu/yamibo/novel/bean/ReaderSettings.java):
 * three nullable fields, without the night mode.
 */
module ReaderSettingsTestBean {
  import opened Base

  class ReaderSettings {
    var fontSizePx: Option<real>
    var lineHeightPx: Option<real>
    var padding: Option<real>

    /** Each argument is stored in its field. */
    constructor(fontSizePx: Option<real>, lineHeightPx: Option<real>, padding: Option<real>)
      ensures FontSizePx() == fontSizePx
      ensures LineHeightPx() == lineHeightPx
      ensures Padding() == padding
    {
      this.fontSizePx := fontSizePx;
      this.lineHeightPx := lineHeightPx;
      this.padding := padding;
    }

    /** The no-argument constructor: every field null. */
    constructor Empty()
      ensures FontSizePx().None? && LineHeightPx().None? && Padding().None?
    {
      fontSizePx := None;
      lineHeightPx := None;
      padding := None;
    }

    function FontSizePx(): Option<real>
      reads this`fontSizePx
    {
      fontSizePx
    }

    function LineHeightPx(): Option<real>
      reads this`lineHeightPx
    {
      lineHeightPx
    }

    function Padding(): Option<real>
      reads this`padding
    {
      padding
    }

    /** Stores any value, null included, and leaves the other fields as they were. */
    method SetFontSizePx(value: Option<real>)
      modifies this`fontSizePx
      ensures FontSizePx() == value
      ensures LineHeightPx() == old(LineHeightPx()) && Padding() == old(Padding())
    {
      fontSizePx := value;
    }

    /** Stores any value, null included, and leaves the other fields as they were. */
    method SetLineHeightPx(value: Option<real>)
      modifies this`lineHeightPx
      ensures LineHeightPx() == value
      ensures FontSizePx() == old(FontSizePx()) && Padding() == old(Padding())
    {
      lineHeightPx := value;
    }

    /** Stores any value, null included, and leaves the other fields as they were. */
    method SetPadding(value: Option<real>)
      modifies this`padding
      ensures Padding() == value
      ensures FontSizePx() == old(FontSizePx()) && LineHeightPx() == old(LineHeightPx())
    {
      padding := value;
    }
  }
}
