/**
 * The reader's saved settings as a bean (bean/ReaderSettings.java): four
 * nullable fields, written by the constructors and the setters. Java's
 * `Float` is a `real`, `Boolean` a `bool`, and null is `None`.
 */
module ReaderSettingsBean {
  import opened Base

  class ReaderSettings {
    var fontSizePx: Option<real>
    var lineHeightPx: Option<real>
    /** Filled from the constructor's `padding` argument. */
    var paddingDp: Option<real>
    var nightMode: Option<bool>

    /** Each argument is stored in its field. */
    constructor(fontSizePx: Option<real>, lineHeightPx: Option<real>, padding: Option<real>, nightMode: Option<bool>)
      ensures FontSizePx() == fontSizePx
      ensures LineHeightPx() == lineHeightPx
      ensures PaddingDp() == padding
      ensures NightMode() == nightMode
    {
      this.fontSizePx := fontSizePx;
      this.lineHeightPx := lineHeightPx;
      this.paddingDp := padding;
      this.nightMode := nightMode;
    }

    /** The no-argument constructor: every field null. */
    constructor Empty()
      ensures FontSizePx().None? && LineHeightPx().None? && PaddingDp().None? && NightMode().None?
    {
      fontSizePx := None;
      lineHeightPx := None;
      paddingDp := None;
      nightMode := None;
    }

    function FontSizePx(): Option<real>
      reads this`fontSizePx
    {
      fontSizePx
    }

    function LineHeightPx(): Option<real>
      reads this`lineHeightPx
    {
      lineHeightPx
    }

    function PaddingDp(): Option<real>
      reads this`paddingDp
    {
      paddingDp
    }

    function NightMode(): Option<bool>
      reads this`nightMode
    {
      nightMode
    }

    /** Stores any value, null included, and leaves the other fields as they were. */
    method SetFontSizePx(value: Option<real>)
      modifies this`fontSizePx
      ensures FontSizePx() == value
      ensures LineHeightPx() == old(LineHeightPx()) && PaddingDp() == old(PaddingDp()) && NightMode() == old(NightMode())
    {
      fontSizePx := value;
    }

    /** Stores any value, null included, and leaves the other fields as they were. */
    method SetLineHeightPx(value: Option<real>)
      modifies this`lineHeightPx
      ensures LineHeightPx() == value
      ensures FontSizePx() == old(FontSizePx()) && PaddingDp() == old(PaddingDp()) && NightMode() == old(NightMode())
    {
      lineHeightPx := value;
    }

    /** Stores any value, null included, and leaves the other fields as they were. */
    method SetPaddingDp(value: Option<real>)
      modifies this`paddingDp
      ensures PaddingDp() == value
      ensures FontSizePx() == old(FontSizePx()) && LineHeightPx() == old(LineHeightPx()) && NightMode() == old(NightMode())
    {
      paddingDp := value;
    }

    /** Stores any value, null included, and leaves the other fields as they were. */
    method SetNightMode(value: Option<bool>)
      modifies this`nightMode
      ensures NightMode() == value
      ensures FontSizePx() == old(FontSizePx()) && LineHeightPx() == old(LineHeightPx()) && PaddingDp() == old(PaddingDp())
    {
      nightMode := value;
    }
  }
}
