/** The page's mount-time side effects, without their timing: the effect
    that runs after every render patches the renderer's dropdown label, and
    the callback it schedules tags the section anchors and records that the
    TOC is ready. */
module PageEffects {
  import opened StylePatch
  import opened AnchorSync

  /** The rule the effect adds to the renderer's dropdown label. */
  const DropdownLabelStyle: string := "position: static;"

  /** A mounted page: its `tocReady` state and the renderer's dropdown
      label component, which the effect patches. */
  class PageInstance {
    var tocReady: bool
    const dropdownLabel: StyledComponent

    constructor (dropdownLabel: StyledComponent)
      ensures !tocReady && this.dropdownLabel == dropdownLabel
    {
      tocReady := false;
      this.dropdownLabel := dropdownLabel;
    }

    /** The callback the page's effect schedules once the renderer is up: the
        section containers are tagged and the TOC is marked ready. */
    method EnableTocHighlights(document: seq<Element>)
      modifies this`tocReady, set e | e in document
      ensures tocReady
      ensures forall e :: e in document ==> e.classes == AfterTagging(e.isSectionDiv, old(e.classes))
    {
      AddAnchorClasses(document);
      tocReady := true;
    }

    /** The synchronous part of the effect: the dropdown label gets its
        `position: static;` rule unless it already has it. */
    method PatchDropdownLabel()
      modifies if dropdownLabel.componentStyle == null then {} else {dropdownLabel.componentStyle}
      ensures dropdownLabel.componentStyle == old(dropdownLabel.componentStyle)
      ensures dropdownLabel.componentStyle != null ==>
        dropdownLabel.componentStyle.rules == PatchedRules(old(dropdownLabel.componentStyle.rules), DropdownLabelStyle)
    {
      MonkeyPatchStyledComponent(dropdownLabel, DropdownLabelStyle);
    }

    /** The effect runs after every render, not only the first; running it
        again leaves the label's rules as one run left them. */
    method PatchDropdownLabelTwice()
      modifies if dropdownLabel.componentStyle == null then {} else {dropdownLabel.componentStyle}
      ensures dropdownLabel.componentStyle == old(dropdownLabel.componentStyle)
      ensures dropdownLabel.componentStyle != null ==>
        dropdownLabel.componentStyle.rules == PatchedRules(old(dropdownLabel.componentStyle.rules), DropdownLabelStyle)
    {
      PatchDropdownLabel();
      PatchDropdownLabel();
      if dropdownLabel.componentStyle != null {
        PatchIdempotent(old(dropdownLabel.componentStyle.rules), DropdownLabelStyle);
      }
    }
  }
}
