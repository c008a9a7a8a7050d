/** Anchor tagging: every section container the renderer generates gets
    the two classes the host's scroll-spy looks for. */
module AnchorSync {

  /** The classes the host TOC's scroll-spy recognises as anchors. */
  const AnchorClasses: set<string> := {"anchor", "anchor__h2"}

  /** A DOM element: whether it is a section container (a div carrying a
      section id), and its class list, which has set semantics (adding a
      class that is already present changes nothing). */
  class Element {
    const isSectionDiv: bool
    var classes: set<string>

    constructor (isSectionDiv: bool, classes: set<string>)
      ensures this.isSectionDiv == isSectionDiv && this.classes == classes
    {
      this.isSectionDiv := isSectionDiv;
      this.classes := classes;
    }
  }

  /** The section containers of the document, in document order. */
  function SectionDivs(document: seq<Element>): (divs: seq<Element>)
    ensures |divs| <= |document|
    ensures forall i :: 0 <= i < |divs| ==> divs[i] in document && divs[i].isSectionDiv
    ensures forall i :: 0 <= i < |document| && document[i].isSectionDiv ==> document[i] in divs
  {
    if document == [] then []
    else if document[0].isSectionDiv then [document[0]] + SectionDivs(document[1..])
    else SectionDivs(document[1..])
  }

  /** The class set of a section container after tagging. */
  function Tagged(classes: set<string>): (r: set<string>)
    ensures AnchorClasses <= r
    ensures classes <= r
    ensures r - classes <= AnchorClasses
  {
    classes + AnchorClasses
  }

  /** The class set of any element after tagging: section containers are
      tagged, every other element keeps its classes. */
  function AfterTagging(isSectionDiv: bool, classes: set<string>): (r: set<string>)
    ensures isSectionDiv ==> "anchor" in r && "anchor__h2" in r
    ensures classes <= r
    ensures !isSectionDiv ==> r == classes
  {
    if isSectionDiv then Tagged(classes) else classes
  }

  /** Tagging again changes nothing: the class set, and so its size, is what
      the first run left. */
  lemma AfterTaggingIdempotent(isSectionDiv: bool, classes: set<string>)
    ensures AfterTagging(isSectionDiv, AfterTagging(isSectionDiv, classes)) == AfterTagging(isSectionDiv, classes)
    ensures |AfterTagging(isSectionDiv, AfterTagging(isSectionDiv, classes))| == |AfterTagging(isSectionDiv, classes)|
  {
  }

  /** Adds the two anchor classes to every section
      container; classes already there stay, and every other element is
      unchanged. */
  method AddAnchorClasses(document: seq<Element>)
    modifies set e | e in document
    ensures forall e :: e in document ==>
      e.classes == AfterTagging(e.isSectionDiv, old(e.classes))
  {
    var divs := SectionDivs(document);
    for i := 0 to |divs|
      invariant forall e :: e in document ==>
        e.classes == if e in divs[..i] then Tagged(old(e.classes)) else old(e.classes)
    {
      var el := divs[i];
      el.classes := el.classes + {"anchor"};
      el.classes := el.classes + {"anchor__h2"};
      assert divs[..i + 1] == divs[..i] + [el];
    }
    assert divs[..|divs|] == divs;
  }
}
