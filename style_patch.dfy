/** The style patch: append one raw CSS rule to a live styled component's
    rule list, unless the list is missing or a string rule already contains
    the text. */
module StylePatch {
  import opened Wrappers
  import opened Strings

  /** An entry of a styled component's rule list: CSS text, or anything
      else (an interpolation function, a nested component). */
  datatype Rule = Str(text: string) | NonString

  /** Some string rule of the list already contains the style text;
      non-string rules never do. */
  predicate SomeRuleIncludes(rules: seq<Rule>, style: string)
  {
    exists i | 0 <= i < |rules| :: rules[i].Str? && Includes(rules[i].text, style)
  }

  /** The rule text the patch appends. */
  function Wrapped(style: string): string
  {
    "\n" + style + "\n"
  }

  /** The rule list after the patch; None is a missing list. The patch
      never creates a list, and otherwise either leaves the list as it was
      (the text was already there) or appends exactly the wrapped text,
      keeping every existing rule in place. */
  function PatchedRules(rules: Option<seq<Rule>>, style: string): (r: Option<seq<Rule>>)
    ensures rules.None? ==> r.None?
    ensures rules.Some? && SomeRuleIncludes(rules.value, style) ==> r == rules
    ensures rules.Some? && !SomeRuleIncludes(rules.value, style) ==>
      && r.Some?
      && |r.value| == |rules.value| + 1
      && r.value[..|rules.value|] == rules.value
      && r.value[|rules.value|] == Str(Wrapped(style))
  {
    if rules.None? || SomeRuleIncludes(rules.value, style) then rules
    else Some(rules.value + [Str(Wrapped(style))])
  }

  /** After the patch, a present list always has a string rule containing
      the text. */
  lemma {:induction false} PatchEstablishesStyle(rules: Option<seq<Rule>>, style: string)
    requires rules.Some?
    ensures PatchedRules(rules, style).Some?
    ensures SomeRuleIncludes(PatchedRules(rules, style).value, style)
  {
    if !SomeRuleIncludes(rules.value, style) {
      var patched := PatchedRules(rules, style).value;
      IncludesMiddle("\n", style, "\n");
      assert patched[|rules.value|] == Str(Wrapped(style));
    }
  }

  /** A second identical patch changes nothing. */
  lemma {:induction false} PatchIdempotent(rules: Option<seq<Rule>>, style: string)
    ensures PatchedRules(PatchedRules(rules, style), style) == PatchedRules(rules, style)
  {
    if rules.Some? {
      PatchEstablishesStyle(rules, style);
    }
  }

  /** Patching twice with a text not yet present leaves the list exactly one
      rule longer than before the first patch. */
  lemma {:induction false} PatchTwiceGrowsByOne(rules: seq<Rule>, style: string)
    requires !SomeRuleIncludes(rules, style)
    ensures PatchedRules(PatchedRules(Some(rules), style), style).Some?
    ensures |PatchedRules(PatchedRules(Some(rules), style), style).value| == |rules| + 1
  {
    PatchIdempotent(Some(rules), style);
  }

  /** The `componentStyle` object of a styled component; its rule list is
      shared with every instance and updated in place. */
  class ComponentStyle {
    var rules: Option<seq<Rule>>

    constructor (rules: Option<seq<Rule>>)
      ensures this.rules == rules
    {
      this.rules := rules;
    }
  }

  /** A styled component; `componentStyle` is null when it has none. */
  class StyledComponent {
    var componentStyle: ComponentStyle?

    constructor (componentStyle: ComponentStyle?)
      ensures this.componentStyle == componentStyle
    {
      this.componentStyle := componentStyle;
    }
  }

  /** `monkeyPatchStyledComponent(component, styleToAdd)`. A component
      without a style or a rule list is left alone; nothing but the rule list
      changes. */
  method MonkeyPatchStyledComponent(component: StyledComponent, styleToAdd: string)
    modifies if component.componentStyle == null then {} else {component.componentStyle}
    ensures component.componentStyle == old(component.componentStyle)
    ensures component.componentStyle != null ==>
      component.componentStyle.rules == PatchedRules(old(component.componentStyle.rules), styleToAdd)
  {
    var style := component.componentStyle;
    if style == null || style.rules.None? {
      return;
    }
    if SomeRuleIncludes(style.rules.value, styleToAdd) {
      return;
    }
    style.rules := Some(style.rules.value + [Str(Wrapped(styleToAdd))]);
  }
}
