/** Theme translation: the host site's colour tokens become the renderer's
    per-component CSS ("extension hooks"), with dark tokens overriding light
    ones key by key. */
module ThemeTranslation {
  import opened Wrappers
  import opened Strings

  /** Colour tokens of the host theme: token name to CSS colour text. */
  type Colors = map<string, string>

  /** The keys an optional colour set contributes when spread into an
      object: none when the set is undefined. */
  function Spread(o: Option<Colors>): Colors
  {
    if o.Some? then o.value else map[]
  }

  /** The effective colours. In dark mode both sets are spread into one
      object, so every key of either set is present and a dark token wins;
      in light mode the light tokens are used as they are, even when missing. */
  function MergeColors(isDark: bool, light: Option<Colors>, dark: Option<Colors>): (r: Option<Colors>)
    ensures !isDark ==> r == light
    ensures isDark ==> r.Some?
    ensures isDark && dark.Some? ==>
      forall k :: k in dark.value ==> k in r.value && r.value[k] == dark.value[k]
    ensures isDark && light.Some? ==>
      forall k :: k in light.value && (dark.None? || k !in dark.value) ==>
        k in r.value && r.value[k] == light.value[k]
    ensures isDark ==>
      forall k :: k in r.value ==> (dark.Some? && k in dark.value) || (light.Some? && k in light.value)
  {
    if isDark then Some(Spread(light) + Spread(dark)) else light
  }

  /** A token interpolated into CSS text: a missing token is rendered as
      the text "undefined". */
  function Interp(colors: Colors, key: string): string
  {
    if key in colors then colors[key] else "undefined"
  }

  /** A token read as an object property: absent when it is missing. */
  function Get(colors: Colors, key: string): Option<string>
  {
    if key in colors then Some(colors[key]) else None
  }

  /** A rule with a single declaration: the property name, a colon and a
      space, the value and a closing semicolon. */
  function Decl(property: string, value: string): string
  {
    property + ": " + value + ";"
  }

  /** Reads the value back out of a one-declaration rule for `property`. */
  function DeclValue(property: string, rule: string): (v: Option<string>)
    ensures v.Some? ==> Decl(property, v.value) == rule
  {
    var head := property + ": ";
    if |rule| >= |head| + 1 && rule[..|head|] == head && rule[|rule| - 1] == ';'
    then
      assert rule == head + rule[|head|..|rule| - 1] + ";";
      Some(rule[|head|..|rule| - 1])
    else None
  }

  /** Reading a declaration back gives the value it was written with. */
  lemma DeclValueOfDecl(property: string, value: string)
    ensures DeclValue(property, Decl(property, value)) == Some(value)
  {
  }

  /** CSS that forces inline code backgrounds to be transparent; the
      highlighting theme's own CSS follows it. */
  const PrismPrefix: string := "\n    code {\n      background-color: transparent;\n    }\n  "

  /** The styled-component names the hook table has an entry for. */
  const HookNames: set<string> :=
    {"H1", "H2", "H3", "UnderlinedHeader", "PropertyNameCell", "PropertyDetailsCell", "Markdown", "Prism"}

  /** Selector text that opens the dropdown-value rule nested in the
      underlined header. */
  const DropdownValueOpening: string :=
    "\n\n      /* override the text color of dropdown label for e.g. request type */"
    + "\n      .dropdown .dropdown-selector .dropdown-selector-value {"
    + "\n        "

  /** Selector text that closes the dropdown-value rule and opens the
      content-type span rule nested in the underlined header. */
  const ContentTypeSpanOpening: string :=
    "\n      }"
    + "\n\n      /* override the text color of content type text, e.g. \"application/json\" */"
    + "\n      && span {"
    + "\n        "

  /** Selector text that opens the markdown table-row rule. */
  const TableRowOpening: string := "\n      table tr {\n        "

  /** Selector text that opens the every-second-row rule nested in it. */
  const AlternateRowOpening: string := "\n        &:nth-child(2n) {\n          "

  /** CSS text written as a list of fragments, concatenated in order. */
  function Join(parts: seq<string>): string
  {
    if parts == [] then "" else parts[0] + Join(parts[1..])
  }

  /** Every fragment of a joined text is included in it. */
  lemma {:induction false} JoinIncludesPart(parts: seq<string>, i: nat)
    requires i < |parts|
    ensures Includes(Join(parts), parts[i])
  {
    if i == 0 {
      IncludesMiddle("", parts[0], Join(parts[1..]));
      assert "" + parts[0] + Join(parts[1..]) == Join(parts);
    } else {
      JoinIncludesPart(parts[1..], i - 1);
      var k :| 0 <= k <= |Join(parts[1..])| - |parts[i]| && OccursAt(Join(parts[1..]), parts[i], k);
      assert OccursAt(Join(parts), parts[i], |parts[0]| + k);
    }
  }

  /** A joined text begins with its first two fragments. */
  lemma JoinStartsWith(parts: seq<string>)
    requires |parts| >= 2
    ensures Join(parts) == parts[0] + parts[1] + Join(parts[2..])
  {
  }

  /** Two neighbouring fragments appear in a joined text next to each
      other, in their order. */
  lemma {:induction false} JoinIncludesAdjacent(parts: seq<string>, i: nat)
    requires i + 1 < |parts|
    ensures Includes(Join(parts), parts[i] + parts[i + 1])
  {
    if i == 0 {
      JoinStartsWith(parts);
      IncludesMiddle("", parts[0] + parts[1], Join(parts[2..]));
      assert "" + (parts[0] + parts[1]) + Join(parts[2..]) == Join(parts);
    } else {
      JoinIncludesAdjacent(parts[1..], i - 1);
      var sub := parts[i] + parts[i + 1];
      var k :| 0 <= k <= |Join(parts[1..])| - |sub| && OccursAt(Join(parts[1..]), sub, k);
      assert OccursAt(Join(parts), sub, |parts[0]| + k);
    }
  }

  /** Header colour for text and border; body text colour for the dropdown
      value and the content-type span nested inside the header. */
  function UnderlinedHeaderParts(headers: string, text: string): seq<string>
  {
    [ "\n      ", Decl("color", headers),
      "\n      ", Decl("border-bottom", "1px solid " + headers),
      DropdownValueOpening, Decl("color", text),
      ContentTypeSpanOpening, Decl("color", text),
      "\n      }\n    " ]
  }

  /** Zebra-striped markdown tables: every row gets the row background and
      every second row the alternate one. */
  function MarkdownParts(row: string, alt: string): seq<string>
  {
    [ TableRowOpening, Decl("background-color", row),
      AlternateRowOpening, Decl("background-color", alt),
      "\n        }"
      + "\n      }\n    " ]
  }

  /** The `extensionHooks` table built from the effective colours and the
      CSS of the selected syntax-highlighting theme. */
  function ExtensionHooks(colors: Colors, prismCss: string): (hooks: map<string, string>)
    ensures hooks.Keys == HookNames
    ensures hooks["H1"] == hooks["H2"] == hooks["H3"]
    ensures hooks["PropertyNameCell"] == hooks["PropertyDetailsCell"]
    ensures hooks["Prism"] == PrismPrefix + prismCss
  {
    HookTable(Interp(colors, "headers"), Interp(colors, "text"), Interp(colors, "background"),
              Interp(colors, "tableRowBackground"), Interp(colors, "tableRowAltBackground"), prismCss)
  }

  /** The table itself, over the five token texts it interpolates. */
  function HookTable(headers: string, text: string, background: string, row: string, alt: string,
                     prismCss: string): map<string, string>
  {
    map[
      "H1" := Decl("color", headers),
      "H2" := Decl("color", headers),
      "H3" := Decl("color", headers),
      "UnderlinedHeader" := Join(UnderlinedHeaderParts(headers, text)),
      "PropertyNameCell" := Decl("background-color", background),
      "PropertyDetailsCell" := Decl("background-color", background),
      "Markdown" := Join(MarkdownParts(row, alt)),
      "Prism" := PrismPrefix + prismCss
    ]
  }

  /** The heading rules and the property-cell rules each state exactly one
      colour, read back as the header and the background token. */
  lemma SimpleRulesCarryTokens(colors: Colors, prismCss: string)
    ensures DeclValue("color", ExtensionHooks(colors, prismCss)["H1"]) == Some(Interp(colors, "headers"))
    ensures DeclValue("background-color", ExtensionHooks(colors, prismCss)["PropertyNameCell"])
         == Some(Interp(colors, "background"))
  {
    DeclValueOfDecl("color", Interp(colors, "headers"));
    DeclValueOfDecl("background-color", Interp(colors, "background"));
  }

  /** Every advertised hook has CSS text, whatever tokens are missing and
      whatever the highlighting theme's CSS is. */
  lemma HooksNonEmpty(colors: Colors, prismCss: string)
    ensures forall name :: name in ExtensionHooks(colors, prismCss) ==> ExtensionHooks(colors, prismCss)[name] != ""
  {
  }

  /** A joined text of at least two fragments begins with the first two. */
  lemma JoinBeginsWithFirstTwo(parts: seq<string>)
    requires |parts| >= 2
    ensures StartsWith(Join(parts), parts[0] + parts[1])
  {
  }

  /** The underlined header rule opens with the header colour and gives its
      bottom border the header colour; the dropdown value and the
      content-type span nested in it get the body text colour. */
  lemma UnderlinedHeaderUsesTokens(colors: Colors, prismCss: string)
    ensures StartsWith(ExtensionHooks(colors, prismCss)["UnderlinedHeader"],
                       "\n      " + Decl("color", Interp(colors, "headers")))
    ensures Includes(ExtensionHooks(colors, prismCss)["UnderlinedHeader"],
                     "\n      " + Decl("border-bottom", "1px solid " + Interp(colors, "headers")))
    ensures Includes(ExtensionHooks(colors, prismCss)["UnderlinedHeader"],
                     DropdownValueOpening + Decl("color", Interp(colors, "text")))
    ensures Includes(ExtensionHooks(colors, prismCss)["UnderlinedHeader"],
                     ContentTypeSpanOpening + Decl("color", Interp(colors, "text")))
  {
    var parts := UnderlinedHeaderParts(Interp(colors, "headers"), Interp(colors, "text"));
    assert ExtensionHooks(colors, prismCss)["UnderlinedHeader"] == Join(parts);
    JoinBeginsWithFirstTwo(parts);
    JoinIncludesAdjacent(parts, 2);
    JoinIncludesAdjacent(parts, 4);
    JoinIncludesAdjacent(parts, 6);
  }

  /** The markdown table rule opens with the row rule and its background;
      the every-second-row rule nested in it carries the alternate
      background. */
  lemma MarkdownUsesTokens(colors: Colors, prismCss: string)
    ensures StartsWith(ExtensionHooks(colors, prismCss)["Markdown"],
                       TableRowOpening + Decl("background-color", Interp(colors, "tableRowBackground")))
    ensures Includes(ExtensionHooks(colors, prismCss)["Markdown"],
                     AlternateRowOpening + Decl("background-color", Interp(colors, "tableRowAltBackground")))
  {
    var parts := MarkdownParts(Interp(colors, "tableRowBackground"), Interp(colors, "tableRowAltBackground"));
    assert ExtensionHooks(colors, prismCss)["Markdown"] == Join(parts);
    JoinBeginsWithFirstTwo(parts);
    JoinIncludesAdjacent(parts, 2);
  }

  /** The hook table reads only five colour tokens: colour sets that agree
      on them give the same table. */
  lemma HooksDependOnlyOnFiveTokens(c1: Colors, c2: Colors, prismCss: string)
    requires Interp(c1, "headers") == Interp(c2, "headers")
    requires Interp(c1, "text") == Interp(c2, "text")
    requires Interp(c1, "background") == Interp(c2, "background")
    requires Interp(c1, "tableRowBackground") == Interp(c2, "tableRowBackground")
    requires Interp(c1, "tableRowAltBackground") == Interp(c2, "tableRowAltBackground")
    ensures ExtensionHooks(c1, prismCss) == ExtensionHooks(c2, prismCss)
  {
  }

  /** The worked example of the dark-mode merge: the dark header colour
      wins and the light text colour stays. */
  lemma DarkMergeExample()
    ensures MergeColors(true, Some(map["headers" := "#111", "text" := "#222"]), Some(map["headers" := "#eee"]))
         == Some(map["headers" := "#eee", "text" := "#222"])
  {
    var r := MergeColors(true, Some(map["headers" := "#111", "text" := "#222"]), Some(map["headers" := "#eee"]));
    var m := r.value;
    assert "headers" in m && m["headers"] == "#eee";
    assert "text" in m && m["text"] == "#222";
    assert forall k :: k in m ==> k == "headers" || k == "text";
    var expected := map["headers" := "#eee", "text" := "#222"];
    assert m.Keys == expected.Keys;
    assert forall k :: k in m ==> m[k] == expected[k];
    assert m == expected;
  }
}
