# Redoc page adapter, modelled in Dafny

This project models the adapter layer of the documentation site's HTTP API
reference page (`RedocPage`). The page embeds the Redoc renderer in a
Docusaurus layout. The model covers:

- the translation of the site's colour tokens into Redoc's theme, with dark
  tokens overriding light ones key by key;
- the `extensionHooks` table and the `extensionsHook` lookup that gives Redoc
  extra CSS per styled component;
- the fixed layout coercion in the theme and in the Redoc options;
- the fail-fast check for a missing `redoc` theme configuration;
- the `showDesktopToc` window-size test;
- `monkeyPatchStyledComponent`, a guarded, idempotent append to a styled
  component's rule list, modelled as a method on classes;
- `addAnchorClasses`, a loop that adds `anchor` and `anchor__h2` to every
  section container, modelled as a method over element objects.

Modules, one per component:

- `Wrappers`: Option and Result.
- `Strings`: `Includes`, JavaScript's `String.prototype.includes`.
- `ThemeTranslation`: the colour merge, template interpolation and the hook table.
- `RedocPage`: the page configuration with its fail-fast error path, the theme and options.
- `StylePatch`: the monkey patch.
- `AnchorSync`: anchor tagging.
- `PageEffects`: the page's `tocReady` flag and the bodies of its effect and timer callback.

Context hooks become explicit inputs. `useThemeContext` becomes `isDark`. The
site theme configuration is a `ThemeConfig` value. `useWindowSize` becomes a
`windowSize` string. `process.env.NODE_ENV` becomes `nodeEnv`, which is None
when the variable is undefined. `prismThemeToCSS` lives in a module that is not
part of this model, so it is a function-typed parameter, `prismThemeToCss`.

The theme's `extensionsHook` callback closes over the hook table. It is
represented by what it captures, `HookCallback(colors, prismCss)`; its member
`Call(styledName)` returns what invoking the callback returns.

Behaviour the model takes from the JavaScript:

- A missing colour token does not give an empty value. A template literal
  prints `undefined`, so the rule reads `color: undefined;` (`Interp`). A theme
  field such as `colors.primary` is simply absent (`Get` returns None).
- In light mode with no `lightThemeColors`, reading `colors.headers` throws.
  The model returns the error `UndefinedColors`. In dark mode the spread of a
  missing object is empty, so nothing throws there.
- The page computes `showDesktopToc` but its JSX never reads it: both TOC
  variants are always rendered. The model exposes the value in `PageConfig`.
- The patch's guard does not compare whole rules. It asks whether some
  string rule contains the text as a substring, and it ignores non-string
  rules.

## Model

| member | source | states |
|---|---|---|
| ThemeTranslation.MergeColors | packages/docs/src/components/RedocPage/index.js:44-45 | In dark mode every key of either colour set is present, a dark token wins and a light token stands where no dark one exists; in light mode the light set is used as it is, even when missing |
| ThemeTranslation.DarkMergeExample | packages/docs/src/components/RedocPage/index.js:45 | Light {headers #111, text #222} merged with dark {headers #eee} in dark mode gives {headers #eee, text #222} |
| ThemeTranslation.DeclValueOfDecl | packages/docs/src/components/RedocPage/index.js:71-73 | A one-declaration rule `property: value;` reads back as exactly its value, so the rule text carries the token unchanged; the heading and property-cell lemmas rest on it |
| ThemeTranslation.ExtensionHooks | packages/docs/src/components/RedocPage/index.js:70-99 | The hook table has exactly the eight keys H1, H2, H3, UnderlinedHeader, PropertyNameCell, PropertyDetailsCell, Markdown and Prism; H1, H2 and H3 are one text; the two property cells are one text; Prism is the transparent-code prefix followed by the highlighting CSS |
| ThemeTranslation.SimpleRulesCarryTokens | packages/docs/src/components/RedocPage/index.js:71-89 | The heading rule is a colour declaration of the header token and the property-cell rule a background declaration of the background token |
| ThemeTranslation.HooksNonEmpty | packages/docs/src/components/RedocPage/index.js:70-99 | Every hook has non-empty CSS text, whatever tokens are missing and whatever CSS the highlighting theme gives |
| ThemeTranslation.UnderlinedHeaderUsesTokens | packages/docs/src/components/RedocPage/index.js:74-87 | The underlined header rule begins with a colour declaration of the header token and has a bottom-border declaration of `1px solid` and the header token; the body text colour follows directly on the opening of the `.dropdown .dropdown-selector .dropdown-selector-value` rule and on the opening of the `&& span` rule |
| ThemeTranslation.MarkdownUsesTokens | packages/docs/src/components/RedocPage/index.js:90-97 | The markdown rule begins with the `table tr` rule and its row background; the alternate-row background follows directly on the opening of the nested `&:nth-child(2n)` rule |
| ThemeTranslation.HooksDependOnlyOnFiveTokens | packages/docs/src/components/RedocPage/index.js:70-97 | Two colour sets that agree on headers, text, background, tableRowBackground and tableRowAltBackground give the same hook table |
| ThemeTranslation.JoinIncludesPart | packages/docs/src/components/RedocPage/index.js:74-97 | Every fragment of a multi-line CSS text built from fragments occurs in that text |
| ThemeTranslation.JoinIncludesAdjacent | packages/docs/src/components/RedocPage/index.js:74-97 | Two neighbouring fragments of a multi-line CSS text occur in it next to each other, in their order |
| ThemeTranslation.JoinBeginsWithFirstTwo | packages/docs/src/components/RedocPage/index.js:74-97 | A multi-line CSS text begins with its first two fragments |
| RedocPage.ShowDesktopToc | packages/docs/src/components/RedocPage/index.js:62 | The desktop TOC is never wanted for the `mobile` window size |
| RedocPage.ShowDesktopTocByClass | packages/docs/src/components/RedocPage/index.js:62 | Among the window-size classes, the desktop TOC is wanted exactly for desktop and ssr, that is for every class except mobile |
| RedocPage.ExtensionsHook | packages/docs/src/components/RedocPage/index.js:138-141 | The lookup answers exactly for names in the table, with the table's entry, and is undefined otherwise |
| RedocPage.BuildTheme | packages/docs/src/components/RedocPage/index.js:101-142 | The theme hides the renderer sidebar with width 0px, sets breakpoints small 1rem and medium and large 100000rem, and passes the typography through unchanged |
| RedocPage.BuildOptions | packages/docs/src/components/RedocPage/index.js:144-155 | Debug output is on exactly outside production builds; a coerced theme gives options with search disabled, native scrollbars, paths in the middle panel, hidden host name and scroll offset `nav.navbar` |
| RedocPage.ConfigurePage | packages/docs/src/components/RedocPage/index.js:35-155 | The page fails with MissingRedocConfig exactly when the `redoc` configuration is absent, and then computes nothing else; it fails with UndefinedColors exactly when a present configuration has no light colours in light mode; otherwise the options are layout-coerced, debug is on exactly outside production, typography is passed through, the schema is `/schema.yml` and the TOC flag is the one the window size calls for |
| RedocPage.ConfigureRenderer | packages/docs/src/components/RedocPage/index.js:62-155 | Once colours exist, the renderer options are layout-coerced, debug follows the build environment, the typography is the configured one, the schema is `/schema.yml` and the TOC flag is the one the window size calls for |
| RedocPage.HookCallbackOfPage | packages/docs/src/components/RedocPage/index.js:44-141 | A configured page's hook callback captures the effective merged colours and the CSS of the highlighting theme in use |
| RedocPage.PrismHookOfPage | packages/docs/src/components/RedocPage/index.js:64-141 | On a configured page the Prism hook is the transparent-code rule followed, once, by the CSS of the dark highlighting theme in dark mode and of the light one otherwise |
| RedocPage.HookCallbackAnswersExactlyHookNames | packages/docs/src/components/RedocPage/index.js:70-141 | The callback answers for exactly the eight hooked names and is undefined for every other name; H1, H2 and H3 get one text; the two property cells get one text; Prism gets the captured Prism CSS |
| RedocPage.HookCallbackUsesColours | packages/docs/src/components/RedocPage/index.js:71-141 | The heading hook states the captured header colour and the property-cell hook the captured background colour |
| RedocPage.LayoutIsConstant | packages/docs/src/components/RedocPage/index.js:101-155 | Any two configured pages, whatever their inputs, have the same sidebar width, breakpoints and scroll offset |
| RedocPage.ThemeColoursFollowMerge | packages/docs/src/components/RedocPage/index.js:44-127 | Each colour field of the renderer theme (primary and secondary main colours, both contrast texts, body text, response panel background, code block background) is its configured token: the dark one in dark mode when it exists, the light one otherwise, absent when neither is set |
| StylePatch.PatchedRules | packages/docs/src/components/RedocPage/index.js:215-223 | A missing rule list stays missing; if a string rule already contains the text the list is unchanged; otherwise exactly one rule, the text wrapped in newlines, is appended and the existing rules keep their places |
| StylePatch.PatchEstablishesStyle | packages/docs/src/components/RedocPage/index.js:219-222 | After the patch a present rule list always has a string rule containing the text |
| StylePatch.PatchIdempotent | packages/docs/src/components/RedocPage/index.js:215-223 | A second identical patch changes nothing |
| StylePatch.PatchTwiceGrowsByOne | packages/docs/src/components/RedocPage/index.js:215-223 | Patching twice with a text not yet present leaves the list exactly one rule longer than before |
| StylePatch.MonkeyPatchStyledComponent | packages/docs/src/components/RedocPage/index.js:215-223 | The component keeps its style object, and that object's rule list becomes the patched list; nothing else changes |
| AnchorSync.SectionDivs | packages/docs/src/components/RedocPage/index.js:202-203 | The query returns document elements that are section containers, and every section container of the document |
| AnchorSync.Tagged | packages/docs/src/components/RedocPage/index.js:205-206 | A tagged class set has both anchor classes, keeps every class it had and gains no other |
| AnchorSync.AfterTagging | packages/docs/src/components/RedocPage/index.js:204-206 | A section container ends with `anchor` and `anchor__h2` and its old classes; any other element keeps exactly its classes |
| AnchorSync.AfterTaggingIdempotent | packages/docs/src/components/RedocPage/index.js:201-208 | Tagging again changes no class set and no class count |
| AnchorSync.AddAnchorClasses | packages/docs/src/components/RedocPage/index.js:201-208 | Every element of the document ends with exactly its class set after tagging: tagged if it is a section container, unchanged otherwise |
| PageEffects.PageInstance.EnableTocHighlights | packages/docs/src/components/RedocPage/index.js:50-53 | The timer callback tags every section container, leaves other elements alone and marks the TOC ready |
| PageEffects.PageInstance.PatchDropdownLabel | packages/docs/src/components/RedocPage/index.js:58-59 | The effect patches the dropdown label's rule list with `position: static;` |
| PageEffects.PageInstance.PatchDropdownLabelTwice | packages/docs/src/components/RedocPage/index.js:55-60 | The effect runs after every render; a second run leaves the rule list as the first run left it |

## Left out

- JSX rendering and layout, and the Docusaurus `DocSidebar`, `TOC` and `TOCCollapsible` components: presentational UI and foreign components. The page's rendered output is not modelled.
- React hooks and timing: `useEffect` and `useState`, and the 200 ms `setTimeout`. The model has the bodies of the effect and the callback as methods; when they run relative to Redoc's own mount is not modelled.
- `prismThemeToCSS`: its module is not part of this model, so it is an opaque function-typed parameter.
- Redoc internals: `RedocStandalone`, `DropdownLabel`, how Redoc consumes the theme, and the fetching of `/schema.yml`. These belong to a third-party library. `useBaseUrl` is left out too, so the schema path is kept unresolved.
- Context hooks `useThemeContext`, `useDocusaurusContext`, `useWindowSize` and `useBaseUrl`: replaced by explicit inputs.
- Build-time data `sidebars.json`, `toc.json` and the CSS-module class names: static data.
- CSS selector matching by `document.querySelectorAll`: each element carries a boolean saying whether it matches `div[data-section-id]`.
- RedocPage.ExtensionsHook: a name that is an `Object.prototype` property, such as `toString`, makes the JavaScript lookup return an inherited function. The model returns undefined for it. Redoc only passes styled-component names.
- RedocPage.ConfigurePage: reading `themeConfig.prism` before the `redoc` check would throw if `prism` were absent. The model always has a `prism` configuration. A truthy non-object `redoc` value is not modelled either.
- StylePatch.MonkeyPatchStyledComponent: the component is never null. In the JavaScript an undefined `DropdownLabel` export would make reading its `componentStyle` throw a TypeError at index.js:216; the model takes the component as given.
- ThemeTranslation.MergeColors: token values are strings. A token set explicitly to `undefined` in the dark colours, which would override a light value with `undefined`, is not modelled.
- Concurrency: none; the page runs on a single-threaded event loop.
