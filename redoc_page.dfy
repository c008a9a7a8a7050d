/** The page's configuration logic: the fail-fast check for the renderer's
    theme configuration, the effective colours, the renderer theme with its
    layout coercion and extension hook, and the renderer options. Context
    hooks become explicit inputs: the dark-mode flag, the site theme
    configuration, the window-size class and the build environment. */
module RedocPage {
  import opened Wrappers
  import opened ThemeTranslation

  /** One entry of a syntax-highlighting theme: token types and their style. */
  datatype PrismStyle = PrismStyle(types: seq<string>, style: map<string, string>)

  /** A syntax-highlighting theme; only the external `prismThemeToCSS` reads it. */
  datatype PrismTheme = PrismTheme(plain: map<string, string>, styles: seq<PrismStyle>)

  /** Typography settings, handed to the renderer unchanged. */
  type Typography = map<string, string>

  /** The `redoc` object of the site theme configuration. */
  datatype RedocThemeConfig = RedocThemeConfig(
    lightThemeColors: Option<Colors>,
    darkThemeColors: Option<Colors>,
    typography: Option<Typography>)

  datatype PrismConfig = PrismConfig(theme: PrismTheme, darkTheme: PrismTheme)

  /** The site theme configuration; `redoc` is None when it is absent. */
  datatype ThemeConfig = ThemeConfig(prism: PrismConfig, redoc: Option<RedocThemeConfig>)

  datatype Palette = Palette(main: Option<string>, contrastText: Option<string>)

  datatype Breakpoints = Breakpoints(small: string, medium: string, large: string)

  /** The `extensionsHook` callback of the theme, represented by what it
      captures: the effective colours its table is built from and the
      Prism CSS. `Call` is what invoking it returns. */
  datatype HookCallback = HookCallback(colors: Colors, prismCss: string) {
    function Call(styledName: string): Option<string>
    {
      ExtensionsHook(ExtensionHooks(colors, prismCss), styledName)
    }
  }

  /** The theme object handed to the renderer. */
  datatype RedocTheme = RedocTheme(
    sidebarWidth: string,
    breakpoints: Breakpoints,
    typography: Option<Typography>,
    primary: Palette,
    secondary: Palette,
    textPrimary: Option<string>,
    rightPanelBackground: Option<string>,
    codeBlockBackground: Option<string>,
    extensionsHook: HookCallback)

  datatype RedocOptions = RedocOptions(
    debug: bool,
    pathInMiddlePanel: bool,
    nativeScrollbars: bool,
    disableSearch: bool,
    scrollYOffset: string,
    hideHostname: bool,
    theme: RedocTheme)

  /** What the page computes before rendering: which TOC variant the window
      size calls for, where the schema lives and the renderer options. */
  datatype PageConfig = PageConfig(showDesktopToc: bool, specPath: string, options: RedocOptions)

  datatype PageError =
    | MissingRedocConfig  // the site theme configuration has no `redoc` object
    | UndefinedColors     // light mode without light colours: reading a token throws

  /** Location of the static schema document, relative to the site base URL. */
  const StaticSpec: string := "/schema.yml"

  /** The window-size classes the host reports. */
  datatype WindowSize = Desktop | Mobile | Ssr {
    function Name(): string
    {
      match this
      case Desktop => "desktop"
      case Mobile => "mobile"
      case Ssr => "ssr"
    }
  }

  /** Whether the inline table of contents is shown: for the desktop
      window size and during server rendering. */
  function ShowDesktopToc(windowSize: string): (show: bool)
    ensures show ==> windowSize != "mobile"
  {
    windowSize == "desktop" || windowSize == "ssr"
  }

  /** The inline TOC is wanted for every window-size class except mobile,
      including server rendering before the size is measured. */
  lemma ShowDesktopTocByClass(w: WindowSize)
    ensures ShowDesktopToc(w.Name()) <==> !w.Mobile?
  {
  }

  /** The lookup the theme's callback makes in the hook table: the entry
      for the component name, or undefined for a name without one. */
  function ExtensionsHook(hooks: map<string, string>, styledName: string): (css: Option<string>)
    ensures css.Some? <==> styledName in hooks
    ensures css.Some? ==> css.value == hooks[styledName]
  {
    if styledName in hooks then Some(hooks[styledName]) else None
  }

  /** The renderer theme built from the effective colours. */
  function BuildTheme(colors: Colors, typography: Option<Typography>, prismCss: string): (theme: RedocTheme)
    ensures theme.sidebarWidth == "0px"
    ensures theme.breakpoints == Breakpoints("1rem", "100000rem", "100000rem")
    ensures theme.typography == typography
  {
    RedocTheme(
      "0px",
      Breakpoints("1rem", "100000rem", "100000rem"),
      typography,
      Palette(Get(colors, "primary"), Get(colors, "contrastText")),
      Palette(Get(colors, "secondary"), Get(colors, "contrastText")),
      Get(colors, "text"),
      Get(colors, "responsePanelBackground"),
      Get(colors, "codeBlockBackground"),
      HookCallback(colors, prismCss))
  }

  /** A production build: the build environment names production. */
  predicate IsProduction(nodeEnv: Option<string>)
  {
    nodeEnv == Some("production")
  }

  /** The renderer options wrapped around the theme. */
  function BuildOptions(nodeEnv: Option<string>, theme: RedocTheme): (options: RedocOptions)
    ensures theme.sidebarWidth == "0px" && theme.breakpoints == Breakpoints("1rem", "100000rem", "100000rem")
      ==> LayoutCoerced(options)
    ensures options.debug <==> !IsProduction(nodeEnv)
    ensures options.theme == theme
  {
    RedocOptions(!IsProduction(nodeEnv), true, true, true, "nav.navbar", true, theme)
  }

  /** The layout coercion every renderer configuration carries: no renderer
      sidebar, the stacked layout at every width, no renderer search, native
      scrollbars, paths in the middle panel, hidden host name, scrolling
      offset by the host navigation bar. */
  predicate LayoutCoerced(options: RedocOptions)
  {
    && options.theme.sidebarWidth == "0px"
    && options.theme.breakpoints == Breakpoints("1rem", "100000rem", "100000rem")
    && options.disableSearch
    && options.nativeScrollbars
    && options.pathInMiddlePanel
    && options.hideHostname
    && options.scrollYOffset == "nav.navbar"
  }

  /** Everything the page computes from its inputs before rendering.
      `prismThemeToCss` stands for the external converter from a
      highlighting theme to CSS. */
  function ConfigurePage(isDark: bool, themeConfig: ThemeConfig, windowSize: string, nodeEnv: Option<string>,
                         prismThemeToCss: PrismTheme -> string): (r: Result<PageConfig, PageError>)
    ensures r.Failure? && r.error == MissingRedocConfig <==> themeConfig.redoc.None?
    ensures r.Failure? && r.error == UndefinedColors <==>
      themeConfig.redoc.Some? && !isDark && themeConfig.redoc.value.lightThemeColors.None?
    ensures r.Success? ==> LayoutCoerced(r.value.options)
    ensures r.Success? ==> (r.value.options.debug <==> !IsProduction(nodeEnv))
    ensures r.Success? ==> r.value.options.theme.typography == themeConfig.redoc.value.typography
    ensures r.Success? ==> r.value.specPath == StaticSpec
    ensures r.Success? ==> r.value.showDesktopToc == ShowDesktopToc(windowSize)
  {
    if themeConfig.redoc.None? then Failure(MissingRedocConfig)
    else
      var redoc := themeConfig.redoc.value;
      var colors := MergeColors(isDark, redoc.lightThemeColors, redoc.darkThemeColors);
      if colors.None? then Failure(UndefinedColors)
      else Success(ConfigureRenderer(isDark, themeConfig.prism, redoc.typography, colors.value, windowSize, nodeEnv,
                                     prismThemeToCss))
  }

  /** The rest of the page configuration, once the effective colours exist. */
  function ConfigureRenderer(isDark: bool, prism: PrismConfig, typography: Option<Typography>, colors: Colors,
                             windowSize: string, nodeEnv: Option<string>,
                             prismThemeToCss: PrismTheme -> string): (page: PageConfig)
    ensures LayoutCoerced(page.options)
    ensures page.options.debug <==> !IsProduction(nodeEnv)
    ensures page.options.theme.typography == typography
    ensures page.specPath == StaticSpec
    ensures page.showDesktopToc == ShowDesktopToc(windowSize)
  {
    var theme := BuildTheme(colors, typography, prismThemeToCss(PrismThemeFor(isDark, prism)));
    PageConfig(ShowDesktopToc(windowSize), StaticSpec, BuildOptions(nodeEnv, theme))
  }

  /** The highlighting theme in use: the dark one in dark mode, the light
      one otherwise. */
  function PrismThemeFor(isDark: bool, prism: PrismConfig): PrismTheme
  {
    if isDark then prism.darkTheme else prism.theme
  }

  /** A configured page's hook callback captures the effective colours and
      the CSS of the highlighting theme in use. */
  lemma HookCallbackOfPage(isDark: bool, themeConfig: ThemeConfig, windowSize: string,
                           nodeEnv: Option<string>, prismThemeToCss: PrismTheme -> string)
    requires ConfigurePage(isDark, themeConfig, windowSize, nodeEnv, prismThemeToCss).Success?
    ensures ConfigurePage(isDark, themeConfig, windowSize, nodeEnv, prismThemeToCss).value.options.theme.extensionsHook
         == HookCallback(MergeColors(isDark, themeConfig.redoc.value.lightThemeColors,
                                     themeConfig.redoc.value.darkThemeColors).value,
                         prismThemeToCss(PrismThemeFor(isDark, themeConfig.prism)))
  {
  }

  /** On a configured page the Prism hook is the transparent-code rule
      followed, once, by the CSS of the highlighting theme in use: the dark
      one in dark mode, the light one otherwise. */
  lemma PrismHookOfPage(isDark: bool, themeConfig: ThemeConfig, windowSize: string,
                        nodeEnv: Option<string>, prismThemeToCss: PrismTheme -> string)
    requires ConfigurePage(isDark, themeConfig, windowSize, nodeEnv, prismThemeToCss).Success?
    ensures ConfigurePage(isDark, themeConfig, windowSize, nodeEnv, prismThemeToCss).value.options.theme.extensionsHook
              .Call("Prism")
         == Some(PrismPrefix + prismThemeToCss(if isDark then themeConfig.prism.darkTheme else themeConfig.prism.theme))
  {
  }

  /** The callback answers exactly for the eight hooked component names,
      with one text for H1, H2 and H3 and one for the two property cells,
      and answers Prism with the captured Prism CSS. */
  lemma HookCallbackAnswersExactlyHookNames(cb: HookCallback, styledName: string)
    ensures cb.Call(styledName).Some? <==> styledName in HookNames
    ensures cb.Call("H1") == cb.Call("H2") == cb.Call("H3")
    ensures cb.Call("PropertyNameCell") == cb.Call("PropertyDetailsCell")
    ensures cb.Call("Prism") == Some(PrismPrefix + cb.prismCss)
  {
  }

  /** The heading hooks state the captured header colour and the property
      cell hooks the captured background colour. */
  lemma HookCallbackUsesColours(cb: HookCallback)
    ensures cb.Call("H1").Some? && DeclValue("color", cb.Call("H1").value) == Some(Interp(cb.colors, "headers"))
    ensures cb.Call("PropertyNameCell").Some?
    ensures DeclValue("background-color", cb.Call("PropertyNameCell").value) == Some(Interp(cb.colors, "background"))
  {
  }

  /** The layout coercion does not depend on the inputs: any two configured
      pages agree on it. */
  lemma LayoutIsConstant(isDark1: bool, config1: ThemeConfig, size1: string, env1: Option<string>, css1: PrismTheme -> string,
                         isDark2: bool, config2: ThemeConfig, size2: string, env2: Option<string>, css2: PrismTheme -> string)
    requires ConfigurePage(isDark1, config1, size1, env1, css1).Success?
    requires ConfigurePage(isDark2, config2, size2, env2, css2).Success?
    ensures var o1 := ConfigurePage(isDark1, config1, size1, env1, css1).value.options;
      var o2 := ConfigurePage(isDark2, config2, size2, env2, css2).value.options;
      && o1.theme.sidebarWidth == o2.theme.sidebarWidth
      && o1.theme.breakpoints == o2.theme.breakpoints
      && o1.scrollYOffset == o2.scrollYOffset
  {
  }

  /** The colour a token has on a configured page, read straight from the
      configuration: the dark token when dark mode has one, otherwise the
      light token, and none when neither applies. */
  function ConfiguredToken(isDark: bool, redoc: RedocThemeConfig, key: string): Option<string>
  {
    if isDark && redoc.darkThemeColors.Some? && key in redoc.darkThemeColors.value
    then Some(redoc.darkThemeColors.value[key])
    else if redoc.lightThemeColors.Some? then Get(redoc.lightThemeColors.value, key)
    else None
  }

  /** Every colour field of the renderer theme is the configured token it
      is named after, a dark token winning in dark mode: primary and
      secondary with the shared contrast text, the body text, the response
      panel background and the code block background. */
  lemma ThemeColoursFollowMerge(isDark: bool, themeConfig: ThemeConfig, windowSize: string,
                                nodeEnv: Option<string>, prismThemeToCss: PrismTheme -> string)
    requires ConfigurePage(isDark, themeConfig, windowSize, nodeEnv, prismThemeToCss).Success?
    ensures var theme := ConfigurePage(isDark, themeConfig, windowSize, nodeEnv, prismThemeToCss).value.options.theme;
      var redoc := themeConfig.redoc.value;
      && theme.primary.main == ConfiguredToken(isDark, redoc, "primary")
      && theme.primary.contrastText == ConfiguredToken(isDark, redoc, "contrastText")
      && theme.secondary.main == ConfiguredToken(isDark, redoc, "secondary")
      && theme.secondary.contrastText == ConfiguredToken(isDark, redoc, "contrastText")
      && theme.textPrimary == ConfiguredToken(isDark, redoc, "text")
      && theme.rightPanelBackground == ConfiguredToken(isDark, redoc, "responsePanelBackground")
      && theme.codeBlockBackground == ConfiguredToken(isDark, redoc, "codeBlockBackground")
  {
  }
}
